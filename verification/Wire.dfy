/** Messages as bytes: packed little-endian records, and their recovery from a stream that
    may be cut anywhere. */
module Wire {
  type Byte = x: nat | x < 256 witness 0

  type Bytes = seq<Byte>

  /** The fields of a message in the order in which they travel; the client is the second. */
  type Message = seq<nat>

  function ClientOf(m: Message): nat {
    if 1 < |m| then m[1] else 0
  }

  // ----- one field

  function Little(x: nat, width: nat): (bs: Bytes)
    ensures |bs| == width
  {
    if width == 0 then [] else [x % 256] + Little(x / 256, width - 1)
  }

  function Value(bs: Bytes): nat {
    if bs == [] then 0 else bs[0] + 256 * Value(bs[1..])
  }

  /** The number of values a field of this width can take. */
  function Range(width: nat): (n: nat)
    ensures 0 < n
  {
    if width == 0 then 1 else 256 * Range(width - 1)
  }

  lemma {:induction false} ValueOfLittle(x: nat, width: nat)
    requires x < Range(width)
    ensures Value(Little(x, width)) == x
  {
    if width > 0 {
      ValueOfLittle(x / 256, width - 1);
      assert Little(x, width)[1..] == Little(x / 256, width - 1);
    }
  }

  lemma {:induction false} LittleOfValue(bs: Bytes)
    ensures Value(bs) < Range(|bs|) && Little(Value(bs), |bs|) == bs
  {
    if bs != [] {
      LittleOfValue(bs[1..]);
      assert Value(bs) % 256 == bs[0] && Value(bs) / 256 == Value(bs[1..]);
    }
  }

  // ----- one record

  function Size(widths: seq<nat>): nat {
    if widths == [] then 0 else widths[0] + Size(widths[1..])
  }

  /** The record has these fields, each within its width. */
  predicate Fits(fields: seq<nat>, widths: seq<nat>) {
    |fields| == |widths| && forall i :: 0 <= i < |fields| ==> fields[i] < Range(widths[i])
  }

  function Encode(fields: seq<nat>, widths: seq<nat>): (bs: Bytes)
    requires |fields| == |widths|
    ensures |bs| == Size(widths)
  {
    if widths == [] then [] else Little(fields[0], widths[0]) + Encode(fields[1..], widths[1..])
  }

  function Decode(bs: Bytes, widths: seq<nat>): (fields: seq<nat>)
    requires |bs| == Size(widths)
    ensures |fields| == |widths|
  {
    if widths == [] then [] else [Value(bs[..widths[0]])] + Decode(bs[widths[0]..], widths[1..])
  }

  lemma {:induction false} DecodeEncode(fields: seq<nat>, widths: seq<nat>)
    requires Fits(fields, widths)
    ensures Decode(Encode(fields, widths), widths) == fields
  {
    if widths != [] {
      ValueOfLittle(fields[0], widths[0]);
      DecodeEncode(fields[1..], widths[1..]);
      var bs := Encode(fields, widths);
      assert bs[..widths[0]] == Little(fields[0], widths[0]) && bs[widths[0]..] == Encode(fields[1..], widths[1..]);
    }
  }

  lemma {:induction false} EncodeDecode(bs: Bytes, widths: seq<nat>)
    requires |bs| == Size(widths)
    ensures Fits(Decode(bs, widths), widths) && Encode(Decode(bs, widths), widths) == bs
  {
    if widths != [] {
      LittleOfValue(bs[..widths[0]]);
      EncodeDecode(bs[widths[0]..], widths[1..]);
      assert bs == bs[..widths[0]] + bs[widths[0]..];
    }
  }

  // ----- the frames of a stream

  function Frames(bs: Bytes, n: nat): (fs: seq<Bytes>)
    requires 0 < n
    ensures forall i :: 0 <= i < |fs| ==> |fs[i]| == n
  {
    if |bs| < n then [] else [bs[..n]] + Frames(bs[n..], n)
  }

  /** What is left when no frame is complete any more. */
  function Tail(bs: Bytes, n: nat): (r: Bytes)
    requires 0 < n
    ensures |r| < n
    decreases |bs|
  {
    if |bs| < n then bs else Tail(bs[n..], n)
  }

  function Concat(parts: seq<Bytes>): Bytes {
    if parts == [] then [] else parts[0] + Concat(parts[1..])
  }

  /** Reading some bytes, keeping the tail, and reading on finds the same frames. */
  lemma {:induction false} FramesSplit(a: Bytes, b: Bytes, n: nat)
    requires 0 < n
    ensures Frames(a + b, n) == Frames(a, n) + Frames(Tail(a, n) + b, n)
    ensures Tail(a + b, n) == Tail(Tail(a, n) + b, n)
    decreases |a|
  {
    if n <= |a| {
      FramesSplit(a[n..], b, n);
      assert (a + b)[..n] == a[..n] && (a + b)[n..] == a[n..] + b;
    }
  }

  /** The receiver's work on a stream that arrives in parts: the frames of all parts, and
      the bytes it still holds. */
  function FramesOf(kept: Bytes, parts: seq<Bytes>, n: nat): seq<Bytes>
    requires 0 < n
    decreases parts
  {
    if parts == [] then [] else Frames(kept + parts[0], n) + FramesOf(Tail(kept + parts[0], n), parts[1..], n)
  }

  function KeptOf(kept: Bytes, parts: seq<Bytes>, n: nat): Bytes
    requires 0 < n
    decreases parts
  {
    if parts == [] then kept else KeptOf(Tail(kept + parts[0], n), parts[1..], n)
  }

  /** However a stream is cut into parts, the frames found are those of the whole stream, in
      order, and what is kept is its incomplete tail. */
  lemma {:induction false} SegmentationIndependent(kept: Bytes, parts: seq<Bytes>, n: nat)
    requires 0 < n && |kept| < n
    ensures FramesOf(kept, parts, n) == Frames(kept + Concat(parts), n)
    ensures KeptOf(kept, parts, n) == Tail(kept + Concat(parts), n)
    decreases parts
  {
    if parts == [] {
      assert kept + Concat(parts) == kept;
    } else {
      var first, rest := kept + parts[0], Concat(parts[1..]);
      SegmentationIndependent(Tail(first, n), parts[1..], n);
      FramesSplit(first, rest, n);
      assert kept + Concat(parts) == first + rest;
    }
  }

  /** Nothing is lost: the frames and the tail are the stream. */
  lemma {:induction false} FramesAndTail(bs: Bytes, n: nat)
    requires 0 < n
    ensures bs == Concat(Frames(bs, n)) + Tail(bs, n)
    decreases |bs|
  {
    if n <= |bs| {
      FramesAndTail(bs[n..], n);
      calc {
        bs;
        bs[..n] + bs[n..];
        bs[..n] + (Concat(Frames(bs[n..], n)) + Tail(bs[n..], n));
        (bs[..n] + Concat(Frames(bs[n..], n))) + Tail(bs, n);
        { assert Frames(bs, n)[1..] == Frames(bs[n..], n); }
        Concat(Frames(bs, n)) + Tail(bs, n);
      }
    } else {
      assert Concat(Frames(bs, n)) + Tail(bs, n) == bs;
    }
  }

  // ----- numbered messages of one layout

  /** These messages fit the layout behind a number of eight bytes, and so do their numbers. */
  ghost predicate Sendable(ms: seq<Message>, first: nat, widths: seq<nat>) {
    forall i :: 0 <= i < |ms| ==> Fits([first + i] + ms[i], widths)
  }

  /** A message behind its number. */
  function Frame(k: nat, m: Message, widths: seq<nat>): (bs: Bytes)
    requires |m| + 1 == |widths|
    ensures |bs| == Size(widths)
  {
    Encode([k] + m, widths)
  }

  /** Number and message are sent one after the other. */
  lemma {:induction false} FrameParts(k: nat, m: Message, widths: seq<nat>)
    requires |m| + 1 == |widths|
    ensures Frame(k, m, widths) == Little(k, widths[0]) + Encode(m, widths[1..])
  {
  }

  /** The frames of the messages `ms`, numbered from `first`. */
  function FramesFor(ms: seq<Message>, first: nat, widths: seq<nat>): (fs: seq<Bytes>)
    requires forall i :: 0 <= i < |ms| ==> |ms[i]| + 1 == |widths|
    ensures |fs| == |ms| && forall i :: 0 <= i < |fs| ==> |fs[i]| == Size(widths)
  {
    seq(|ms|, i requires 0 <= i < |ms| => Frame(first + i, ms[i], widths))
  }

  function Stream(ms: seq<Message>, first: nat, widths: seq<nat>): Bytes
    requires forall i :: 0 <= i < |ms| ==> |ms[i]| + 1 == |widths|
  {
    Concat(FramesFor(ms, first, widths))
  }

  lemma {:induction false} ConcatSplits(a: seq<Bytes>, b: seq<Bytes>)
    ensures Concat(a + b) == Concat(a) + Concat(b)
  {
    if a == [] {
      assert a + b == b;
    } else {
      calc {
        Concat(a + b);
        { assert (a + b)[0] == a[0] && (a + b)[1..] == a[1..] + b; }
        a[0] + Concat(a[1..] + b);
        { ConcatSplits(a[1..], b); }
        a[0] + (Concat(a[1..]) + Concat(b));
        (a[0] + Concat(a[1..])) + Concat(b);
        Concat(a) + Concat(b);
      }
    }
  }

  lemma {:induction false} ConcatLength(fs: seq<Bytes>, n: nat)
    requires 0 < n && forall i :: 0 <= i < |fs| ==> |fs[i]| == n
    ensures |fs| <= |Concat(fs)|
  {
    if fs != [] {
      ConcatLength(fs[1..], n);
    }
  }

  /** A stretch of a numbered list. */
  lemma {:induction false} StretchSendable(ms: seq<Message>, widths: seq<nat>, lo: nat, hi: nat)
    requires Sendable(ms, 1, widths) && lo <= hi <= |ms|
    ensures Sendable(ms[lo..hi], lo + 1, widths)
  {
  }

  lemma {:induction false} FramesStretch(ms: seq<Message>, widths: seq<nat>, taken: nat, p: nat)
    requires (forall i :: 0 <= i < |ms| ==> |ms[i]| + 1 == |widths|) && taken + p <= |ms|
    ensures var fs := FramesFor(ms[taken..], taken + 1, widths); var q := taken + p;
      fs[..p] == FramesFor(ms[taken..q], taken + 1, widths) && fs[p..] == FramesFor(ms[q..], q + 1, widths)
  {
  }

  /** One more message at the end of a stream. */
  lemma {:induction false} StreamGrows(ms: seq<Message>, m: Message, first: nat, widths: seq<nat>)
    requires (forall i :: 0 <= i < |ms| ==> |ms[i]| + 1 == |widths|) && |m| + 1 == |widths|
    ensures Stream(ms + [m], first, widths) == Stream(ms, first, widths) + Frame(first + |ms|, m, widths)
  {
    var f := Frame(first + |ms|, m, widths);
    assert FramesFor(ms + [m], first, widths) == FramesFor(ms, first, widths) + [f];
    ConcatSplits(FramesFor(ms, first, widths), [f]);
    assert Concat([f][1..]) == [];
  }

  /** Cutting a stream of frames anywhere: the complete frames before the cut, and a tail
      that completes the rest. */
  lemma {:induction false} CutFrames(fs: seq<Bytes>, n: nat, bs: Bytes, rest: Bytes) returns (q: nat)
    requires 0 < n && (forall i :: 0 <= i < |fs| ==> |fs[i]| == n) && bs + rest == Concat(fs)
    ensures q <= |fs| && Frames(bs, n) == fs[..q] && Tail(bs, n) + rest == Concat(fs[q..])
  {
    if |bs| < n {
      q := 0;
    } else {
      assert fs != [] by { assert |bs + rest| >= n; }
      assert fs[0] == bs[..n] && bs[n..] + rest == Concat(fs[1..]) by {
        assert bs + rest == fs[0] + Concat(fs[1..]);
        assert (bs + rest)[..n] == bs[..n] && (bs + rest)[n..] == bs[n..] + rest;
      }
      var p := CutFrames(fs[1..], n, bs[n..], rest);
      q := p + 1;
      assert fs[..q] == [fs[0]] + fs[1..][..p] && fs[q..] == fs[1..][p..];
    }
  }
}
