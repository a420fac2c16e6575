/** A connection's buffers. The operating system appends received bytes to the inbound
    buffer and takes the outbound one away. */
module Sockets {
  import opened Wire

  const TCP_BUFFER_SIZE: nat := 64 * 1024 * 1024

  /** Copying within one array; the two ranges must not overlap. */
  method CopyBytes(a: array<Byte>, dst: nat, src: nat, len: nat)
    requires dst + len <= src && src + len <= a.Length
    modifies a
    ensures a[..] == old(a[..dst]) + old(a[src..src + len]) + old(a[dst + len..])
  {
    for k := 0 to len
      invariant a[dst..dst + k] == old(a[src..src + k])
      invariant a[..dst] == old(a[..dst]) && a[dst + k..] == old(a[dst + k..])
    {
      assert a[src + k] == a[dst + k..][src - dst];
      a[dst + k] := a[src + k];
    }
    assert a[..] == a[..dst] + a[dst..dst + len] + a[dst + len..];
  }

  class TCPSocket {
    const inbound: array<Byte>
    const outbound: array<Byte>
    var nextRcvValid: nat
    var nextSendValid: nat

    predicate Valid()
      reads this
    {
      && inbound as object != outbound as object
      && nextRcvValid <= inbound.Length && nextSendValid <= outbound.Length
    }

    function Incoming(): Bytes
      requires Valid()
      reads this, inbound
    {
      inbound[..nextRcvValid]
    }

    function Outgoing(): Bytes
      requires Valid()
      reads this, outbound
    {
      outbound[..nextSendValid]
    }

    constructor ()
      ensures Valid() && fresh(inbound) && fresh(outbound) && Incoming() == [] && Outgoing() == []
      ensures inbound.Length == outbound.Length == TCP_BUFFER_SIZE
    {
      inbound := new Byte[TCP_BUFFER_SIZE](_ => 0);
      outbound := new Byte[TCP_BUFFER_SIZE](_ => 0);
      nextRcvValid, nextSendValid := 0, 0;
    }

    /** At most the free rest of the buffer is read. */
    method Receive(data: Bytes)
      requires Valid() && nextRcvValid + |data| <= inbound.Length
      modifies this`nextRcvValid, inbound
      ensures Valid() && Incoming() == old(Incoming()) + data
    {
      forall k | 0 <= k < |data| {
        inbound[nextRcvValid + k] := data[k];
      }
      nextRcvValid := nextRcvValid + |data|;
    }

    /** Nothing checks for room in the outbound buffer. */
    method Send(data: Bytes)
      requires Valid() && nextSendValid + |data| <= outbound.Length
      modifies this`nextSendValid, outbound
      ensures Valid() && Outgoing() == old(Outgoing()) + data
    {
      if |data| > 0 {
        forall k | 0 <= k < |data| {
          outbound[nextSendValid + k] := data[k];
        }
        nextSendValid := nextSendValid + |data|;
      }
    }

    /** A number, then a message: together one frame. */
    method SendNumbered(k: nat, m: Message, widths: seq<nat>)
      requires Valid() && |m| + 1 == |widths| && nextSendValid + Size(widths) <= outbound.Length
      modifies this`nextSendValid, outbound
      ensures Valid() && Outgoing() == old(Outgoing()) + Frame(k, m, widths)
    {
      hide Frame, Little, Encode, Size;
      FrameParts(k, m, widths);
      Send(Little(k, widths[0]));
      Send(Encode(m, widths[1..]));
    }

    method Flush() returns (data: Bytes)
      requires Valid()
      modifies this`nextSendValid
      ensures Valid() && data == old(Outgoing()) && Outgoing() == []
    {
      data := outbound[..nextSendValid];
      nextSendValid := 0;
    }

    /** Move what is behind the first `i` bytes to the front. */
    method DropFront(i: nat)
      requires Valid() && i <= nextRcvValid <= 2 * i
      modifies this`nextRcvValid, inbound
      ensures Valid() && Incoming() == old(Incoming())[i..]
    {
      CopyBytes(inbound, 0, i, nextRcvValid - i);
      nextRcvValid := nextRcvValid - i;
      assert inbound[..nextRcvValid] == old(inbound[i..i + nextRcvValid - i]);
    }
  }
}
