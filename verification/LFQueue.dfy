/** The queue between two threads: one thread writes, one thread reads, and the only
    things they share are the slots, two indices and a counter.

    Every access to shared memory is a step of its own, and the steps of the two threads
    interleave freely. Writing a slot is not atomic: until it ends, the slot may hold
    anything. */
module LFQueues {

  /** The shared memory. */
  datatype Memory<T> = Memory(store: seq<T>, nextWrite: nat, nextRead: nat, num: nat)

  ghost predicate Indexed<T>(m: Memory<T>) {
    m.nextWrite < |m.store| && m.nextRead < |m.store|
  }

  function AdvanceWrite<T>(m: Memory<T>): Memory<T>
    requires 0 < |m.store|
  {
    m.(nextWrite := (m.nextWrite + 1) % |m.store|)
  }

  function AdvanceRead<T>(m: Memory<T>): Memory<T>
    requires 0 < |m.store|
  {
    m.(nextRead := (m.nextRead + 1) % |m.store|)
  }

  // ----- the two threads

  /** The producer takes the slot at the write index, fills it, moves the index, then counts. */
  datatype Producer = Waiting | Filling(slot: nat) | Filled | Advanced

  /** The consumer sees a count, takes the slot at the read index, copies it, moves the
      index, uncounts, and may look at the slot once more before it goes on. */
  datatype Consumer = Idle | Counted | Reading(slot: nat) | Copied(slot: nat) | Moved(slot: nat) | Released(slot: nat)

  /** What the consumer saw when it looked at its k-th slot once more, after release. */
  datatype Glance<T> = Glance(k: nat, x: T)

  /** `written` and `got` are what the producer has put in and the consumer has copied out.
      `taken` counts the slots the consumer has passed. */
  datatype System<T> = System(
    m: Memory<T>, p: Producer, c: Consumer, written: seq<T>, taken: nat, got: seq<T>, again: seq<Glance<T>>)

  datatype Step<T> =
    | TakeSlot | Scribble(x: T) | Fill(x: T) | MoveWrite | Count
    | Look | LoadSlot | Copy | MoveRead | Uncount | LookAgain | Done

  /** `spare` slots are left unused by the producer. */
  ghost predicate Enabled<T>(s: System<T>, step: Step<T>, spare: nat) {
    match step
    case TakeSlot => s.p.Waiting? && s.m.num + spare < |s.m.store|
    case Scribble(_) => s.p.Filling?
    case Fill(_) => s.p.Filling?
    case MoveWrite => s.p.Filled?
    case Count => s.p.Advanced?
    case Look => s.c.Idle?
    case LoadSlot => s.c.Counted?
    case Copy => s.c.Reading?
    case MoveRead => s.c.Copied?
    case Uncount => s.c.Moved?
    case LookAgain => s.c.Released?
    case Done => s.c.Released?
  }

  ghost predicate InBounds<T>(s: System<T>) {
    && Indexed(s.m)
    && (s.p.Filling? ==> s.p.slot < |s.m.store|)
    && ((s.c.Reading? || s.c.Copied? || s.c.Moved? || s.c.Released?) ==> s.c.slot < |s.m.store|)
  }

  /** What has to hold for the next step not to go wrong: the slots exist, and the assert
      before the read index moves finds something counted. */
  ghost predicate Safe<T>(s: System<T>) {
    InBounds(s) && ((s.c.Copied? || s.c.Moved?) ==> s.m.num != 0) && (s.c.Released? ==> 0 < s.taken)
  }

  function Next<T>(s: System<T>, step: Step<T>, spare: nat): System<T>
    requires Enabled(s, step, spare) && Safe(s)
  {
    match step
    case TakeSlot => s.(p := Filling(s.m.nextWrite))
    case Scribble(x) => s.(m := s.m.(store := s.m.store[s.p.slot := x]))
    case Fill(x) => s.(m := s.m.(store := s.m.store[s.p.slot := x]), p := Filled, written := s.written + [x])
    case MoveWrite => s.(m := AdvanceWrite(s.m), p := Advanced)
    case Count => s.(m := s.m.(num := s.m.num + 1), p := Waiting)
    case Look => if s.m.num == 0 then s else s.(c := Counted)
    case LoadSlot => s.(c := Reading(s.m.nextRead))
    case Copy => s.(c := Copied(s.c.slot), got := s.got + [s.m.store[s.c.slot]])
    case MoveRead => s.(m := AdvanceRead(s.m), c := Moved(s.c.slot), taken := s.taken + 1)
    case Uncount => s.(m := s.m.(num := s.m.num - 1), c := Released(s.c.slot))
    case LookAgain => s.(again := s.again + [Glance(s.taken - 1, s.m.store[s.c.slot])])
    case Done => s.(c := Idle)
  }

  // ----- what every step keeps

  /** Slots the producer has passed. */
  function Passed<T>(s: System<T>): int {
    if s.p.Filled? then |s.written| - 1 else |s.written|
  }

  /** Writes that have been counted. */
  function CountedIn<T>(s: System<T>): int {
    if s.p.Filled? || s.p.Advanced? then |s.written| - 1 else |s.written|
  }

  /** The oldest slot that must not change: a slot is held until it is uncounted, or until
      the consumer is done with it when a slot is spared for that. */
  function Held<T>(s: System<T>, spare: nat): int {
    if s.c.Moved? || (s.c.Released? && 0 < spare) then s.taken - 1 else s.taken
  }

  ghost predicate Counters<T>(s: System<T>) {
    && Indexed(s.m)
    && s.m.nextWrite == Passed(s) % |s.m.store| && s.m.nextRead == s.taken % |s.m.store|
    && 0 <= Passed(s) && s.taken <= CountedIn(s)
    && s.m.num == CountedIn(s) - s.taken + (if s.c.Moved? then 1 else 0)
    && (s.c.Counted? || s.c.Reading? || s.c.Copied? ==> s.taken < CountedIn(s))
    && (s.c.Moved? || s.c.Released? ==> 0 < s.taken)
  }

  ghost predicate Slots<T>(s: System<T>, spare: nat)
    requires Counters(s)
  {
    var n := |s.m.store|;
    && (forall k :: 0 <= Held(s, spare) <= k < |s.written| ==> s.m.store[k % n] == s.written[k])
    && |s.written| - Held(s, spare) <= n
    && (s.p.Filling? ==> s.p.slot == s.m.nextWrite && |s.written| + 1 - Held(s, spare) <= n)
    && (s.c.Reading? || s.c.Copied? ==> s.c.slot == s.m.nextRead)
    && (s.c.Moved? || s.c.Released? ==> s.c.slot == (s.taken - 1) % n)
  }

  /** The consumer's copies are the producer's values, oldest first. */
  ghost predicate Fifo<T>(s: System<T>, spare: nat) {
    && |s.got| == (if s.c.Copied? then s.taken + 1 else s.taken)
    && |s.got| <= |s.written| && s.got == s.written[..|s.got|]
    && (0 < spare ==> Faithful(s))
  }

  /** Every later look saw what the copy had seen. */
  ghost predicate Faithful<T>(s: System<T>) {
    forall g :: g in s.again ==> g.k < |s.got| && g.x == s.got[g.k]
  }

  ghost predicate Inv<T>(s: System<T>, spare: nat) {
    Counters(s) && Slots(s, spare) && Fifo(s, spare)
  }

  lemma {:induction false} Multiples(d: int, n: nat)
    ensures d >= 1 ==> n * d >= n
    ensures d <= 0 ==> n * d <= 0
    ensures d <= -1 ==> n * d + n <= 0
  {
  }

  lemma {:induction false} SmallRemainder(q: nat, r: nat, n: nat)
    requires r < n
    ensures (n * q + r) % n == r
  {
    var x := n * q + r;
    var d: int := x / n - q;
    assert x == n * (x / n) + x % n;
    assert n * (x / n) == n * q + n * d;
    Multiples(d, n);
  }

  lemma {:induction false} NextSlot(k: nat, n: nat)
    requires 0 < n
    ensures (k % n + 1) % n == (k + 1) % n
  {
    assert k == n * (k / n) + k % n;
    if k % n + 1 == n {
      assert k + 1 == n * (k / n + 1) + 0;
      SmallRemainder(k / n + 1, 0, n);
      SmallRemainder(1, 0, n);
    } else {
      SmallRemainder(k / n, k % n + 1, n);
      SmallRemainder(0, k % n + 1, n);
    }
  }

  /** Numbers less than n apart have different slots. */
  lemma {:induction false} DifferentSlots(a: nat, b: nat, n: nat)
    requires a < b < a + n
    ensures a % n != b % n
  {
    var d: int := b / n - a / n;
    assert a == n * (a / n) + a % n && b == n * (b / n) + b % n;
    assert n * d == n * (b / n) - n * (a / n);
    Multiples(d, n);
  }

  lemma {:induction false} SlotsApart(a: nat, b: nat, n: nat)
    requires a <= b < a + n
    ensures a % n == b % n <==> a == b
  {
    if a < b {
      DifferentSlots(a, b, n);
    }
  }

  // ----- the steps, one by one

  lemma {:induction false} InvSafe<T>(s: System<T>, spare: nat)
    requires Inv(s, spare)
    ensures Safe(s)
  {
  }

  lemma {:induction false} ScribbleKeeps<T>(s: System<T>, x: T, spare: nat)
    requires Inv(s, spare) && s.p.Filling? && Safe(s)
    ensures Inv(Next(s, Scribble(x), spare), spare)
  {
    forall k | 0 <= Held(s, spare) <= k < |s.written|
      ensures k % |s.m.store| != s.p.slot
    {
      DifferentSlots(k, |s.written|, |s.m.store|);
    }
  }

  lemma {:induction false} FillKeeps<T>(s: System<T>, x: T, spare: nat)
    requires Inv(s, spare) && s.p.Filling? && Safe(s)
    ensures Inv(Next(s, Fill(x), spare), spare)
  {
    ScribbleKeeps(s, x, spare);
  }

  lemma {:induction false} CopyKeeps<T>(s: System<T>, spare: nat)
    requires Inv(s, spare) && s.c.Reading? && Safe(s)
    ensures Inv(Next(s, Copy, spare), spare)
  {
  }

  lemma {:induction false} GlanceKeeps<T>(s: System<T>, spare: nat)
    requires Inv(s, spare) && s.c.Released? && Safe(s)
    ensures Inv(Next(s, LookAgain, spare), spare)
  {
  }

  lemma {:induction false} MoveKeeps<T>(s: System<T>, step: Step<T>, spare: nat)
    requires Inv(s, spare) && Enabled(s, step, spare) && (step.MoveWrite? || step.MoveRead?) && Safe(s)
    ensures Inv(Next(s, step, spare), spare)
  {
    if step.MoveWrite? {
      NextSlot(Passed(s), |s.m.store|);
    } else {
      NextSlot(s.taken, |s.m.store|);
    }
  }

  /** Whatever the interleaving, no step goes wrong and every step keeps the invariant. */
  lemma {:induction false} StepKeeps<T>(s: System<T>, step: Step<T>, spare: nat)
    requires Inv(s, spare) && Enabled(s, step, spare)
    ensures Safe(s) && Inv(Next(s, step, spare), spare)
  {
    InvSafe(s, spare);
    match step
    case Scribble(x) => ScribbleKeeps(s, x, spare);
    case Fill(x) => FillKeeps(s, x, spare);
    case Copy => CopyKeeps(s, spare);
    case LookAgain => GlanceKeeps(s, spare);
    case MoveWrite => MoveKeeps(s, step, spare);
    case MoveRead => MoveKeeps(s, step, spare);
    case _ =>
  }

  // ----- whole runs

  function Opening<T>(n: nat, init: T): System<T> {
    System(Memory(seq(n, _ => init), 0, 0, 0), Waiting, Idle, [], 0, [], [])
  }

  ghost predicate Runs<T>(s: System<T>, steps: seq<Step<T>>, spare: nat, end: System<T>)
    decreases steps
  {
    if steps == [] then s == end
    else Enabled(s, steps[0], spare) && Safe(s) && Runs(Next(s, steps[0], spare), steps[1..], spare, end)
  }

  lemma {:induction false} RunKeeps<T>(s: System<T>, steps: seq<Step<T>>, spare: nat, end: System<T>)
    requires Inv(s, spare) && Runs(s, steps, spare, end)
    ensures Inv(end, spare)
    decreases steps
  {
    if steps != [] {
      StepKeeps(s, steps[0], spare);
      RunKeeps(Next(s, steps[0], spare), steps[1..], spare, end);
    }
  }

  lemma {:induction false} OpeningInv<T>(n: nat, init: T, spare: nat)
    requires 0 < n
    ensures Inv(Opening(n, init), spare)
  {
  }

  /** The producer never fills the slot the consumer has in hand. */
  ghost predicate HandsApart<T>(s: System<T>, spare: nat) {
    s.p.Filling? && (s.c.Reading? || s.c.Copied? || s.c.Moved? || (s.c.Released? && 0 < spare)) ==> s.p.slot != s.c.slot
  }

  lemma {:induction false} InvApart<T>(s: System<T>, spare: nat)
    requires Inv(s, spare)
    ensures HandsApart(s, spare)
  {
    if s.p.Filling? {
      if s.c.Reading? || s.c.Copied? {
        SlotsApart(s.taken, |s.written|, |s.m.store|);
      } else if s.c.Moved? || (s.c.Released? && 0 < spare) {
        SlotsApart(s.taken - 1, |s.written|, |s.m.store|);
      }
    }
  }

  /** For every interleaving: the consumer has copied the producer's first values in order,
      the next step is safe, so the assert on reading never fires, and no slot is filled
      while it is being read; with a slot to spare that includes reads after release. */
  lemma {:induction false} FifoForEveryRun<T>(n: nat, init: T, steps: seq<Step<T>>, spare: nat, end: System<T>)
    requires 0 < n && Runs(Opening(n, init), steps, spare, end)
    ensures |end.got| <= |end.written| && end.got == end.written[..|end.got|]
    ensures Safe(end) && HandsApart(end, spare)
    ensures 0 < spare ==> Faithful(end)
  {
    OpeningInv(n, init, spare);
    RunKeeps(Opening(n, init), steps, spare, end);
    InvSafe(end, spare);
    InvApart(end, spare);
  }

  // ----- a look after release needs the spare slot

  lemma {:induction false} RunsOn<T>(s: System<T>, steps: seq<Step<T>>, spare: nat, mid: System<T>, more: seq<Step<T>>,
                                     end: System<T>)
    requires Runs(s, steps, spare, mid) && Runs(mid, more, spare, end)
    ensures Runs(s, steps + more, spare, end)
    decreases steps
  {
    if steps == [] {
      assert steps + more == more;
    } else {
      RunsOn(Next(s, steps[0], spare), steps[1..], spare, mid, more, end);
      assert (steps + more)[1..] == steps[1..] + more;
    }
  }

  lemma {:induction false} OneStep<T>(s: System<T>, steps: seq<Step<T>>, t: System<T>, step: Step<T>, spare: nat)
      returns (longer: seq<Step<T>>, end: System<T>)
    requires Runs(s, steps, spare, t) && Enabled(t, step, spare) && Safe(t)
    ensures Runs(s, longer, spare, end) && end == Next(t, step, spare)
  {
    end := Next(t, step, spare);
    longer := steps + [step];
    assert [step][1..] == [] && Runs(end, [], spare, end);
    RunsOn(s, steps, spare, t, [step], end);
  }

  /** Written and counted, with nothing read yet or being read. */
  lemma {:induction false} PutOne<T>(s: System<T>, steps: seq<Step<T>>, t: System<T>, x: T)
      returns (longer: seq<Step<T>>, end: System<T>)
    requires Runs(s, steps, 0, t) && Safe(t) && t.p.Waiting? && t.m.num < |t.m.store|
    ensures Runs(s, longer, 0, end)
    ensures end
      == t.(m := Memory(t.m.store[t.m.nextWrite := x], (t.m.nextWrite + 1) % |t.m.store|, t.m.nextRead, t.m.num + 1),
                      written := t.written + [x])
  {
    hide Runs;
    longer, end := OneStep(s, steps, t, TakeSlot, 0);
    longer, end := OneStep(s, longer, end, Fill(x), 0);
    longer, end := OneStep(s, longer, end, MoveWrite, 0);
    longer, end := OneStep(s, longer, end, Count, 0);
  }

  /** The producer can fill all n slots. */
  lemma {:induction false} PutAll<T>(n: nat, init: T, x: T, k: nat) returns (steps: seq<Step<T>>, end: System<T>)
    requires 0 < n && k <= n
    ensures Runs(Opening(n, init), steps, 0, end) && |end.m.store| == n && end.p.Waiting? && end.c.Idle?
    ensures end.m.num == k && end.m.nextRead == 0 && end.m.nextWrite == k % n && end.taken == 0 && end.got == []
      && end.again == []
    ensures k > 0 ==> end.m.store[0] == x
  {
    if k == 0 {
      steps, end := [], Opening(n, init);
    } else {
      steps, end := PutAll(n, init, x, k - 1);
      NextSlot(k - 1, n);
      SmallRemainder(0, k - 1, n);
      steps, end := PutOne(Opening(n, init), steps, end, x);
    }
  }

  /** Copied and uncounted; the consumer still has the slot in hand. */
  lemma {:induction false} GetOne<T>(s: System<T>, steps: seq<Step<T>>, t: System<T>)
      returns (longer: seq<Step<T>>, end: System<T>)
    requires Runs(s, steps, 0, t) && Safe(t) && t.c.Idle? && t.m.num > 0
    ensures Runs(s, longer, 0, end)
    ensures end == t.(m := t.m.(nextRead := (t.m.nextRead + 1) % |t.m.store|, num := t.m.num - 1),
                      c := Released(t.m.nextRead), taken := t.taken + 1, got := t.got + [t.m.store[t.m.nextRead]])
  {
    hide Runs;
    longer, end := OneStep(s, steps, t, Look, 0);
    longer, end := OneStep(s, longer, end, LoadSlot, 0);
    longer, end := OneStep(s, longer, end, Copy, 0);
    longer, end := OneStep(s, longer, end, MoveRead, 0);
    longer, end := OneStep(s, longer, end, Uncount, 0);
  }

  /** Without a spare slot some run shows the consumer another value after release. */
  lemma {:induction false} LateLookGoesWrong<T>(n: nat, init: T, x: T, y: T)
    returns (steps: seq<Step<T>>, end: System<T>)
    requires 0 < n && x != y
    ensures Runs(Opening(n, init), steps, 0, end) && !Faithful(end)
  {
    hide Runs;
    var s := Opening(n, init);
    steps, end := PutAll(n, init, x, n);
    SmallRemainder(1, 0, n);
    steps, end := GetOne(s, steps, end);
    steps, end := PutOne(s, steps, end, y);
    steps, end := OneStep(s, steps, end, LookAgain, 0);
    assert end.again[0] == Glance(0, y);
  }

  /** A look after release is right in every run exactly when a slot is spared. */
  lemma {:induction false} LateLookIff<T(!new)>(n: nat, init: T, x: T, y: T, spare: nat)
    requires 0 < n && x != y
    ensures (forall steps: seq<Step<T>>, end :: Runs(Opening(n, init), steps, spare, end) ==> Faithful(end))
      <==> 0 < spare
  {
    if spare == 0 {
      var steps, end := LateLookGoesWrong(n, init, x, y);
      assert Runs(Opening(n, init), steps, spare, end);
    } else {
      forall steps: seq<Step<T>>, end | Runs(Opening(n, init), steps, spare, end)
        ensures Faithful(end)
      {
        FifoForEveryRun(n, init, steps, spare, end);
      }
    }
  }

  // ----- neither thread is stuck

  /** The step the consumer is about to take. */
  function ConsumerStep<T>(c: Consumer): Step<T> {
    match c
    case Idle => Look
    case Counted => LoadSlot
    case Reading(_) => Copy
    case Copied(_) => MoveRead
    case Moved(_) => Uncount
    case Released(_) => Done
  }

  function StepsToCopy(c: Consumer): nat {
    match c
    case Moved(_) => 6
    case Released(_) => 5
    case Idle => 4
    case Counted => 3
    case Reading(_) => 2
    case Copied(_) => 1
  }

  /** The producer counts what it has filled. */
  lemma {:induction false} Settle<T>(s: System<T>, steps: seq<Step<T>>, t: System<T>, spare: nat)
    returns (longer: seq<Step<T>>, end: System<T>)
    requires Runs(s, steps, spare, t) && Inv(t, spare)
    ensures Runs(s, longer, spare, end) && Inv(end, spare) && end.written == t.written && |end.m.store| == |t.m.store|
    ensures end.p == if t.p.Filling? then t.p else Waiting
  {
    hide Runs, Inv;
    longer, end := steps, t;
    if end.p.Filled? {
      longer, end := Go(s, longer, end, MoveWrite, spare);
    }
    if end.p.Advanced? {
      longer, end := Go(s, longer, end, Count, spare);
    }
  }

  /** One more step of a run, with all that every step keeps. */
  lemma {:induction false} Go<T>(s: System<T>, steps: seq<Step<T>>, t: System<T>, step: Step<T>, spare: nat)
    returns (longer: seq<Step<T>>, end: System<T>)
    requires Runs(s, steps, spare, t) && Enabled(t, step, spare) && Inv(t, spare)
    ensures Safe(t) && Runs(s, longer, spare, end) && end == Next(t, step, spare) && Inv(end, spare)
  {
    hide Inv;
    StepKeeps(t, step, spare);
    longer, end := OneStep(s, steps, t, step, spare);
  }

  /** With nothing half written, the consumer alone copies all that is there, and is idle again. */
  lemma {:induction false} CatchUp<T>(s: System<T>, steps: seq<Step<T>>, t: System<T>, spare: nat)
    returns (longer: seq<Step<T>>, end: System<T>)
    requires Runs(s, steps, spare, t) && Inv(t, spare) && (t.p.Waiting? || t.p.Filling?)
    ensures Runs(s, longer, spare, end) && Inv(end, spare) && end.p == t.p && |end.m.store| == |t.m.store|
    ensures end.written == end.got == t.written && end.c.Idle? && end.m.num == 0
    decreases |t.written| - t.taken, StepsToCopy(t.c)
  {
    hide Runs;
    if t.c.Idle? && t.m.num == 0 {
      longer, end := steps, t;
    } else {
      Behind(t, spare);
      longer, end := Go(s, steps, t, ConsumerStep(t.c), spare);
      longer, end := CatchUp(s, longer, end, spare);
    }
  }

  lemma {:induction false} Behind<T>(t: System<T>, spare: nat)
    requires Inv(t, spare) && (t.p.Waiting? || t.p.Filling?)
    ensures t.taken <= |t.written| && Enabled(t, ConsumerStep(t.c), spare)
    ensures t.c.Copied? ==> t.taken < |t.written|
  {
  }

  /** From any reachable state some run lets the consumer copy everything written so far; and with
      a slot the producer may use, any value can be written next and is copied next. */
  lemma {:induction false} NeverStuck<T>(n: nat, init: T, steps: seq<Step<T>>, spare: nat, mid: System<T>, x: T)
    returns (some: seq<Step<T>>, more: seq<Step<T>>, caughtUp: System<T>, end: System<T>)
    requires spare < n && Runs(Opening(n, init), steps, spare, mid)
    ensures Runs(mid, some, spare, caughtUp) && caughtUp.got == caughtUp.written == mid.written && caughtUp.c.Idle?
    ensures Runs(caughtUp, more, spare, end) && end.got == end.written == mid.written + [x] && end.c.Idle?
  {
    OpeningInv(n, init, spare);
    RunKeeps(Opening(n, init), steps, spare, mid);
    RunKeepsSize(Opening(n, init), steps, spare, mid);
    assert Runs(mid, [], spare, mid);
    some, caughtUp := Settle(mid, [], mid, spare);
    some, caughtUp := CatchUp(mid, some, caughtUp, spare);
    more, end := WriteNext(caughtUp, x, spare);
  }

  lemma {:induction false} WriteNext<T>(t: System<T>, x: T, spare: nat)
    returns (more: seq<Step<T>>, end: System<T>)
    requires Inv(t, spare) && t.m.num == 0 && spare < |t.m.store| && (t.p.Waiting? || t.p.Filling?)
    ensures Runs(t, more, spare, end) && end.got == end.written == t.written + [x] && end.c.Idle?
  {
    more, end := [], t;
    assert Runs(t, more, spare, end);
    hide Runs, Inv;
    if t.p.Waiting? {
      more, end := Go(t, more, end, TakeSlot, spare);
    }
    more, end := Go(t, more, end, Fill(x), spare);
    more, end := Settle(t, more, end, spare);
    more, end := CatchUp(t, more, end, spare);
  }

  lemma {:induction false} RunKeepsSize<T>(s: System<T>, steps: seq<Step<T>>, spare: nat, end: System<T>)
    requires Runs(s, steps, spare, end)
    ensures |end.m.store| == |s.m.store|
    decreases steps
  {
    if steps != [] {
      RunKeepsSize(Next(s, steps[0], spare), steps[1..], spare, end);
    }
  }

  // ----- the queue as one thread sees it

  function SlotOf(k: nat, n: nat): (i: nat)
    requires 0 < n
    ensures i < n
  {
    k % n
  }

  /** `contents` lies in consecutive slots, cyclically, from the read index on. */
  ghost predicate Holds<T>(store: seq<T>, read: nat, contents: seq<T>) {
    0 < |store| && forall k :: 0 <= k < |contents| ==> store[SlotOf(read + k, |store|)] == contents[k]
  }

  /** What is in the queue once the next slot of n slots is filled: nothing refuses an element
      when the queue is full, and then the slot is the oldest element's. */
  ghost function Overwritten<T>(contents: seq<T>, read: nat, n: nat, x: T): (after: seq<T>)
    requires 0 < n
    ensures |after| == |contents|
  {
    seq(|contents|, k requires 0 <= k < |contents| =>
      if SlotOf(read + k, n) == SlotOf(read + |contents|, n) then x else contents[k])
  }

  lemma {:induction false} HoldsBeside<T>(store: seq<T>, read: nat, contents: seq<T>, x: T)
    requires Holds(store, read, contents)
    ensures Holds(store[SlotOf(read + |contents|, |store|) := x], read, Overwritten(contents, read, |store|, x))
  {
    hide SlotOf;
  }

  /** Only the oldest element of a full queue is lost. */
  lemma {:induction false} OverwrittenIs<T>(contents: seq<T>, read: nat, n: nat, x: T)
    requires 0 < n
    ensures |contents| < n ==> Overwritten(contents, read, n, x) == contents
    ensures |contents| == n ==> Overwritten(contents, read, n, x) == contents[0 := x]
  {
    hide SlotOf;
    RoundTheQueue(read, n);
    var after := Overwritten(contents, read, n, x);
    forall k | 0 <= k < |contents| <= n
      ensures after[k] == if k == 0 && |contents| == n then x else contents[k]
    {
      if 0 < k || |contents| < n {
        SlotsDiffer(read + k, read + |contents|, n);
      }
    }
  }

  lemma {:induction false} RoundTheQueue(read: nat, n: nat)
    requires 0 < n
    ensures SlotOf(read + n, n) == SlotOf(read, n)
  {
    ShiftedSlot(n, read, n);
    SmallRemainder(1, 0, n);
  }

  lemma {:induction false} SlotsDiffer(a: nat, b: nat, n: nat)
    requires a < b < a + n
    ensures SlotOf(a, n) != SlotOf(b, n)
  {
    DifferentSlots(a, b, n);
  }

  lemma {:induction false} SlotAfter(k: nat, n: nat)
    requires 0 < n
    ensures SlotOf(k + 1, n) == (SlotOf(k, n) + 1) % n
  {
    NextSlot(k, n);
  }

  lemma {:induction false} SlotIs(k: nat, n: nat)
    requires 0 < n
    ensures SlotOf(k, n) == k % n
  {
  }

  lemma {:induction false} HoldsMore<T>(store: seq<T>, read: nat, contents: seq<T>)
    requires Holds(store, read, contents)
    ensures Holds(store, read, contents + [store[SlotOf(read + |contents|, |store|)]])
  {
  }

  lemma {:induction false} HoldsFewer<T>(store: seq<T>, read: nat, contents: seq<T>)
    requires Holds(store, read, contents) && contents != []
    ensures Holds(store, SlotOf(read + 1, |store|), contents[1..])
  {
    forall k | 0 <= k < |contents| - 1
      ensures store[SlotOf(SlotOf(read + 1, |store|) + k, |store|)] == contents[1..][k]
    {
      ShiftedSlot(read + 1, k, |store|);
      assert store[SlotOf(read + (k + 1), |store|)] == contents[k + 1];
    }
  }

  lemma {:induction false} ShiftedSlot(a: nat, k: nat, n: nat)
    requires 0 < n
    ensures SlotOf(SlotOf(a, n) + k, n) == SlotOf(a + k, n)
  {
    var q, r := (a % n + k) / n, (a % n + k) % n;
    assert a == n * (a / n) + a % n && a % n + k == n * q + r;
    assert a + k == n * (a / n + q) + r;
    SmallRemainder(a / n + q, r, n);
  }

  class LFQueue<T> {
    const store: array<T>
    var nextWriteIndex: nat
    var nextReadIndex: nat
    var numElements: nat
    ghost var contents: seq<T>

    ghost predicate Valid()
      reads this, store
    {
      && 0 < store.Length && nextReadIndex < store.Length && numElements == |contents|
      && Holds(store[..], nextReadIndex, contents)
      && nextWriteIndex == SlotOf(nextReadIndex + numElements, store.Length)
    }

    function Shared(): Memory<T>
      reads this, store
    {
      Memory(store[..], nextWriteIndex, nextReadIndex, numElements)
    }

    constructor (size: nat, init: T)
      requires 0 < size
      ensures Valid() && fresh(store) && store.Length == size && contents == []
      ensures Shared() == Opening(size, init).m
    {
      store := new T[size](_ => init);
      nextWriteIndex, nextReadIndex, numElements, contents := 0, 0, 0, [];
      new;
      SmallRemainder(0, 0, size);
    }

    method GetNextToWriteTo() returns (slot: nat)
      requires Valid()
      ensures slot == nextWriteIndex < store.Length
    {
      slot := nextWriteIndex;
    }

    /** Fill the slot the producer has been given. */
    method Put(slot: nat, x: T)
      requires Valid() && slot == nextWriteIndex
      modifies store, this`contents
      ensures Valid() && store[..] == old(store[..])[slot := x]
      ensures |old(contents)| < store.Length ==> contents == old(contents)
      ensures |old(contents)| == store.Length ==> contents == old(contents)[0 := x]
      ensures contents == Overwritten(old(contents), nextReadIndex, store.Length, x)
    {
      hide SlotOf, Holds, Overwritten;
      HoldsBeside(store[..], nextReadIndex, contents, x);
      OverwrittenIs(contents, nextReadIndex, store.Length, x);
      contents := Overwritten(contents, nextReadIndex, store.Length, x);
      store[slot] := x;
    }

    method UpdateWriteIndex()
      requires Valid()
      modifies this
      ensures Valid() && contents == old(contents) + [store[old(nextWriteIndex)]]
      ensures var m := AdvanceWrite(old(Shared())); Shared() == m.(num := m.num + 1)
    {
      hide SlotOf, Holds;
      SlotAfter(nextReadIndex + numElements, store.Length);
      HoldsMore(store[..], nextReadIndex, contents);
      contents := contents + [store[nextWriteIndex]];
      nextWriteIndex := (nextWriteIndex + 1) % store.Length;
      numElements := numElements + 1;
    }

    /** The slot of the oldest element, or null. */
    method GetNextToRead() returns (slot: int)
      requires Valid()
      ensures slot == -1 <==> contents == []
      ensures slot != -1 ==> 0 <= slot < store.Length && slot == nextReadIndex && store[slot] == contents[0]
    {
      SmallRemainder(0, nextReadIndex, store.Length);
      assert contents != [] ==> store[..][SlotOf(nextReadIndex + 0, store.Length)] == contents[0];
      slot := if numElements != 0 then nextReadIndex else -1;
    }

    /** `ok` is false when the assert stops the program. */
    method UpdateReadIndex() returns (ok: bool)
      requires Valid()
      modifies this
      ensures ok <==> old(contents) != []
      ensures ok ==> Valid() && contents == old(contents)[1..]
      ensures ok ==> var m := AdvanceRead(old(Shared())); 0 < m.num && Shared() == m.(num := m.num - 1)
    {
      hide SlotOf, Holds;
      if numElements == 0 {
        return false;
      }
      SlotIs(nextReadIndex + 1, store.Length);
      HoldsFewer(store[..], nextReadIndex, contents);
      ShiftedSlot(nextReadIndex + 1, numElements - 1, store.Length);
      contents := contents[1..];
      nextReadIndex := (nextReadIndex + 1) % store.Length;
      numElements := numElements - 1;
      return true;
    }
  }
}
