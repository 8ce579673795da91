/** The lock-free management queue between the control task, which parses, and the consumer, which pops.  Every
    atomic load or store is one step, and so is the copy of one byte of a slot, so that a frame can be
    caught half written or half read. */
module CrsfQueue {
  import opened Bits

  const DEPTH := 8
  const SLOT_CELLS := 65
  const WRAP := 0x1_0000_0000

  type Frame = seq<byte>
  /** Eight slots, each the size of a frame and then the bytes of its buffer. */
  type Slots = s: seq<seq<byte>> | |s| == 8 && forall i :: 0 <= i < 8 ==> |s[i]| == 65
    witness seq(8, _ => seq(65, _ => 0))

  datatype Producer = Idle | HasWrite(frame: Frame, at: word) | CopyingIn(frame: Frame, at: word, done: nat)
  datatype Consumer = Resting | HasRead(at: word) | CopyingOut(at: word, cells: seq<byte>)

  datatype Queue = Queue(
    slots: Slots, read: word, write: word, producer: Producer, consumer: Consumer,
    offered: nat, dropped: nat, accepted: seq<Frame>, popped: seq<Frame>)

  datatype Event = Offer(frame: Frame) | LoadRead | CopyIn | Publish | StartPop | LoadWrite | CopyOut | Release

  predicate FrameOk(f: Frame) {
    1 <= |f| <= 64
  }

  predicate EventOk(e: Event) {
    e.Offer? ==> FrameOk(e.frame)
  }

  function Cells(f: Frame): (c: seq<byte>)
    requires FrameOk(f)
    ensures |c| == |f| + 1
  {
    [|f| as byte] + f
  }

  /** The frame a copied slot holds. */
  function FrameOf(cells: seq<byte>): Frame
    requires |cells| == SLOT_CELLS
  {
    if cells[0] <= 64 then cells[1..1 + cells[0]] else []
  }

  // ---------------------------------------------------------------- the steps

  function Produce(q: Queue, e: Event): Queue
    requires EventOk(e)
  {
    match q.producer
    case Idle => if e.Offer? then q.(producer := HasWrite(e.frame, q.write), offered := q.offered + 1) else q
    case HasWrite(f, w) =>
      if !e.LoadRead? then q
      else if (w - q.read) % WRAP < DEPTH then q.(producer := CopyingIn(f, w, 0))
      else q.(producer := Idle, dropped := q.dropped + 1)
    case CopyingIn(f, w, k) =>
      if e.CopyIn? && FrameOk(f) && k <= |f| then
        q.(slots := q.slots[w % DEPTH := q.slots[w % DEPTH][k := Cells(f)[k]]], producer := CopyingIn(f, w, k + 1))
      else if e.Publish? && k == |f| + 1 then
        q.(write := AddWord(w, 1), accepted := q.accepted + [f], producer := Idle)
      else q
  }

  function Consume(q: Queue, e: Event): Queue {
    match q.consumer
    case Resting => if e.StartPop? then q.(consumer := HasRead(q.read)) else q
    case HasRead(r) =>
      if e.LoadWrite? then q.(consumer := if r == q.write then Resting else CopyingOut(r, [])) else q
    case CopyingOut(r, cells) =>
      if e.CopyOut? && |cells| < SLOT_CELLS then
        q.(consumer := CopyingOut(r, cells + [q.slots[r % DEPTH][|cells|]]))
      else if e.Release? && |cells| == SLOT_CELLS then
        q.(read := AddWord(r, 1), popped := q.popped + [FrameOf(cells)], consumer := Resting)
      else q
  }

  function Step(q: Queue, e: Event): Queue
    requires EventOk(e)
  {
    if e.Offer? || e.LoadRead? || e.CopyIn? || e.Publish? then Produce(q, e) else Consume(q, e)
  }

  // ---------------------------------------------------------------- the invariant

  predicate Shows(slot: seq<byte>, f: Frame) {
    FrameOk(f) && |f| < |slot| && slot[..|f| + 1] == Cells(f)
  }

  /** The slot of the `i`-th accepted frame holds it. */
  predicate HoldsAt(q: Queue, i: nat) {
    i < |q.accepted| && Shows(q.slots[i % DEPTH], q.accepted[i])
  }

  predicate CountersOk(q: Queue) {
    && |q.popped| <= |q.accepted| <= |q.popped| + DEPTH
    && q.write == |q.accepted| % WRAP && q.read == |q.popped| % WRAP
    && q.offered == |q.accepted| + q.dropped + (if q.producer.Idle? then 0 else 1)
  }

  predicate ContentsOk(q: Queue) {
    && q.popped <= q.accepted
    && forall i :: |q.popped| <= i < |q.accepted| ==> HoldsAt(q, i)
  }

  predicate ProducerOk(q: Queue) {
    match q.producer
    case Idle => true
    case HasWrite(f, w) => FrameOk(f) && w == q.write
    case CopyingIn(f, w, k) =>
      && FrameOk(f) && w == q.write && k <= |f| + 1 && |q.accepted| < |q.popped| + DEPTH
      && q.slots[w % DEPTH][..k] == Cells(f)[..k]
  }

  predicate ConsumerOk(q: Queue) {
    match q.consumer
    case Resting => true
    case HasRead(r) => r == q.read
    case CopyingOut(r, cells) =>
      && r == q.read && |q.popped| < |q.accepted| && |cells| <= SLOT_CELLS
      && cells == q.slots[r % DEPTH][..|cells|]
  }

  predicate Inv(q: Queue) {
    |q.popped| <= |q.accepted| && CountersOk(q) && ContentsOk(q) && ProducerOk(q) && ConsumerOk(q)
  }

  lemma SlotOf(n: nat)
    ensures n % WRAP % DEPTH == n % DEPTH
  {
  }

  /** The slots in use are distinct from the one being written. */
  lemma SlotsDiffer(i: nat, n: nat)
    requires i < n < i + DEPTH
    ensures i % DEPTH != n % DEPTH
  {
  }

  /** The wrapping difference of the counters is the number of frames held. */
  lemma Held(w: nat, r: nat)
    requires r <= w <= r + DEPTH
    ensures (w % WRAP - r % WRAP) % WRAP == w - r
    ensures w % WRAP == r % WRAP <==> w == r
  {
  }

  lemma NextCount(n: nat)
    ensures AddWord(n % WRAP, 1) == (n + 1) % WRAP
  {
  }

  lemma CopyInKeeps(q: Queue)
    requires Inv(q) && q.producer.CopyingIn? && q.producer.done <= |q.producer.frame|
    ensures Inv(Step(q, CopyIn))
  {
    var f, w, k := q.producer.frame, q.producer.at, q.producer.done;
    var q' := Step(q, CopyIn);
    SlotOf(|q.accepted|);
    SlotOf(|q.popped|);
    forall i | |q.popped| <= i < |q.accepted| ensures HoldsAt(q', i) {
      assert HoldsAt(q, i);
      SlotsDiffer(i, |q.accepted|);
    }
    if q.consumer.CopyingOut? {
      SlotsDiffer(|q.popped|, |q.accepted|);
    }
    assert q'.slots[w % DEPTH][..k + 1] == q.slots[w % DEPTH][..k] + [Cells(f)[k]];
    assert Cells(f)[..k + 1] == Cells(f)[..k] + [Cells(f)[k]];
  }

  lemma PublishKeeps(q: Queue)
    requires Inv(q) && q.producer.CopyingIn? && q.producer.done == |q.producer.frame| + 1
    ensures Inv(Step(q, Publish))
  {
    var f, n := q.producer.frame, |q.accepted|;
    var q' := Step(q, Publish);
    SlotOf(n);
    NextCount(n);
    forall i | |q.popped| <= i < n + 1 ensures HoldsAt(q', i) {
      if i < n {
        assert HoldsAt(q, i);
      } else {
        assert Cells(f)[..|f| + 1] == Cells(f);
      }
    }
  }

  lemma ReleaseKeeps(q: Queue)
    requires Inv(q) && q.consumer.CopyingOut? && |q.consumer.cells| == SLOT_CELLS
    ensures Inv(Step(q, Release))
  {
    var cells, n := q.consumer.cells, |q.popped|;
    var q' := Step(q, Release);
    SlotOf(n);
    NextCount(n);
    assert HoldsAt(q, n);
    var f := q.accepted[n];
    assert cells == q.slots[n % DEPTH];
    assert cells[..|f| + 1] == Cells(f);
    assert cells[0] == |f| && cells[1..1 + |f|] == cells[..|f| + 1][1..] == f;
    assert q.accepted[..n + 1] == q.accepted[..n] + [f];
    forall i | n + 1 <= i < |q.accepted| ensures HoldsAt(q', i) {
      assert HoldsAt(q, i);
    }
  }

  lemma QuietKeeps(q: Queue, e: Event)
    requires Inv(q) && EventOk(e) && Step(q, e).slots == q.slots && Step(q, e).accepted == q.accepted
    requires Step(q, e).popped == q.popped
    requires !e.CopyIn? && !e.Publish? && !e.Release?
    ensures Inv(Step(q, e))
  {
    var q' := Step(q, e);
    Held(|q.accepted|, |q.popped|);
    SlotOf(|q.popped|);
    forall i | |q.popped| <= i < |q.accepted| ensures HoldsAt(q', i) {
      assert HoldsAt(q, i);
    }
    hide HoldsAt;
  }

  lemma StepKeepsInv(q: Queue, e: Event)
    requires Inv(q) && EventOk(e)
    ensures Inv(Step(q, e))
  {
    if e.CopyIn? && q.producer.CopyingIn? && q.producer.done <= |q.producer.frame| {
      CopyInKeeps(q);
    } else if e.Publish? && q.producer.CopyingIn? && q.producer.done == |q.producer.frame| + 1 {
      PublishKeeps(q);
    } else if e.Release? && q.consumer.CopyingOut? && |q.consumer.cells| == SLOT_CELLS {
      ReleaseKeeps(q);
    } else if e.CopyIn? || e.Publish? || e.Release? {
      assert Step(q, e) == q by {
        hide ContentsOk, ConsumerOk;
      }
    } else {
      hide Inv;
      QuietKeeps(q, e);
    }
  }

  // ---------------------------------------------------------------- runs

  predicate AllOk(es: seq<Event>)
    decreases |es|
  {
    es != [] ==> EventOk(es[0]) && AllOk(es[1..])
  }

  function Run(q: Queue, es: seq<Event>): Queue
    requires AllOk(es)
    decreases |es|
  {
    if es == [] then q else Run(Step(q, es[0]), es[1..])
  }

  lemma {:induction false} RunKeepsInv(q: Queue, es: seq<Event>)
    requires Inv(q) && AllOk(es)
    ensures Inv(Run(q, es))
    decreases |es|
  {
    hide Inv, Step;
    if es != [] {
      StepKeepsInv(q, es[0]);
      RunKeepsInv(Step(q, es[0]), es[1..]);
    }
  }

  /** The queue as constructed. */
  predicate Fresh(q: Queue) {
    && q.producer.Idle? && q.consumer.Resting? && q.accepted == [] && q.popped == []
    && q.read == 0 && q.write == 0 && q.offered == 0 && q.dropped == 0
  }

  /** For every interleaving: popped frames are the accepted ones, in order, whole, none lost or
      duplicated; at most eight are held; and accepted plus dropped plus one under way is offered. */
  lemma QueueCorrect(q: Queue, es: seq<Event>)
    requires Fresh(q) && AllOk(es)
    ensures var r := Run(q, es);
      && r.popped <= r.accepted && |r.accepted| - |r.popped| <= DEPTH
      && r.offered == |r.accepted| + r.dropped + (if r.producer.Idle? then 0 else 1)
  {
    RunKeepsInv(q, es);
    hide Run;
  }

  /** A frame is dropped only when the queue is full at that load, and a pop fails only when it is empty
      at that load. */
  lemma NoFalseAlarm(q: Queue)
    requires Inv(q)
    ensures q.producer.HasWrite? ==>
              (Step(q, LoadRead).dropped == q.dropped + 1 <==> |q.accepted| == |q.popped| + DEPTH)
    ensures q.consumer.HasRead? ==> (Step(q, LoadWrite).consumer.Resting? <==> q.accepted == q.popped)
  {
    Held(|q.accepted|, |q.popped|);
    if |q.accepted| == |q.popped| {
      assert q.accepted[..|q.popped|] == q.accepted;
    }
  }
}
