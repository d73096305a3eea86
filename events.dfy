/** The event scheduler: a word of pending-event bits that interrupt handlers
    set one bit at a time, and that getNextEvent drains highest priority first
    (bus transfer complete, then timer compare match, then timer underflow). */
module Events {

  const LETIMERUF_BIT_POS: nat := 0
  const LETIMERCOMP1_BIT_POS: nat := 1
  const I2C_TRANSFER_COMPLETE_BIT_POS: nat := 2

  /** The only bits of the pending-event word the scheduler ever sets are
      0x1, 0x2 and 0x4; masks are written as literals throughout. */
  lemma MasksAreBitPositions()
    ensures KindMask(EventLetimerUF) == 1 << LETIMERUF_BIT_POS
    ensures KindMask(EventLetimerComp1) == 1 << LETIMERCOMP1_BIT_POS
    ensures KindMask(EventI2CTransferComplete) == 1 << I2C_TRANSFER_COMPLETE_BIT_POS
    ensures KindMask(EventLetimerUF) | KindMask(EventLetimerComp1) | KindMask(EventI2CTransferComplete) == 0x7
  {
  }

  /** The value getNextEvent returns. */
  datatype EventKind = EventNone | EventLetimerUF | EventLetimerComp1 | EventI2CTransferComplete

  const SCHEDULED_KINDS: set<EventKind> := {EventI2CTransferComplete, EventLetimerComp1, EventLetimerUF}

  datatype Button = PB0 | PB1

  /** What a setter hands to sl_bt_external_signal: a button's own signal bit
      (its position is defined outside this core) or a scheduler bit. */
  datatype Signal = ButtonSignal(button: Button) | EventSignal(bits: bv32)

  /** The pending-event bit of each kind; EventNone has none. */
  function KindMask(k: EventKind): (b: bv32)
    ensures k == EventNone <==> b == 0
    ensures b & 0x7 == b
  {
    match k
    case EventNone => 0
    case EventLetimerUF => 0x1
    case EventLetimerComp1 => 0x2
    case EventI2CTransferComplete => 0x4
  }

  /** Priority of a kind in getNextEvent; higher is served first. */
  function Priority(k: EventKind): nat
  {
    match k
    case EventNone => 0
    case EventLetimerUF => 1
    case EventLetimerComp1 => 2
    case EventI2CTransferComplete => 3
  }

  /** Kind k is one of the three scheduled kinds and its bit is set. */
  predicate IsPending(mask: bv32, k: EventKind)
  {
    match k
    case EventNone => false
    case EventLetimerUF => mask & 0x1 != 0
    case EventLetimerComp1 => mask & 0x2 != 0
    case EventI2CTransferComplete => mask & 0x4 != 0
  }

  /** IsPending tests the kind's own mask. */
  lemma IsPendingTestsMask(mask: bv32, k: EventKind)
    ensures IsPending(mask, k) <==> k != EventNone && mask & KindMask(k) != 0
  {
    match k
    case EventNone =>
    case EventLetimerUF =>
    case EventLetimerComp1 =>
    case EventI2CTransferComplete =>
  }

  /** The kinds whose bit is set in the pending-event word. */
  function Pending(mask: bv32): (p: set<EventKind>)
    ensures forall k :: k in p <==> IsPending(mask, k)
  {
    set k | k in SCHEDULED_KINDS && IsPending(mask, k)
  }

  /** The pending-event word after a setter ORs in the bit of kind k. */
  function Posted(mask: bv32, k: EventKind): bv32
    requires k != EventNone
  {
    mask | KindMask(k)
  }

  /** The pending-event word after getNextEvent clears the bit of kind k
      (nothing, for EventNone). */
  function Cleared(mask: bv32, k: EventKind): bv32
  {
    mask & !KindMask(k)
  }

  /** The masks of two different kinds share no bit. */
  lemma DisjointKinds(j: EventKind, k: EventKind)
    requires j != k
    ensures KindMask(j) & KindMask(k) == 0
  {
    match j {
      case EventNone =>
      case EventLetimerUF =>
        match k {
          case EventNone =>
          case EventLetimerComp1 =>
          case EventI2CTransferComplete =>
        }
      case EventLetimerComp1 =>
        match k {
          case EventNone =>
          case EventLetimerUF =>
          case EventI2CTransferComplete =>
        }
      case EventI2CTransferComplete =>
        match k {
          case EventNone =>
          case EventLetimerUF =>
          case EventLetimerComp1 =>
        }
    }
  }

  lemma OrSetsBits(mask: bv32, c: bv32)
    ensures (mask | c) & c == c
    ensures (mask | c) | c == mask | c
  {
  }

  lemma OrKeepsOtherBits(mask: bv32, a: bv32, b: bv32)
    requires a & b == 0
    ensures (mask | a) & b == mask & b
  {
  }

  lemma AndNotClearsBits(mask: bv32, c: bv32)
    ensures (mask & !c) & c == 0
    ensures (mask & !c) | c == mask | c
  {
  }

  lemma AndNotKeepsOtherBits(mask: bv32, a: bv32, b: bv32)
    requires a & b == 0
    ensures (mask & !a) & b == mask & b
  {
  }

  /** A post sets the bit of its kind and no other bit of the word differs. */
  lemma PostedBits(mask: bv32, k: EventKind)
    requires k != EventNone
    ensures Posted(mask, k) & KindMask(k) == KindMask(k)
    ensures Posted(mask, k) | KindMask(k) == mask | KindMask(k)
  {
    OrSetsBits(mask, KindMask(k));
  }

  /** Clearing empties the bit of its kind and no other bit of the word differs. */
  lemma ClearedBits(mask: bv32, k: EventKind)
    ensures Cleared(mask, k) & KindMask(k) == 0
    ensures Cleared(mask, k) | KindMask(k) == mask | KindMask(k)
  {
    AndNotClearsBits(mask, KindMask(k));
  }

  /** A post leaves every other kind pending or not as before. */
  lemma PostedPendingAt(mask: bv32, k: EventKind, j: EventKind)
    requires k != EventNone
    ensures IsPending(Posted(mask, k), j) <==> IsPending(mask, j) || j == k
  {
    if j == k {
      PostedPendingSelf(mask, k);
    } else {
      PostedPendingOther(mask, k, j);
    }
  }

  lemma PostedPendingSelf(mask: bv32, k: EventKind)
    requires k != EventNone
    ensures IsPending(Posted(mask, k), k)
  {
    OrSetsBits(mask, KindMask(k));
    IsPendingTestsMask(Posted(mask, k), k);
  }

  lemma PostedPendingOther(mask: bv32, k: EventKind, j: EventKind)
    requires k != EventNone && j != k
    ensures IsPending(Posted(mask, k), j) == IsPending(mask, j)
  {
    DisjointKinds(k, j);
    OrKeepsOtherBits(mask, KindMask(k), KindMask(j));
    IsPendingTestsMask(Posted(mask, k), j);
    IsPendingTestsMask(mask, j);
  }

  /** Clearing leaves every other kind pending or not as before. */
  lemma ClearedPendingAt(mask: bv32, k: EventKind, j: EventKind)
    ensures IsPending(Cleared(mask, k), j) <==> IsPending(mask, j) && j != k
  {
    if j == k {
      ClearedPendingSelf(mask, k);
    } else {
      ClearedPendingOther(mask, k, j);
    }
  }

  lemma ClearedPendingSelf(mask: bv32, k: EventKind)
    ensures !IsPending(Cleared(mask, k), k)
  {
    AndNotClearsBits(mask, KindMask(k));
    IsPendingTestsMask(Cleared(mask, k), k);
  }

  lemma ClearedPendingOther(mask: bv32, k: EventKind, j: EventKind)
    requires j != k
    ensures IsPending(Cleared(mask, k), j) == IsPending(mask, j)
  {
    DisjointKinds(k, j);
    AndNotKeepsOtherBits(mask, KindMask(k), KindMask(j));
    IsPendingTestsMask(Cleared(mask, k), j);
    IsPendingTestsMask(mask, j);
  }

  /** A post adds exactly its own kind to the pending set. */
  lemma PendingAfterPost(mask: bv32, k: EventKind)
    requires k != EventNone
    ensures Pending(Posted(mask, k)) == Pending(mask) + {k}
  {
    forall j
      ensures j in Pending(Posted(mask, k)) <==> j in Pending(mask) + {k}
    {
      PostedPendingAt(mask, k, j);
    }
  }

  /** Clearing removes exactly its own kind from the pending set. */
  lemma PendingAfterClear(mask: bv32, k: EventKind)
    ensures Pending(Cleared(mask, k)) == Pending(mask) - {k}
  {
    forall j
      ensures j in Pending(Cleared(mask, k)) <==> j in Pending(mask) - {k}
    {
      ClearedPendingAt(mask, k, j);
    }
  }

  /** The scheduled kind of highest priority in a set of kinds, or EventNone
      when the set holds none of them. */
  function Highest(p: set<EventKind>): (k: EventKind)
    ensures k == EventNone || k in p
    ensures forall j :: j in p ==> Priority(j) <= Priority(k)
  {
    if EventI2CTransferComplete in p then EventI2CTransferComplete
    else if EventLetimerComp1 in p then EventLetimerComp1
    else if EventLetimerUF in p then EventLetimerUF
    else EventNone
  }

  /** The priority selection of getNextEvent on the bits of the word: the
      pending kind of highest priority, or EventNone when none of the three
      bits is set. */
  function HighestPending(mask: bv32): (k: EventKind)
    ensures k == Highest(Pending(mask))
    ensures k == EventNone <==> Pending(mask) == {}
  {
    if mask & 0x4 != 0 then
      assert IsPending(mask, EventI2CTransferComplete);
      EventI2CTransferComplete
    else if mask & 0x2 != 0 then
      assert IsPending(mask, EventLetimerComp1);
      EventLetimerComp1
    else if mask & 0x1 != 0 then
      assert IsPending(mask, EventLetimerUF);
      EventLetimerUF
    else
      assert forall j :: !IsPending(mask, j);
      EventNone
  }

  lemma OrCommutes(mask: bv32, a: bv32, b: bv32)
    ensures (mask | a) | b == (mask | b) | a
  {
  }

  lemma ClearThenSetRestores(mask: bv32, c: bv32)
    requires mask & c == c
    ensures (mask & !c) | c == mask
  {
  }

  /** Posting a kind that is already pending changes nothing. */
  lemma PostIdempotent(mask: bv32, k: EventKind)
    requires k != EventNone
    ensures Posted(Posted(mask, k), k) == Posted(mask, k)
  {
    OrSetsBits(mask, KindMask(k));
  }

  /** Posts do not overwrite one another: their order does not matter. */
  lemma PostsCommute(mask: bv32, j: EventKind, k: EventKind)
    requires j != EventNone && k != EventNone
    ensures Posted(Posted(mask, j), k) == Posted(Posted(mask, k), j)
  {
    OrCommutes(mask, KindMask(j), KindMask(k));
  }

  /** Consuming a pending event and posting it again restores the word. */
  lemma ConsumeThenRepost(mask: bv32, k: EventKind)
    requires IsPending(mask, k)
    ensures k != EventNone
    ensures Posted(Cleared(mask, k), k) == mask
  {
    PendingBitIsSet(mask, k);
    RepostRestores(mask, k);
  }

  lemma RepostRestores(mask: bv32, k: EventKind)
    requires k != EventNone
    requires mask & KindMask(k) == KindMask(k)
    ensures Posted(Cleared(mask, k), k) == mask
  {
    ClearThenSetRestores(mask, KindMask(k));
  }

  /** A pending kind's bit is set in full. */
  lemma PendingBitIsSet(mask: bv32, k: EventKind)
    requires IsPending(mask, k)
    ensures mask & KindMask(k) == KindMask(k)
  {
    match k
    case EventLetimerUF =>
    case EventLetimerComp1 =>
    case EventI2CTransferComplete =>
  }

  /** The kinds a drain loop with no new posts receives, in order, from a
      set of pending kinds. */
  function DrainOrder(p: set<EventKind>): seq<EventKind>
    decreases |p|
  {
    var k := Highest(p);
    if k == EventNone then [] else [k] + DrainOrder(p - {k})
  }

  /** A drain delivers every pending kind exactly once, in strictly
      decreasing priority, and nothing else. */
  lemma DrainOrderDeliversAll(p: set<EventKind>)
    requires EventNone !in p
    ensures |DrainOrder(p)| == |p|
    ensures forall i :: 0 <= i < |DrainOrder(p)| ==> DrainOrder(p)[i] in p
    ensures forall k :: k in p ==> k in DrainOrder(p)
    ensures forall i, j :: 0 <= i < j < |DrainOrder(p)| ==>
              Priority(DrainOrder(p)[i]) > Priority(DrainOrder(p)[j])
  {
    DrainOrderLength(p);
    DrainOrderContents(p);
    DrainOrderDecreasing(p);
  }

  /** With a scheduled kind present, the drain starts with the highest one. */
  lemma DrainStep(p: set<EventKind>)
    requires EventNone !in p
    ensures p == {} <==> Highest(p) == EventNone
    ensures p != {} ==> Highest(p) in p && DrainOrder(p) == [Highest(p)] + DrainOrder(p - {Highest(p)})
  {
    if Highest(p) == EventNone {
      assert forall j :: j in p ==> Priority(j) == 0;
    }
  }

  lemma {:induction false} DrainOrderLength(p: set<EventKind>)
    requires EventNone !in p
    ensures |DrainOrder(p)| == |p|
    decreases |p|
  {
    DrainStep(p);
    if p != {} {
      DrainOrderLength(p - {Highest(p)});
    }
  }

  lemma {:induction false} DrainOrderContents(p: set<EventKind>)
    requires EventNone !in p
    ensures forall i :: 0 <= i < |DrainOrder(p)| ==> DrainOrder(p)[i] in p
    ensures forall k :: k in p ==> k in DrainOrder(p)
    decreases |p|
  {
    DrainStep(p);
    if p != {} {
      DrainOrderContents(p - {Highest(p)});
    }
  }

  lemma {:induction false} DrainOrderDecreasing(p: set<EventKind>)
    requires EventNone !in p
    ensures forall i, j :: 0 <= i < j < |DrainOrder(p)| ==>
              Priority(DrainOrder(p)[i]) > Priority(DrainOrder(p)[j])
    decreases |p|
  {
    DrainStep(p);
    if p != {} {
      var k := Highest(p);
      var rest := p - {k};
      DrainOrderDecreasing(rest);
      DrainOrderContents(rest);
      forall i | 0 <= i < |DrainOrder(rest)|
        ensures Priority(DrainOrder(rest)[i]) < Priority(k)
      {
        PriorityInjective(DrainOrder(rest)[i], k);
      }
    }
  }

  /** The drain order of the word's pending kinds is what successive calls of
      getNextEvent return: the first kind, then the drain order of the word
      with that kind's bit cleared. */
  lemma DrainOrderFollowsGetNext(mask: bv32)
    ensures DrainOrder(Pending(mask)) ==
      var k := HighestPending(mask);
      if k == EventNone then [] else [k] + DrainOrder(Pending(Cleared(mask, k)))
  {
    var k := HighestPending(mask);
    PendingAfterClear(mask, k);
  }

  /** The word never holds more than the three scheduled kinds. */
  lemma AtMostThreePending(mask: bv32)
    ensures EventNone !in Pending(mask)
    ensures |Pending(mask)| <= 3
  {
    assert Pending(mask) <= SCHEDULED_KINDS;
    SubsetCardinality(Pending(mask), SCHEDULED_KINDS);
  }

  lemma SubsetCardinality(a: set<EventKind>, b: set<EventKind>)
    requires a <= b
    ensures |a| <= |b|
  {
    assert b == a + (b - a);
  }

  lemma PriorityInjective(j: EventKind, k: EventKind)
    requires j != k
    ensures Priority(j) != Priority(k)
  {
  }

  /** The pending-event word after n calls of getNextEvent with no new posts. */
  function ConsumeN(mask: bv32, n: nat): bv32
  {
    if n == 0 then mask else ConsumeN(Cleared(mask, HighestPending(mask)), n - 1)
  }

  /** Each call of getNextEvent removes one pending kind while there is one. */
  lemma {:induction false} ConsumeNShrinks(mask: bv32, n: nat)
    ensures |Pending(ConsumeN(mask, n))| <= if n <= |Pending(mask)| then |Pending(mask)| - n else 0
  {
    if n > 0 {
      var next := Cleared(mask, HighestPending(mask));
      ConsumeOneShrinks(mask);
      ConsumeNShrinks(next, n - 1);
      ShrinkArith(|Pending(mask)|, |Pending(next)|, |Pending(ConsumeN(next, n - 1))|, n);
    }
  }

  /** The counting step of ConsumeNShrinks: one kind removed, then n - 1 calls. */
  lemma ShrinkArith(a: nat, b: nat, c: nat, n: nat)
    requires n > 0 && b == (if a == 0 then 0 else a - 1)
    requires c <= if n - 1 <= b then b - (n - 1) else 0
    ensures c <= if n <= a then a - n else 0
  {
  }

  /** One call of getNextEvent removes one pending kind while there is one. */
  lemma ConsumeOneShrinks(mask: bv32)
    ensures |Pending(Cleared(mask, HighestPending(mask)))|
            == if Pending(mask) == {} then 0 else |Pending(mask)| - 1
  {
    var k := HighestPending(mask);
    PendingAfterClear(mask, k);
  }

  /** A drain loop with no new posts gets EventNone after at most three calls. */
  lemma DrainWithinThree(mask: bv32)
    ensures HighestPending(ConsumeN(mask, 3)) == EventNone
  {
    AtMostThreePending(mask);
    ConsumeNShrinks(mask, 3);
  }

  /** The shared pending-event word and the setters and consumer that touch it.
      Each method is one critical section. */
  class Scheduler {
    var schedulerEvents: bv32
    ghost var signals: seq<Signal>

    /** Only the three scheduler bits are ever set. */
    ghost predicate Valid()
      reads this
    {
      schedulerEvents & 0x7 == schedulerEvents
    }

    constructor ()
      ensures Valid() && schedulerEvents == 0 && signals == []
    {
      schedulerEvents := 0;
      signals := [];
    }

    /** Button 1 edge: signals the stack only. */
    method SetEventPB1()
      requires Valid()
      modifies this
      ensures Valid() && schedulerEvents == old(schedulerEvents)
      ensures signals == old(signals) + [ButtonSignal(PB1)]
    {
      signals := signals + [ButtonSignal(PB1)];
    }

    /** Button 0 edge: signals the stack only. */
    method SetEventPB0()
      requires Valid()
      modifies this
      ensures Valid() && schedulerEvents == old(schedulerEvents)
      ensures signals == old(signals) + [ButtonSignal(PB0)]
    {
      signals := signals + [ButtonSignal(PB0)];
    }

    method SetEventLETIMER0Comp1()
      requires Valid()
      modifies this
      ensures schedulerEvents == Posted(old(schedulerEvents), EventLetimerComp1)
      ensures Valid()
      ensures signals == old(signals) + [EventSignal(0x2)]
    {
      schedulerEvents := schedulerEvents | 0x2;
      signals := signals + [EventSignal(0x2)];
    }

    method SetEventLETIMER0UF()
      requires Valid()
      modifies this
      ensures schedulerEvents == Posted(old(schedulerEvents), EventLetimerUF)
      ensures Valid()
      ensures signals == old(signals) + [EventSignal(0x1)]
    {
      schedulerEvents := schedulerEvents | 0x1;
      signals := signals + [EventSignal(0x1)];
    }

    method SetEventI2CTransferDone()
      requires Valid()
      modifies this
      ensures schedulerEvents == Posted(old(schedulerEvents), EventI2CTransferComplete)
      ensures Valid()
      ensures signals == old(signals) + [EventSignal(0x4)]
    {
      schedulerEvents := schedulerEvents | 0x4;
      signals := signals + [EventSignal(0x4)];
    }

    /** Returns the pending kind of highest priority and clears its bit only. */
    method GetNextEvent() returns (returnEvent: EventKind)
      requires Valid()
      modifies this
      ensures returnEvent == HighestPending(old(schedulerEvents))
      ensures schedulerEvents == Cleared(old(schedulerEvents), returnEvent)
      ensures Valid()
      ensures signals == old(signals)
    {
      returnEvent := EventNone;
      if schedulerEvents & 0x4 != 0 {
        returnEvent := EventI2CTransferComplete;
      } else if schedulerEvents & 0x2 != 0 {
        returnEvent := EventLetimerComp1;
      } else if schedulerEvents & 0x1 != 0 {
        returnEvent := EventLetimerUF;
      }
      match returnEvent
      case EventLetimerComp1 =>
        schedulerEvents := schedulerEvents & !0x2;
      case EventLetimerUF =>
        schedulerEvents := schedulerEvents & !0x1;
      case EventI2CTransferComplete =>
        schedulerEvents := schedulerEvents & !0x4;
      case EventNone =>
    }
  }
}
