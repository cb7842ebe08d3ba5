/** The ring of slots that stands for an unbounded log: logical slot seq lives in slot
    seq % LenLedger while that slot's Term is seq / LenLedger.
    Sources: internal/ledger/ledger.go, roles/server/layers/consensus/consensus.go,
    roles/server/layers/proxy/proxy.go. */
module Ring {
  import opened Quorums
  import opened SlotSpec
  import opened Ledger

  function SlotOf(seqNo: nat): (j: nat)
    ensures j < LEN_LEDGER
  {
    seqNo % LEN_LEDGER
  }

  function TermOf(seqNo: nat): nat {
    seqNo / LEN_LEDGER
  }

  /** The logical log: a slot that nobody touched yet is fresh. */
  type Log = map<nat, SlotState>

  function LogAt(log: Log, s: nat): SlotState {
    if s in log then log[s] else FRESH
  }

  /** The ring (a term and a value for each position) represents the log. The executor started
      slots 0..started, and the proxy consumed the decisions of slots 0..consumed-1. */
  ghost predicate Represents(terms: seq<nat>, vs: seq<SlotState>, log: Log, started: int, consumed: nat) {
    && |terms| == |vs| == LEN_LEDGER
    && -1 <= started && consumed <= started + 1
    && (forall s: nat :: TermOf(s) == terms[SlotOf(s)] ==> vs[SlotOf(s)] == LogAt(log, s))
    && (forall s: nat :: TermOf(s) > terms[SlotOf(s)] ==> LogAt(log, s) == FRESH)
    && (forall s: nat :: TermOf(s) < terms[SlotOf(s)] ==> s < consumed)
    && (forall s: nat :: s <= started ==> TermOf(s) <= terms[SlotOf(s)])
    && (forall s: nat :: s < consumed ==> LogAt(log, s).isDone)
    && (forall s: nat :: LogAt(log, s).isDone ==> s <= started)
  }

  lemma SameSlot(s: nat, t: nat)
    requires SlotOf(s) == SlotOf(t)
    ensures TermOf(s) == TermOf(t) <==> s == t
    ensures TermOf(s) < TermOf(t) <==> s + LEN_LEDGER <= t
    ensures TermOf(t) == TermOf(s) + 1 <==> t == s + LEN_LEDGER
  {
  }

  /** The previous logical slot in the same position. */
  lemma Previous(s: nat)
    requires s >= LEN_LEDGER
    ensures SlotOf(s - LEN_LEDGER) == SlotOf(s) && TermOf(s) == TermOf(s - LEN_LEDGER) + 1
  {
  }

  /** Inside the window, the position of a sequence number is at its term, one behind it, or has
      moved on after the slot was consumed. */
  lemma WindowTerms(terms: seq<nat>, vs: seq<SlotState>, log: Log, started: int, consumed: nat, s: nat)
    requires Represents(terms, vs, log, started, consumed) && s < consumed + LEN_LEDGER
    ensures TermOf(s) <= terms[SlotOf(s)] + 1
    ensures TermOf(s) < terms[SlotOf(s)] ==> s < consumed
  {
    if s >= LEN_LEDGER {
      Previous(s);
      assert TermOf(s - LEN_LEDGER) <= terms[SlotOf(s - LEN_LEDGER)];
    }
  }

  lemma HeldSlot(terms: seq<nat>, vs: seq<SlotState>, log: Log, started: int, consumed: nat, s: nat)
    requires Represents(terms, vs, log, started, consumed) && TermOf(s) == terms[SlotOf(s)]
    ensures vs[SlotOf(s)] == LogAt(log, s)
  {
  }

  /** Beyond the window, the position still is at an earlier term: that of an unread slot, or one
      before. */
  lemma BeyondWindow(terms: seq<nat>, vs: seq<SlotState>, log: Log, started: int, consumed: nat, s: nat)
    requires Represents(terms, vs, log, started, consumed) && s >= consumed + LEN_LEDGER
    ensures TermOf(s) > terms[SlotOf(s)]
  {
    Previous(s);
    assert !(TermOf(s - LEN_LEDGER) < terms[SlotOf(s - LEN_LEDGER)]);
  }

  /** The position of the slot that the executor starts next is at its term or one behind. */
  lemma NextSlotTerm(terms: seq<nat>, vs: seq<SlotState>, log: Log, started: int, consumed: nat, s: nat)
    requires Represents(terms, vs, log, started, consumed) && s == started + 1
    ensures TermOf(s) == terms[SlotOf(s)] || TermOf(s) == terms[SlotOf(s)] + 1
  {
    if s >= LEN_LEDGER {
      Previous(s);
      assert TermOf(s - LEN_LEDGER) <= terms[SlotOf(s - LEN_LEDGER)];
    }
  }

  /** Recycling a position for the next term keeps the log represented if and only if the slot that
      was there before is consumed, that is, within the window. */
  lemma Recycle(terms: seq<nat>, vs: seq<SlotState>, log: Log, started: int, consumed: nat, s: nat)
    requires Represents(terms, vs, log, started, consumed) && TermOf(s) == terms[SlotOf(s)] + 1
    ensures Represents(terms[SlotOf(s) := TermOf(s)], vs[SlotOf(s) := FRESH], log, started, consumed)
            <==> s < consumed + LEN_LEDGER
    ensures LogAt(log, s) == FRESH
    ensures s < consumed + LEN_LEDGER ==>
      forall t: nat :: SlotOf(t) == SlotOf(s) && TermOf(t) <= terms[SlotOf(s)] ==> t < consumed
  {
    var j := SlotOf(s);
    var terms', vs' := terms[j := TermOf(s)], vs[j := FRESH];
    Previous(s);
    assert TermOf(s - LEN_LEDGER) < terms'[SlotOf(s - LEN_LEDGER)];
    if s < consumed + LEN_LEDGER {
      forall t: nat
        ensures TermOf(t) == terms'[SlotOf(t)] ==> vs'[SlotOf(t)] == LogAt(log, t)
        ensures TermOf(t) > terms'[SlotOf(t)] ==> LogAt(log, t) == FRESH
        ensures TermOf(t) < terms'[SlotOf(t)] ==> t < consumed
      {
        if SlotOf(t) == j { SameSlot(t, s); }
      }
    }
  }

  /** For example, when a slot of the second term is touched before anything is consumed, the first
      slot is lost. */
  lemma FirstSlotLost()
    ensures var terms, vs := Copies(LEN_LEDGER, 0), Copies(LEN_LEDGER, FRESH);
      && Represents(terms, vs, map[], -1, 0) && SlotOf(LEN_LEDGER) == SlotOf(0) == 0
      && !Represents(terms[0 := TermOf(LEN_LEDGER)], vs[0 := FRESH], map[], -1, 0)
  {
    var terms, vs := Copies(LEN_LEDGER, 0), Copies(LEN_LEDGER, FRESH);
    Recycle(terms, vs, map[], -1, 0, LEN_LEDGER);
  }

  /** Changing the slot that is at its term changes that logical slot only. */
  lemma Update(terms: seq<nat>, vs: seq<SlotState>, log: Log, started: int, consumed: nat, s: nat, v: SlotState)
    requires Represents(terms, vs, log, started, consumed) && TermOf(s) == terms[SlotOf(s)]
    requires (s < consumed ==> v.isDone) && (v.isDone ==> s <= started)
    ensures Represents(terms, vs[SlotOf(s) := v], log[s := v], started, consumed)
  {
    forall t: nat
      ensures TermOf(t) == terms[SlotOf(t)] ==> vs[SlotOf(s) := v][SlotOf(t)] == LogAt(log[s := v], t)
      ensures TermOf(t) > terms[SlotOf(t)] ==> LogAt(log[s := v], t) == FRESH
      ensures t < consumed ==> LogAt(log[s := v], t).isDone
      ensures LogAt(log[s := v], t).isDone ==> t <= started
    {
      assert t != s ==> LogAt(log[s := v], t) == LogAt(log, t);
      if SlotOf(t) == SlotOf(s) { SameSlot(t, s); }
    }
  }

  /** The type Ledger of the source, with the log it represents. */
  class RingLedger {
    const Slots: seq<Slot>
    const LenBlockArray: nat
    ghost var Terms: seq<nat>
    ghost var Vs: seq<SlotState>
    ghost var Log: Log
    ghost var Started: int
    ghost var Consumed: nat

    constructor (lenBlockArray: nat)
      requires lenBlockArray > 0
      ensures Valid() && LenBlockArray == lenBlockArray && Log == map[] && Started == -1 && Consumed == 0
      ensures fresh(Slots)
    {
      var slots: seq<Slot> := [];
      for i := 0 to LEN_LEDGER
        invariant |slots| == i && fresh(slots)
        invariant forall j, k :: 0 <= j < k < i ==> slots[j] != slots[k]
        invariant forall j :: 0 <= j < i ==>
          slots[j].Valid() && slots[j].V == FRESH && slots[j].Term == 0 && slots[j].LenBlockArray == lenBlockArray
      {
        var s := new Slot(lenBlockArray);
        slots := slots + [s];
      }
      Slots, LenBlockArray := slots, lenBlockArray;
      Terms, Vs, Log := Copies(LEN_LEDGER, 0), Copies(LEN_LEDGER, FRESH), map[];
      Started, Consumed := -1, 0;
    }

    /** Distinct slots, all but slot `but` valid and up to date. */
    ghost predicate Structure(but: int)
      reads this, Slots
    {
      && |Slots| == |Terms| == |Vs| == LEN_LEDGER
      && (forall i, j :: 0 <= i < j < LEN_LEDGER ==> Slots[i] != Slots[j])
      && (forall j :: 0 <= j < LEN_LEDGER ==> Slots[j].LenBlockArray == LenBlockArray > 0)
      && (forall j :: 0 <= j < LEN_LEDGER && j != but ==>
            Slots[j].Valid() && Slots[j].V == Vs[j] && Slots[j].Term == Terms[j])
    }

    ghost predicate Valid()
      reads this, Slots
    {
      Structure(-1) && Represents(Terms, Vs, Log, Started, Consumed)
    }

    /** Brings the log up to date with a change of the slot that holds seqNo. */
    ghost method Sync(seqNo: nat)
      requires Structure(SlotOf(seqNo)) && Represents(Terms, Vs, Log, Started, Consumed)
      requires Slots[SlotOf(seqNo)].Valid() && Slots[SlotOf(seqNo)].Term == Terms[SlotOf(seqNo)] == TermOf(seqNo)
      requires seqNo < Consumed ==> Slots[SlotOf(seqNo)].V.isDone
      requires Slots[SlotOf(seqNo)].V.isDone ==> seqNo <= Started
      modifies this`Vs, this`Log
      ensures Valid() && Log == old(Log)[seqNo := Slots[SlotOf(seqNo)].V]
    {
      hide Represents, Slot.Valid;
      var v := Slots[SlotOf(seqNo)].V;
      Update(Terms, Vs, Log, Started, Consumed, seqNo, v);
      Vs := Vs[SlotOf(seqNo) := v];
      Log := Log[seqNo := v];
    }

    /** The executor starts the next logical slot, which the ring already holds. */
    ghost method StartNext()
      requires Valid() && Terms[SlotOf(Started + 1)] == TermOf(Started + 1)
      modifies this`Started
      ensures Valid() && Started == old(Started) + 1
    {
      hide Slot.Valid;
      assert Structure(-1);
      Started := Started + 1;
    }

    /** The proxy moves on to the next logical slot. */
    ghost method ConsumeNext()
      requires Valid() && Consumed <= Started && LogAt(Log, Consumed).isDone
      modifies this`Consumed
      ensures Valid() && Consumed == old(Consumed) + 1
    {
      hide Slot.Valid;
      assert Structure(-1);
      Consumed := Consumed + 1;
    }

    method IsTermMatched(seqNo: nat) returns (matched: bool)
      requires Valid()
      ensures matched <==> Slots[SlotOf(seqNo)].Term == TermOf(seqNo)
      ensures matched ==> Slots[SlotOf(seqNo)].V == LogAt(Log, seqNo)
    {
      var slot := seqNo % LEN_LEDGER;
      var term := seqNo / LEN_LEDGER;
      return term == Slots[slot].Term;
    }

    /** The executor and the proxy never see a slot of another term: the slot being decided and
        the slot to be consumed are the ones the ring holds. */
    lemma UnreadSlotsAreHeld(s: nat)
      requires Valid() && Consumed <= s <= Started
      ensures Slots[SlotOf(s)].Term == TermOf(s) && Slots[SlotOf(s)].V == LogAt(Log, s)
    {
    }

    /** The proxy's slot is at its term, or nobody touched it yet. */
    lemma NotHeldIsFresh(s: nat)
      requires Valid() && s >= Consumed && Slots[SlotOf(s)].Term != TermOf(s)
      ensures LogAt(Log, s) == FRESH
    {
    }

    lemma HeldAtTerm(s: nat)
      requires Valid() && Slots[SlotOf(s)].Term == TermOf(s)
      ensures Slots[SlotOf(s)].Valid() && Slots[SlotOf(s)].V == LogAt(Log, s)
    {
    }

    lemma ConsumedIsDone(s: nat)
      requires Valid()
      ensures s < Consumed ==> LogAt(Log, s).isDone
      ensures LogAt(Log, s).isDone ==> s <= Started
    {
    }

    lemma FutureIsFresh(s: nat)
      requires Valid()
      ensures Slots[SlotOf(s)].Term < TermOf(s) ==> LogAt(Log, s) == FRESH
    {
    }

    lemma NotConsumedYet()
      requires Valid()
      ensures Consumed <= Started + 1
    {
    }

    lemma UndecidedSlotIsHeld(s: nat)
      requires Valid() && s <= Started && !LogAt(Log, s).isDone
      ensures s >= Consumed && Slots[SlotOf(s)].Term == Terms[SlotOf(s)] == TermOf(s)
      ensures Slots[SlotOf(s)].V == LogAt(Log, s)
    {
    }

    /** The term of the position of a sequence number. */
    ghost function TermHeld(seqNo: nat): nat
      requires |Terms| == LEN_LEDGER
      reads this
    {
      Terms[SlotOf(seqNo)]
    }

    /** A sequence number one term ahead resets its position, any other that is not at the term of
        the position is refused. Within the window no number is refused unless its slot was
        consumed, and a reset hits only a consumed slot. Beyond the window a reset loses a slot that
        is still unread: the ring stops representing the log exactly then. */
    method UpdateTermIfNecessary(seqNo: nat, pan: bool) returns (ret: bool, panicked: bool)
      requires Valid()
      modifies this`Terms, this`Vs, Slots[SlotOf(seqNo)]
      ensures Structure(-1) && panicked == (pan && !ret)
      ensures var t := old(TermHeld(seqNo));
        && (ret <==> TermOf(seqNo) == t || TermOf(seqNo) == t + 1)
        && Terms == (if TermOf(seqNo) == t + 1 then old(Terms)[SlotOf(seqNo) := t + 1] else old(Terms))
        && (TermOf(seqNo) == t + 1 ==> Slots[SlotOf(seqNo)].V == FRESH)
        && (TermOf(seqNo) != t + 1 ==> Slots[SlotOf(seqNo)].V == old(Slots[SlotOf(seqNo)].V))
        && (Valid() <==> TermOf(seqNo) != t + 1 || seqNo < Consumed + LEN_LEDGER)
      ensures seqNo < Consumed + LEN_LEDGER ==> ret || seqNo < Consumed
      ensures seqNo >= Consumed + LEN_LEDGER ==> TermOf(seqNo) > old(TermHeld(seqNo))
      ensures seqNo == Started + 1 ==> ret
      ensures Valid() && ret ==> Slots[SlotOf(seqNo)].V == LogAt(Log, seqNo)
      ensures seqNo < Consumed + LEN_LEDGER && Terms != old(Terms) ==>
        forall s: nat :: SlotOf(s) == SlotOf(seqNo) && TermOf(s) <= old(TermHeld(seqNo)) ==> s < Consumed
    {
      hide Represents, Slot.Valid;
      var slot := seqNo % LEN_LEDGER;
      var term := seqNo / LEN_LEDGER;
      WindowFacts(seqNo);
      if term == Slots[slot].Term {
        return true, false;
      } else if term == Slots[slot].Term + 1 {
        Recycle(Terms, Vs, Log, Started, Consumed, seqNo);
        Slots[slot].Renew(term);
        Terms := Terms[slot := term];
        Vs := Vs[slot := FRESH];
        return true, false;
      } else {
        return false, pan;
      }
    }

    lemma WindowFacts(s: nat)
      requires Valid()
      ensures s < Consumed + LEN_LEDGER ==> TermOf(s) <= TermHeld(s) + 1 && (TermOf(s) < TermHeld(s) ==> s < Consumed)
      ensures s >= Consumed + LEN_LEDGER ==> TermOf(s) > TermHeld(s)
      ensures s == Started + 1 ==> TermOf(s) == TermHeld(s) || TermOf(s) == TermHeld(s) + 1
      ensures TermOf(s) == TermHeld(s) ==> Vs[SlotOf(s)] == LogAt(Log, s)
    {
      hide Represents, Slot.Valid;
      if s < Consumed + LEN_LEDGER {
        WindowTerms(Terms, Vs, Log, Started, Consumed, s);
      } else {
        BeyondWindow(Terms, Vs, Log, Started, Consumed, s);
      }
      if s == Started + 1 { NextSlotTerm(Terms, Vs, Log, Started, Consumed, s); }
      if TermOf(s) == TermHeld(s) { HeldSlot(Terms, Vs, Log, Started, Consumed, s); }
    }
  }
}
