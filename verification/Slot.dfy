/** The slot of the ring ledger: counters and tallies updated in place.
    Source: internal/ledger/ledger.go. */
module Ledger {
  import opened Messages
  import opened Quorums
  import opened SlotSpec

  /** The number of occurrences of a received proposal. */
  datatype Tally = Tally(Proposal: ConsensusObj, Count: int)

  /** The order SortRecvProposals sorts by. */
  predicate Before(a: Tally, b: Tally) {
    a.Count > b.Count || (a.Count == b.Count && ProxySeqIdLessThan(a.Proposal, b.Proposal))
  }

  predicate Sorted(ts: seq<Tally>) {
    forall i, j :: 0 <= i < j < |ts| ==> Before(ts[i], ts[j])
  }

  predicate DistinctKeys(ts: seq<Tally>) {
    forall i, j :: 0 <= i < j < |ts| ==> KeyOf(ts[i].Proposal) != KeyOf(ts[j].Proposal)
  }

  /** The tallies say how often each key was received, and which object came first under it. */
  ghost predicate Tallies(ts: seq<Tally>, h: Heard) {
    && DistinctKeys(ts)
    && (forall t :: t in ts ==>
          && t.Count == Count(h, OfKey(KeyOf(t.Proposal))) > 0
          && t.Proposal == FirstObj(h, KeyOf(t.Proposal)))
    && (forall k :: Count(h, OfKey(k)) > 0 ==> exists j :: 0 <= j < |ts| && KeyOf(ts[j].Proposal) == k)
  }

  /** The counters of one round: my own value, the numbers of 0s, 1s and ?s received, and the
      number of messages received. */
  predicate Cell(my: uint32, h: Heard, mine: uint32, counts: seq<int>, total: int) {
    && mine == my
    && |counts| == 3
    && counts[0] == Count(h, Bit(0)) && counts[1] == Count(h, Bit(1)) && counts[2] == Count(h, Bit(2))
    && total == |h|
  }

  /** The counters of both rounds of a phase. */
  predicate Row(v: SlotState, p: nat, mine: seq<uint32>, counts: seq<seq<int>>, totals: seq<int>) {
    && |mine| == |counts| == |totals| == 2
    && Cell(MineAt(v, 2 * p), HeardAt(v, 2 * p), mine[0], counts[0], totals[0])
    && Cell(MineAt(v, 2 * p + 1), HeardAt(v, 2 * p + 1), mine[1], counts[1], totals[1])
  }

  function Copies<T>(n: nat, x: T): (s: seq<T>)
    ensures |s| == n && forall i :: 0 <= i < n ==> s[i] == x
  {
    seq(n, _ => x)
  }

  const NO_VALUES: seq<uint32> := [0, 0]
  const NO_COUNTS: seq<seq<int>> := [[0, 0, 0], [0, 0, 0]]
  const NO_TOTALS: seq<int> := [0, 0]

  /** A slot. The Go slices that Reset reallocates are sequences that the methods reassign. The
      ghost field V is the value that SlotSpec reasons about. */
  class Slot {
    var Term: nat
    var IsDone: bool
    var HasRecvDec: bool
    var Decision: ConsensusObj
    var Queue: seq<Msg>
    var Phase: uint32
    var Round: uint32
    var MyProposal: ConsensusObj
    var RecvProposals: seq<Tally>
    var MyBCMsgs: seq<seq<uint32>>
    var RecvBCMsgs: seq<seq<seq<int>>>
    var RecvBCMsgsT: seq<seq<int>>
    const LenBlockArray: nat
    ghost var V: SlotState

    ghost predicate Counters()
      reads this
    {
      && |MyBCMsgs| == |RecvBCMsgs| == |RecvBCMsgsT| == LenBlockArray > 0
      && (forall p :: 0 <= p < LenBlockArray ==> Row(V, p, MyBCMsgs[p], RecvBCMsgs[p], RecvBCMsgsT[p]))
    }

    ghost predicate Scalars()
      reads this
    {
      && V.isDone == IsDone && V.hasRecvDec == HasRecvDec && V.decision == Decision && V.queue == Queue
      && V.phase == Phase && V.round == Round && V.myProposal == MyProposal
    }

    ghost predicate Valid()
      reads this
    {
      Scalars() && Counters() && Tallies(RecvProposals, HeardAt(V, 0))
    }

    constructor (lenBlockArray: nat)
      requires lenBlockArray > 0
      ensures Valid() && V == FRESH && Term == 0 && LenBlockArray == lenBlockArray
    {
      LenBlockArray := lenBlockArray;
      Term := 0;
      new;
      Reset();
    }

    /** Every field but Term. */
    method Reset()
      requires LenBlockArray > 0
      modifies this
      ensures Valid() && V == FRESH && Term == old(Term)
    {
      hide Row, Tallies, HeardAt, Copies;
      ResetScalars();
      ResetCounters();
      V := FRESH;
      FreshTallies();
      FreshRows();
    }

    /** Reset, for a new term. */
    method Renew(term: nat)
      requires Valid()
      modifies this
      ensures Valid() && V == FRESH && Term == term
    {
      hide Cell, Tallies;
      Reset();
      Term := term;
    }

    method ResetScalars()
      modifies this`IsDone, this`HasRecvDec, this`Decision, this`Queue, this`Phase, this`Round, this`MyProposal
      ensures IsDone == HasRecvDec == false && Decision == MyProposal == EMPTY_OBJ && Queue == [] && Phase == Round == 0
    {
      IsDone := false;
      HasRecvDec := false;
      Decision := EMPTY_OBJ;
      Queue := [];
      Phase := 0;
      Round := 0;
      MyProposal := EMPTY_OBJ;
    }

    method ResetCounters()
      modifies this`RecvProposals, this`MyBCMsgs, this`RecvBCMsgs, this`RecvBCMsgsT
      ensures RecvProposals == []
      ensures |MyBCMsgs| == |RecvBCMsgs| == |RecvBCMsgsT| == LenBlockArray
      ensures forall p :: 0 <= p < LenBlockArray ==>
        MyBCMsgs[p] == NO_VALUES && RecvBCMsgs[p] == NO_COUNTS && RecvBCMsgsT[p] == NO_TOTALS
    {
      RecvProposals := [];
      MyBCMsgs := Copies(LenBlockArray, NO_VALUES);
      RecvBCMsgs := Copies(LenBlockArray, NO_COUNTS);
      RecvBCMsgsT := Copies(LenBlockArray, NO_TOTALS);
    }

    method IncrPhaseDecrRound()
      requires Valid() && Phase + 1 < 0x1_0000_0000 && Round >= 1
      modifies this
      ensures Valid() && Term == old(Term)
      ensures V == old(V).(phase := old(V).phase + 1, round := old(V).round - 1)
    {
      hide Cell;
      Phase := Phase + 1;
      Round := Round - 1;
      V := V.(phase := Phase, round := Round);
    }

    /** A receive from the non-empty channel between the handler and the executor. */
    method Receive() returns (m: Msg)
      requires Valid() && |Queue| > 0
      modifies this
      ensures Valid() && Term == old(Term)
      ensures m == old(V).queue[0] && V == old(V).(queue := old(V).queue[1..])
    {
      hide Cell;
      m := Queue[0];
      Queue := Queue[1..];
      V := V.(queue := Queue);
    }

    /** A send to it. */
    method Send(m: Msg)
      requires Valid()
      modifies this
      ensures Valid() && Term == old(Term) && V == old(V).(queue := old(V).queue + [m])
    {
      hide Cell;
      Queue := Queue + [m];
      V := V.(queue := Queue);
    }

    method SetHasRecvDec()
      requires Valid()
      modifies this
      ensures Valid() && Term == old(Term) && V == old(V).(hasRecvDec := true)
    {
      hide Cell;
      HasRecvDec := true;
      V := V.(hasRecvDec := true);
    }

    method SetDecision(dec: ConsensusObj)
      requires Valid()
      modifies this
      ensures Valid() && Term == old(Term) && V == old(V).(decision := dec, isDone := true)
    {
      hide Cell;
      Decision := dec;
      IsDone := true;
      V := V.(decision := dec, isDone := true);
    }

    method SetRound(round: uint32)
      requires Valid()
      modifies this
      ensures Valid() && Term == old(Term) && V == old(V).(round := round)
    {
      hide Cell;
      Round := round;
      V := V.(round := round);
    }

    /** Round++, where the executor leaves a round. */
    method NextRound()
      requires Valid() && V.round < 0xFFFF_FFFF
      modifies this
      ensures Valid() && Term == old(Term) && V == old(V).(round := old(V).round + 1)
    {
      hide Cell;
      Round := Round + 1;
      V := V.(round := Round);
    }

    method SetMyProposal(p: ConsensusObj)
      requires Valid()
      modifies this
      ensures Valid() && Term == old(Term)
      ensures V == old(V).(myProposal := p)
    {
      hide Cell;
      MyProposal := p;
      V := V.(myProposal := p);
    }

    /** What getRequest does to the slot. */
    method Start(p: ConsensusObj)
      requires Valid()
      modifies this
      ensures Valid() && Term == old(Term) && V == old(V).(myProposal := p, round := 1)
    {
      hide Valid;
      SetMyProposal(p);
      SetRound(1);
    }

    method GetMyProposal() returns (p: ConsensusObj)
      requires Valid()
      ensures p == V.myProposal
    {
      hide Cell;
      return MyProposal;
    }

    /** Counts a proposal that came from a server in message m. */
    method PutRecvProposals(p: ConsensusObj, ghost from: nat, ghost m: Msg)
      requires Valid() && m.typ == PROPOSAL && m.obj == Some(p)
      modifies this
      ensures Valid() && Term == old(Term)
      ensures V == Counted(old(V), 0, from, m)
    {
      hide Tallies, Row, Count;
      ghost var h := HeardAt(V, 0);
      ghost var ts := RecvProposals;
      var i := 0;
      while i < |RecvProposals| && !ProxySeqIdEqual(RecvProposals[i].Proposal, p)
        invariant 0 <= i <= |RecvProposals|
        invariant forall j :: 0 <= j < i ==> KeyOf(ts[j].Proposal) != KeyOf(p)
      {
        i := i + 1;
      }
      if i < |RecvProposals| {
        RecvProposals := RecvProposals[i := RecvProposals[i].(Count := RecvProposals[i].Count + 1)];
        TallyAgain(ts, h, i, from, m);
      } else {
        RecvProposals := RecvProposals + [Tally(p, 1)];
        TallyNew(ts, h, from, m);
      }
      assert Row(V, 0, MyBCMsgs[0], RecvBCMsgs[0], RecvBCMsgsT[0]);
      RowPut(V, 0, 1, MyBCMsgs[0], RecvBCMsgs[0], RecvBCMsgsT[0], from, m);
      RowsKept(V, 0, 1, from, m);
      RecvBCMsgsT := RecvBCMsgsT[0 := RecvBCMsgsT[0][0 := RecvBCMsgsT[0][0] + 1]];
      V := Counted(V, 0, from, m);
    }

    /** Sorts the tallies; what they say does not change. */
    method SortRecvProposals()
      requires Valid()
      modifies this`RecvProposals
      ensures Valid() && Sorted(RecvProposals)
      ensures multiset(RecvProposals) == multiset(old(RecvProposals))
    {
      hide Cell, Count;
      ghost var ts := RecvProposals;
      var out: seq<Tally> := [];
      for i := 0 to |RecvProposals|
        invariant RecvProposals == ts
        invariant Sorted(out) && multiset(out) == multiset(ts[..i])
      {
        assert ts[..i + 1] == ts[..i] + [ts[i]];
        out := Insert(out, RecvProposals[i], ts, i);
      }
      assert ts[..|ts|] == ts;
      SortedTallies(ts, out, HeardAt(V, 0));
      RecvProposals := out;
    }

    method RecvProposalsMajV() returns (obj: ConsensusObj)
      requires Valid() && HasProposal(HeardAt(V, 0))
      modifies this`RecvProposals
      ensures Valid() && obj == MajV(HeardAt(V, 0))
    {
      SortRecvProposals();
      FirstIsMajority(RecvProposals, HeardAt(V, 0));
      obj := RecvProposals[0].Proposal;
    }

    method RecvProposalsMajT() returns (t: int)
      requires Valid() && HasProposal(HeardAt(V, 0))
      modifies this`RecvProposals
      ensures Valid() && t == MajT(HeardAt(V, 0))
    {
      SortRecvProposals();
      FirstIsMajority(RecvProposals, HeardAt(V, 0));
      t := RecvProposals[0].Count;
    }

    method SetMyBCMsgs(phase: nat, round: nat, x: uint32)
      requires Valid() && phase < LenBlockArray && (round == 1 || round == 2)
      modifies this`V, this`MyBCMsgs
      ensures Valid()
      ensures V == old(V).(mine := old(V).mine[RoundIndex(phase, round) := x])
    {
      hide Tallies, Count;
      var mine: seq<uint32> := MyBCMsgs[phase][round - 1 := x];
      MyBCMsgs := MyBCMsgs[phase := mine];
      V := V.(mine := V.mine[RoundIndex(phase, round) := x]);
    }

    method GetMyBCMsgs(phase: nat, round: nat) returns (x: uint32)
      requires Valid() && phase < LenBlockArray && (round == 1 || round == 2)
      ensures x == MineAt(V, RoundIndex(phase, round))
    {
      x := MyBCMsgs[phase][round - 1];
    }

    /** Counts a state or vote that came from a server in message m. */
    method PutRecvBCMsgs(phase: nat, round: nat, x: uint32, ghost from: nat, ghost m: Msg)
      requires Valid() && phase < LenBlockArray && (round == 1 || round == 2) && x < 3
      requires m.typ != PROPOSAL && m.value == x
      modifies this`V, this`RecvBCMsgs, this`RecvBCMsgsT
      ensures Valid()
      ensures V == Counted(old(V), RoundIndex(phase, round), from, m)
    {
      hide Tallies, Row, Count;
      ghost var k := RoundIndex(phase, round);
      if k == 0 { TalliesSame(RecvProposals, HeardAt(V, 0), from, m); }
      assert Row(V, phase, MyBCMsgs[phase], RecvBCMsgs[phase], RecvBCMsgsT[phase]);
      RowPut(V, phase, round, MyBCMsgs[phase], RecvBCMsgs[phase], RecvBCMsgsT[phase], from, m);
      RowsKept(V, phase, round, from, m);
      var counts := RecvBCMsgs[phase][round - 1];
      RecvBCMsgs := RecvBCMsgs[phase := RecvBCMsgs[phase][round - 1 := counts[x := counts[x] + 1]]];
      RecvBCMsgsT := RecvBCMsgsT[phase := RecvBCMsgsT[phase][round - 1 := RecvBCMsgsT[phase][round - 1] + 1]];
      V := Counted(V, k, from, m);
    }

    method RecvBCMsgsMajV(phase: nat, round: nat) returns (x: uint32)
      requires Valid() && phase < LenBlockArray && (round == 1 || round == 2)
      ensures x == BitMajV(HeardAt(V, RoundIndex(phase, round)))
    {
      assert Row(V, phase, MyBCMsgs[phase], RecvBCMsgs[phase], RecvBCMsgsT[phase]);
      if RecvBCMsgs[phase][round - 1][0] > RecvBCMsgs[phase][round - 1][1] {
        return 0;
      } else {
        return 1;
      }
    }

    method RecvBCMsgsMajT(phase: nat, round: nat) returns (t: int)
      requires Valid() && phase < LenBlockArray && (round == 1 || round == 2)
      ensures t == BitMajT(HeardAt(V, RoundIndex(phase, round)))
    {
      assert Row(V, phase, MyBCMsgs[phase], RecvBCMsgs[phase], RecvBCMsgsT[phase]);
      if RecvBCMsgs[phase][round - 1][0] > RecvBCMsgs[phase][round - 1][1] {
        return RecvBCMsgs[phase][round - 1][0];
      } else {
        return RecvBCMsgs[phase][round - 1][1];
      }
    }

    method HasEnoughMsg(c: Conf, phase: nat, round: nat) returns (enough: bool)
      requires Valid() && phase < LenBlockArray && (round == 1 || round == 2)
      ensures enough == Full(c, V, RoundIndex(phase, round))
    {
      return RecvBCMsgsT[phase][round - 1] >= c.NMinusF();
    }
  }

  lemma FreshTallies()
    ensures Tallies([], HeardAt(FRESH, 0))
  {
  }

  lemma FreshRows()
    ensures forall p: nat :: Row(FRESH, p, NO_VALUES, NO_COUNTS, NO_TOTALS)
  {
  }

  /** Counting a message of round k updates the cell of round k ... */
  lemma RowPut(v: SlotState, p: nat, round: nat, mine: seq<uint32>, counts: seq<seq<int>>, totals: seq<int>,
               from: nat, m: Msg)
    requires Row(v, p, mine, counts, totals) && (round == 1 || round == 2)
    ensures |mine| == |counts| == |totals| == 2 && |counts[round - 1]| == 3
    ensures var v' := Counted(v, RoundIndex(p, round), from, m);
      var totals' := totals[round - 1 := totals[round - 1] + 1];
      var cell := counts[round - 1];
      && (LabelOf(m).Bit? && m.value < 3 ==>
            Row(v', p, mine, counts[round - 1 := cell[m.value := cell[m.value] + 1]], totals'))
      && (LabelOf(m).OfKey? ==> Row(v', p, mine, counts, totals'))
  {
    hide Cell, Count;
    var k := RoundIndex(p, round);
    CellPut(MineAt(v, k), HeardAt(v, k), mine[round - 1], counts[round - 1], totals[round - 1], from, m);
  }

  lemma CellPut(my: uint32, h: Heard, mine: uint32, cell: seq<int>, total: int, from: nat, m: Msg)
    requires Cell(my, h, mine, cell, total)
    ensures |cell| == 3
    ensures LabelOf(m).Bit? && m.value < 3 ==>
      Cell(my, h + [(from, m)], mine, cell[m.value := cell[m.value] + 1], total + 1)
    ensures LabelOf(m).OfKey? ==> Cell(my, h + [(from, m)], mine, cell, total + 1)
  {
    CountAppend(h, (from, m), Bit(0));
    CountAppend(h, (from, m), Bit(1));
    CountAppend(h, (from, m), Bit(2));
  }

  /** ... and no other. */
  lemma RowsKept(v: SlotState, q: nat, round: nat, from: nat, m: Msg)
    requires round == 1 || round == 2
    ensures forall p: nat, mine, counts, totals :: p != q && Row(v, p, mine, counts, totals) ==>
      Row(Counted(v, RoundIndex(q, round), from, m), p, mine, counts, totals)
  {
  }

  /** Insertion into the sorted prefix. */
  method Insert(out: seq<Tally>, t: Tally, ghost ts: seq<Tally>, ghost i: nat) returns (r: seq<Tally>)
    requires i < |ts| && t == ts[i] && DistinctKeys(ts) && Sorted(out) && multiset(out) == multiset(ts[..i])
    ensures Sorted(r) && multiset(r) == multiset(out) + multiset{t}
  {
    var j := 0;
    while j < |out| && Before(out[j], t)
      invariant 0 <= j <= |out|
      invariant forall k :: 0 <= k < j ==> Before(out[k], t)
    {
      j := j + 1;
    }
    r := out[..j] + [t] + out[j..];
    InsertOk(out, t, ts, i, j);
  }

  lemma InsertOk(out: seq<Tally>, t: Tally, ts: seq<Tally>, i: nat, j: nat)
    requires i < |ts| && t == ts[i] && DistinctKeys(ts) && Sorted(out) && multiset(out) == multiset(ts[..i])
    requires j <= |out| && (forall k :: 0 <= k < j ==> Before(out[k], t)) && (j < |out| ==> !Before(out[j], t))
    ensures var r := out[..j] + [t] + out[j..]; Sorted(r) && multiset(r) == multiset(out) + multiset{t}
  {
    hide Sorted;
    if j < |out| {
      assert out[j] in multiset(out);
      assert out[j] in ts[..i];
      assert Before(t, out[j]);
    }
    SortedSplice(out, t, j);
    assert out == out[..j] + out[j..];
  }

  lemma SortedSplice(out: seq<Tally>, t: Tally, j: nat)
    requires Sorted(out) && j <= |out|
    requires (forall k :: 0 <= k < j ==> Before(out[k], t)) && (j < |out| ==> Before(t, out[j]))
    ensures Sorted(out[..j] + [t] + out[j..])
  {
    forall k | j < k < |out|
      ensures Before(t, out[k])
    {
      assert Before(out[j], out[k]);
    }
    hide Before;
    var r := out[..j] + [t] + out[j..];
    assert forall k :: 0 <= k < j ==> r[k] == out[k];
    assert forall k :: j < k < |r| ==> r[k] == out[k - 1];
  }

  lemma SortedTallies(ts: seq<Tally>, out: seq<Tally>, h: Heard)
    requires Tallies(ts, h) && multiset(out) == multiset(ts) && Sorted(out)
    ensures Tallies(out, h)
  {
    forall t | t in out
      ensures t in ts
    {
      assert t in multiset(out);
    }
    forall i, j | 0 <= i < j < |out|
      ensures KeyOf(out[i].Proposal) != KeyOf(out[j].Proposal)
    {
      assert out[i] in ts && out[j] in ts && Before(out[i], out[j]);
    }
    forall k | Count(h, OfKey(k)) > 0
      ensures exists j :: 0 <= j < |out| && KeyOf(out[j].Proposal) == k
    {
      var j :| 0 <= j < |ts| && KeyOf(ts[j].Proposal) == k;
      assert ts[j] in multiset(ts);
      assert ts[j] in out;
    }
  }

  lemma FirstIsMajority(ts: seq<Tally>, h: Heard)
    requires Tallies(ts, h) && Sorted(ts) && HasProposal(h)
    ensures |ts| > 0 && ts[0].Proposal == MajV(h) && ts[0].Count == MajT(h)
  {
    BestKeyIsMajority(h);
    var j :| 0 <= j < |ts| && KeyOf(ts[j].Proposal) == MajKey(h);
    var k := KeyOf(ts[0].Proposal);
    assert ts[0] in ts;
    forall k' | k' != k && Count(h, OfKey(k')) > 0
      ensures Beats(h, k, k')
    {
      var j' :| 0 <= j' < |ts| && KeyOf(ts[j'].Proposal) == k';
      assert ts[j'] in ts && Before(ts[0], ts[j']);
    }
    MajorityKeyUnique(h, k);
  }

  lemma TallyAgain(ts: seq<Tally>, h: Heard, i: nat, from: nat, m: Msg)
    requires Tallies(ts, h) && i < |ts| && m.typ == PROPOSAL && m.obj.Some?
    requires KeyOf(ts[i].Proposal) == KeyOf(m.obj.value)
    ensures Tallies(ts[i := ts[i].(Count := ts[i].Count + 1)], h + [(from, m)])
  {
    hide Count, FirstObj;
    var ts' := ts[i := ts[i].(Count := ts[i].Count + 1)];
    var h' := h + [(from, m)];
    forall t | t in ts'
      ensures t.Count == Count(h', OfKey(KeyOf(t.Proposal))) > 0 && t.Proposal == FirstObj(h', KeyOf(t.Proposal))
    {
      var j :| 0 <= j < |ts'| && ts'[j] == t;
      assert ts[j] in ts;
      CountAppend(h, (from, m), OfKey(KeyOf(t.Proposal)));
      FirstObjAppend(h, (from, m), KeyOf(t.Proposal));
    }
    forall k | Count(h', OfKey(k)) > 0
      ensures exists j :: 0 <= j < |ts'| && KeyOf(ts'[j].Proposal) == k
    {
      CountAppend(h, (from, m), OfKey(k));
      if k == KeyOf(ts[i].Proposal) {
        assert KeyOf(ts'[i].Proposal) == k;
      } else {
        var j :| 0 <= j < |ts| && KeyOf(ts[j].Proposal) == k;
        assert KeyOf(ts'[j].Proposal) == k;
      }
    }
  }

  lemma TallyNew(ts: seq<Tally>, h: Heard, from: nat, m: Msg)
    requires Tallies(ts, h) && m.typ == PROPOSAL && m.obj.Some?
    requires forall j :: 0 <= j < |ts| ==> KeyOf(ts[j].Proposal) != KeyOf(m.obj.value)
    ensures Tallies(ts + [Tally(m.obj.value, 1)], h + [(from, m)])
  {
    hide Count, FirstObj;
    var p := m.obj.value;
    var ts' := ts + [Tally(p, 1)];
    var h' := h + [(from, m)];
    forall t | t in ts'
      ensures t.Count == Count(h', OfKey(KeyOf(t.Proposal))) > 0 && t.Proposal == FirstObj(h', KeyOf(t.Proposal))
    {
      CountAppend(h, (from, m), OfKey(KeyOf(t.Proposal)));
      FirstObjAppend(h, (from, m), KeyOf(t.Proposal));
    }
    forall k | Count(h', OfKey(k)) > 0
      ensures exists j :: 0 <= j < |ts'| && KeyOf(ts'[j].Proposal) == k
    {
      CountAppend(h, (from, m), OfKey(k));
      if k == KeyOf(p) {
        assert KeyOf(ts'[|ts|].Proposal) == k;
      } else {
        var j :| 0 <= j < |ts| && KeyOf(ts[j].Proposal) == k;
        assert KeyOf(ts'[j].Proposal) == k;
      }
    }
  }

  lemma TalliesSame(ts: seq<Tally>, h: Heard, from: nat, m: Msg)
    requires Tallies(ts, h) && m.typ != PROPOSAL
    ensures Tallies(ts, h + [(from, m)])
  {
    forall k
      ensures Count(h + [(from, m)], OfKey(k)) == Count(h, OfKey(k))
      ensures Count(h, OfKey(k)) > 0 ==> FirstObj(h + [(from, m)], k) == FirstObj(h, k)
    {
      CountAppend(h, (from, m), OfKey(k));
      if Count(h, OfKey(k)) > 0 { FirstObjAppend(h, (from, m), k); }
    }
  }
}
