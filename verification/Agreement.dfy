/** What the invariant implies: agreement, validity, locking, the unanimous fast path and the
    common coin. */
module Agreement {
  import opened Messages
  import opened SlotSpec
  import opened Cluster
  import opened ClusterInv

  lemma InvShape(P: Params, w: World)
    requires Inv(P, w)
    ensures Shape(P, w)
  {
  }

  // ---------------------------------------------------------------- quorums

  /** The servers whose counted message has a given label. */
  ghost function Voters(h: Heard, l: Label): set<nat> {
    set j | 0 <= j < |h| && LabelOf(h[j].1) == l :: h[j].0
  }

  lemma VotersSplit(h: Heard, l: Label)
    requires |h| > 0
    ensures Voters(h, l) ==
      Voters(h[..|h| - 1], l) + (if LabelOf(h[|h| - 1].1) == l then {h[|h| - 1].0} else {})
  {
    var front, last := h[..|h| - 1], h[|h| - 1];
    forall x | x in Voters(h, l)
      ensures x in Voters(front, l) || (x == last.0 && LabelOf(last.1) == l)
    {
      var j :| 0 <= j < |h| && LabelOf(h[j].1) == l && h[j].0 == x;
      if j < |front| { assert front[j] == h[j]; }
    }
    forall x | x in Voters(front, l)
      ensures x in Voters(h, l)
    {
      var j :| 0 <= j < |front| && LabelOf(front[j].1) == l && front[j].0 == x;
      assert h[j] == front[j];
    }
  }

  lemma {:induction false} VotersCount(h: Heard, l: Label)
    requires forall j, j' :: 0 <= j < j' < |h| ==> h[j].0 != h[j'].0
    ensures |Voters(h, l)| == Count(h, l)
  {
    if |h| > 0 {
      VotersCount(h[..|h| - 1], l);
      VotersSplit(h, l);
    }
  }

  lemma {:induction false} RangeSize(a: set<nat>, n: nat)
    requires forall x :: x in a ==> x < n
    ensures |a| <= n
  {
    if n > 0 {
      RangeSize(a - {n - 1}, n - 1);
      if n - 1 in a { assert a == (a - {n - 1}) + {n - 1}; } else { assert a == a - {n - 1}; }
    } else {
      assert a == {};
    }
  }

  lemma Intersection(a: set<nat>, b: set<nat>, n: nat)
    requires forall x :: x in a || x in b ==> x < n
    ensures |a * b| >= |a| + |b| - n
  {
    RangeSize(a + b, n);
  }

  // ---------------------------------------------------------------- what a server counted

  function HeardBy(w: World, i: nat, k: nat): Heard
    requires i < |w.nodes|
  {
    HeardAt(w.nodes[i].slot, k)
  }

  /** How many servers' round-k message, as counted by i, carries l. */
  function Tally(w: World, i: nat, k: nat, l: Label): nat
    requires i < |w.nodes|
  {
    Count(HeardBy(w, i, k), l)
  }

  /** Server s broadcast a round-k message that counts for l. */
  predicate Sends(w: World, s: nat, k: nat, l: Label) {
    Sent(w, s, k) && LabelOf(w.logs[s][k]) == l
  }

  /** Counters refine sender sets: the tally of a value is the number of distinct servers whose
      counted message has it, and each of those servers did broadcast it in that round. */
  lemma CountersAreSenderSets(P: Params, w: World, i: nat, k: nat, l: Label)
    requires Inv(P, w) && i < |w.nodes|
    ensures Tally(w, i, k, l) == |Voters(HeardBy(w, i, k), l)|
    ensures |HeardBy(w, i, k)| == |Senders(HeardBy(w, i, k))| <= P.c.NMinusF()
    ensures forall s :: s in Senders(HeardBy(w, i, k)) ==> s < P.c.nServers && Sent(w, s, k)
    ensures forall s :: s in Voters(HeardBy(w, i, k), l) <==> s in Senders(HeardBy(w, i, k)) && Sends(w, s, k, l)
  {
    hide NodeInv, DecOk, RepliesOk;
    assert CountingOk(P, w.nodes[i].slot, w.logs, w.read[i]);
    assert HeardOk(P, w.nodes[i].slot, w.logs, w.read[i], k);
    VotersCount(HeardBy(w, i, k), l);
    SenderCount(HeardBy(w, i, k));
  }

  /** Whoever counts a full round misses at most f of the servers that another one counted. */
  lemma Overlap(P: Params, w: World, i: nat, j: nat, k: nat, l: Label)
    requires Inv(P, w) && i < |w.nodes| && j < |w.nodes| && Full(P.c, w.nodes[j].slot, k)
    ensures Tally(w, j, k, l) >= Tally(w, i, k, l) - P.c.nFaulty
  {
    hide Inv, Count;
    CountersAreSenderSets(P, w, i, k, l);
    CountersAreSenderSets(P, w, j, k, l);
    var A, B := Voters(HeardBy(w, i, k), l), Senders(HeardBy(w, j, k));
    Intersection(A, B, P.c.nServers);
    assert A * B <= Voters(HeardBy(w, j, k), l);
    SubsetSize(A * B, Voters(HeardBy(w, j, k), l));
  }

  /** Two values with a majority each, counted anywhere in the same round, are equal. */
  lemma MajoritiesMeet(P: Params, w: World, i: nat, j: nat, k: nat, l1: Label, l2: Label)
    requires Inv(P, w) && i < |w.nodes| && j < |w.nodes|
    requires Tally(w, i, k, l1) >= P.c.Majority() && Tally(w, j, k, l2) >= P.c.Majority()
    ensures l1 == l2
  {
    hide Inv, Count;
    InvShape(P, w);
    CountersAreSenderSets(P, w, i, k, l1);
    CountersAreSenderSets(P, w, j, k, l2);
    var A, B := Voters(HeardBy(w, i, k), l1), Voters(HeardBy(w, j, k), l2);
    Intersection(A, B, P.c.nServers);
    assert A * B != {};
    var s :| s in A * B;
    assert Sends(w, s, k, l1) && Sends(w, s, k, l2);
  }

  /** A positive tally was voted by somebody; a value nobody sent has tally 0. */
  lemma TallyWitness(P: Params, w: World, i: nat, k: nat, l: Label)
    requires Inv(P, w) && i < |w.nodes|
    ensures Tally(w, i, k, l) > 0 ==> exists s: nat :: Sends(w, s, k, l)
  {
    hide Inv, Count;
    CountersAreSenderSets(P, w, i, k, l);
    if Tally(w, i, k, l) > 0 {
      var s :| s in Voters(HeardBy(w, i, k), l);
      assert Sends(w, s, k, l);
    }
  }

  /** If every round-k message carries l, a full round counts n - f times l and nothing else. */
  lemma AllSame(P: Params, w: World, i: nat, k: nat, l: Label)
    requires Inv(P, w) && i < |w.nodes|
    requires forall s: nat :: Sent(w, s, k) ==> Sends(w, s, k, l)
    ensures Tally(w, i, k, l) == |HeardBy(w, i, k)|
    ensures forall l' :: l' != l ==> Tally(w, i, k, l') == 0
  {
    hide Inv, Count;
    CountersAreSenderSets(P, w, i, k, l);
    assert Senders(HeardBy(w, i, k)) == Voters(HeardBy(w, i, k), l);
    forall l' | l' != l
      ensures Tally(w, i, k, l') == 0
    {
      TallyWitness(P, w, i, k, l');
    }
  }

  // ---------------------------------------------------------------- the shape of a run

  /** Reading the invariant at one sent message. */
  lemma SentMsg(P: Params, w: World, s: nat, k: nat)
    requires Inv(P, w) && Sent(w, s, k)
    ensures IsRound(P, w.logs[s][k], k)
    ensures k > 0 ==> LabelOf(w.logs[s][k]) == Bit(w.logs[s][k].value)
    ensures k == 0 ==> LabelOf(w.logs[s][k]) == OfKey(KeyOf(w.logs[s][k].obj.value))
    ensures k > 0 ==>
      && Sent(w, s, k - 1) && Full(P.c, w.nodes[s].slot, k - 1)
      && VerdictOf(P, w.nodes[s].slot, k - 1) == Next(w.logs[s][k].value)
  {
    assert NodeInv(P, s, w.nodes[s], w.logs[s]);
    if k > 0 {
      assert SentIn(w.logs[s], k - 1);
    }
  }

  /** Every sender of a later round also sent, and passed, the earlier ones. */
  lemma {:induction false} SentBefore(P: Params, w: World, s: nat, k: nat, l: nat)
    requires Inv(P, w) && Sent(w, s, l) && k <= l
    ensures Sent(w, s, k)
  {
    assert NodeInv(P, s, w.nodes[s], w.logs[s]);
  }

  // ---------------------------------------------------------------- verdicts as tallies

  lemma DecideTally(P: Params, w: World, i: nat, k: nat, b: bit)
    requires DecidesAt(P, w, i, k, b)
    ensures k % 2 == 1 ==> Tally(w, i, k, Bit(b)) >= P.c.FaultyPlusOne()
    ensures k >= 2 && k % 2 == 0 ==> Tally(w, i, k, Bit(b)) >= P.c.MajorityPlusF()
    ensures k == 0 ==>
      && b == 1 && HasProposal(HeardBy(w, i, 0))
      && Tally(w, i, 0, OfKey(MajKey(HeardBy(w, i, 0)))) >= P.c.MajorityPlusF()
  {
  }

  lemma NextTally(P: Params, w: World, i: nat, k: nat, x: uint32)
    requires i < |w.nodes| && VerdictOf(P, w.nodes[i].slot, k) == Next(x)
    ensures k == 0 ==> x == 1 || x == 2
    ensures k >= 2 && k % 2 == 0 ==> x <= 2 && (x < 2 ==> Tally(w, i, k, Bit(x)) >= P.c.Majority())
  {
  }

  /** The verdict on a vote round in which only b, apart from '?', was counted. */
  lemma VotesVerdict(P: Params, w: World, i: nat, k: nat, b: bit)
    requires i < |w.nodes| && k % 2 == 1
    requires Tally(w, i, k, Bit(b)) > 0 && Tally(w, i, k, Bit(1 - b)) == 0
    ensures VerdictOf(P, w.nodes[i].slot, k) ==
      if Tally(w, i, k, Bit(b)) >= P.c.FaultyPlusOne() then Decide(b) else Next(b)
  {
  }

  /** The verdict on a state round with a majority for b and none for the other bit. */
  lemma StatesVerdict(P: Params, w: World, i: nat, k: nat, b: bit)
    requires i < |w.nodes| && k >= 2 && k % 2 == 0
    requires Tally(w, i, k, Bit(b)) >= P.c.Majority() > Tally(w, i, k, Bit(1 - b))
    ensures VerdictOf(P, w.nodes[i].slot, k) ==
      if Tally(w, i, k, Bit(b)) >= P.c.MajorityPlusF() then Decide(b) else Next(b)
  {
  }

  /** The verdict on the proposals when some key has a majority. */
  lemma ProposalsVerdict(P: Params, w: World, i: nat, key: Key)
    requires i < |w.nodes| && P.c.Valid() && Tally(w, i, 0, OfKey(key)) >= P.c.Majority()
    ensures VerdictOf(P, w.nodes[i].slot, 0) == Decide(1) || VerdictOf(P, w.nodes[i].slot, 0) == Next(1)
    ensures Tally(w, i, 0, OfKey(key)) >= P.c.MajorityPlusF() ==> VerdictOf(P, w.nodes[i].slot, 0) == Decide(1)
  {
    MajKeyTally(HeardBy(w, i, 0), key);
  }

  lemma MajKeyTally(h: Heard, k: Key)
    requires Count(h, OfKey(k)) > 0
    ensures HasProposal(h) && MajT(h) >= Count(h, OfKey(k))
  {
    BestKeyIsMajority(h);
  }

  // ---------------------------------------------------------------- locking

  /** Every round-k message carries bit b. */
  ghost predicate Locked(w: World, k: nat, b: bit) {
    forall s: nat :: Sent(w, s, k) ==> w.logs[s][k].value == b
  }

  /** Nobody reaches round k. */
  ghost predicate NobodySends(w: World, k: nat) {
    forall s: nat :: !Sent(w, s, k)
  }

  /** A server that completes round k decides b there. */
  ghost predicate EveryoneDecides(P: Params, w: World, k: nat, b: bit) {
    forall i: nat :: i < |w.nodes| && Full(P.c, w.nodes[i].slot, k) ==> DecidesAt(P, w, i, k, b)
  }

  /** Nobody decides anything else than b in round k. */
  ghost predicate OnlyDecision(P: Params, w: World, k: nat, b: bit) {
    forall i: nat, c: bit :: DecidesAt(P, w, i, k, c) ==> c == b
  }

  lemma LockedTally(P: Params, w: World, i: nat, k: nat, b: bit)
    requires Inv(P, w) && i < |w.nodes| && k > 0 && Locked(w, k, b)
    ensures Tally(w, i, k, Bit(b)) == |HeardBy(w, i, k)|
    ensures forall l' :: l' != Bit(b) ==> Tally(w, i, k, l') == 0
  {
    forall s: nat | Sent(w, s, k)
      ensures Sends(w, s, k, Bit(b))
    {
      SentMsg(P, w, s, k);
    }
    AllSame(P, w, i, k, Bit(b));
  }

  /** Where the votes agree, every server that completes the round decides, so nobody goes on. */
  lemma LockedVotes(P: Params, w: World, k: nat, b: bit)
    requires Inv(P, w) && k % 2 == 1 && Locked(w, k, b)
    ensures EveryoneDecides(P, w, k, b) && OnlyDecision(P, w, k, b) && NobodySends(w, k + 1)
  {
    hide Inv, Count, RoundVerdict, VerdictOf;
    InvShape(P, w);
    forall i: nat | i < |w.nodes| && Full(P.c, w.nodes[i].slot, k)
      ensures DecidesAt(P, w, i, k, b)
    {
      LockedTally(P, w, i, k, b);
      VotesVerdict(P, w, i, k, b);
    }
    var k' := k + 1;
    forall s: nat | Sent(w, s, k')
      ensures false
    {
      SentMsg(P, w, s, k');
    }
  }

  /** Where the states agree, so do the votes, and nobody reaches the next phase. */
  lemma LockedStates(P: Params, w: World, k: nat, b: bit)
    requires Inv(P, w) && k >= 2 && k % 2 == 0 && Locked(w, k, b)
    ensures Locked(w, k + 1, b) && NobodySends(w, k + 2) && OnlyDecision(P, w, k, b)
  {
    hide Inv, Count, RoundVerdict, VerdictOf;
    InvShape(P, w);
    forall s: nat | Sent(w, s, k + 1)
      ensures w.logs[s][k + 1].value == b
    {
      SentMsg(P, w, s, k + 1);
      LockedTally(P, w, s, k, b);
      StatesVerdict(P, w, s, k, b);
    }
    LockedVotes(P, w, k + 1, b);
    forall i: nat, c: bit | DecidesAt(P, w, i, k, c)
      ensures c == b
    {
      LockedTally(P, w, i, k, b);
      DecideTally(P, w, i, k, c);
    }
  }

  /** In one phase nobody votes against another's vote. */
  lemma NoConflictingVotes(P: Params, w: World, s: nat, t: nat, k: nat)
    requires Inv(P, w) && k % 2 == 1 && Sent(w, s, k) && Sent(w, t, k)
    requires w.logs[s][k].value < 2 && w.logs[t][k].value < 2
    ensures w.logs[s][k].value == w.logs[t][k].value
  {
    hide Inv, Count, RoundVerdict, VerdictOf, IsRound;
    InvShape(P, w);
    var x, y := w.logs[s][k].value, w.logs[t][k].value;
    VoteTally(P, w, s, k, x);
    VoteTally(P, w, t, k, y);
    if k > 1 {
      MajoritiesMeet(P, w, s, t, k - 1, Bit(x), Bit(y));
    }
  }

  /** A vote other than '?' was preceded by a majority of states for it, or is 1 in phase 0. */
  lemma VoteTally(P: Params, w: World, s: nat, k: nat, x: uint32)
    requires Inv(P, w) && k % 2 == 1 && Sent(w, s, k) && x == w.logs[s][k].value < 2
    ensures k == 1 ==> x == 1
    ensures k > 1 ==> s < |w.nodes| && Tally(w, s, k - 1, Bit(x)) >= P.c.Majority()
  {
    hide Inv, Count, RoundVerdict, VerdictOf, IsRound;
    InvShape(P, w);
    SentMsg(P, w, s, k);
    NextTally(P, w, s, k - 1, x);
  }

  /** A tally of votes for b excludes votes for the other bit. */
  lemma VoteExcludes(P: Params, w: World, i: nat, j: nat, k: nat, b: bit)
    requires Inv(P, w) && k % 2 == 1 && i < |w.nodes| && j < |w.nodes|
    requires Tally(w, i, k, Bit(b)) > 0
    ensures Tally(w, j, k, Bit(1 - b)) == 0
  {
    hide Inv, Count, RoundVerdict;
    TallyWitness(P, w, i, k, Bit(b));
    TallyWitness(P, w, j, k, Bit(1 - b));
    if Tally(w, j, k, Bit(1 - b)) > 0 {
      var s: nat :| Sends(w, s, k, Bit(b));
      var t: nat :| Sends(w, t, k, Bit(1 - b));
      SentMsg(P, w, s, k);
      SentMsg(P, w, t, k);
      NoConflictingVotes(P, w, s, t, k);
    }
  }

  /** f + 1 votes for b lock every state of the next phase. */
  lemma DecidedByVotes(P: Params, w: World, i: nat, k: nat, b: bit)
    requires Inv(P, w) && k % 2 == 1 && DecidesAt(P, w, i, k, b)
    ensures Locked(w, k + 1, b) && OnlyDecision(P, w, k, b)
  {
    hide Inv, Count, RoundVerdict, VerdictOf;
    InvShape(P, w);
    DecideTally(P, w, i, k, b);
    forall s: nat | Sent(w, s, k + 1)
      ensures w.logs[s][k + 1].value == b
    {
      SentMsg(P, w, s, k + 1);
      Overlap(P, w, i, s, k, Bit(b));
      VoteExcludes(P, w, i, s, k, b);
      VotesVerdict(P, w, s, k, b);
    }
    forall j: nat, c: bit | DecidesAt(P, w, j, k, c)
      ensures c == b
    {
      VoteExcludes(P, w, i, j, k, b);
      DecideTally(P, w, j, k, c);
    }
  }

  /** A super-majority of states for b locks every vote of the phase. */
  lemma DecidedByStates(P: Params, w: World, i: nat, k: nat, b: bit)
    requires Inv(P, w) && k >= 2 && k % 2 == 0 && DecidesAt(P, w, i, k, b)
    ensures Locked(w, k + 1, b) && OnlyDecision(P, w, k, b)
  {
    hide Inv, Count, RoundVerdict, VerdictOf;
    InvShape(P, w);
    DecideTally(P, w, i, k, b);
    forall s: nat | Sent(w, s, k + 1)
      ensures w.logs[s][k + 1].value == b
    {
      SentMsg(P, w, s, k + 1);
      Overlap(P, w, i, s, k, Bit(b));
      OneMajority(P, w, s, k, b);
      StatesVerdict(P, w, s, k, b);
    }
    forall j: nat, c: bit | DecidesAt(P, w, j, k, c)
      ensures c == b
    {
      DecideTally(P, w, j, k, c);
      MajoritiesMeet(P, w, i, j, k, Bit(b), Bit(c));
    }
  }

  lemma OneMajority(P: Params, w: World, s: nat, k: nat, b: bit)
    requires Inv(P, w) && s < |w.nodes| && Tally(w, s, k, Bit(b)) >= P.c.Majority()
    ensures Tally(w, s, k, Bit(1 - b)) < P.c.Majority()
  {
    hide Inv, Count;
    if Tally(w, s, k, Bit(1 - b)) >= P.c.Majority() {
      MajoritiesMeet(P, w, s, s, k, Bit(b), Bit(1 - b));
    }
  }

  /** A super-majority of proposals locks every vote of phase 0 on 1. */
  lemma DecidedByProposals(P: Params, w: World, i: nat, b: bit)
    requires Inv(P, w) && DecidesAt(P, w, i, 0, b)
    ensures b == 1 && Locked(w, 1, 1)
  {
    hide Inv, Count, RoundVerdict, VerdictOf;
    InvShape(P, w);
    DecideTally(P, w, i, 0, b);
    var key := MajKey(HeardBy(w, i, 0));
    forall s: nat | Sent(w, s, 1)
      ensures w.logs[s][1].value == 1
    {
      SentMsg(P, w, s, 1);
      Overlap(P, w, i, s, 0, OfKey(key));
      ProposalsVerdict(P, w, s, key);
    }
  }

  // ---------------------------------------------------------------- agreement

  /** Once a server decides a bit in some round, no server goes more than one phase further, and
      what is still decided is the same bit. */
  lemma EarlierDecisionWins(P: Params, w: World, i: nat, k: nat, b: bit, j: nat, l: nat, c: bit)
    requires Inv(P, w) && DecidesAt(P, w, i, k, b) && DecidesAt(P, w, j, l, c) && k <= l
    ensures b == c
  {
    hide Inv, Count, RoundVerdict, VerdictOf, DecidesAt, Locked;
    DecidedSpread(P, w, i, k, b);
    if l == k {
      if k == 0 {
        DecidedByProposals(P, w, i, b);
        DecidedByProposals(P, w, j, c);
      } else if k % 2 == 1 {
        DecidedByVotes(P, w, i, k, b);
      } else {
        DecidedByStates(P, w, i, k, b);
      }
    } else {
      DecidesAtRound(P, w, j, l, c);
      var s: nat :| Sent(w, s, l);
      if l > k + 2 - (k + 1) % 2 { SentBefore(P, w, s, k + 3 - (k + 1) % 2, l); }
    }
  }

  /** The locking lemmas, whatever the round of the decision: the rest of the phase, or the next
      phase, carries the decided bit and nobody sends anything after it. */
  lemma DecidedSpread(P: Params, w: World, i: nat, k: nat, b: bit)
    requires Inv(P, w) && DecidesAt(P, w, i, k, b)
    ensures Locked(w, k + 1, b)
    ensures k % 2 == 1 ==> Locked(w, k + 2, b)
    ensures NobodySends(w, k + 3 - (k + 1) % 2)
    ensures forall j: nat, l: nat, c: bit :: k < l <= k + 2 - (k + 1) % 2 && DecidesAt(P, w, j, l, c) ==> c == b
  {
    hide Inv, Count, RoundVerdict, VerdictOf, DecidesAt, Locked, NobodySends;
    if k % 2 == 1 {
      DecidedByVotes(P, w, i, k, b);
      LockedStates(P, w, k + 1, b);
      LockedVotes(P, w, k + 2, b);
    } else {
      if k == 0 { DecidedByProposals(P, w, i, b); } else { DecidedByStates(P, w, i, k, b); }
      LockedVotes(P, w, k + 1, b);
    }
  }

  lemma DecidesAtRound(P: Params, w: World, j: nat, l: nat, c: bit)
    requires Inv(P, w) && DecidesAt(P, w, j, l, c)
    ensures exists s: nat :: Sent(w, s, l)
  {
    hide Inv, VerdictOf;
    SomebodySent(P, w, j, l);
  }

  lemma SomebodySent(P: Params, w: World, j: nat, l: nat)
    requires Inv(P, w) && j < |w.nodes| && Full(P.c, w.nodes[j].slot, l)
    ensures exists s: nat :: Sent(w, s, l)
  {
    hide Inv, Count;
    InvShape(P, w);
    CountersAreSenderSets(P, w, j, l, Bit(0));
    var s :| s in Senders(HeardBy(w, j, l));
    assert Sent(w, s, l);
  }

  lemma DecidedBitUnique(P: Params, w: World, b: bit, c: bit)
    requires Inv(P, w) && DecidedBit(P, w, b) && DecidedBit(P, w, c)
    ensures b == c
  {
    hide Inv;
    var i: nat, k: nat :| DecidesAt(P, w, i, k, b);
    var j: nat, l: nat :| DecidesAt(P, w, j, l, c);
    if k <= l { EarlierDecisionWins(P, w, i, k, b, j, l, c); }
    else { EarlierDecisionWins(P, w, j, l, c, i, k, b); }
  }

  lemma ReplyTally(P: Params, w: World, j: nat, obj: ConsensusObj)
    requires j < |w.nodes| && MajorityAt(P, w, j, obj)
    ensures Tally(w, j, 0, OfKey(KeyOf(obj))) >= P.c.Majority()
  {
    var h := HeardBy(w, j, 0);
    BestKeyIsMajority(h);
    FirstObjIn(h, MajKey(h));
  }

  /** Two majority proposals never differ. */
  lemma MajorityProposalUnique(P: Params, w: World, i: nat, j: nat, x: ConsensusObj, y: ConsensusObj)
    requires Inv(P, w) && MajorityAt(P, w, i, x) && MajorityAt(P, w, j, y)
    ensures KeyOf(x) == KeyOf(y)
  {
    hide Inv, Count, ReplyFor;
    ReplyTally(P, w, i, x);
    ReplyTally(P, w, j, y);
    MajoritiesMeet(P, w, i, j, 0, OfKey(KeyOf(x)), OfKey(KeyOf(y)));
  }

  lemma BackedAgree(P: Params, w: World, x: ConsensusObj, y: ConsensusObj)
    requires Inv(P, w) && Backed(P, w, x) && Backed(P, w, y)
    ensures x.isNull == y.isNull
    ensures x.isNull ==> x == y
    ensures KeyOf(x) == KeyOf(y)
  {
    hide Inv, MajorityAt, DecidedBit;
    if x.isNull != y.isNull {
      DecidedBitUnique(P, w, 0, 1);
    } else if !x.isNull {
      var i: nat :| MajorityAt(P, w, i, x);
      var j: nat :| MajorityAt(P, w, j, y);
      MajorityProposalUnique(P, w, i, j, x, y);
    }
  }

  /** A decision a server holds is backed by the rounds of the cluster. */
  lemma DoneBacked(P: Params, w: World, i: nat)
    requires Inv(P, w) && i < |w.nodes| && w.nodes[i].slot.isDone
    ensures Backed(P, w, w.nodes[i].slot.decision)
  {
    hide RoundVerdict, Backed, HeardOk, CompleteOk, JustOk, LogOk, QueueOk;
    assert NodeInv(P, i, w.nodes[i], w.logs[i]) && DecOk(P, w, w.nodes[i], w.logs[i]);
  }

  // ---------------------------------------------------------------- theorems about runs

  /** Agreement: at any two moments of any run, two servers that are done with the slot hold the
      same decision, whichever of the five paths each of them took to it. */
  lemma AgreementHolds(P: Params, run: seq<World>, t: nat, t': nat, i: nat, j: nat)
    requires IsRun(P, run) && t < |run| && t' < |run|
    requires i < |run[t].nodes| && run[t].nodes[i].slot.isDone
    requires j < |run[t'].nodes| && run[t'].nodes[j].slot.isDone
    ensures var x, y := run[t].nodes[i].slot.decision, run[t'].nodes[j].slot.decision;
      x.isNull == y.isNull && KeyOf(x) == KeyOf(y)
  {
    hide IsRun, Inv, Backed;
    var last := if t <= t' then t' else t;
    RunInv(P, run, last);
    RunExtends(P, run, t, last);
    RunExtends(P, run, t', last);
    DoneBacked(P, run[last], i);
    DoneBacked(P, run[last], j);
    BackedAgree(P, run[last], run[last].nodes[i].slot.decision, run[last].nodes[j].slot.decision);
  }

  /** Every object that reaches the cluster under one key has one content. */
  ghost predicate KeysNameObjects(w: World) {
    forall s: nat, t: nat ::
      Sent(w, s, 0) && Sent(w, t, 0) && LabelOf(w.logs[s][0]) == LabelOf(w.logs[t][0]) ==>
        w.logs[s][0].obj == w.logs[t][0].obj
  }

  /** Then agreement is on whole objects. */
  lemma BackedEqual(P: Params, w: World, x: ConsensusObj, y: ConsensusObj)
    requires Inv(P, w) && KeysNameObjects(w) && Backed(P, w, x) && Backed(P, w, y)
    ensures x == y
  {
    hide Inv, MajorityAt, DecidedBit, Count;
    BackedAgree(P, w, x, y);
    if !x.isNull {
      var i: nat :| MajorityAt(P, w, i, x);
      var j: nat :| MajorityAt(P, w, j, y);
      var s := ProposerOf(P, w, i, x);
      var t := ProposerOf(P, w, j, y);
      SentMsg(P, w, s, 0);
      SentMsg(P, w, t, 0);
    }
  }

  /** Agreement on whole objects, in every reachable state. */
  lemma AgreementOnObjects(P: Params, w: World, i: nat, j: nat)
    requires Reachable(P, w) && KeysNameObjects(w) && i < |w.nodes| && j < |w.nodes|
    requires w.nodes[i].slot.isDone && w.nodes[j].slot.isDone
    ensures w.nodes[i].slot.decision == w.nodes[j].slot.decision
  {
    hide Reachable, Inv, Backed, KeysNameObjects;
    ReachableInv(P, w);
    DoneBacked(P, w, i);
    DoneBacked(P, w, j);
    BackedEqual(P, w, w.nodes[i].slot.decision, w.nodes[j].slot.decision);
  }

  lemma ProposerOf(P: Params, w: World, i: nat, x: ConsensusObj) returns (s: nat)
    requires Inv(P, w) && MajorityAt(P, w, i, x)
    ensures Sent(w, s, 0) && w.logs[s][0].obj == Some(x)
  {
    hide Inv, Count;
    MajorityObjAt(P, w, i);
    s :| Sent(w, s, 0) && w.logs[s][0].obj == Some(MajV(HeardAt(w.nodes[i].slot, 0)));
  }

  /** Strong validity: a decision is either the null object of the slot or an object that at
      least n/2 + 1 distinct servers proposed for it, one of them in exactly this form. */
  lemma ValidityHolds(P: Params, w: World, i: nat)
    requires Reachable(P, w) && i < |w.nodes| && w.nodes[i].slot.isDone
    ensures var dec := w.nodes[i].slot.decision;
      if dec.isNull then dec == EMPTY_OBJ.(isNull := true, svrSeq := P.seqNo)
      else
        && (exists proposers: set<nat> ::
              |proposers| >= P.c.Majority() && forall s :: s in proposers ==> Sends(w, s, 0, OfKey(KeyOf(dec))))
        && exists s: nat :: Sent(w, s, 0) && w.logs[s][0].obj == Some(dec)
  {
    hide Reachable, Inv, MajorityAt, DecidedBit, Count;
    ReachableInv(P, w);
    DoneBacked(P, w, i);
    var dec := w.nodes[i].slot.decision;
    if !dec.isNull {
      var j: nat :| MajorityAt(P, w, j, dec);
      MajorityProposers(P, w, j, dec);
    }
  }

  lemma MajorityProposers(P: Params, w: World, j: nat, obj: ConsensusObj)
    requires Inv(P, w) && MajorityAt(P, w, j, obj)
    ensures exists proposers: set<nat> ::
      |proposers| >= P.c.Majority() && forall s :: s in proposers ==> Sends(w, s, 0, OfKey(KeyOf(obj)))
    ensures exists s: nat :: Sent(w, s, 0) && w.logs[s][0].obj == Some(obj)
  {
    hide Inv, Count, ReplyFor;
    ReplyTally(P, w, j, obj);
    var l := OfKey(KeyOf(obj));
    CountersAreSenderSets(P, w, j, 0, l);
    assert |Voters(HeardBy(w, j, 0), l)| >= P.c.Majority();
    var s := ProposerOf(P, w, j, obj);
  }

  /** The same holds of what a ProposalReply carries. */
  lemma RepliesValid(P: Params, w: World, dst: uint32, obj: ConsensusObj)
    requires Reachable(P, w) && (dst, obj) in w.replies
    ensures exists proposers: set<nat> ::
      |proposers| >= P.c.Majority() && forall s :: s in proposers ==> Sends(w, s, 0, OfKey(KeyOf(obj)))
  {
    hide Reachable, MajorityAt, NodeInv, CountingOk, DecOk;
    ReachableInv(P, w);
    assert RepliesOk(P, w);
    var j: nat :| MajorityAt(P, w, j, obj);
    MajorityProposers(P, w, j, obj);
  }

  /** Server s broadcast a State message of the given phase. */
  predicate SendsState(w: World, s: nat, phase: nat, m: Msg) {
    s < |w.logs| && m in w.logs[s] && m.typ == STATE && m.phase == phase
  }

  /** Every State broadcast for a phase carries b. */
  ghost predicate StatesAre(w: World, phase: nat, b: bit) {
    forall s: nat, m :: SendsState(w, s, phase, m) ==> m.value == b
  }

  /** Every vote of round k is '?' or b. */
  ghost predicate VotesAre(w: World, k: nat, b: bit) {
    forall s: nat :: Sent(w, s, k) && w.logs[s][k].value < 2 ==> w.logs[s][k].value == b
  }

  lemma StateRound(P: Params, w: World, s: nat, phase: nat, m: Msg)
    requires Inv(P, w) && SendsState(w, s, phase, m)
    ensures phase > 0 && Sent(w, s, 2 * phase) && w.logs[s][2 * phase] == m
  {
    hide PcOk, QueueOk, JustOk, CountingOk, DecOk, RepliesOk;
    assert NodeInv(P, s, w.nodes[s], w.logs[s]);
    var k :| 0 <= k < |w.logs[s]| && w.logs[s][k] == m;
    assert SentIn(w.logs[s], k);
    assert IsRound(P, m, k);
  }

  lemma LockedMeansStates(P: Params, w: World, phase: nat, b: bit)
    requires Inv(P, w) && (phase > 0 ==> Locked(w, 2 * phase, b))
    ensures StatesAre(w, phase, b)
  {
    hide Inv, SendsState;
    forall s: nat, m | SendsState(w, s, phase, m)
      ensures m.value == b
    {
      StateRound(P, w, s, phase, m);
    }
  }

  /** Locking and bounded spread: once a server finds b decided in a round of phase p, every State
      broadcast for phase p + 1 carries b, and no server ever broadcasts a State of phase p + 2. */
  lemma LockingHolds(P: Params, w: World, i: nat, p: nat, round: nat, b: bit)
    requires Reachable(P, w) && (round == 1 || round == 2)
    requires DecidesAt(P, w, i, RoundIndex(p, round), b)
    ensures StatesAre(w, p + 1, b)
    ensures forall s: nat, q: nat, m :: q >= p + 2 ==> !SendsState(w, s, q, m)
  {
    hide Reachable, Inv, DecidesAt, VerdictOf, SendsState;
    ReachableInv(P, w);
    var k := RoundIndex(p, round);
    DecidedSpread(P, w, i, k, b);
    LockedMeansStates(P, w, p + 1, b);
    forall s: nat, q: nat, m | q >= p + 2
      ensures !SendsState(w, s, q, m)
    {
      if SendsState(w, s, q, m) {
        StateRound(P, w, s, q, m);
        SentBefore(P, w, s, k + 3 - (k + 1) % 2, 2 * q);
      }
    }
  }

  /** Whatever the majority value and tally of a full round are, they stay what they are. */
  lemma FullRoundsFrozen(P: Params, run: seq<World>, t: nat, t': nat, i: nat, k: nat)
    requires IsRun(P, run) && t <= t' < |run|
    requires i < |run[t].nodes| && Full(P.c, run[t].nodes[i].slot, k)
    ensures i < |run[t'].nodes| && HeardAt(run[t'].nodes[i].slot, k) == HeardAt(run[t].nodes[i].slot, k)
    ensures VerdictOf(P, run[t'].nodes[i].slot, k) == VerdictOf(P, run[t].nodes[i].slot, k)
    ensures k == 0 ==> ReplyFor(P, run[t'].nodes[i].slot) == ReplyFor(P, run[t].nodes[i].slot)
  {
    hide IsRun, RoundVerdict;
    RunExtends(P, run, t, t');
  }

  /** Notification order: until a Decision is received, the queue of a slot holds the notices of
      consecutive rounds, starting with the one the executor waits for; afterwards the Decision
      stays in the queue until the slot is decided; and no "should not happen" panic happens. */
  lemma NotificationOrder(P: Params, w: World, i: nat)
    requires Reachable(P, w) && i < |w.nodes|
    ensures !w.nodes[i].pc.Panicked?
    ensures var nd := w.nodes[i]; Queueing(nd.pc) && !nd.slot.hasRecvDec ==>
      && (forall j: nat :: j < |nd.slot.queue| ==> NoticeFor(nd.slot.queue[j], NextNotice(nd) + j))
      && (forall k: nat :: Full(P.c, nd.slot, k) <==> k < NextNotice(nd) + |nd.slot.queue|)
    ensures var nd := w.nodes[i]; Queueing(nd.pc) && nd.slot.hasRecvDec ==>
      exists j :: 0 <= j < |nd.slot.queue| && nd.slot.queue[j].typ == DECISION
  {
    hide Reachable, LogOk, JustOk;
    ReachableInv(P, w);
    assert NodeInv(P, i, w.nodes[i], w.logs[i]);
  }

  lemma FullHasProposal(P: Params, w: World, i: nat)
    requires Inv(P, w) && i < |w.nodes| && Full(P.c, w.nodes[i].slot, 0)
    ensures HasProposal(HeardAt(w.nodes[i].slot, 0))
  {
    hide Inv, FirstObj, BestKey;
    CountersAreSenderSets(P, w, i, 0, Bit(0));
    var h := HeardBy(w, i, 0);
    InvShape(P, w);
    assert h[0].0 in Senders(h);
    HeardLabel(P, w, i, 0);
    CountMember(h, LabelOf(h[0].1));
    MajKeyTally(h, LabelOf(h[0].1).key);
  }

  lemma HeardLabel(P: Params, w: World, i: nat, j: nat)
    requires Inv(P, w) && i < |w.nodes| && j < |HeardBy(w, i, 0)|
    ensures LabelOf(HeardBy(w, i, 0)[j].1).OfKey?
  {
    hide QueueOk, PcOk, JustOk, DecOk;
    assert CountingOk(P, w.nodes[i].slot, w.logs, w.read[i]);
    assert HeardOk(P, w.nodes[i].slot, w.logs, w.read[i], 0);
    var s := HeardBy(w, i, 0)[j].0;
    assert NodeInv(P, s, w.nodes[s], w.logs[s]);
  }

  /** The proposals are there when they are looked at: whenever the executor is told to go on, its
      current round is full and its arrays have the entries of the round, and it received a
      proposal; and a server that answers a ProposalRequest has one to answer with. */
  lemma ProposalsArePresent(P: Params, w: World, i: nat)
    requires Reachable(P, w) && i < |w.nodes|
    ensures var nd := w.nodes[i]; nd.pc.Ready? ==>
      && InRound(P, nd.slot) && Full(P.c, nd.slot, RoundIndex(nd.slot.phase, nd.slot.round))
      && Full(P.c, nd.slot, 0)
    ensures Full(P.c, w.nodes[i].slot, 0) ==> HasProposal(HeardAt(w.nodes[i].slot, 0))
  {
    hide Reachable, QueueOk;
    ReachableInv(P, w);
    var nd := w.nodes[i];
    assert NodeInv(P, i, nd, w.logs[i]);
    if nd.pc.Ready? && RoundIndex(nd.slot.phase, nd.slot.round) > 0 {
      assert SentIn(w.logs[i], 1);
    }
    if Full(P.c, nd.slot, 0) { FullHasProposal(P, w, i); }
  }

  /** Every message that a server broadcasts is one that a handler can take, and is about this slot;
      all but ProposalRequests have an object. */
  lemma SentIsHandled(P: Params, w: World, s: nat, k: nat)
    requires Reachable(P, w) && s < |w.logs| && k < |w.logs[s]|
    ensures Handled(P.lenBlock, w.logs[s][k]) && SlotNamed(w.logs[s][k]) == Some(P.seqNo)
    ensures w.logs[s][k].obj.None? <==> w.logs[s][k].typ == PROPOSAL_REQUEST
  {
    hide Reachable, QueueOk, PcOk, JustOk, AskOk, HeardOk, CompleteOk, DecOk;
    ReachableInv(P, w);
    var log := w.logs[s];
    assert NodeInv(P, s, w.nodes[s], log);
    if SentIn(log, k) { assert IsRound(P, log[k], k); }
  }

  // ---------------------------------------------------------------- how rounds end

  lemma {:induction false} BothBits(h: Heard)
    ensures Count(h, Bit(0)) + Count(h, Bit(1)) <= |h|
  {
    if |h| > 0 { BothBits(h[..|h| - 1]); }
  }

  /** How many distinct servers a server heard b from in round k. */
  ghost function Supporters(w: World, i: nat, k: nat, b: bit): nat
    requires i < |w.nodes|
  {
    |Voters(HeardBy(w, i, k), Bit(b))|
  }

  /** A full round of states decides b exactly when n/2 + f + 1 servers sent b, and lets its reader vote
      for b exactly when n/2 + 1 but no more did. A full round of votes decides b exactly when f + 1
      servers voted for it, and fewer, if any, make its reader's next state b; after phase 0 without
      any it is 0, and later the flip of the phase. */
  lemma RoundsEnd(P: Params, w: World, i: nat, k: nat, b: bit)
    requires Reachable(P, w) && i < |w.nodes| && k > 0
    ensures var n, f := P.c.nServers, P.c.nFaulty;
      var votes, verdict := Supporters(w, i, k, b), VerdictOf(P, w.nodes[i].slot, k);
      && (k % 2 == 0 ==> (verdict == Decide(b) <==> votes >= n / 2 + f + 1))
      && (k % 2 == 0 ==> (verdict == Next(b) <==> n / 2 + 1 <= votes < n / 2 + f + 1))
      && (k % 2 == 1 ==> (verdict == Decide(b) <==> votes >= f + 1))
      && (k % 2 == 1 && 1 <= votes <= f ==> verdict == Next(b))
      && (k % 2 == 1 && votes == 0 == Supporters(w, i, k, 1 - b) ==>
            verdict == Next(if k == 1 then 0 else P.coin(k / 2 - 1)))
  {
    hide Reachable, Inv, Count, RoundVerdict, Voters;
    ReachableInv(P, w);
    InvShape(P, w);
    CountersAreSenderSets(P, w, i, k, Bit(b));
    CountersAreSenderSets(P, w, i, k, Bit(1 - b));
    BothBits(HeardBy(w, i, k));
    if k % 2 == 0 {
      StatesEnd(P.c, FlipOf(P, k), k, HeardBy(w, i, k), b);
    } else {
      OneBit(P, w, i, k);
      VotesEnd(P.c, FlipOf(P, k), k, HeardBy(w, i, k), b);
    }
  }

  lemma OneBit(P: Params, w: World, i: nat, k: nat)
    requires Inv(P, w) && i < |w.nodes| && k % 2 == 1
    ensures Tally(w, i, k, Bit(0)) == 0 || Tally(w, i, k, Bit(1)) == 0
  {
    hide Inv, Count;
    TallyWitness(P, w, i, k, Bit(0));
    TallyWitness(P, w, i, k, Bit(1));
    if Tally(w, i, k, Bit(0)) > 0 && Tally(w, i, k, Bit(1)) > 0 {
      var s: nat :| Sends(w, s, k, Bit(0));
      var t: nat :| Sends(w, t, k, Bit(1));
      SentMsg(P, w, s, k);
      SentMsg(P, w, t, k);
      NoConflictingVotes(P, w, s, t, k);
    }
  }

  /** A full round of proposals decides 1 exactly when n/2 + f + 1 servers proposed one object, and else
      lets its reader vote 1 exactly when n/2 + 1 did. */
  lemma ProposalsRoundEnds(P: Params, w: World, i: nat)
    requires Reachable(P, w) && i < |w.nodes|
    ensures var n, f := P.c.nServers, P.c.nFaulty;
      VerdictOf(P, w.nodes[i].slot, 0) ==
        if ProposedBy(w, i, n / 2 + f + 1) then Decide(1) else Next(if ProposedBy(w, i, n / 2 + 1) then 1 else 2)
  {
    hide Reachable, Inv, Count, RoundVerdict, Voters, Proposed;
    ReachableInv(P, w);
    InvShape(P, w);
    ProposalsEnd(P.c, FlipOf(P, 0), HeardBy(w, i, 0));
    CountsAreServers(P, w, i, P.c.nServers / 2 + P.c.nFaulty + 1);
    CountsAreServers(P, w, i, P.c.nServers / 2 + 1);
  }

  /** Server i heard of t distinct servers that proposed one object. */
  ghost predicate ProposedBy(w: World, i: nat, t: nat)
    requires i < |w.nodes|
  {
    exists k: Key :: |Voters(HeardBy(w, i, 0), OfKey(k))| >= t
  }

  lemma CountsAreServers(P: Params, w: World, i: nat, t: nat)
    requires Inv(P, w) && i < |w.nodes| && t > 0
    ensures Proposed(HeardBy(w, i, 0), t) <==> ProposedBy(w, i, t)
  {
    hide Inv, Count, Voters;
    forall k: Key
      ensures Count(HeardBy(w, i, 0), OfKey(k)) == |Voters(HeardBy(w, i, 0), OfKey(k))|
    {
      CountersAreSenderSets(P, w, i, 0, OfKey(k));
    }
  }

  /** A server that asks for the object counted no majority for any; so it could not have answered
      itself. */
  lemma AskingHasNoMajority(P: Params, w: World, i: nat)
    requires Reachable(P, w) && i < |w.nodes| && w.nodes[i].pc.Asking?
    ensures ReplyFor(P, w.nodes[i].slot).None? && !ProposedBy(w, i, P.c.nServers / 2 + 1)
  {
    hide Reachable, LogOk, JustOk, QueueOk, CountingOk, DecOk, ReplyFor, Proposed, ProposedBy;
    ReachableInv(P, w);
    assert NodeInv(P, i, w.nodes[i], w.logs[i]);
    ReplyExact(P, w.nodes[i].slot);
    CountsAreServers(P, w, i, P.c.nServers / 2 + 1);
  }

  /** A server that counted a majority for an object ends every turn in which it decides 1 with that
      object, and broadcasts it. */
  lemma MajorityTurn(P: Params, w: World, i: nat, obj: ConsensusObj)
    requires Reachable(P, w) && Shape(P, w) && Can(P, w, Proceed(i)) && MajorityAt(P, w, i, obj)
    requires VerdictOf(P, w.nodes[i].slot, RoundIndex(w.nodes[i].slot.phase, w.nodes[i].slot.round)) == Decide(1)
    ensures var (nd, out) := AfterWait(P, i, w.nodes[i]);
      nd.pc == Deciding(obj) && out == [Msg(DECISION, 0, 0, Some(obj))]
  {
    hide Reachable, RoundVerdict, AfterWait, LogOk, JustOk, QueueOk, CountingOk, DecOk, HasProposal, MajT, MajV;
    ReachableInv(P, w);
    assert NodeInv(P, i, w.nodes[i], w.logs[i]);
    SameFlip(P, w.nodes[i]);
    AfterWaitDecide(P, i, w.nodes[i], 1);
    MajorityObjAt(P, w, i);
  }

  /** The object with no content but the slot number. */
  function Stamp(P: Params, isNull: bool): ConsensusObj {
    ConsensusObj(0, 0, P.seqNo, isNull, [], [], [])
  }

  /** The verdict on the round that server i is in. */
  function VerdictNow(P: Params, w: World, i: nat): Verdict
    requires i < |w.nodes| && 1 <= w.nodes[i].slot.round <= 2
  {
    VerdictOf(P, w.nodes[i].slot, RoundIndex(w.nodes[i].slot.phase, w.nodes[i].slot.round))
  }

  /** And the other ways in which a turn ends: one that decides 0 with the null object and its Decision;
      one that decides 1 without a majority with a request for the object; and one that decides nothing
      with the vote of the phase or the state of the next phase, unless there is no next phase. */
  lemma OtherTurns(P: Params, w: World, i: nat)
    requires Reachable(P, w) && Shape(P, w) && Can(P, w, Proceed(i))
    ensures var v := w.nodes[i].slot;
      var (nd, out) := AfterWait(P, i, w.nodes[i]);
      var verdict := VerdictNow(P, w, i);
      && (verdict == Decide(0) ==>
            nd.pc == Deciding(Stamp(P, true)) && out == [Msg(DECISION, 0, 0, Some(Stamp(P, true)))])
      && (verdict == Decide(1) && ReplyFor(P, v).None? ==>
            nd.pc == Asking && out == [Msg(PROPOSAL_REQUEST, i, P.seqNo, None)])
      && (verdict.Next? && v.round == 1 ==>
            nd.pc == Waiting && out == [Msg(VOTE, v.phase, verdict.x, Some(Stamp(P, false)))])
      && (verdict.Next? && v.round == 2 && v.phase + 1 < P.lenBlock ==>
            nd.pc == Waiting && out == [Msg(STATE, v.phase + 1, verdict.x, Some(Stamp(P, false)))])
      && (verdict.Next? && v.round == 2 && v.phase + 1 >= P.lenBlock ==> nd.pc == Crashed && out == [])
  {
    hide Reachable, RoundVerdict, AfterWait, LogOk, JustOk, QueueOk, CountingOk, DecOk, HasProposal, MajT, MajV;
    ReachableInv(P, w);
    ProposalsArePresent(P, w, i);
    var nd := w.nodes[i];
    assert NodeInv(P, i, nd, w.logs[i]);
    SameFlip(P, nd);
    RoundParts(nd.slot.phase, nd.slot.round);
    match VerdictNow(P, w, i)
    case Decide(b) =>
      AfterWaitDecide(P, i, nd, b);
      if nd.slot.phase == 0 && nd.slot.round == 1 { ProposalsDecide(P, w, i, b); }
    case Next(x) => AfterWaitNext(P, i, nd, x);
  }

  /** The proposals decide 1 only, and then there is a majority. */
  lemma ProposalsDecide(P: Params, w: World, i: nat, b: bit)
    requires P.Valid() && i < |w.nodes| && Full(P.c, w.nodes[i].slot, 0)
    requires VerdictOf(P, w.nodes[i].slot, 0) == Decide(b)
    ensures b == 1 && ReplyFor(P, w.nodes[i].slot).Some?
  {
    hide BestKey, Count, FirstObj;
  }

  /** Only servers that asked are replied to. */
  lemma RepliesWereAskedFor(P: Params, run: seq<World>, t: nat, dst: uint32, obj: ConsensusObj)
    requires IsRun(P, run) && t < |run| && (dst, obj) in run[t].replies
    ensures dst < |run[t].logs| && exists k: nat :: AskedAt(P, run[t], dst, k)
    decreases t
  {
    hide Inv, Do, Can;
    RunInv(P, run, t);
    if t > 0 {
      RunInv(P, run, t - 1);
      RunExtends(P, run, t - 1, t);
      assert Leads(P, run[t - 1], run[t]);
      var st :| Can(P, run[t - 1], st) && run[t] == Do(P, run[t - 1], st);
      if (dst, obj) in run[t - 1].replies {
        RepliesWereAskedFor(P, run, t - 1, dst, obj);
        var k: nat :| AskedAt(P, run[t - 1], dst, k);
        assert run[t - 1].logs[dst] <= run[t].logs[dst];
        assert AskedAt(P, run[t], dst, k);
      } else {
        NewReply(P, run[t - 1], st, dst, obj);
      }
    }
  }

  /** log entry k of a server is its request for the proposal of this slot. */
  predicate AskedAt(P: Params, w: World, i: uint32, k: nat) {
    i < |w.logs| && k < |w.logs[i]| && w.logs[i][k] == Msg(PROPOSAL_REQUEST, i, P.seqNo, None)
  }

  lemma NewReply(P: Params, w: World, st: Step, dst: uint32, obj: ConsensusObj)
    requires Inv(P, w) && Can(P, w, st) && (dst, obj) !in w.replies && (dst, obj) in Do(P, w, st).replies
    ensures dst < |Do(P, w, st).logs| && exists k: nat :: AskedAt(P, Do(P, w, st), dst, k)
  {
    hide PcOk, QueueOk, JustOk, CountingOk, DecOk, RepliesOk, AfterWait, Handle, ReplyFor, PopNode;
    var w' := Do(P, w, st);
    var k := w.read[st.r][st.s];
    assert NodeInv(P, st.s, w.nodes[st.s], w.logs[st.s]);
    assert AskedAt(P, w', dst, k);
  }

  // ---------------------------------------------------------------- unanimity and the coin

  /** All proposals broadcast so far name the same object. */
  ghost predicate Unanimous(w: World, key: Key) {
    forall s: nat :: Sent(w, s, 0) ==> Sends(w, s, 0, OfKey(key))
  }

  lemma UnanimousRounds(P: Params, w: World, key: Key)
    requires Inv(P, w) && Unanimous(w, key)
    ensures Locked(w, 1, 1) && NobodySends(w, 2)
    ensures EveryoneDecides(P, w, 1, 1)
    ensures !DecidedBit(P, w, 0)
    ensures forall j: nat, obj :: MajorityAt(P, w, j, obj) ==> KeyOf(obj) == key
  {
    hide Inv, Count, VerdictOf, ReplyFor;
    InvShape(P, w);
    forall s: nat | Sent(w, s, 1)
      ensures w.logs[s][1].value == 1
    {
      SentMsg(P, w, s, 1);
      AllSame(P, w, s, 0, OfKey(key));
      ProposalsVerdict(P, w, s, key);
    }
    LockedVotes(P, w, 1, 1);
    if DecidedBit(P, w, 0) {
      var i: nat, k: nat :| DecidesAt(P, w, i, k, 0);
      DecidesAtRound(P, w, i, k, 0);
      var s: nat :| Sent(w, s, k);
      if k >= 2 { SentBefore(P, w, s, 2, k); }
      if k == 0 { DecidedByProposals(P, w, i, 0); }
    }
    forall j: nat, obj | MajorityAt(P, w, j, obj)
      ensures KeyOf(obj) == key
    {
      ReplyTally(P, w, j, obj);
      AllSame(P, w, j, 0, OfKey(key));
    }
  }

  /** A server that froze its proposals has the object at hand. */
  lemma UnanimousReturn(P: Params, w: World, key: Key, i: nat)
    requires Inv(P, w) && Unanimous(w, key) && i < |w.nodes| && Full(P.c, w.nodes[i].slot, 0)
    ensures var found := ReturnValue(P, w.nodes[i].slot, 1);
      found.Some? && !found.value.isNull && KeyOf(found.value) == key
    ensures ReplyFor(P, w.nodes[i].slot).Some?
  {
    hide Inv, Count;
    InvShape(P, w);
    AllSame(P, w, i, 0, OfKey(key));
    MajKeyTally(HeardAt(w.nodes[i].slot, 0), key);
    MajorityObjAt(P, w, i);
    assert MajorityAt(P, w, i, ReturnValue(P, w.nodes[i].slot, 1).value);
    UnanimousRounds(P, w, key);
  }

  /** The unanimous fast path: if every server proposes the same object, nobody enters phase 1,
      nobody decides null or has to ask for the object, every decision is that object, and a server
      that goes on from its phase-0 votes decides it. */
  lemma UnanimousFastPath(P: Params, w: World, key: Key, i: nat)
    requires Reachable(P, w) && Unanimous(w, key) && i < |w.nodes|
    ensures w.nodes[i].slot.isDone ==>
      !w.nodes[i].slot.decision.isNull && KeyOf(w.nodes[i].slot.decision) == key
    ensures w.nodes[i].pc.Waiting? || w.nodes[i].pc.Ready? ==> w.nodes[i].slot.phase == 0
    ensures Full(P.c, w.nodes[i].slot, 1) ==> VerdictOf(P, w.nodes[i].slot, 1) == Decide(1)
    ensures Full(P.c, w.nodes[i].slot, 0) ==>
      var found := ReturnValue(P, w.nodes[i].slot, 1);
      found.Some? && !found.value.isNull && KeyOf(found.value) == key
    ensures !w.nodes[i].pc.Asking?
    ensures forall s: nat, q: nat, m :: !SendsState(w, s, q, m)
  {
    hide Reachable, LogOk, JustOk, QueueOk, CountingOk, DecOk, VerdictOf, MajorityAt, DecidedBit, SendsState, Unanimous,
      ReturnValue, ReplyFor;
    ReachableInv(P, w);
    UnanimousRounds(P, w, key);
    if w.nodes[i].slot.isDone { DoneBacked(P, w, i); }
    assert NodeInv(P, i, w.nodes[i], w.logs[i]);
    if Full(P.c, w.nodes[i].slot, 0) { UnanimousReturn(P, w, key, i); }
    if (w.nodes[i].pc.Waiting? || w.nodes[i].pc.Ready?) && w.nodes[i].slot.phase > 0 {
      SentBefore(P, w, i, 2, RoundIndex(w.nodes[i].slot.phase, w.nodes[i].slot.round));
    }
    forall s: nat, q: nat, m
      ensures !SendsState(w, s, q, m)
    {
      if SendsState(w, s, q, m) {
        StateRound(P, w, s, q, m);
        SentBefore(P, w, s, 2, 2 * q);
      }
    }
  }

  /** So the turn of the executor after its phase-0 votes ends with that decision, and with the
      broadcast of it. */
  lemma UnanimousTurn(P: Params, w: World, key: Key, i: nat)
    requires Reachable(P, w) && Unanimous(w, key)
    requires Shape(P, w) && Can(P, w, Proceed(i)) && w.nodes[i].slot.round == 2
    ensures var (nd, out) := AfterWait(P, i, w.nodes[i]);
      && nd.pc.Deciding? && !nd.pc.dec.isNull && KeyOf(nd.pc.dec) == key
      && out == [DecisionMsg(P, nd.pc.dec)]
  {
    hide Reachable, Unanimous, ReturnValue, RoundVerdict, AfterWait, SendsState, QueueOk, LogOk, JustOk, CountingOk,
      DecOk;
    UnanimousFastPath(P, w, key, i);
    ProposalsArePresent(P, w, i);
    ReachableInv(P, w);
    assert NodeInv(P, i, w.nodes[i], w.logs[i]);
    SameFlip(P, w.nodes[i]);
    AfterWaitDecide(P, i, w.nodes[i], 1);
  }

  /** The common coin: in the same phase of a slot all servers flip the same bit. */
  lemma CoinIsCommon(P: Params, w: World, i: nat, j: nat)
    requires Reachable(P, w) && i < |w.nodes| && j < |w.nodes|
    requires w.nodes[i].pc.Ready? && w.nodes[j].pc.Ready?
    requires FlipsCoin(w.nodes[i].slot) && FlipsCoin(w.nodes[j].slot)
    requires w.nodes[i].slot.phase == w.nodes[j].slot.phase
    ensures w.nodes[i].flips == w.nodes[j].flips == w.nodes[i].slot.phase - 1
    ensures P.coin(w.nodes[i].flips) == P.coin(w.nodes[j].flips)
  {
    hide Reachable, LogOk, JustOk, QueueOk, CountingOk, DecOk;
    ReachableInv(P, w);
    assert NodeInv(P, i, w.nodes[i], w.logs[i]) && NodeInv(P, j, w.nodes[j], w.logs[j]);
  }

  lemma CoinVerdict(P: Params, w: World, s: nat, k: nat, x: uint32)
    requires s < |w.nodes| && k % 2 == 1 && k >= 3
    requires VerdictOf(P, w.nodes[s].slot, k) == Next(x)
    ensures x == FlipOf(P, k) || (x < 2 && Tally(w, s, k, Bit(x)) > 0)
  {
  }

  /** Convergence: if the bit flipped in phase p is the value of every vote of phase p other than
      '?', then every server that completes phase p + 1 decides that bit in it. */
  lemma CoinConverges(P: Params, w: World, p: nat)
    requires Reachable(P, w) && p >= 1
    requires VotesAre(w, 2 * p + 1, P.coin(p - 1))
    ensures StatesAre(w, p + 1, P.coin(p - 1))
    ensures EveryoneDecides(P, w, 2 * p + 3, P.coin(p - 1))
    ensures OnlyDecision(P, w, 2 * p + 2, P.coin(p - 1)) && NobodySends(w, 2 * p + 4)
  {
    hide Reachable, Inv, Count, VerdictOf, SendsState, IsRound;
    ReachableInv(P, w);
    InvShape(P, w);
    var k, b := 2 * p + 1, P.coin(p - 1);
    var k' := k + 1;
    assert FlipOf(P, k) == b;
    forall s: nat | Sent(w, s, k')
      ensures w.logs[s][k'].value == b
    {
      SentMsg(P, w, s, k');
      var x := w.logs[s][k'].value;
      CoinVerdict(P, w, s, k, x);
      TallyWitness(P, w, s, k, Bit(x));
      if x != b {
        var t: nat :| Sends(w, t, k, Bit(x));
        SentMsg(P, w, t, k);
      }
    }
    assert Locked(w, k', b);
    LockedStates(P, w, k', b);
    LockedVotes(P, w, k' + 1, b);
    LockedMeansStates(P, w, p + 1, b);
  }
}
