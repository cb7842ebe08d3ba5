/** The requests a server still has to get decided, and what the end of a slot does to them.
    Sources: internal/queue/queue.go, roles/server/layers/consensus/executor.go. */
module Pending {
  import opened Messages

  /** Requests waiting to be proposed, and keys whose copy is to be dropped when it is popped. */
  datatype Requests = Requests(queue: multiset<ConsensusObj>, discard: set<Key>)

  /** No queued request comes before obj. */
  predicate IsLeast(queue: multiset<ConsensusObj>, obj: ConsensusObj) {
    obj in queue && forall x :: x in queue ==> !ProxySeqIdLessThan(x, obj)
  }

  /** The request popped has the smallest sequence number that a proxy gave any pending request, and of
      those with that number the smallest proxy id; so the requests of one proxy are popped in the
      order in which it made them. */
  lemma LeastIsOldest(queue: multiset<ConsensusObj>, obj: ConsensusObj)
    ensures IsLeast(queue, obj) <==>
      && obj in queue
      && forall x :: x in queue ==> obj.proSeq < x.proSeq || (obj.proSeq == x.proSeq && obj.proId <= x.proId)
  {
  }

  function Popped(r: Requests, obj: ConsensusObj): Requests {
    if KeyOf(obj) in r.discard then Requests(r.queue - multiset{obj}, r.discard - {KeyOf(obj)})
    else r.(queue := r.queue - multiset{obj})
  }

  /** The effect of epilogue on the requests, for my proposal and a decision. */
  function AfterEpilogue(r: Requests, mine: ConsensusObj, dec: ConsensusObj): Requests {
    if dec.isNull then r.(queue := r.queue + multiset{mine})
    else if KeyOf(dec) == KeyOf(mine) then r
    else Requests(r.queue + multiset{mine}, r.discard + {KeyOf(dec)})
  }

  /** The priority queue. Only its order of removal is modelled: Pop takes the first element that
      no other one precedes. */
  class PQueue {
    var items: seq<ConsensusObj>

    ghost function Contents(): multiset<ConsensusObj>
      reads this
    {
      multiset(items)
    }

    constructor ()
      ensures Contents() == multiset{}
    {
      items := [];
    }

    method Push(obj: ConsensusObj)
      modifies this
      ensures Contents() == old(Contents()) + multiset{obj}
    {
      items := items + [obj];
    }

    method Pop() returns (obj: ConsensusObj, ok: bool)
      modifies this
      ensures ok <==> old(Contents()) != multiset{}
      ensures ok ==> IsLeast(old(Contents()), obj) && Contents() == old(Contents()) - multiset{obj}
      ensures ok ==> forall x :: x in old(Contents()) ==>
        obj.proSeq < x.proSeq || (obj.proSeq == x.proSeq && obj.proId <= x.proId)
      ensures !ok ==> Contents() == old(Contents())
    {
      if |items| == 0 {
        return EMPTY_OBJ, false;
      }
      assert items[0] in multiset(items);
      var least := 0;
      for i := 1 to |items|
        invariant 0 <= least < |items|
        invariant forall k :: 0 <= k < i ==> !ProxySeqIdLessThan(items[k], items[least])
      {
        if ProxySeqIdLessThan(items[i], items[least]) {
          least := i;
        }
      }
      obj, ok := items[least], true;
      assert forall x :: x in multiset(items) ==> x in items;
      assert items == items[..least] + [obj] + items[least + 1..];
      items := items[..least] + items[least + 1..];
    }
  }
}
