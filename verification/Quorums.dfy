/** The four thresholds every round of the protocol compares a tally with.
    Source: internal/config/config.go. */
module Quorums {

  /** Conf.LenLedger and Conf.LenBlockArray. */
  const LEN_LEDGER := 10000
  const LEN_BLOCK_ARRAY := 10

  /** The size of the cluster and the number of servers that may crash. */
  datatype Conf = Conf(nServers: nat, nFaulty: nat) {
    /** The deployment's promise: fewer than half of the servers are faulty. */
    predicate Valid() {
      2 * nFaulty < nServers < 0x1_0000_0000
    }

    function NMinusF(): int { nServers - nFaulty }
    function Majority(): int { nServers / 2 + 1 }
    function MajorityPlusF(): int { nServers / 2 + nFaulty + 1 }
    function FaultyPlusOne(): int { nFaulty + 1 }
  }

  /** The fields of the global Conf object that CalcConstants fills in. */
  class Config {
    var NServers: nat
    var NFaulty: nat
    var NMinusF: int
    var Majority: int
    var MajorityPlusF: int
    var FaultyPlusOne: int
    var LenLedger: int
    var LenBlockArray: int

    ghost function Value(): Conf
      reads this
    {
      Conf(NServers, NFaulty)
    }

    /** What the safety argument needs of the constants: two majorities meet; a majority survives
        when f of its members are not heard; a full round contains a majority and f + 1 votes;
        and any f + 1 servers meet every full round. */
    method CalcConstants()
      modifies this
      ensures Value() == old(Value())
      ensures NMinusF == Value().NMinusF() && Majority == Value().Majority()
      ensures MajorityPlusF == Value().MajorityPlusF() && FaultyPlusOne == Value().FaultyPlusOne()
      ensures LenLedger == LEN_LEDGER && LenBlockArray == LEN_BLOCK_ARRAY
      ensures 2 * Majority > NServers && MajorityPlusF - NFaulty == Majority
      ensures FaultyPlusOne + NMinusF == NServers + 1
      ensures Value().Valid() ==> NMinusF >= Majority && NMinusF >= FaultyPlusOne
      ensures Value().Valid() ==> (MajorityPlusF <= NMinusF <==> 4 * NFaulty + 1 <= NServers)
    {
      NMinusF := NServers - NFaulty;
      Majority := NServers / 2 + 1;
      MajorityPlusF := NServers / 2 + NFaulty + 1;
      FaultyPlusOne := NFaulty + 1;
      LenLedger := 10000;
      LenBlockArray := 10;
    }
  }
}
