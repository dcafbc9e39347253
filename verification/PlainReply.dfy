/**
 The reply of a node that lists the logs of a range block by block: honest
 replies exist for every range of every valid chain.
 */
module PlainReply {
  import opened Wrappers
  import opened FetchJoin
  import opened ChainSpec

  /** The logs of the blocks from `lo` up to, not including, `end`. */
  function LogsIn(c: Chain, lo: nat, end: nat): seq<Log> {
    if end <= lo then [] else LogsIn(c, lo, end - 1) + c.logs(end - 1)
  }

  function PlainLogs(c: Chain, lo: nat, hi: nat): seq<Log> {
    LogsIn(c, lo, hi + 1)
  }

  function PlainBatch(c: Chain, logs: seq<Log>): (seq<Header>, seq<Tx>) {
    (seq(|FirstSeen(logs)|, i requires 0 <= i < |FirstSeen(logs)| => c.header(FirstSeen(logs)[i])),
     seq(|logs|, i requires 0 <= i < |logs| => c.tx(logs[i].txHash)))
  }

  /** The logs of a block name that block, and only that block. */
  ghost predicate InOwnBlock(c: Chain) {
    forall b, l :: l in c.logs(b) ==> l.blockNumber == b
  }

  ghost predicate OneBlockEach(c: Chain) {
    forall b1, b2, l1, l2 :: l1 in c.logs(b1) && l2 in c.logs(b2) && l1.txHash == l2.txHash ==> b1 == b2
  }

  ghost predicate IndexOrder(c: Chain) {
    forall b, i, j :: 0 <= i < j < |c.logs(b)| ==> c.logs(b)[i].index < c.logs(b)[j].index
  }

  lemma {:induction false} ValidLogs(c: Chain)
    requires Valid(c)
    ensures InOwnBlock(c) && OneBlockEach(c) && IndexOrder(c)
  {
    forall b, l | l in c.logs(b) ensures l.blockNumber == b {
      var i :| 0 <= i < |c.logs(b)| && c.logs(b)[i] == l;
    }
    forall b1, b2, l1, l2 | l1 in c.logs(b1) && l2 in c.logs(b2) && l1.txHash == l2.txHash ensures b1 == b2 {
      var i :| 0 <= i < |c.logs(b1)| && c.logs(b1)[i] == l1;
      var j :| 0 <= j < |c.logs(b2)| && c.logs(b2)[j] == l2;
      OneBlock(c, b1, i, b2, j);
    }
  }

  lemma {:induction false} PlainHolds(c: Chain, lo: nat, end: nat, l: Log)
    requires InOwnBlock(c)
    ensures l in LogsIn(c, lo, end) <==> lo <= l.blockNumber < end && l in c.logs(l.blockNumber)
    decreases end
  {
    if lo < end {
      PlainHolds(c, lo, end - 1, l);
    }
  }

  lemma {:induction false} PlainOrder(c: Chain, lo: nat, end: nat, i: nat, j: nat)
    requires InOwnBlock(c) && OneBlockEach(c) && IndexOrder(c)
    requires i < j < |LogsIn(c, lo, end)| && LogsIn(c, lo, end)[i].txHash == LogsIn(c, lo, end)[j].txHash
    ensures LogsIn(c, lo, end)[i].index < LogsIn(c, lo, end)[j].index
    decreases end
  {
    var logs, before := LogsIn(c, lo, end), LogsIn(c, lo, end - 1);
    assert logs == before + c.logs(end - 1);
    if j < |before| {
      PlainOrder(c, lo, end - 1, i, j);
    } else {
      assert logs[j] in c.logs(end - 1);
      if i < |before| {
        assert before[i] in before;
        PlainHolds(c, lo, end - 1, before[i]);
      }
    }
  }

  /** Every range of every valid chain has an honest reply. */
  lemma {:induction false} PlainIsHonest(c: Chain, lo: nat, hi: nat)
    requires Valid(c)
    ensures var logs := PlainLogs(c, lo, hi);
            Honest(c, lo, hi, Ok(logs), Ok(PlainBatch(c, logs))) && Answers(Ok(logs), Ok(PlainBatch(c, logs)))
  {
    var logs := PlainLogs(c, lo, hi);
    ValidLogs(c);
    forall l ensures l in logs <==> lo <= l.blockNumber <= hi && l in c.logs(l.blockNumber) {
      PlainHolds(c, lo, hi + 1, l);
    }
    forall i, j | 0 <= i < j < |logs| && logs[i].txHash == logs[j].txHash ensures logs[i].index < logs[j].index {
      PlainOrder(c, lo, hi + 1, i, j);
    }
    TruthfulAnswers(c, lo, hi, Ok(logs), Ok(PlainBatch(c, logs)));
  }

  /** The plain reply is turned into records exactly when no deciding log of the range fails. */
  lemma {:induction false} PlainSucceeds(lib: Lib, c: Chain, lo: nat, hi: nat)
    requires Valid(c)
    ensures var logs := PlainLogs(c, lo, hi);
            && Answers(Ok(logs), Ok(PlainBatch(c, logs)))
            && (Fetched(lib, Ok(logs), Ok(PlainBatch(c, logs))).Ok? <==> !Fails(lib, c, lo, hi))
  {
    var logs := PlainLogs(c, lo, hi);
    PlainIsHonest(c, lo, hi);
    FetchMeetsSpec(lib, c, lo, hi, Ok(logs), Ok(PlainBatch(c, logs)));
  }
}
