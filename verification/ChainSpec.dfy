/**
 What an indexer should store for each block of a fixed chain, and that
 fetchData (fetcher/fetcher.go) returns it for every honest reply.
 */
module ChainSpec {
  import opened Wrappers
  import opened Types
  import opened FetchJoin

  /** The chain: the matching logs of each block, its header, and every transaction. */
  datatype Chain = Chain(logs: nat -> seq<Log>, header: nat -> Header, tx: Hash -> Tx)

  /** Logs are listed by index, and all logs of a transaction are in its block. */
  ghost predicate Valid(c: Chain) {
    && (forall b, i :: 0 <= i < |c.logs(b)| ==> c.logs(b)[i].blockNumber == b)
    && (forall b, i, j :: 0 <= i < j < |c.logs(b)| ==> c.logs(b)[i].index < c.logs(b)[j].index)
    && (forall b1, b2, i, j ::
          0 <= i < |c.logs(b1)| && 0 <= j < |c.logs(b2)| && c.logs(b1)[i].txHash == c.logs(b2)[j].txHash ==> b1 == b2)
    && (forall b :: c.header(b).number == b)
    && (forall h :: c.tx(h).hash == h)
  }

  // ---------- What should be stored ----------

  function SenderOf(lib: Lib, c: Chain, log: Log): Option<Address> {
    lib.sender(c.header(log.blockNumber), c.tx(log.txHash))
  }

  /** The transaction of the log has a sender and a recipient, and the data of the log decodes to a root. */
  predicate Readable(lib: Lib, c: Chain, log: Log) {
    SenderOf(lib, c, log).Some? && c.tx(log.txHash).to.Some? && lib.decode(log.data).Root?
  }

  /** The configured address sent the transaction of the log or received it. */
  predicate Involves(lib: Lib, c: Chain, log: Log) {
    || SenderOf(lib, c, log) == Some(lib.inputAddress)
    || c.tx(log.txHash).to == Some(lib.inputAddress)
  }

  predicate Matches(lib: Lib, c: Chain, log: Log) {
    Readable(lib, c, log) && Involves(lib, c, log)
  }

  /** The decoded root, with the time and the parent of the log's block. */
  function RecordFor(lib: Lib, c: Chain, log: Log): Record {
    var header := c.header(log.blockNumber);
    var root := match lib.decode(log.data) case Root(r) => r case _ => [];
    Record(root, header.time, header.parentHash)
  }

  /** The verdict of the join on a log of the chain is what should become of it. */
  function JudgeLog(lib: Lib, c: Chain, log: Log): (v: Verdict)
    ensures v.Fail? <==> !Readable(lib, c, log)
    ensures v.Keep? <==> Matches(lib, c, log)
    ensures v.Keep? ==> v.record == RecordFor(lib, c, log)
  {
    Judge(lib, log, c.header(log.blockNumber), c.tx(log.txHash))
  }

  predicate Occurs(h: Hash, logs: seq<Log>) {
    exists i :: 0 <= i < |logs| && logs[i].txHash == h
  }

  /** One record for each log that is the last of its transaction and involves the address. */
  function Picked(lib: Lib, c: Chain, logs: seq<Log>): seq<Record> {
    if logs == [] then [] else
    (if Matches(lib, c, logs[0]) && !Occurs(logs[0].txHash, logs[1..]) then [RecordFor(lib, c, logs[0])] else [])
    + Picked(lib, c, logs[1..])
  }

  /** The records of a block, in increasing log index. */
  function BlockSpec(lib: Lib, c: Chain, b: nat): seq<Record> {
    Picked(lib, c, c.logs(b))
  }

  // ---------- Replies ----------

  /** The reply holds exactly the logs of the range, in any order. */
  ghost predicate HoldsRange(c: Chain, lo: nat, hi: nat, logs: seq<Log>) {
    forall l :: l in logs <==> lo <= l.blockNumber <= hi && l in c.logs(l.blockNumber)
  }

  /** The logs of one transaction come in log order. */
  predicate InLogOrder(logs: seq<Log>) {
    forall i, j :: 0 <= i < j < |logs| && logs[i].txHash == logs[j].txHash ==> logs[i].index < logs[j].index
  }

  /** Headers and transactions come in the order they were asked for (balancer/rpc.go:255-293). */
  ghost predicate ValidBatch(c: Chain, logs: seq<Log>, blocks: seq<Header>, txs: seq<Tx>) {
    && |blocks| == |FirstSeen(logs)|
    && (forall i :: 0 <= i < |blocks| ==> blocks[i] == c.header(FirstSeen(logs)[i]))
    && |txs| == |logs|
    && (forall i :: 0 <= i < |txs| ==> txs[i] == c.tx(logs[i].txHash))
  }

  /** Replies that tell the truth about the range; either request may also fail. */
  ghost predicate Truthful(c: Chain, lo: nat, hi: nat, logs: Logs, batch: Batch) {
    logs.Ok? ==>
      && HoldsRange(c, lo, hi, logs.value)
      && (batch.Ok? ==> ValidBatch(c, logs.value, batch.value.0, batch.value.1))
  }

  /** Truthful replies that list the logs of one transaction in log order. */
  ghost predicate Honest(c: Chain, lo: nat, hi: nat, logs: Logs, batch: Batch) {
    Truthful(c, lo, hi, logs, batch) && (logs.Ok? ==> InLogOrder(logs.value))
  }

  // ---------- What a reply decides ----------

  /** The log is in the reply, and no later log of the reply has its transaction. */
  ghost predicate LastIn(reply: seq<Log>, log: Log) {
    exists i :: 0 <= i < |reply| && reply[i] == log && forall j :: i < j < |reply| ==> reply[j].txHash != log.txHash
  }

  ghost predicate Kept(lib: Lib, c: Chain, reply: seq<Log>, log: Log) {
    LastIn(reply, log) && Matches(lib, c, log)
  }

  /** One record for each log that is the last of its transaction in the reply and involves the address. */
  ghost function PickedBy(lib: Lib, c: Chain, reply: seq<Log>, logs: seq<Log>): seq<Record> {
    if logs == [] then [] else
    (if Kept(lib, c, reply, logs[0]) then [RecordFor(lib, c, logs[0])] else [])
    + PickedBy(lib, c, reply, logs[1..])
  }

  /** The records that a reply yields for a block, in increasing log index. */
  ghost function ReplySpec(lib: Lib, c: Chain, reply: seq<Log>, b: nat): seq<Record> {
    PickedBy(lib, c, reply, c.logs(b))
  }

  /** Some log that decides a transaction of the reply cannot be turned into a record. */
  ghost predicate ReplyFails(lib: Lib, c: Chain, reply: seq<Log>) {
    exists l :: LastIn(reply, l) && !Readable(lib, c, l)
  }

  // ---------- The tables on a truthful reply ----------

  lemma {:induction false} SeenBlocks(logs: seq<Log>)
    ensures forall b :: b in FirstSeen(logs) <==> exists i :: 0 <= i < |logs| && logs[i].blockNumber == b
  {
    if logs != [] {
      var n := |logs| - 1;
      SeenBlocks(logs[..n]);
      forall b ensures b in FirstSeen(logs) <==> exists i :: 0 <= i < |logs| && logs[i].blockNumber == b {
        if i :| 0 <= i < |logs| && logs[i].blockNumber == b {
          if i < n {
            assert logs[..n][i].blockNumber == b;
          }
        }
      }
    }
  }

  lemma {:induction false} TruthfulAnswers(c: Chain, lo: nat, hi: nat, logs: Logs, batch: Batch)
    requires Truthful(c, lo, hi, logs, batch)
    ensures Answers(logs, batch)
  {
    if logs.Ok? && logs.value != [] && batch.Ok? {
      SeenBlocks(logs.value);
      assert logs.value[0].blockNumber in FirstSeen(logs.value);
    }
  }

  lemma {:induction false} SliceFinds(blocks: seq<Header>)
    ensures forall b :: b in SliceTable(blocks) ==> blocks[SliceTable(blocks)[b]].number == b
    ensures forall i :: 0 <= i < |blocks| ==> blocks[i].number in SliceTable(blocks)
  {
    if blocks != [] {
      SliceFinds(blocks[..|blocks| - 1]);
    }
  }

  lemma {:induction false} HeaderFound(c: Chain, logs: seq<Log>, blocks: seq<Header>, txs: seq<Tx>, n: nat)
    requires Valid(c) && ValidBatch(c, logs, blocks, txs) && n < |logs|
    ensures blocks != [] && HeaderOf(blocks, logs[n].blockNumber) == c.header(logs[n].blockNumber)
  {
    SeenBlocks(logs);
    SliceFinds(blocks);
    var b := logs[n].blockNumber;
    assert b in FirstSeen(logs);
    var i :| 0 <= i < |FirstSeen(logs)| && FirstSeen(logs)[i] == b;
    assert blocks[i].number == b;
    var k := SliceTable(blocks)[b];
    assert blocks[k] == c.header(FirstSeen(logs)[k]);
  }

  /** txHashToLog holds the last log of the reply for each transaction. */
  lemma {:induction false} LastLog(logs: seq<Log>, n: nat) returns (i: nat)
    requires n < |logs|
    ensures n <= i < |logs| && logs[i].txHash == logs[n].txHash
    ensures logs[n].txHash in LogTable(logs) && LogTable(logs)[logs[n].txHash] == logs[i]
    ensures forall j :: i < j < |logs| ==> logs[j].txHash != logs[n].txHash
  {
    var m := |logs| - 1;
    if logs[m].txHash == logs[n].txHash {
      i := m;
    } else {
      i := LastLog(logs[..m], n);
    }
  }

  /** Being the last of its transaction is being what the join looks up for it. */
  lemma {:induction false} LastInIsLogOf(reply: seq<Log>, log: Log)
    ensures LastIn(reply, log) <==> log in reply && LogOf(reply, log.txHash) == log
  {
    if log in reply {
      var n :| 0 <= n < |reply| && reply[n] == log;
      var i := LastLog(reply, n);
      if LastIn(reply, log) {
        var k :| 0 <= k < |reply| && reply[k] == log && forall j :: k < j < |reply| ==> reply[j].txHash != log.txHash;
        assert i <= k <= i;
      }
    }
  }

  ghost predicate LastInBlock(c: Chain, b: nat, j: int) {
    0 <= j < |c.logs(b)| && forall k :: j < k < |c.logs(b)| ==> c.logs(b)[k].txHash != c.logs(b)[j].txHash
  }

  lemma {:induction false} InReply(c: Chain, lo: nat, hi: nat, logs: seq<Log>, b: nat, j: nat) returns (n: nat)
    requires Valid(c) && HoldsRange(c, lo, hi, logs) && lo <= b <= hi && j < |c.logs(b)|
    ensures n < |logs| && logs[n] == c.logs(b)[j]
  {
    var log := c.logs(b)[j];
    assert log in c.logs(b) && log.blockNumber == b;
    assert log in logs;
    n :| 0 <= n < |logs| && logs[n] == log;
  }

  lemma {:induction false} InChain(c: Chain, lo: nat, hi: nat, logs: seq<Log>, n: nat) returns (j: nat)
    requires HoldsRange(c, lo, hi, logs) && n < |logs|
    ensures var b := logs[n].blockNumber; lo <= b <= hi && j < |c.logs(b)| && c.logs(b)[j] == logs[n]
  {
    assert logs[n] in logs;
    var b := logs[n].blockNumber;
    j :| 0 <= j < |c.logs(b)| && c.logs(b)[j] == logs[n];
  }

  lemma {:induction false} OneBlock(c: Chain, b1: nat, i: nat, b2: nat, j: nat)
    requires Valid(c) && i < |c.logs(b1)| && j < |c.logs(b2)| && c.logs(b1)[i].txHash == c.logs(b2)[j].txHash
    ensures b1 == b2
  {
  }

  /** The logs the join looks at, one for each transaction of the batch. */
  function FinalLogs(logs: seq<Log>): seq<Log> {
    seq(|logs|, n requires 0 <= n < |logs| => LogOf(logs, logs[n].txHash))
  }

  /** The logs the join looks at are exactly the last ones of their transactions. */
  lemma {:induction false} FinalIsLast(logs: seq<Log>, n: nat)
    requires n < |logs|
    ensures LastIn(logs, FinalLogs(logs)[n]) && FinalLogs(logs)[n].txHash == logs[n].txHash
  {
    var i := LastLog(logs, n);
  }

  lemma {:induction false} LastIsFinal(logs: seq<Log>, log: Log) returns (n: nat)
    requires LastIn(logs, log)
    ensures n < |logs| && FinalLogs(logs)[n] == log
  {
    LastInIsLogOf(logs, log);
    n :| 0 <= n < |logs| && logs[n] == log;
  }

  /** Two transactions whose logs share a cell agree on it. */
  predicate Agree(finals: seq<Log>, verdicts: seq<Verdict>)
    requires |finals| == |verdicts|
  {
    forall n, m ::
      0 <= n < |finals| && 0 <= m < |finals|
      && finals[n].blockNumber == finals[m].blockNumber && finals[n].index == finals[m].index
      ==> verdicts[n] == verdicts[m]
  }

  function CellOf(log: Log): (nat, nat) {
    (log.blockNumber, log.index)
  }

  /** The table fails with a failing verdict; otherwise its cells are those of the kept logs. */
  ghost predicate Tabulates(table: Result<Cells, FetchError>, finals: seq<Log>, verdicts: seq<Verdict>)
    requires |finals| == |verdicts|
  {
    && (table.Err? <==> exists n :: 0 <= n < |verdicts| && verdicts[n].Fail?)
    && (table.Ok? ==>
          && (forall n :: 0 <= n < |verdicts| && verdicts[n].Keep? ==>
                CellOf(finals[n]) in table.value && table.value[CellOf(finals[n])] == verdicts[n].record)
          && (forall cell :: cell in table.value ==>
                exists n :: 0 <= n < |verdicts| && verdicts[n].Keep? && cell == CellOf(finals[n])))
  }

  lemma {:induction false} TabulateMore(
      before: Cells, after: Result<Cells, FetchError>, finals: seq<Log>, verdicts: seq<Verdict>, log: Log, v: Verdict)
    requires |finals| == |verdicts|
    requires Tabulates(Ok(before), finals, verdicts) && Agree(finals + [log], verdicts + [v])
    requires after == match v
                      case Fail(e) => Err(e)
                      case Skip => Ok(before)
                      case Keep(r) => Ok(before[CellOf(log) := r])
    ensures Tabulates(after, finals + [log], verdicts + [v])
  {
    var fs, vs := finals + [log], verdicts + [v];
    if after.Err? {
      assert vs[|verdicts|].Fail?;
    } else {
      forall n | 0 <= n < |vs| && vs[n].Keep?
        ensures CellOf(fs[n]) in after.value && after.value[CellOf(fs[n])] == vs[n].record
      {
        if n < |verdicts| {
          assert verdicts[n].Keep? && fs[n] == finals[n];
          if CellOf(fs[n]) == CellOf(log) {
            assert vs[n] == vs[|verdicts|];
          }
        }
      }
      forall cell | cell in after.value ensures exists n :: 0 <= n < |vs| && vs[n].Keep? && cell == CellOf(fs[n]) {
        if cell in before {
          var n :| 0 <= n < |verdicts| && verdicts[n].Keep? && cell == CellOf(finals[n]);
          assert vs[n].Keep? && cell == CellOf(fs[n]);
        } else {
          assert vs[|verdicts|].Keep? && cell == CellOf(fs[|verdicts|]);
        }
      }
    }
  }

  lemma {:induction false} TabulateFailed(
      error: FetchError, finals: seq<Log>, verdicts: seq<Verdict>, log: Log, v: Verdict)
    requires |finals| == |verdicts| && Tabulates(Err(error), finals, verdicts)
    ensures Tabulates(Err(error), finals + [log], verdicts + [v])
  {
    var n :| 0 <= n < |verdicts| && verdicts[n].Fail?;
    assert (verdicts + [v])[n].Fail?;
  }

  lemma {:induction false} TableContents(
      lib: Lib, logs: seq<Log>, blocks: seq<Header>, txs: seq<Tx>, finals: seq<Log>, verdicts: seq<Verdict>)
    requires blocks != [] && |finals| == |verdicts| == |txs|
    requires forall n :: 0 <= n < |txs| ==> LogOf(logs, txs[n].hash) == finals[n]
    requires forall n :: 0 <= n < |txs| ==> Outcome(lib, logs, blocks, txs[n]) == verdicts[n]
    requires Agree(finals, verdicts)
    ensures Tabulates(Table(lib, logs, blocks, txs), finals, verdicts)
  {
    if txs != [] {
      var m := |txs| - 1;
      TableContents(lib, logs, blocks, txs[..m], finals[..m], verdicts[..m]);
      assert finals == finals[..m] + [finals[m]] && verdicts == verdicts[..m] + [verdicts[m]];
      var before := Table(lib, logs, blocks, txs[..m]);
      var after := Table(lib, logs, blocks, txs);
      match before
      case Err(e) => TabulateFailed(e, finals[..m], verdicts[..m], finals[m], verdicts[m]);
      case Ok(t) => TabulateMore(t, after, finals[..m], verdicts[..m], finals[m], verdicts[m]);
    }
  }

  /** Every kept log of the reply has its cell. */
  ghost predicate CellsComplete(lib: Lib, c: Chain, reply: seq<Log>, t: Cells) {
    forall l :: Kept(lib, c, reply, l) ==> CellOf(l) in t && t[CellOf(l)] == RecordFor(lib, c, l)
  }

  /** Every cell is that of a kept log of the reply. */
  ghost predicate CellsSound(lib: Lib, c: Chain, reply: seq<Log>, t: Cells) {
    forall cell :: cell in t ==> exists l :: Kept(lib, c, reply, l) && CellOf(l) == cell
  }

  lemma {:induction false} SamePlace(c: Chain, b: nat, i: nat, j: nat)
    requires Valid(c) && i < |c.logs(b)| && j < |c.logs(b)|
    requires c.logs(b)[i].index == c.logs(b)[j].index
    ensures i == j
  {
  }

  /** Logs of the range with the same block and index are the same. */
  lemma {:induction false} SameCell(c: Chain, lo: nat, hi: nat, logs: seq<Log>, l1: Log, l2: Log)
    requires Valid(c) && HoldsRange(c, lo, hi, logs) && l1 in logs && l2 in logs && CellOf(l1) == CellOf(l2)
    ensures l1 == l2
  {
    var b := l1.blockNumber;
    var i :| 0 <= i < |c.logs(b)| && c.logs(b)[i] == l1;
    var j :| 0 <= j < |c.logs(b)| && c.logs(b)[j] == l2;
    SamePlace(c, b, i, j);
  }

  /** The verdict on a batch transaction is the chain's verdict on the last log that the reply has for it. */
  lemma {:induction false} VerdictOfReply(lib: Lib, c: Chain, logs: seq<Log>, blocks: seq<Header>, txs: seq<Tx>, n: nat)
    requires Valid(c) && ValidBatch(c, logs, blocks, txs) && n < |logs|
    ensures blocks != [] && LogOf(logs, txs[n].hash) == FinalLogs(logs)[n]
    ensures Outcome(lib, logs, blocks, txs[n]) == JudgeLog(lib, c, FinalLogs(logs)[n])
  {
    var i := LastLog(logs, n);
    HeaderFound(c, logs, blocks, txs, i);
    assert txs[n].hash == logs[n].txHash;
  }

  function FinalVerdicts(lib: Lib, c: Chain, logs: seq<Log>): seq<Verdict> {
    seq(|logs|, n requires 0 <= n < |logs| => JudgeLog(lib, c, FinalLogs(logs)[n]))
  }

  lemma {:induction false} TableOfReply(
      lib: Lib, c: Chain, lo: nat, hi: nat, logs: seq<Log>, blocks: seq<Header>, txs: seq<Tx>)
    requires Valid(c) && HoldsRange(c, lo, hi, logs) && ValidBatch(c, logs, blocks, txs) && blocks != []
    ensures Tabulates(Table(lib, logs, blocks, txs), FinalLogs(logs), FinalVerdicts(lib, c, logs))
  {
    var finals, verdicts := FinalLogs(logs), FinalVerdicts(lib, c, logs);
    forall n | 0 <= n < |txs|
      ensures LogOf(logs, txs[n].hash) == finals[n] && Outcome(lib, logs, blocks, txs[n]) == verdicts[n]
    {
      VerdictOfReply(lib, c, logs, blocks, txs, n);
    }
    FinalsAgree(lib, c, lo, hi, logs);
    TableContents(lib, logs, blocks, txs, finals, verdicts);
  }

  lemma {:induction false} FinalsAgree(lib: Lib, c: Chain, lo: nat, hi: nat, logs: seq<Log>)
    requires Valid(c) && HoldsRange(c, lo, hi, logs)
    ensures Agree(FinalLogs(logs), FinalVerdicts(lib, c, logs))
  {
    var finals := FinalLogs(logs);
    forall n, m | 0 <= n < |logs| && 0 <= m < |logs|
                  && finals[n].blockNumber == finals[m].blockNumber && finals[n].index == finals[m].index
      ensures finals[n] == finals[m]
    {
      FinalIsLast(logs, n);
      FinalIsLast(logs, m);
      SameCell(c, lo, hi, logs, finals[n], finals[m]);
    }
  }

  lemma {:induction false} TableMeetsReply(lib: Lib, c: Chain, logs: seq<Log>, table: Result<Cells, FetchError>)
    requires Tabulates(table, FinalLogs(logs), FinalVerdicts(lib, c, logs))
    ensures table.Err? <==> ReplyFails(lib, c, logs)
    ensures table.Ok? ==> CellsComplete(lib, c, logs, table.value) && CellsSound(lib, c, logs, table.value)
  {
    var finals, verdicts := FinalLogs(logs), FinalVerdicts(lib, c, logs);
    if ReplyFails(lib, c, logs) {
      var l :| LastIn(logs, l) && !Readable(lib, c, l);
      var n := LastIsFinal(logs, l);
      assert verdicts[n].Fail?;
    }
    if table.Err? {
      var n :| 0 <= n < |verdicts| && verdicts[n].Fail?;
      FinalIsLast(logs, n);
    } else {
      KeptCells(lib, c, logs, table.value);
      OnlyKeptCells(lib, c, logs, table.value);
    }
  }

  lemma {:induction false} KeptCells(lib: Lib, c: Chain, logs: seq<Log>, t: Cells)
    requires Tabulates(Ok(t), FinalLogs(logs), FinalVerdicts(lib, c, logs))
    ensures CellsComplete(lib, c, logs, t)
  {
    forall l | Kept(lib, c, logs, l) ensures CellOf(l) in t && t[CellOf(l)] == RecordFor(lib, c, l) {
      var n := LastIsFinal(logs, l);
      assert FinalVerdicts(lib, c, logs)[n].Keep?;
    }
  }

  lemma {:induction false} OnlyKeptCells(lib: Lib, c: Chain, logs: seq<Log>, t: Cells)
    requires Tabulates(Ok(t), FinalLogs(logs), FinalVerdicts(lib, c, logs))
    ensures CellsSound(lib, c, logs, t)
  {
    var finals, verdicts := FinalLogs(logs), FinalVerdicts(lib, c, logs);
    forall cell | cell in t ensures exists l :: Kept(lib, c, logs, l) && CellOf(l) == cell {
      var n :| 0 <= n < |verdicts| && verdicts[n].Keep? && cell == CellOf(finals[n]);
      FinalIsLast(logs, n);
      assert Kept(lib, c, logs, finals[n]);
    }
  }

  // ---------- Rows are the records of the reply ----------

  ghost predicate KeptAt(lib: Lib, c: Chain, reply: seq<Log>, b: nat, j: int) {
    0 <= j < |c.logs(b)| && Kept(lib, c, reply, c.logs(b)[j])
  }

  /** The positions of the kept logs of a block, from `p` on. */
  ghost function Positions(lib: Lib, c: Chain, reply: seq<Log>, b: nat, p: nat): seq<nat>
    decreases |c.logs(b)| - p
  {
    if p >= |c.logs(b)| then []
    else (if KeptAt(lib, c, reply, b, p) then [p] else []) + Positions(lib, c, reply, b, p + 1)
  }

  lemma {:induction false} PositionsKept(lib: Lib, c: Chain, reply: seq<Log>, b: nat, p: nat)
    ensures Increasing(Positions(lib, c, reply, b, p))
    ensures forall j :: j in Positions(lib, c, reply, b, p) <==> p <= j && KeptAt(lib, c, reply, b, j)
    decreases |c.logs(b)| - p
  {
    if p < |c.logs(b)| {
      PositionsKept(lib, c, reply, b, p + 1);
      var rest := Positions(lib, c, reply, b, p + 1);
      forall k | 0 <= k < |rest| ensures p < rest[k] {
        assert rest[k] in rest;
      }
    }
  }

  ghost predicate AllKept(lib: Lib, c: Chain, reply: seq<Log>, b: nat, positions: seq<nat>) {
    forall k :: 0 <= k < |positions| ==> KeptAt(lib, c, reply, b, positions[k])
  }

  ghost function RecordsAt(lib: Lib, c: Chain, reply: seq<Log>, b: nat, positions: seq<nat>): seq<Record>
    requires AllKept(lib, c, reply, b, positions)
  {
    seq(|positions|, k requires 0 <= k < |positions| => RecordFor(lib, c, c.logs(b)[positions[k]]))
  }

  lemma {:induction false} PositionsValid(lib: Lib, c: Chain, reply: seq<Log>, b: nat, p: nat)
    ensures AllKept(lib, c, reply, b, Positions(lib, c, reply, b, p))
  {
    PositionsKept(lib, c, reply, b, p);
    var positions := Positions(lib, c, reply, b, p);
    forall k | 0 <= k < |positions| ensures KeptAt(lib, c, reply, b, positions[k]) {
      assert positions[k] in positions;
    }
  }

  lemma {:induction false} PickedIsRecords(lib: Lib, c: Chain, reply: seq<Log>, b: nat, p: nat)
    requires p <= |c.logs(b)|
    ensures AllKept(lib, c, reply, b, Positions(lib, c, reply, b, p))
    ensures PickedBy(lib, c, reply, c.logs(b)[p..]) == RecordsAt(lib, c, reply, b, Positions(lib, c, reply, b, p))
    decreases |c.logs(b)| - p
  {
    PositionsValid(lib, c, reply, b, p);
    var logs := c.logs(b);
    if p < |logs| {
      PickedIsRecords(lib, c, reply, b, p + 1);
      var tail := logs[p..];
      assert tail[0] == logs[p] && tail[1..] == logs[p + 1..];
      var rest := Positions(lib, c, reply, b, p + 1);
      if KeptAt(lib, c, reply, b, p) {
        assert RecordsAt(lib, c, reply, b, [p] + rest)
            == [RecordFor(lib, c, logs[p])] + RecordsAt(lib, c, reply, b, rest);
      } else {
        assert [] + rest == rest;
        assert [] + RecordsAt(lib, c, reply, b, rest) == RecordsAt(lib, c, reply, b, rest);
      }
    }
  }

  /** The log indexes of a block's kept logs. */
  ghost function SpecIndexes(lib: Lib, c: Chain, reply: seq<Log>, b: nat): seq<nat> {
    var positions := Positions(lib, c, reply, b, 0);
    seq(|positions|, k requires 0 <= k < |positions| =>
      if positions[k] < |c.logs(b)| then c.logs(b)[positions[k]].index else 0)
  }

  /** Each record of a block has its cell. */
  ghost predicate RecordsHaveCells(t: Cells, b: nat, indexes: seq<nat>, records: seq<Record>) {
    && |indexes| == |records| && Increasing(indexes)
    && (forall k :: 0 <= k < |indexes| ==> (b, indexes[k]) in t && t[(b, indexes[k])] == records[k])
  }

  ghost predicate CellsHaveRecords(t: Cells, b: nat, indexes: seq<nat>) {
    forall i :: (b, i) in t ==> i in indexes
  }

  lemma {:induction false} SpecIncreasing(lib: Lib, c: Chain, reply: seq<Log>, b: nat)
    requires Valid(c)
    ensures Increasing(SpecIndexes(lib, c, reply, b))
  {
    PositionsKept(lib, c, reply, b, 0);
    PositionsValid(lib, c, reply, b, 0);
    var positions := Positions(lib, c, reply, b, 0);
    forall i, j | 0 <= i < j < |positions|
      ensures SpecIndexes(lib, c, reply, b)[i] < SpecIndexes(lib, c, reply, b)[j]
    {
      assert KeptAt(lib, c, reply, b, positions[i]) && KeptAt(lib, c, reply, b, positions[j]);
    }
  }

  lemma {:induction false} SpecHasCells(lib: Lib, c: Chain, reply: seq<Log>, t: Cells, b: nat)
    requires Valid(c) && CellsComplete(lib, c, reply, t)
    ensures RecordsHaveCells(t, b, SpecIndexes(lib, c, reply, b), ReplySpec(lib, c, reply, b))
  {
    SpecIncreasing(lib, c, reply, b);
    PickedIsRecords(lib, c, reply, b, 0);
    assert c.logs(b)[0..] == c.logs(b);
    var positions := Positions(lib, c, reply, b, 0);
    var indexes := SpecIndexes(lib, c, reply, b);
    forall k | 0 <= k < |positions|
      ensures (b, indexes[k]) in t && t[(b, indexes[k])] == ReplySpec(lib, c, reply, b)[k]
    {
      assert KeptAt(lib, c, reply, b, positions[k]);
      assert CellOf(c.logs(b)[positions[k]]) == (b, indexes[k]);
    }
  }

  lemma {:induction false} CellsHaveSpec(lib: Lib, c: Chain, lo: nat, hi: nat, reply: seq<Log>, t: Cells, b: nat)
    requires HoldsRange(c, lo, hi, reply) && CellsSound(lib, c, reply, t)
    ensures CellsHaveRecords(t, b, SpecIndexes(lib, c, reply, b))
  {
    PositionsKept(lib, c, reply, b, 0);
    var positions := Positions(lib, c, reply, b, 0);
    forall i | (b, i) in t ensures i in SpecIndexes(lib, c, reply, b) {
      var cell := (b, i);
      assert cell in t;
      var l :| Kept(lib, c, reply, l) && CellOf(l) == cell;
      assert l in reply;
      var j :| 0 <= j < |c.logs(b)| && c.logs(b)[j] == l;
      assert KeptAt(lib, c, reply, b, j) && j in positions;
      var k :| 0 <= k < |positions| && positions[k] == j;
      assert SpecIndexes(lib, c, reply, b)[k] == i;
    }
  }

  lemma {:induction false} RowOfCells(t: Cells, b: nat, indexes: seq<nat>, records: seq<Record>)
    requires RecordsHaveCells(t, b, indexes, records) && CellsHaveRecords(t, b, indexes)
    ensures Row(t, b) == records
    ensures Indexes(t, b) != {} <==> records != []
  {
    IndexIsCell(t, b);
    forall x ensures x in indexes <==> x in Ascending(Indexes(t, b)) {
      assert x in Indexes(t, b) <==> (b, x) in t;
    }
    IncreasingUnique(indexes, Ascending(Indexes(t, b)));
    if records != [] {
      assert indexes[0] in Indexes(t, b);
    }
    if x :| x in Indexes(t, b) {
      assert (b, x) in t;
    }
  }

  lemma {:induction false} RowIsSpec(lib: Lib, c: Chain, lo: nat, hi: nat, reply: seq<Log>, t: Cells, b: nat)
    requires Valid(c) && HoldsRange(c, lo, hi, reply)
    requires CellsComplete(lib, c, reply, t) && CellsSound(lib, c, reply, t)
    ensures Row(t, b) == ReplySpec(lib, c, reply, b)
    ensures Indexes(t, b) != {} <==> ReplySpec(lib, c, reply, b) != []
  {
    SpecHasCells(lib, c, reply, t, b);
    CellsHaveSpec(lib, c, lo, hi, reply, t, b);
    RowOfCells(t, b, SpecIndexes(lib, c, reply, b), ReplySpec(lib, c, reply, b));
  }

  /** The map holds exactly the blocks for which the reply yields records, each with these records. */
  ghost predicate IsReplyMap(lib: Lib, c: Chain, reply: seq<Log>, m: map<nat, seq<Record>>) {
    && (forall b :: b in m <==> ReplySpec(lib, c, reply, b) != [])
    && (forall b :: b in m ==> m[b] == ReplySpec(lib, c, reply, b))
  }

  /** Only a block that the reply names has records. */
  lemma {:induction false} SpecIsSeen(lib: Lib, c: Chain, reply: seq<Log>, logs: seq<Log>, b: nat)
    requires forall i :: 0 <= i < |logs| ==> logs[i].blockNumber == b
    ensures PickedBy(lib, c, reply, logs) != [] ==> b in FirstSeen(reply)
  {
    SeenBlocks(reply);
    if logs != [] && Kept(lib, c, reply, logs[0]) {
      assert logs[0] in reply;
    } else if logs != [] {
      SpecIsSeen(lib, c, reply, logs[1..], b);
    }
  }

  lemma {:induction false} ReplyRows(lib: Lib, c: Chain, lo: nat, hi: nat, reply: seq<Log>, t: Cells)
    requires Valid(c) && HoldsRange(c, lo, hi, reply)
    requires CellsComplete(lib, c, reply, t) && CellsSound(lib, c, reply, t)
    ensures IsReplyMap(lib, c, reply, Rows(t, FirstSeen(reply)))
  {
    var m := Rows(t, FirstSeen(reply));
    forall b: nat
      ensures b in m <==> ReplySpec(lib, c, reply, b) != []
      ensures b in m ==> m[b] == ReplySpec(lib, c, reply, b)
    {
      RowIsSpec(lib, c, lo, hi, reply, t, b);
      SpecIsSeen(lib, c, reply, c.logs(b), b);
    }
  }

  // ---------- Replies in log order ----------

  /** Some log that decides a transaction in the range cannot be turned into a record. */
  ghost predicate Fails(lib: Lib, c: Chain, lo: nat, hi: nat) {
    exists b, j :: lo <= b <= hi && LastInBlock(c, b, j) && !Readable(lib, c, c.logs(b)[j])
  }

  lemma {:induction false} LastInReplyThenBlock(c: Chain, lo: nat, hi: nat, logs: seq<Log>, b: nat, j: nat)
    requires Valid(c) && HoldsRange(c, lo, hi, logs) && InLogOrder(logs) && lo <= b <= hi && j < |c.logs(b)|
    requires LastIn(logs, c.logs(b)[j])
    ensures LastInBlock(c, b, j)
  {
    var l := c.logs(b)[j];
    var i :| 0 <= i < |logs| && logs[i] == l && forall m :: i < m < |logs| ==> logs[m].txHash != l.txHash;
    forall k | j < k < |c.logs(b)| ensures c.logs(b)[k].txHash != l.txHash {
      var p := InReply(c, lo, hi, logs, b, k);
      assert l.index < logs[p].index;
    }
  }

  lemma {:induction false} LastInBlockThenReply(c: Chain, lo: nat, hi: nat, logs: seq<Log>, b: nat, j: nat, n: nat)
    requires Valid(c) && HoldsRange(c, lo, hi, logs) && InLogOrder(logs) && lo <= b <= hi
    requires LastInBlock(c, b, j) && n < |logs| && logs[n] == c.logs(b)[j]
    ensures LastIn(logs, c.logs(b)[j])
  {
    forall m | n < m < |logs| ensures logs[m].txHash != logs[n].txHash {
      var k := InChain(c, lo, hi, logs, m);
      if logs[m].txHash == logs[n].txHash {
        OneBlock(c, b, j, logs[m].blockNumber, k);
      }
    }
  }

  /** In log order, the last log of a transaction in the reply is the last one its block has for it. */
  lemma {:induction false} LastOfBlock(c: Chain, lo: nat, hi: nat, logs: seq<Log>, b: nat, j: nat)
    requires Valid(c) && HoldsRange(c, lo, hi, logs) && InLogOrder(logs) && lo <= b <= hi && j < |c.logs(b)|
    ensures LastIn(logs, c.logs(b)[j]) <==> LastInBlock(c, b, j)
  {
    if LastIn(logs, c.logs(b)[j]) {
      LastInReplyThenBlock(c, lo, hi, logs, b, j);
    } else if LastInBlock(c, b, j) {
      var n := InReply(c, lo, hi, logs, b, j);
      LastInBlockThenReply(c, lo, hi, logs, b, j, n);
    }
  }

  lemma {:induction false} LastOccurs(c: Chain, b: nat, p: nat)
    requires p < |c.logs(b)|
    ensures Occurs(c.logs(b)[p].txHash, c.logs(b)[p + 1..]) <==> !LastInBlock(c, b, p)
  {
    var logs := c.logs(b);
    var rest := logs[p + 1..];
    if Occurs(logs[p].txHash, rest) {
      var i :| 0 <= i < |rest| && rest[i].txHash == logs[p].txHash;
      assert logs[p + 1 + i].txHash == logs[p].txHash;
    } else {
      forall k | p < k < |logs| ensures logs[k].txHash != logs[p].txHash {
        assert rest[k - p - 1] == logs[k];
      }
    }
  }

  lemma {:induction false} PickedInOrder(lib: Lib, c: Chain, lo: nat, hi: nat, reply: seq<Log>, b: nat, p: nat)
    requires Valid(c) && HoldsRange(c, lo, hi, reply) && InLogOrder(reply) && lo <= b <= hi && p <= |c.logs(b)|
    ensures PickedBy(lib, c, reply, c.logs(b)[p..]) == Picked(lib, c, c.logs(b)[p..])
    decreases |c.logs(b)| - p
  {
    var logs := c.logs(b);
    if p < |logs| {
      PickedInOrder(lib, c, lo, hi, reply, b, p + 1);
      LastOfBlock(c, lo, hi, reply, b, p);
      LastOccurs(c, b, p);
      assert logs[p..][0] == logs[p] && logs[p..][1..] == logs[p + 1..];
    }
  }

  /** A reply in log order yields the specified records of every block of its range, and nothing else. */
  lemma {:induction false} InOrderSpec(lib: Lib, c: Chain, lo: nat, hi: nat, reply: seq<Log>, b: nat)
    requires Valid(c) && HoldsRange(c, lo, hi, reply) && InLogOrder(reply)
    ensures ReplySpec(lib, c, reply, b) == if lo <= b <= hi then BlockSpec(lib, c, b) else []
  {
    if lo <= b <= hi {
      PickedInOrder(lib, c, lo, hi, reply, b, 0);
      assert c.logs(b)[0..] == c.logs(b);
    } else {
      SpecIsSeen(lib, c, reply, c.logs(b), b);
      SeenBlocks(reply);
      forall i | 0 <= i < |reply| ensures reply[i].blockNumber != b {
        assert reply[i] in reply;
      }
    }
  }

  lemma {:induction false} InOrderFails(lib: Lib, c: Chain, lo: nat, hi: nat, reply: seq<Log>)
    requires Valid(c) && HoldsRange(c, lo, hi, reply) && InLogOrder(reply)
    ensures ReplyFails(lib, c, reply) <==> Fails(lib, c, lo, hi)
  {
    if ReplyFails(lib, c, reply) {
      var l :| LastIn(reply, l) && !Readable(lib, c, l);
      assert l in reply;
      var b := l.blockNumber;
      var j :| 0 <= j < |c.logs(b)| && c.logs(b)[j] == l;
      LastOfBlock(c, lo, hi, reply, b, j);
    }
    if Fails(lib, c, lo, hi) {
      var b, j :| lo <= b <= hi && LastInBlock(c, b, j) && !Readable(lib, c, c.logs(b)[j]);
      LastOfBlock(c, lo, hi, reply, b, j);
    }
  }

  /** The map holds exactly the non-empty blocks of the range, each with its specified records. */
  ghost predicate IsRangeMap(lib: Lib, c: Chain, lo: nat, hi: nat, m: map<nat, seq<Record>>) {
    && (forall b :: b in m <==> lo <= b <= hi && BlockSpec(lib, c, b) != [])
    && (forall b :: b in m ==> m[b] == BlockSpec(lib, c, b))
  }

  lemma {:induction false} RangeMapUnique(
      lib: Lib, c: Chain, lo: nat, hi: nat, m1: map<nat, seq<Record>>, m2: map<nat, seq<Record>>)
    requires IsRangeMap(lib, c, lo, hi, m1) && IsRangeMap(lib, c, lo, hi, m2)
    ensures m1 == m2
  {
  }

  lemma {:induction false} InOrderMap(lib: Lib, c: Chain, lo: nat, hi: nat, reply: seq<Log>, m: map<nat, seq<Record>>)
    requires Valid(c) && HoldsRange(c, lo, hi, reply) && InLogOrder(reply) && IsReplyMap(lib, c, reply, m)
    ensures IsRangeMap(lib, c, lo, hi, m)
  {
    forall b: nat
      ensures b in m <==> lo <= b <= hi && BlockSpec(lib, c, b) != []
      ensures b in m ==> m[b] == BlockSpec(lib, c, b)
    {
      InOrderSpec(lib, c, lo, hi, reply, b);
    }
  }

  // ---------- fetchData meets the specification ----------

  lemma {:induction false} TableOrNothing(
      lib: Lib, c: Chain, lo: nat, hi: nat, logs: seq<Log>, blocks: seq<Header>, txs: seq<Tx>)
    requires Valid(c) && HoldsRange(c, lo, hi, logs) && ValidBatch(c, logs, blocks, txs) && blocks != []
    ensures var table := Table(lib, logs, blocks, txs);
            && (table.Err? <==> ReplyFails(lib, c, logs))
            && (table.Ok? ==> IsReplyMap(lib, c, logs, Rows(table.value, FirstSeen(logs))))
  {
    var table := Table(lib, logs, blocks, txs);
    TableOfReply(lib, c, lo, hi, logs, blocks, txs);
    TableMeetsReply(lib, c, logs, table);
    if table.Ok? {
      ReplyRows(lib, c, lo, hi, logs, table.value);
    }
  }

  lemma {:induction false} NothingPicked(lib: Lib, c: Chain, logs: seq<Log>)
    ensures PickedBy(lib, c, [], logs) == []
  {
    if logs != [] {
      NothingPicked(lib, c, logs[1..]);
    }
  }

  /**
   For every truthful reply, in any order, fetchData returns for each block the
   records of the logs that are last in the reply for their transaction and
   involve the address, in increasing log index; once the replies are in, it
   fails exactly when one of these deciding logs does.
   */
  lemma {:induction false} FetchMeetsReply(lib: Lib, c: Chain, lo: nat, hi: nat, logs: Logs, batch: Batch)
    requires Valid(c) && Truthful(c, lo, hi, logs, batch)
    ensures Answers(logs, batch)
    ensures var r := Fetched(lib, logs, batch);
            && (r.Ok? ==> logs.Ok? && IsReplyMap(lib, c, logs.value, r.value) && !ReplyFails(lib, c, logs.value))
            && (r.Err? && logs.Ok? && batch.Ok? ==> ReplyFails(lib, c, logs.value))
  {
    TruthfulAnswers(c, lo, hi, logs, batch);
    if logs.Ok? {
      if logs.value == [] {
        forall b: nat ensures ReplySpec(lib, c, [], b) == [] {
          NothingPicked(lib, c, c.logs(b));
        }
      } else if batch.Ok? {
        TableOrNothing(lib, c, lo, hi, logs.value, batch.value.0, batch.value.1);
      }
    }
  }

  /**
   The same, log by log and in the terms of the node: a log that is the last of its
   transaction in the reply is stored under its block exactly when its sender or its
   recipient is the configured address, with the decoded root and with the time and
   the parent of the block; the fetch fails exactly when such a log has no sender, no
   root or no recipient.
   */
  lemma {:induction false} EachLastLog(lib: Lib, c: Chain, lo: nat, hi: nat, reply: seq<Log>, batch: Batch, l: Log)
    requires Valid(c) && Truthful(c, lo, hi, Ok(reply), batch) && batch.Ok? && LastIn(reply, l)
    ensures Answers(Ok(reply), batch)
    ensures var r := Fetched(lib, Ok(reply), batch);
            var header, tx := c.header(l.blockNumber), c.tx(l.txHash);
            var sender, root := lib.sender(header, tx), lib.decode(l.data);
            && (r.Ok? ==> sender.Some? && root.Root? && tx.to.Some?)
            && (r.Ok? && (sender == Some(lib.inputAddress) || tx.to == Some(lib.inputAddress)) ==>
                  && l.blockNumber in r.value
                  && Record(root.root, header.time, header.parentHash) in r.value[l.blockNumber])
  {
    FetchMeetsReply(lib, c, lo, hi, Ok(reply), batch);
    var r := Fetched(lib, Ok(reply), batch);
    if r.Ok? {
      assert l in reply;
      if Involves(lib, c, l) {
        PickedHolds(lib, c, reply, c.logs(l.blockNumber), l);
      }
    }
  }

  lemma {:induction false} PickedHolds(lib: Lib, c: Chain, reply: seq<Log>, logs: seq<Log>, l: Log)
    requires l in logs && Kept(lib, c, reply, l)
    ensures RecordFor(lib, c, l) in PickedBy(lib, c, reply, logs)
  {
    if logs[0] != l {
      PickedHolds(lib, c, reply, logs[1..], l);
    }
  }

  /** And every stored record is that of such a log, in the terms of the node. */
  lemma {:induction false} EachRecord(
      lib: Lib, c: Chain, lo: nat, hi: nat, reply: seq<Log>, batch: Batch, b: nat, k: nat)
    returns (l: Log)
    requires Valid(c) && Truthful(c, lo, hi, Ok(reply), batch) && batch.Ok?
    requires Answers(Ok(reply), batch) && Fetched(lib, Ok(reply), batch).Ok?
    requires b in Fetched(lib, Ok(reply), batch).value && k < |Fetched(lib, Ok(reply), batch).value[b]|
    ensures LastIn(reply, l) && l.blockNumber == b
    ensures var header, tx := c.header(b), c.tx(l.txHash);
            var sender, root := lib.sender(header, tx), lib.decode(l.data);
            && root.Root? && (sender == Some(lib.inputAddress) || tx.to == Some(lib.inputAddress))
            && Fetched(lib, Ok(reply), batch).value[b][k] == Record(root.root, header.time, header.parentHash)
  {
    FetchMeetsReply(lib, c, lo, hi, Ok(reply), batch);
    l := PickedFrom(lib, c, reply, c.logs(b), k);
    var i :| 0 <= i < |c.logs(b)| && c.logs(b)[i] == l;
  }

  lemma {:induction false} PickedFrom(lib: Lib, c: Chain, reply: seq<Log>, logs: seq<Log>, k: nat) returns (l: Log)
    requires k < |PickedBy(lib, c, reply, logs)|
    ensures l in logs && Kept(lib, c, reply, l) && PickedBy(lib, c, reply, logs)[k] == RecordFor(lib, c, l)
  {
    if Kept(lib, c, reply, logs[0]) && k == 0 {
      l := logs[0];
    } else {
      l := PickedFrom(lib, c, reply, logs[1..], if Kept(lib, c, reply, logs[0]) then k - 1 else k);
    }
  }

  /** The fetch fails exactly when some last log has no sender, no root or no recipient. */
  lemma {:induction false} FetchFailsIff(lib: Lib, c: Chain, lo: nat, hi: nat, reply: seq<Log>, batch: Batch)
    requires Valid(c) && Truthful(c, lo, hi, Ok(reply), batch) && batch.Ok?
    ensures Answers(Ok(reply), batch)
    ensures Fetched(lib, Ok(reply), batch).Err? <==>
            exists l :: LastIn(reply, l)
              && (|| lib.sender(c.header(l.blockNumber), c.tx(l.txHash)).None?
                  || !lib.decode(l.data).Root?
                  || c.tx(l.txHash).to.None?)
  {
    FetchMeetsReply(lib, c, lo, hi, Ok(reply), batch);
    assert forall l :: LastIn(reply, l) && !Readable(lib, c, l) ==> ReplyFails(lib, c, reply);
  }

  /**
   For every honest reply, in whatever order it lists the logs of different
   transactions, fetchData returns the specified records of every block of the
   range, and fails exactly when a deciding log of the range does.
   */
  lemma {:induction false} FetchMeetsSpec(lib: Lib, c: Chain, lo: nat, hi: nat, logs: Logs, batch: Batch)
    requires Valid(c) && Honest(c, lo, hi, logs, batch)
    ensures Answers(logs, batch)
    ensures var r := Fetched(lib, logs, batch);
            && (r.Ok? ==> IsRangeMap(lib, c, lo, hi, r.value) && !Fails(lib, c, lo, hi))
            && (r.Err? && logs.Ok? && batch.Ok? ==> Fails(lib, c, lo, hi))
  {
    FetchMeetsReply(lib, c, lo, hi, logs, batch);
    if logs.Ok? {
      InOrderFails(lib, c, lo, hi, logs.value);
      var r := Fetched(lib, logs, batch);
      if r.Ok? {
        InOrderMap(lib, c, lo, hi, logs.value, r.value);
      }
    }
  }

  // ---------- Transactions with more than one matching log ----------

  /** The records a reader of the topic would expect: one for every log that involves the address. */
  function Expected(lib: Lib, c: Chain, logs: seq<Log>): seq<Record> {
    if logs == [] then [] else
    (if Matches(lib, c, logs[0]) then [RecordFor(lib, c, logs[0])] else []) + Expected(lib, c, logs[1..])
  }

  /** No log that should be kept is followed by another log of its transaction. */
  predicate NothingShadowed(lib: Lib, c: Chain, logs: seq<Log>) {
    forall i :: 0 <= i < |logs| && Matches(lib, c, logs[i]) ==> !Occurs(logs[i].txHash, logs[i + 1..])
  }

  /**
   txHashToLog keeps one log for each transaction: a block loses records exactly
   when a log that should be kept is followed by another log of its transaction.
   */
  lemma {:induction false} ShadowedLogsAreLost(lib: Lib, c: Chain, logs: seq<Log>)
    ensures |Picked(lib, c, logs)| <= |Expected(lib, c, logs)|
    ensures NothingShadowed(lib, c, logs) ==> Picked(lib, c, logs) == Expected(lib, c, logs)
    ensures !NothingShadowed(lib, c, logs) ==> |Picked(lib, c, logs)| < |Expected(lib, c, logs)|
  {
    if logs != [] {
      var rest := logs[1..];
      ShadowedLogsAreLost(lib, c, rest);
      forall i | 0 <= i < |rest| ensures rest[i] == logs[i + 1] && rest[i + 1..] == logs[i + 2..] {}
      if NothingShadowed(lib, c, logs) {
        forall i | 0 <= i < |rest| && Matches(lib, c, rest[i]) ensures !Occurs(rest[i].txHash, rest[i + 1..]) {
          assert !Occurs(logs[i + 1].txHash, logs[i + 1 + 1..]);
        }
      } else {
        var i :| 0 <= i < |logs| && Matches(lib, c, logs[i]) && Occurs(logs[i].txHash, logs[i + 1..]);
        if i > 0 {
          assert Matches(lib, c, rest[i - 1]) && Occurs(rest[i - 1].txHash, rest[i - 1 + 1..]);
        }
      }
    }
  }
}
