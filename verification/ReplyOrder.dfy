/**
 When the order of a reply matters: the join of fetchData (fetcher/fetcher.go)
 keeps one log for each transaction, the last one that the reply lists.
 */
module ReplyOrder {
  import opened Wrappers
  import opened Types
  import opened FetchJoin
  import opened ChainSpec
  import opened PlainReply

  // ---------- Two replies for a range ----------

  /** The log that a reply decides a transaction with is to be kept. */
  predicate Yields(lib: Lib, c: Chain, reply: seq<Log>, h: Hash) {
    Matches(lib, c, LogOf(reply, h))
  }

  /** A transaction that yields a record with one of the replies is decided by the same log in both. */
  predicate SameDeciders(lib: Lib, c: Chain, logs1: seq<Log>, logs2: seq<Log>) {
    forall n :: 0 <= n < |logs1| ==>
      var h := logs1[n].txHash;
      Yields(lib, c, logs1, h) || Yields(lib, c, logs2, h) ==> LogOf(logs1, h) == LogOf(logs2, h)
  }

  ghost predicate SameKept(lib: Lib, c: Chain, logs1: seq<Log>, logs2: seq<Log>) {
    forall l :: Kept(lib, c, logs1, l) <==> Kept(lib, c, logs2, l)
  }

  ghost predicate SameLogs(logs1: seq<Log>, logs2: seq<Log>) {
    forall l :: l in logs1 <==> l in logs2
  }

  lemma {:induction false} KeptByBoth(lib: Lib, c: Chain, logs1: seq<Log>, logs2: seq<Log>, l: Log)
    requires SameLogs(logs1, logs2) && SameDeciders(lib, c, logs1, logs2)
    ensures Kept(lib, c, logs1, l) <==> Kept(lib, c, logs2, l)
  {
    LastInIsLogOf(logs1, l);
    LastInIsLogOf(logs2, l);
    if l in logs1 {
      var n :| 0 <= n < |logs1| && logs1[n] == l;
    }
  }

  lemma {:induction false} DecidedByBoth(lib: Lib, c: Chain, logs1: seq<Log>, logs2: seq<Log>, n: nat)
    requires SameLogs(logs1, logs2) && SameKept(lib, c, logs1, logs2) && n < |logs1|
    ensures var h := logs1[n].txHash;
            Yields(lib, c, logs1, h) || Yields(lib, c, logs2, h) ==> LogOf(logs1, h) == LogOf(logs2, h)
  {
    assert logs1[n] in logs2;
    var m :| 0 <= m < |logs2| && logs2[m] == logs1[n];
    FinalIsLast(logs1, n);
    FinalIsLast(logs2, m);
    var d1, d2 := FinalLogs(logs1)[n], FinalLogs(logs2)[m];
    LastInIsLogOf(logs2, d1);
    LastInIsLogOf(logs1, d2);
    assert Kept(lib, c, logs1, d1) <==> Kept(lib, c, logs2, d1);
    assert Kept(lib, c, logs1, d2) <==> Kept(lib, c, logs2, d2);
  }

  lemma {:induction false} SameDecidersIff(lib: Lib, c: Chain, logs1: seq<Log>, logs2: seq<Log>)
    requires SameLogs(logs1, logs2)
    ensures SameDeciders(lib, c, logs1, logs2) <==> SameKept(lib, c, logs1, logs2)
  {
    if SameDeciders(lib, c, logs1, logs2) {
      forall l ensures Kept(lib, c, logs1, l) <==> Kept(lib, c, logs2, l) {
        KeptByBoth(lib, c, logs1, logs2, l);
      }
    }
    if SameKept(lib, c, logs1, logs2) {
      forall n | 0 <= n < |logs1|
        ensures var h := logs1[n].txHash;
                Yields(lib, c, logs1, h) || Yields(lib, c, logs2, h)
                ==> LogOf(logs1, h) == LogOf(logs2, h)
      {
        DecidedByBoth(lib, c, logs1, logs2, n);
      }
    }
  }

  /** The cells are those of the kept logs of a reply for the range. */
  ghost predicate CellsOf(lib: Lib, c: Chain, reply: seq<Log>, t: Cells) {
    CellsComplete(lib, c, reply, t) && CellsSound(lib, c, reply, t)
  }

  lemma {:induction false} SubCells(lib: Lib, c: Chain, logs1: seq<Log>, t1: Cells, logs2: seq<Log>, t2: Cells)
    requires SameKept(lib, c, logs1, logs2) && CellsOf(lib, c, logs1, t1) && CellsOf(lib, c, logs2, t2)
    ensures forall cell :: cell in t1 ==> cell in t2 && t2[cell] == t1[cell]
  {
    forall cell | cell in t1 ensures cell in t2 && t2[cell] == t1[cell] {
      var l :| Kept(lib, c, logs1, l) && CellOf(l) == cell;
      assert Kept(lib, c, logs2, l);
    }
  }

  lemma {:induction false} SameKeptCells(lib: Lib, c: Chain, logs1: seq<Log>, t1: Cells, logs2: seq<Log>, t2: Cells)
    requires SameKept(lib, c, logs1, logs2) && CellsOf(lib, c, logs1, t1) && CellsOf(lib, c, logs2, t2)
    ensures t1 == t2
  {
    SubCells(lib, c, logs1, t1, logs2, t2);
    assert SameKept(lib, c, logs2, logs1);
    SubCells(lib, c, logs2, t2, logs1, t1);
  }

  lemma {:induction false} SubKept(
      lib: Lib, c: Chain, lo: nat, hi: nat, logs1: seq<Log>, logs2: seq<Log>, t: Cells, l: Log)
    requires Valid(c) && HoldsRange(c, lo, hi, logs1) && HoldsRange(c, lo, hi, logs2)
    requires CellsOf(lib, c, logs1, t) && CellsOf(lib, c, logs2, t) && Kept(lib, c, logs1, l)
    ensures Kept(lib, c, logs2, l)
  {
    assert CellOf(l) in t;
    var l2 :| Kept(lib, c, logs2, l2) && CellOf(l2) == CellOf(l);
    assert l in logs1 && l2 in logs2;
    SameCell(c, lo, hi, logs1, l, l2);
  }

  lemma {:induction false} SameCellsIff(
      lib: Lib, c: Chain, lo: nat, hi: nat, logs1: seq<Log>, t1: Cells, logs2: seq<Log>, t2: Cells)
    requires Valid(c) && HoldsRange(c, lo, hi, logs1) && HoldsRange(c, lo, hi, logs2)
    requires CellsOf(lib, c, logs1, t1) && CellsOf(lib, c, logs2, t2)
    ensures t1 == t2 <==> SameDeciders(lib, c, logs1, logs2)
  {
    SameDecidersIff(lib, c, logs1, logs2);
    if SameKept(lib, c, logs1, logs2) {
      SameKeptCells(lib, c, logs1, t1, logs2, t2);
    } else if t1 == t2 {
      SameTableKeeps(lib, c, lo, hi, logs1, logs2, t1);
    }
  }

  lemma {:induction false} SameTableKeeps(
      lib: Lib, c: Chain, lo: nat, hi: nat, logs1: seq<Log>, logs2: seq<Log>, t: Cells)
    requires Valid(c) && HoldsRange(c, lo, hi, logs1) && HoldsRange(c, lo, hi, logs2)
    requires CellsOf(lib, c, logs1, t) && CellsOf(lib, c, logs2, t)
    ensures SameKept(lib, c, logs1, logs2)
  {
    forall l ensures Kept(lib, c, logs1, l) <==> Kept(lib, c, logs2, l) {
      if Kept(lib, c, logs1, l) {
        SubKept(lib, c, lo, hi, logs1, logs2, t, l);
      } else if Kept(lib, c, logs2, l) {
        SubKept(lib, c, lo, hi, logs2, logs1, t, l);
      }
    }
  }

  // ---------- The replies that a node can give ----------

  /** The table of the join for a reply, with the headers and transactions that it asks for. */
  function TableFor(lib: Lib, c: Chain, reply: seq<Log>): Result<Cells, FetchError> {
    if reply == [] then Ok(map[]) else
    SeenBlocks(reply);
    assert reply[0].blockNumber in FirstSeen(reply);
    Table(lib, reply, PlainBatch(c, reply).0, PlainBatch(c, reply).1)
  }

  /** The result of fetchData for a reply, with the headers and transactions that it asks for. */
  function FetchedFor(lib: Lib, c: Chain, reply: seq<Log>): Result<map<nat, seq<Record>>, FetchError> {
    SeenBlocks(reply);
    assert reply != [] ==> reply[0].blockNumber in FirstSeen(reply);
    Fetched(lib, Ok(reply), Ok(PlainBatch(c, reply)))
  }

  lemma {:induction false} TableForCells(lib: Lib, c: Chain, lo: nat, hi: nat, reply: seq<Log>)
    requires Valid(c) && HoldsRange(c, lo, hi, reply)
    ensures TableFor(lib, c, reply).Err? <==> ReplyFails(lib, c, reply)
    ensures TableFor(lib, c, reply).Ok? ==> CellsOf(lib, c, reply, TableFor(lib, c, reply).value)
  {
    if reply != [] {
      var (blocks, txs) := PlainBatch(c, reply);
      SeenBlocks(reply);
      assert reply[0].blockNumber in FirstSeen(reply);
      TableOfReply(lib, c, lo, hi, reply, blocks, txs);
      TableMeetsReply(lib, c, reply, TableFor(lib, c, reply));
    }
  }

  lemma {:induction false} FetchedForReply(lib: Lib, c: Chain, lo: nat, hi: nat, reply: seq<Log>)
    requires Valid(c) && HoldsRange(c, lo, hi, reply)
    ensures FetchedFor(lib, c, reply).Err? <==> ReplyFails(lib, c, reply)
    ensures FetchedFor(lib, c, reply).Ok? ==> IsReplyMap(lib, c, reply, FetchedFor(lib, c, reply).value)
  {
    FetchMeetsReply(lib, c, lo, hi, Ok(reply), Ok(PlainBatch(c, reply)));
  }

  /** Both fetches fail, or both succeed with the same value. */
  ghost predicate SameOutcome<T>(r1: Result<T, FetchError>, r2: Result<T, FetchError>) {
    (r1.Ok? <==> r2.Ok?) && (r1.Ok? ==> r1.value == r2.value)
  }

  /** Both replies are decided by a failing log somewhere, or neither is. */
  ghost predicate SameFailure(lib: Lib, c: Chain, logs1: seq<Log>, logs2: seq<Log>) {
    ReplyFails(lib, c, logs1) <==> ReplyFails(lib, c, logs2)
  }

  /**
   Two replies for a range, in any orders, give the same table of kept records, or
   fail both, if and only if a failing log decides some transaction in both, or in
   neither and every transaction that yields a record is decided by the same log.
   */
  lemma {:induction false} TablesAgreeIff(lib: Lib, c: Chain, lo: nat, hi: nat, logs1: seq<Log>, logs2: seq<Log>)
    requires Valid(c) && HoldsRange(c, lo, hi, logs1) && HoldsRange(c, lo, hi, logs2)
    ensures TableFor(lib, c, logs1).Err? <==> ReplyFails(lib, c, logs1)
    ensures SameOutcome(TableFor(lib, c, logs1), TableFor(lib, c, logs2))
            <==> SameFailure(lib, c, logs1, logs2)
                 && (ReplyFails(lib, c, logs1) || SameDeciders(lib, c, logs1, logs2))
  {
    TableForCells(lib, c, lo, hi, logs1);
    TableForCells(lib, c, lo, hi, logs2);
    var t1, t2 := TableFor(lib, c, logs1), TableFor(lib, c, logs2);
    if t1.Ok? && t2.Ok? {
      SameCellsIff(lib, c, lo, hi, logs1, t1.value, logs2, t2.value);
    }
  }

  /** Two maps of replies are the same exactly when the replies yield the same records for every block. */
  lemma {:induction false} ReplyMapsAgree(
      lib: Lib, c: Chain, logs1: seq<Log>, m1: map<nat, seq<Record>>, logs2: seq<Log>, m2: map<nat, seq<Record>>)
    requires IsReplyMap(lib, c, logs1, m1) && IsReplyMap(lib, c, logs2, m2)
    ensures m1 == m2 <==> SameRecords(lib, c, logs1, logs2)
  {
    if m1 == m2 {
      forall b: nat ensures ReplySpec(lib, c, logs1, b) == ReplySpec(lib, c, logs2, b) {
        assert b in m1 <==> b in m2;
      }
    }
  }

  lemma {:induction false} SameKeptPicks(lib: Lib, c: Chain, logs1: seq<Log>, logs2: seq<Log>, logs: seq<Log>)
    requires SameKept(lib, c, logs1, logs2)
    ensures PickedBy(lib, c, logs1, logs) == PickedBy(lib, c, logs2, logs)
  {
    if logs != [] {
      SameKeptPicks(lib, c, logs1, logs2, logs[1..]);
    }
  }

  /** A record says which log of its block it comes from. */
  ghost predicate Telling(lib: Lib, c: Chain, logs: seq<Log>) {
    forall l1, l2 | l1 in logs && l2 in logs && l1.blockNumber == l2.blockNumber ::
      Matches(lib, c, l1) && RecordFor(lib, c, l1) == RecordFor(lib, c, l2) ==> l1 == l2
  }

  lemma {:induction false} RecordFrom(lib: Lib, c: Chain, reply: seq<Log>, logs: seq<Log>, r: Record) returns (l: Log)
    requires r in PickedBy(lib, c, reply, logs)
    ensures l in logs && Kept(lib, c, reply, l) && RecordFor(lib, c, l) == r
  {
    if Kept(lib, c, reply, logs[0]) && RecordFor(lib, c, logs[0]) == r {
      l := logs[0];
    } else {
      l := RecordFrom(lib, c, reply, logs[1..], r);
    }
  }

  lemma {:induction false} SameRecordsKeep(
      lib: Lib, c: Chain, lo: nat, hi: nat, logs1: seq<Log>, logs2: seq<Log>, l: Log)
    requires Valid(c) && HoldsRange(c, lo, hi, logs1) && HoldsRange(c, lo, hi, logs2) && Telling(lib, c, logs2)
    requires ReplySpec(lib, c, logs1, l.blockNumber) == ReplySpec(lib, c, logs2, l.blockNumber)
    requires Kept(lib, c, logs1, l)
    ensures Kept(lib, c, logs2, l)
  {
    var b := l.blockNumber;
    assert l in logs1;
    PickedHolds(lib, c, logs1, c.logs(b), l);
    var l2 := RecordFrom(lib, c, logs2, c.logs(b), RecordFor(lib, c, l));
    assert l in logs2 && l2 in logs2;
    ValidLogs(c);
  }

  ghost predicate SameRecords(lib: Lib, c: Chain, logs1: seq<Log>, logs2: seq<Log>) {
    forall b: nat :: ReplySpec(lib, c, logs1, b) == ReplySpec(lib, c, logs2, b)
  }

  /**
   Two replies for a range give the same result, or fail both, if and only if a
   failing log decides some transaction in both, or in neither and the records of
   every block agree. The records agree if every transaction that yields a record is
   decided by the same log; when records tell the logs of a block apart, only then.
   */
  lemma {:induction false} ResultsAgreeIff(lib: Lib, c: Chain, lo: nat, hi: nat, logs1: seq<Log>, logs2: seq<Log>)
    requires Valid(c) && HoldsRange(c, lo, hi, logs1) && HoldsRange(c, lo, hi, logs2)
    ensures FetchedFor(lib, c, logs1).Err? <==> ReplyFails(lib, c, logs1)
    ensures SameOutcome(FetchedFor(lib, c, logs1), FetchedFor(lib, c, logs2))
            <==> SameFailure(lib, c, logs1, logs2)
                 && (ReplyFails(lib, c, logs1) || SameRecords(lib, c, logs1, logs2))
    ensures SameDeciders(lib, c, logs1, logs2) ==> SameRecords(lib, c, logs1, logs2)
    ensures Telling(lib, c, logs1) && SameRecords(lib, c, logs1, logs2) ==> SameDeciders(lib, c, logs1, logs2)
  {
    FetchedForReply(lib, c, lo, hi, logs1);
    FetchedForReply(lib, c, lo, hi, logs2);
    var r1, r2 := FetchedFor(lib, c, logs1), FetchedFor(lib, c, logs2);
    if r1.Ok? && r2.Ok? {
      ReplyMapsAgree(lib, c, logs1, r1.value, logs2, r2.value);
    }
    SpecsAgreeIff(lib, c, lo, hi, logs1, logs2);
  }

  lemma {:induction false} SpecsAgreeIff(lib: Lib, c: Chain, lo: nat, hi: nat, logs1: seq<Log>, logs2: seq<Log>)
    requires Valid(c) && HoldsRange(c, lo, hi, logs1) && HoldsRange(c, lo, hi, logs2)
    ensures SameDeciders(lib, c, logs1, logs2) ==> SameRecords(lib, c, logs1, logs2)
    ensures Telling(lib, c, logs1) && SameRecords(lib, c, logs1, logs2) ==> SameDeciders(lib, c, logs1, logs2)
  {
    SameDecidersIff(lib, c, logs1, logs2);
    if SameKept(lib, c, logs1, logs2) {
      forall b: nat ensures ReplySpec(lib, c, logs1, b) == ReplySpec(lib, c, logs2, b) {
        SameKeptPicks(lib, c, logs1, logs2, c.logs(b));
      }
    }
    if Telling(lib, c, logs1) && SameRecords(lib, c, logs1, logs2) {
      forall l ensures Kept(lib, c, logs1, l) <==> Kept(lib, c, logs2, l) {
        if Kept(lib, c, logs1, l) {
          SameRecordsKeep(lib, c, lo, hi, logs1, logs2, l);
        } else if Kept(lib, c, logs2, l) {
          SameRecordsKeep(lib, c, lo, hi, logs2, logs1, l);
        }
      }
    }
  }

  // ---------- All orders of a reply ----------

  /** A log that can be kept shares its transaction with no other log. */
  predicate Alone(lib: Lib, c: Chain, logs: seq<Log>) {
    forall i, j | 0 <= i < |logs| && 0 <= j < |logs| && logs[i].txHash == logs[j].txHash ::
      Matches(lib, c, logs[i]) ==> logs[i] == logs[j]
  }

  predicate NoneFail(lib: Lib, c: Chain, logs: seq<Log>) {
    forall i :: 0 <= i < |logs| ==> Readable(lib, c, logs[i])
  }

  ghost predicate Permutation(logs: seq<Log>, permuted: seq<Log>) {
    multiset(permuted) == multiset(logs)
  }

  lemma {:induction false} PermutationHolds(c: Chain, lo: nat, hi: nat, logs: seq<Log>, permuted: seq<Log>)
    requires HoldsRange(c, lo, hi, logs) && Permutation(logs, permuted)
    ensures HoldsRange(c, lo, hi, permuted) && SameLogs(permuted, logs)
  {
    forall l ensures l in permuted <==> l in logs {
      assert l in multiset(permuted) <==> l in multiset(logs);
    }
  }

  /** The order that lists one log last. */
  function MoveLast(logs: seq<Log>, i: nat): seq<Log>
    requires i < |logs|
  {
    logs[..i] + logs[i + 1..] + [logs[i]]
  }

  lemma {:induction false} MoveLastDecides(logs: seq<Log>, i: nat)
    requires i < |logs|
    ensures Permutation(logs, MoveLast(logs, i))
    ensures LogOf(MoveLast(logs, i), logs[i].txHash) == logs[i]
  {
    assert logs == logs[..i] + [logs[i]] + logs[i + 1..];
    var moved := MoveLast(logs, i);
    assert moved[|moved| - 1] == logs[i];
    LastInIsLogOf(moved, logs[i]);
  }

  lemma {:induction false} AloneSameDeciders(lib: Lib, c: Chain, logs1: seq<Log>, logs2: seq<Log>)
    requires Alone(lib, c, logs2) && SameLogs(logs1, logs2)
    ensures SameDeciders(lib, c, logs1, logs2)
  {
    forall n | 0 <= n < |logs1|
      ensures var h := logs1[n].txHash;
              Yields(lib, c, logs1, h) || Yields(lib, c, logs2, h) ==> LogOf(logs1, h) == LogOf(logs2, h)
    {
      assert logs1[n] in logs2;
      var m :| 0 <= m < |logs2| && logs2[m] == logs1[n];
      FinalIsLast(logs1, n);
      FinalIsLast(logs2, m);
      var d1, d2 := FinalLogs(logs1)[n], FinalLogs(logs2)[m];
      assert d1 in logs2 && d2 in logs2;
    }
  }

  /** If the deciders are the same in all orders, then a log that can be kept is alone in its transaction. */
  lemma {:induction false} SharedDecidersDiffer(lib: Lib, c: Chain, logs: seq<Log>, i: nat, j: nat)
    requires i < |logs| && j < |logs| && logs[i].txHash == logs[j].txHash && logs[i] != logs[j]
    requires Matches(lib, c, logs[i])
    ensures !SameDeciders(lib, c, MoveLast(logs, i), MoveLast(logs, j))
  {
    MoveLastDecides(logs, i);
    MoveLastDecides(logs, j);
    var moved := MoveLast(logs, i);
    assert moved[|moved| - 1] == logs[i];
  }

  lemma {:induction false} NoneFailHolds(lib: Lib, c: Chain, logs: seq<Log>, permuted: seq<Log>)
    requires NoneFail(lib, c, logs) && SameLogs(permuted, logs)
    ensures !ReplyFails(lib, c, permuted)
  {
    forall l | LastIn(permuted, l) ensures Readable(lib, c, l) {
      assert l in permuted && l in logs;
    }
  }

  /** No log of one of the transactions can be turned into a verdict: every order fails. */
  predicate AlwaysFails(lib: Lib, c: Chain, logs: seq<Log>) {
    exists i :: 0 <= i < |logs| && OnlyFailing(lib, c, logs, logs[i].txHash)
  }

  predicate OnlyFailing(lib: Lib, c: Chain, logs: seq<Log>, h: Hash) {
    forall j :: 0 <= j < |logs| && logs[j].txHash == h ==> !Readable(lib, c, logs[j])
  }

  lemma {:induction false} AlwaysFailsHolds(lib: Lib, c: Chain, logs: seq<Log>, permuted: seq<Log>)
    requires AlwaysFails(lib, c, logs) && SameLogs(permuted, logs)
    ensures ReplyFails(lib, c, permuted)
  {
    var i :| 0 <= i < |logs| && OnlyFailing(lib, c, logs, logs[i].txHash);
    assert logs[i] in permuted;
    var n :| 0 <= n < |permuted| && permuted[n] == logs[i];
    FinalIsLast(permuted, n);
    var d := FinalLogs(permuted)[n];
    assert d in logs;
  }

  // ---------- An order that succeeds ----------

  /** The logs whose verdict fails, or those whose verdict does not. */
  function Select(lib: Lib, c: Chain, logs: seq<Log>, failing: bool): (r: seq<Log>)
    ensures forall l :: l in r <==> l in logs && !Readable(lib, c, l) == failing
  {
    if logs == [] then [] else
    var rest := Select(lib, c, logs[1..], failing);
    if !Readable(lib, c, logs[0]) == failing then [logs[0]] + rest else rest
  }

  function FailingFirst(lib: Lib, c: Chain, logs: seq<Log>): seq<Log> {
    Select(lib, c, logs, true) + Select(lib, c, logs, false)
  }

  lemma {:induction false} OneMoreLog(x: Log, failing: seq<Log>, others: seq<Log>, rest: seq<Log>)
    requires Permutation(rest, failing + others)
    ensures Permutation([x] + rest, ([x] + failing) + others)
    ensures Permutation([x] + rest, failing + ([x] + others))
  {
  }

  lemma {:induction false} FailingFirstPermutes(lib: Lib, c: Chain, logs: seq<Log>)
    ensures Permutation(logs, FailingFirst(lib, c, logs))
  {
    if logs != [] {
      var rest := logs[1..];
      FailingFirstPermutes(lib, c, rest);
      OneMoreLog(logs[0], Select(lib, c, rest, true), Select(lib, c, rest, false), rest);
      assert logs == [logs[0]] + rest;
    }
  }

  /** With all failing logs first, only a transaction with no other log is decided by one. */
  lemma {:induction false} FailingFirstSucceeds(lib: Lib, c: Chain, logs: seq<Log>)
    requires !AlwaysFails(lib, c, logs)
    ensures !ReplyFails(lib, c, FailingFirst(lib, c, logs))
  {
    var first := FailingFirst(lib, c, logs);
    forall l | LastIn(first, l) ensures Readable(lib, c, l) {
      if !Readable(lib, c, l) {
        LaterSibling(lib, c, logs, l);
      }
    }
  }

  /** A log that is followed by another of its transaction is not the last one of it. */
  lemma {:induction false} FollowedIn(failing: seq<Log>, others: seq<Log>, l: Log, k: nat)
    requires l !in others && k < |others| && others[k].txHash == l.txHash
    ensures !LastIn(failing + others, l)
  {
    var first := failing + others;
    assert first[|failing| + k] == others[k];
    forall n | |failing| <= n < |first| ensures first[n] != l {
      assert first[n] == others[n - |failing|] && others[n - |failing|] in others;
    }
  }

  lemma {:induction false} LaterSibling(lib: Lib, c: Chain, logs: seq<Log>, l: Log)
    requires !AlwaysFails(lib, c, logs) && !Readable(lib, c, l)
    ensures !LastIn(FailingFirst(lib, c, logs), l)
  {
    var others := Select(lib, c, logs, false);
    if l in FailingFirst(lib, c, logs) {
      assert l in logs;
      var i :| 0 <= i < |logs| && logs[i] == l;
      assert !OnlyFailing(lib, c, logs, l.txHash);
      var j :| 0 <= j < |logs| && logs[j].txHash == l.txHash && Readable(lib, c, logs[j]);
      assert logs[j] in others;
      var k :| 0 <= k < |others| && others[k] == logs[j];
      FollowedIn(Select(lib, c, logs, true), others, l, k);
    }
  }

  lemma {:induction false} MoveLastFails(lib: Lib, c: Chain, logs: seq<Log>, i: nat)
    requires i < |logs| && !Readable(lib, c, logs[i])
    ensures ReplyFails(lib, c, MoveLast(logs, i))
  {
    var moved := MoveLast(logs, i);
    MoveLastDecides(logs, i);
    assert moved[|moved| - 1] == logs[i];
    LastInIsLogOf(moved, logs[i]);
  }

  // ---------- When the order matters ----------

  /** What decides whether the order can matter, log by log. */
  predicate OrderFree(lib: Lib, c: Chain, logs: seq<Log>) {
    AlwaysFails(lib, c, logs) || (NoneFail(lib, c, logs) && Alone(lib, c, logs))
  }

  /** In such a reply all orders fail, or none does and all have the same deciders. */
  lemma {:induction false} OrderFreeAgrees(
      lib: Lib, c: Chain, lo: nat, hi: nat, logs: seq<Log>, permuted: seq<Log>)
    requires OrderFree(lib, c, logs) && HoldsRange(c, lo, hi, logs) && Permutation(logs, permuted)
    ensures HoldsRange(c, lo, hi, permuted) && SameFailure(lib, c, permuted, logs)
    ensures ReplyFails(lib, c, permuted) || SameDeciders(lib, c, permuted, logs)
  {
    PermutationHolds(c, lo, hi, logs, permuted);
    if AlwaysFails(lib, c, logs) {
      AlwaysFailsHolds(lib, c, logs, permuted);
      AlwaysFailsHolds(lib, c, logs, logs);
    } else {
      NoneFailHolds(lib, c, logs, permuted);
      NoneFailHolds(lib, c, logs, logs);
      AloneSameDeciders(lib, c, permuted, logs);
    }
  }

  /** Otherwise two orders differ in whether they fail, or in a decider. */
  lemma {:induction false} OrdersDiffer(lib: Lib, c: Chain, lo: nat, hi: nat, logs: seq<Log>)
    returns (p1: seq<Log>, p2: seq<Log>)
    requires !OrderFree(lib, c, logs) && HoldsRange(c, lo, hi, logs)
    ensures Permutation(logs, p1) && Permutation(logs, p2)
    ensures HoldsRange(c, lo, hi, p1) && HoldsRange(c, lo, hi, p2) && SameLogs(p1, logs)
    ensures !SameFailure(lib, c, p1, p2) || (!ReplyFails(lib, c, p1) && !SameDeciders(lib, c, p1, p2))
  {
    if NoneFail(lib, c, logs) {
      var i, j :| 0 <= i < |logs| && 0 <= j < |logs| && logs[i].txHash == logs[j].txHash
                  && Matches(lib, c, logs[i]) && logs[i] != logs[j];
      p1, p2 := MoveLast(logs, i), MoveLast(logs, j);
      MoveLastDecides(logs, i);
      MoveLastDecides(logs, j);
      PermutationHolds(c, lo, hi, logs, p1);
      NoneFailHolds(lib, c, logs, p1);
      SharedDecidersDiffer(lib, c, logs, i, j);
    } else {
      var i :| 0 <= i < |logs| && !Readable(lib, c, logs[i]);
      p1, p2 := FailingFirst(lib, c, logs), MoveLast(logs, i);
      FailingFirstPermutes(lib, c, logs);
      FailingFirstSucceeds(lib, c, logs);
      MoveLastDecides(logs, i);
      MoveLastFails(lib, c, logs, i);
      PermutationHolds(c, lo, hi, logs, p1);
    }
    PermutationHolds(c, lo, hi, logs, p2);
  }

  ghost predicate SameTableInAllOrders(lib: Lib, c: Chain, logs: seq<Log>) {
    forall permuted | Permutation(logs, permuted) ::
      SameOutcome(TableFor(lib, c, permuted), TableFor(lib, c, logs))
  }

  ghost predicate SameResultInAllOrders(lib: Lib, c: Chain, logs: seq<Log>) {
    forall permuted | Permutation(logs, permuted) ::
      SameOutcome(FetchedFor(lib, c, permuted), FetchedFor(lib, c, logs))
  }

  /**
   All orders of a reply fail, or all succeed with the same table of kept records, if
   and only if some transaction has only failing logs, or else no log fails and every
   log that can be kept is the only log of its transaction.
   */
  lemma {:induction false} TableOrderMattersIff(lib: Lib, c: Chain, lo: nat, hi: nat, logs: seq<Log>)
    requires Valid(c) && HoldsRange(c, lo, hi, logs)
    ensures SameTableInAllOrders(lib, c, logs) <==> OrderFree(lib, c, logs)
  {
    if OrderFree(lib, c, logs) {
      forall permuted | Permutation(logs, permuted)
        ensures SameOutcome(TableFor(lib, c, permuted), TableFor(lib, c, logs))
      {
        OrderFreeAgrees(lib, c, lo, hi, logs, permuted);
        TablesAgreeIff(lib, c, lo, hi, permuted, logs);
      }
    } else {
      var p1, p2 := OrdersDiffer(lib, c, lo, hi, logs);
      TablesAgreeIff(lib, c, lo, hi, p1, p2);
    }
  }

  /** The same for the result of fetchData, when records tell the logs of a block apart. */
  lemma {:induction false} ResultOrderMattersIff(lib: Lib, c: Chain, lo: nat, hi: nat, logs: seq<Log>)
    requires Valid(c) && HoldsRange(c, lo, hi, logs) && Telling(lib, c, logs)
    ensures SameResultInAllOrders(lib, c, logs) <==> OrderFree(lib, c, logs)
  {
    if OrderFree(lib, c, logs) {
      forall permuted | Permutation(logs, permuted)
        ensures SameOutcome(FetchedFor(lib, c, permuted), FetchedFor(lib, c, logs))
      {
        OrderFreeAgrees(lib, c, lo, hi, logs, permuted);
        ResultsAgreeIff(lib, c, lo, hi, permuted, logs);
      }
    } else {
      var p1, p2 := OrdersDiffer(lib, c, lo, hi, logs);
      assert Telling(lib, c, p1);
      ResultsAgreeIff(lib, c, lo, hi, p1, p2);
    }
  }

  // ---------- Replies without shared transactions ----------

  predicate NoneShared(logs: seq<Log>) {
    forall i, j :: 0 <= i < j < |logs| ==> logs[i].txHash != logs[j].txHash
  }

  /** When no two logs of the reply share a transaction, no two logs of any order of it do. */
  lemma {:induction false} PermutedNoneShared(logs: seq<Log>, permuted: seq<Log>)
    requires Permutation(logs, permuted) && NoneShared(logs)
    ensures NoneShared(permuted)
  {
    forall i, j | 0 <= i < j < |permuted| ensures permuted[i].txHash != permuted[j].txHash {
      if permuted[i] == permuted[j] {
        TwiceInSeq(permuted, i, j);
        OnceInSeq(logs, permuted[i]);
      } else {
        assert permuted[i] in multiset(permuted) && permuted[j] in multiset(permuted);
        assert permuted[i] in logs && permuted[j] in logs;
      }
    }
  }

  lemma {:induction false} TwiceInSeq(s: seq<Log>, i: nat, j: nat)
    requires i < j < |s| && s[i] == s[j]
    ensures multiset(s)[s[i]] >= 2
  {
    assert s == s[..j] + [s[j]] + s[j + 1..];
    assert s[i] in s[..j];
  }

  lemma {:induction false} OnceInSeq(s: seq<Log>, a: Log)
    requires forall i, j :: 0 <= i < j < |s| ==> s[i].txHash != s[j].txHash
    ensures multiset(s)[a] <= 1
  {
    if s != [] {
      var rest := s[1..];
      assert s == [s[0]] + rest;
      OnceInSeq(rest, a);
      if s[0] == a {
        assert a !in rest;
      }
    }
  }

  /**
   When no two logs of a reply share a transaction, fetchData gives the same result
   for every order of it, whatever else the batches of headers and transactions that
   answer the two orders are: it succeeds with both or with neither, and with equal maps.
   */
  lemma {:induction false} PermutationIrrelevant(
      lib: Lib, c: Chain, lo: nat, hi: nat, logs: seq<Log>, batch1: Batch, permuted: seq<Log>, batch2: Batch)
    requires Valid(c) && NoneShared(logs) && Permutation(logs, permuted) && batch1.Ok? && batch2.Ok?
    requires Truthful(c, lo, hi, Ok(logs), batch1)
    requires ValidBatch(c, permuted, batch2.value.0, batch2.value.1)
    ensures Answers(Ok(logs), batch1) && Answers(Ok(permuted), batch2)
    ensures var r1, r2 := Fetched(lib, Ok(logs), batch1), Fetched(lib, Ok(permuted), batch2);
            (r1.Ok? <==> r2.Ok?) && (r1.Ok? ==> r1 == r2)
  {
    PermutationHolds(c, lo, hi, logs, permuted);
    PermutedNoneShared(logs, permuted);
    ReplyOrderIrrelevant(lib, c, lo, hi, Ok(logs), batch1, Ok(permuted), batch2);
  }

  /** Any two honest replies for a range give the same map. */
  lemma {:induction false} ReplyOrderIrrelevant(
      lib: Lib, c: Chain, lo: nat, hi: nat, logs1: Logs, batch1: Batch, logs2: Logs, batch2: Batch)
    requires Valid(c) && Honest(c, lo, hi, logs1, batch1) && Honest(c, lo, hi, logs2, batch2)
    requires logs1.Ok? && batch1.Ok? && logs2.Ok? && batch2.Ok?
    ensures Answers(logs1, batch1) && Answers(logs2, batch2)
    ensures Fetched(lib, logs1, batch1).Ok? <==> Fetched(lib, logs2, batch2).Ok?
    ensures Fetched(lib, logs1, batch1).Ok? ==> Fetched(lib, logs1, batch1) == Fetched(lib, logs2, batch2)
  {
    FetchMeetsSpec(lib, c, lo, hi, logs1, batch1);
    FetchMeetsSpec(lib, c, lo, hi, logs2, batch2);
    var r1, r2 := Fetched(lib, logs1, batch1), Fetched(lib, logs2, batch2);
    if r1.Ok? && r2.Ok? {
      RangeMapUnique(lib, c, lo, hi, r1.value, r2.value);
    }
  }

  // ---------- An example ----------

  /**
   So order independence is false of the code when logs share a transaction: here
   the same two logs, swapped, give different records.
   */
  lemma {:induction false} SharedTransactionOrderMatters() returns (lib: Lib, a: Log, b: Log, batch: Batch)
    ensures a.txHash == b.txHash && a.blockNumber == b.blockNumber && a.index < b.index
    ensures Answers(Ok([a, b]), batch) && Answers(Ok([b, a]), batch)
    ensures Fetched(lib, Ok([a, b]), batch).Ok? && Fetched(lib, Ok([b, a]), batch).Ok?
    ensures Fetched(lib, Ok([a, b]), batch) != Fetched(lib, Ok([b, a]), batch)
  {
    lib := Lib("input", (header, tx) => Some("input"), bytes => Root(bytes));
    a, b := Log(1, "tx", 0, [7]), Log(1, "tx", 1, [9]);
    var header, tx := Header(1, 0, []), Tx("tx", Some("other"), []);
    batch := Ok(([header], [tx, tx]));
    OneRecord(lib, [a, b], header, tx, b);
    OneRecord(lib, [b, a], header, tx, a);
    var r1, r2 := Record([9], 0, []), Record([7], 0, []);
    assert Judge(lib, b, header, tx) == Keep(r1) && Judge(lib, a, header, tx) == Keep(r2);
    assert r1.l1InfoRoot[0] != r2.l1InfoRoot[0];
    assert (map[1 := [r1]])[1][0] != (map[1 := [r2]])[1][0];
  }

  lemma {:induction false} OneRecord(lib: Lib, logs: seq<Log>, header: Header, tx: Tx, last: Log)
    requires |logs| == 2 && last == logs[1]
    requires logs[0].txHash == logs[1].txHash == tx.hash && logs[0].blockNumber == logs[1].blockNumber == header.number
    requires Judge(lib, last, header, tx).Keep?
    ensures var r := Fetched(lib, Ok(logs), Ok(([header], [tx, tx])));
            var record := Judge(lib, last, header, tx).record;
            r == Ok(map[header.number := [record]])
  {
    var record := Judge(lib, last, header, tx).record;
    var t: Cells := map[(header.number, last.index) := record];
    OneCell(lib, logs, header, tx, last);
    assert Ascending(Indexes(t, header.number)) == [last.index] && Row(t, header.number) == [record] by {
      RowOfCells(t, header.number, [last.index], [record]);
      IndexIsCell(t, header.number);
      IncreasingUnique([last.index], Ascending(Indexes(t, header.number)));
    }
    OneRow(t, logs, header.number, record);
  }

  lemma {:induction false} OneCell(lib: Lib, logs: seq<Log>, header: Header, tx: Tx, last: Log)
    requires |logs| == 2 && last == logs[1]
    requires logs[0].txHash == logs[1].txHash == tx.hash && last.blockNumber == header.number
    requires Judge(lib, last, header, tx).Keep?
    ensures Table(lib, logs, [header], [tx, tx])
         == Ok(map[(header.number, last.index) := Judge(lib, last, header, tx).record])
  {
    LastOfTwo(logs);
    SliceFinds([header]);
    assert Outcome(lib, logs, [header], tx) == Judge(lib, last, header, tx);
    TableMore(lib, logs, [header], [], tx);
    TableMore(lib, logs, [header], [tx], tx);
    assert [] + [tx] == [tx] && [tx] + [tx] == [tx, tx];
    assert Table(lib, logs, [header], []) == Ok(map[]);
    var cell := map[(header.number, last.index) := Judge(lib, last, header, tx).record];
    assert cell[(header.number, last.index) := Judge(lib, last, header, tx).record] == cell;
  }

  lemma {:induction false} TableMore(lib: Lib, logs: seq<Log>, blocks: seq<Header>, txs: seq<Tx>, tx: Tx)
    requires blocks != [] && Table(lib, logs, blocks, txs).Ok? && Outcome(lib, logs, blocks, tx).Keep?
    ensures Table(lib, logs, blocks, txs + [tx])
         == Ok(Table(lib, logs, blocks, txs).value
                 [CellOf(LogOf(logs, tx.hash)) := Outcome(lib, logs, blocks, tx).record])
  {
    assert (txs + [tx])[..|txs|] == txs;
  }

  lemma {:induction false} OneRow(t: Cells, logs: seq<Log>, b: nat, record: Record)
    requires |logs| == 2 && logs[0].blockNumber == logs[1].blockNumber == b
    requires Row(t, b) == [record]
    ensures Rows(t, FirstSeen(logs)) == map[b := [record]]
  {
    SeenBlocks(logs);
    assert logs[0].blockNumber in FirstSeen(logs);
    assert Indexes(t, b) != {};
  }

  lemma {:induction false} LastOfTwo(logs: seq<Log>)
    requires |logs| == 2 && logs[0].txHash == logs[1].txHash
    ensures LogOf(logs, logs[1].txHash) == logs[1]
  {
    var i := LastLog(logs, 1);
  }

  /** A transaction with two logs that does not involve the address; only the first log unpacks. */
  function HalfUnpacks(): (Lib, Chain, Log, Log) {
    var good, bad := Log(1, "tx", 0, [7]), Log(1, "tx", 1, [9]);
    (Lib("address", (_, _) => Some("other"), data => if data == [9] then NotUnpacked else Root(data)),
     Chain(b => if b == 1 then [good, bad] else [], (b: nat) => Header(b, 0, []), h => Tx(h, Some("other"), [])),
     good, bad)
  }

  lemma {:induction false} HalfUnpacksIsValid()
    ensures var (_, c, good, bad) := HalfUnpacks();
            Valid(c) && HoldsRange(c, 1, 1, [good, bad]) && HoldsRange(c, 1, 1, [bad, good])
  {
    var (_, c, good, bad) := HalfUnpacks();
    assert c.logs(1) == [good, bad];
    forall l
      ensures l in [good, bad] <==> 1 <= l.blockNumber <= 1 && l in c.logs(l.blockNumber)
      ensures l in [bad, good] <==> l in [good, bad]
    {
    }
  }

  lemma {:induction false} LastOfPair(a: Log, b: Log, l: Log)
    requires a.txHash == b.txHash
    ensures LastIn([a, b], l) <==> l == b
  {
    var pair := [a, b];
    assert pair[1] == b;
    if LastIn(pair, l) {
      var i :| 0 <= i < |pair| && pair[i] == l && forall j :: i < j < |pair| ==> pair[j].txHash != l.txHash;
      assert i == 1;
    }
  }

  lemma {:induction false} LastDecidesPair(lib: Lib, c: Chain, good: Log, bad: Log)
    requires good.txHash == bad.txHash && Readable(lib, c, good) && !Matches(lib, c, good) && !Readable(lib, c, bad)
    ensures Alone(lib, c, [good, bad])
    ensures ReplyFails(lib, c, [good, bad]) && !ReplyFails(lib, c, [bad, good])
  {
    LastOfPair(good, bad, bad);
    forall l ensures LastIn([bad, good], l) <==> l == good {
      LastOfPair(bad, good, l);
    }
  }

  /**
   No log can be kept here, and still the order decides: with the log that does not
   unpack last the fetch fails, which takes the process down, and with it first the
   fetch succeeds.
   */
  lemma {:induction false} OrderDecidesFailure()
    ensures var (lib, c, good, bad) := HalfUnpacks();
            && Valid(c) && HoldsRange(c, 1, 1, [good, bad]) && HoldsRange(c, 1, 1, [bad, good])
            && Alone(lib, c, [good, bad]) && !Matches(lib, c, good) && !Matches(lib, c, bad)
            && FetchedFor(lib, c, [good, bad]).Err? && FetchedFor(lib, c, [bad, good]).Ok?
  {
    var (lib, c, good, bad) := HalfUnpacks();
    HalfUnpacksIsValid();
    assert Readable(lib, c, good) && !Matches(lib, c, good) && !Readable(lib, c, bad);
    LastDecidesPair(lib, c, good, bad);
    FetchedForReply(lib, c, 1, 1, [good, bad]);
    FetchedForReply(lib, c, 1, 1, [bad, good]);
  }
}
