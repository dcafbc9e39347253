/**
 The join of logs, headers and transactions in fetchData (fetcher/fetcher.go),
 on whatever replies the nodes give.
 */
module FetchJoin {
  import opened Wrappers
  import opened Encoding
  import opened Types

  type Hash = string

  type Address = string

  datatype Log = Log(blockNumber: nat, txHash: Hash, index: nat, data: Bytes)

  datatype Header = Header(number: nat, time: nat, parentHash: Bytes)

  /** `to` is None for a contract creation. */
  datatype Tx = Tx(hash: Hash, to: Option<Address>, body: Bytes)

  /** Unpacking an event: its first field, if it unpacks and is 32 bytes wide. */
  datatype Decoded = Root(root: Bytes) | NotUnpacked | OtherType

  /** The library calls of the join, and the configured address. */
  datatype Lib = Lib(
    inputAddress: Address,
    sender: (Header, Tx) -> Option<Address>,
    decode: Bytes -> Decoded)

  datatype FetchError = ReqTooBig | MaxRounds | BadSender | BadData | BadRootType | NoRecipient

  datatype Verdict = Keep(record: Record) | Skip | Fail(error: FetchError)

  /** What one transaction and its log contribute (fetcher/fetcher.go:113-148). */
  function Judge(lib: Lib, log: Log, header: Header, tx: Tx): (v: Verdict)
    ensures v.Fail? <==> lib.sender(header, tx).None? || !lib.decode(log.data).Root? || tx.to.None?
    ensures v.Fail? ==> v.error != ReqTooBig && v.error != MaxRounds
    ensures v.Keep? <==>
              !v.Fail? && (lib.sender(header, tx) == Some(lib.inputAddress) || tx.to == Some(lib.inputAddress))
    ensures v.Keep? ==> v.record == Record(lib.decode(log.data).root, header.time, header.parentHash)
  {
    match lib.sender(header, tx)
    case None => Fail(BadSender)
    case Some(from) =>
      match lib.decode(log.data)
      case NotUnpacked => Fail(BadData)
      case OtherType => Fail(BadRootType)
      case Root(root) =>
        if tx.to.None? then Fail(NoRecipient)
        else if tx.to.value == lib.inputAddress || from == lib.inputAddress then
          Keep(Record(root, header.time, header.parentHash))
        else Skip
  }

  // ---------- The tables of the join ----------

  /** A missing map entry reads as the zero log. */
  const ZERO_LOG: Log := Log(0, "", 0, [])

  /** txHashToLog: a later log of a transaction replaces an earlier one. */
  function LogTable(logs: seq<Log>): map<Hash, Log> {
    if logs == [] then map[] else
    var log := logs[|logs| - 1];
    LogTable(logs[..|logs| - 1])[log.txHash := log]
  }

  function LogOf(logs: seq<Log>, h: Hash): Log {
    if h in LogTable(logs) then LogTable(logs)[h] else ZERO_LOG
  }

  /** blockToSlice: the position of the last header with a given number. */
  function SliceTable(blocks: seq<Header>): (m: map<nat, nat>)
    ensures forall b :: b in m ==> m[b] < |blocks|
  {
    if blocks == [] then map[] else
    var n := |blocks| - 1;
    SliceTable(blocks[..n])[blocks[n].number := n]
  }

  function HeaderOf(blocks: seq<Header>, b: nat): Header
    requires blocks != []
  {
    if b in SliceTable(blocks) then blocks[SliceTable(blocks)[b]] else blocks[0]
  }

  /** The block numbers of a reply, in order of first appearance. */
  function FirstSeen(logs: seq<Log>): (r: seq<nat>)
    ensures NoDuplicates(r)
    ensures forall i :: 0 <= i < |logs| ==> logs[i].blockNumber in r
  {
    if logs == [] then [] else
    var seen := FirstSeen(logs[..|logs| - 1]);
    var b := logs[|logs| - 1].blockNumber;
    if b in seen then seen else seen + [b]
  }

  function Hashes(logs: seq<Log>): (r: seq<Hash>)
    ensures |r| == |logs| && forall i :: 0 <= i < |logs| ==> r[i] == logs[i].txHash
  {
    seq(|logs|, i requires 0 <= i < |logs| => logs[i].txHash)
  }

  /** Kept records by block number and log index. */
  type Cells = map<(nat, nat), Record>

  function Outcome(lib: Lib, logs: seq<Log>, blocks: seq<Header>, tx: Tx): Verdict
    requires blocks != []
  {
    var log := LogOf(logs, tx.hash);
    Judge(lib, log, HeaderOf(blocks, log.blockNumber), tx)
  }

  /** All transactions taken in order; the first failure ends the fetch. */
  function Table(lib: Lib, logs: seq<Log>, blocks: seq<Header>, txs: seq<Tx>): Result<Cells, FetchError>
    requires blocks != []
  {
    if txs == [] then Ok(map[]) else
    var tx := txs[|txs| - 1];
    var log := LogOf(logs, tx.hash);
    match Table(lib, logs, blocks, txs[..|txs| - 1])
    case Err(e) => Err(e)
    case Ok(t) =>
      match Outcome(lib, logs, blocks, tx)
      case Fail(e) => Err(e)
      case Skip => Ok(t)
      case Keep(r) => Ok(t[(log.blockNumber, log.index) := r])
  }

  function Indexes(t: Cells, b: nat): set<nat> {
    set cell | cell in t.Keys && cell.0 == b :: cell.1
  }

  predicate Increasing(s: seq<nat>) {
    forall i, j :: 0 <= i < j < |s| ==> s[i] < s[j]
  }

  lemma {:induction false} MaxExists(s: set<nat>)
    requires s != {}
    ensures exists m :: m in s && forall x | x in s :: x <= m
  {
    var x :| x in s;
    var rest := s - {x};
    if rest == {} {
      assert s == {x};
    } else {
      MaxExists(rest);
      var m :| m in rest && forall y | y in rest :: y <= m;
      var top := if x > m then x else m;
      forall y | y in s ensures y <= top {
        if y != x {
          assert y in rest;
        }
      }
      assert top in s;
    }
  }

  /** The elements of a set in strictly increasing order. */
  function Ascending(s: set<nat>): (r: seq<nat>)
    ensures Increasing(r)
    ensures forall x :: x in r <==> x in s
  {
    if s == {} then [] else
    MaxExists(s);
    var m: nat :| m in s && forall x | x in s :: x <= m;
    Ascending(s - {m}) + [m]
  }

  function RecordsOf(t: Cells, b: nat, indexes: seq<nat>): seq<Record>
    requires forall i :: i in indexes ==> (b, i) in t
  {
    seq(|indexes|, i requires 0 <= i < |indexes| => t[(b, indexes[i])])
  }

  lemma {:induction false} IndexIsCell(t: Cells, b: nat)
    ensures forall i :: i in Indexes(t, b) <==> (b, i) in t
  {
    forall i | i in Indexes(t, b) ensures (b, i) in t {
      var cell :| cell in t.Keys && cell.0 == b && cell.1 == i;
      assert cell == (b, i);
    }
    forall i | (b, i) in t ensures i in Indexes(t, b) {
      assert (b, i).0 == b && (b, i).1 == i;
    }
  }

  /** The records of one block in increasing log index. */
  function Row(t: Cells, b: nat): seq<Record> {
    IndexIsCell(t, b);
    RecordsOf(t, b, Ascending(Indexes(t, b)))
  }

  function Rows(t: Cells, bns: seq<nat>): map<nat, seq<Record>> {
    map b | b in bns && Indexes(t, b) != {} :: Row(t, b)
  }

  type Logs = Result<seq<Log>, FetchError>

  type Batch = Result<(seq<Header>, seq<Tx>), FetchError>

  /** Whether the batch reply has a header, when one was asked for (balancer/rpc.go:258). */
  predicate Answers(logs: Logs, batch: Batch) {
    logs.Ok? && logs.value != [] && batch.Ok? ==> batch.value.0 != []
  }

  /** The result of fetchData for given replies. */
  function Fetched(lib: Lib, logs: Logs, batch: Batch): Result<map<nat, seq<Record>>, FetchError>
    requires Answers(logs, batch)
  {
    if logs.Err? then Err(logs.error)
    else if logs.value == [] then Ok(map[])
    else if batch.Err? then Err(batch.error)
    else
      match Table(lib, logs.value, batch.value.0, batch.value.1)
      case Err(e) => Err(e)
      case Ok(t) => Ok(Rows(t, FirstSeen(logs.value)))
  }

  lemma {:induction false} JoinErrors(lib: Lib, logs: seq<Log>, blocks: seq<Header>, txs: seq<Tx>)
    requires blocks != []
    ensures var t := Table(lib, logs, blocks, txs); t.Err? ==> t.error != ReqTooBig && t.error != MaxRounds
  {
    if txs != [] {
      JoinErrors(lib, logs, blocks, txs[..|txs| - 1]);
    }
  }

  /**
   A failed request is returned with its own error: fetchData says "too big" exactly
   when one of its two requests does, and "max rounds" likewise. Without logs the
   second request is not made.
   */
  lemma {:induction false} RequestErrors(lib: Lib, logs: Logs, batch: Batch)
    requires Answers(logs, batch)
    ensures var r := Fetched(lib, logs, batch);
            && (logs.Err? ==> r == Err(logs.error))
            && (logs.Ok? && logs.value == [] ==> r == Ok(map[]))
            && (logs.Ok? && logs.value != [] && batch.Err? ==> r == Err(batch.error))
            && (logs.Ok? && batch.Ok? ==> r.Ok? || (r.error != ReqTooBig && r.error != MaxRounds))
  {
    if logs.Ok? && logs.value != [] && batch.Ok? {
      JoinErrors(lib, logs.value, batch.value.0, batch.value.1);
    }
  }

  // ---------- fetchData ----------

  function Insert(x: nat, s: seq<nat>): seq<nat> {
    if s == [] || x <= s[0] then [x] + s else [s[0]] + Insert(x, s[1..])
  }

  /** The library's sort.Ints. */
  function SortInts(s: seq<nat>): seq<nat> {
    if s == [] then [] else Insert(s[0], SortInts(s[1..]))
  }

  predicate NoDuplicates(s: seq<nat>) {
    forall i, j :: 0 <= i < j < |s| ==> s[i] != s[j]
  }

  lemma {:induction false} InsertKeeps(x: nat, s: seq<nat>)
    requires Increasing(s) && x !in s
    ensures Increasing(Insert(x, s))
    ensures forall y :: y in Insert(x, s) <==> y == x || y in s
  {
    if s != [] && x > s[0] {
      assert forall y :: y in s <==> y == s[0] || y in s[1..];
      InsertKeeps(x, s[1..]);
      var tail := Insert(x, s[1..]);
      forall j | 0 <= j < |tail| ensures s[0] < tail[j] {
        assert tail[j] in tail;
        if tail[j] != x {
          var i :| 0 <= i < |s[1..]| && s[1..][i] == tail[j];
          assert s[0] < s[i + 1];
        }
      }
    }
  }

  lemma {:induction false} SortKeeps(s: seq<nat>)
    requires NoDuplicates(s)
    ensures Increasing(SortInts(s))
    ensures forall y :: y in SortInts(s) <==> y in s
  {
    if s != [] {
      SortKeeps(s[1..]);
      InsertKeeps(s[0], SortInts(s[1..]));
      assert forall y :: y in s <==> y == s[0] || y in s[1..];
    }
  }

  lemma {:induction false} IncreasingUnique(a: seq<nat>, b: seq<nat>)
    requires Increasing(a) && Increasing(b)
    requires forall x :: x in a <==> x in b
    ensures a == b
  {
    assert |b| > 0 ==> b[0] in b;
    if a != [] {
      assert a[|a| - 1] in b;
      var m, n := |a| - 1, |b| - 1;
      assert b[n] in a && a[m] in b;
      assert a[m] == b[n];
      forall x ensures x in a[..m] <==> x in b[..n] {
        assert x in a <==> x in a[..m] || x == a[m];
        assert x in b <==> x in b[..n] || x == b[n];
        assert a[m] !in a[..m] && b[n] !in b[..n];
      }
      IncreasingUnique(a[..m], b[..n]);
      assert a == a[..m] + [a[m]] && b == b[..n] + [b[n]];
    }
  }

  /** How the nested maps of the loop stand for the cells. */
  ghost predicate HoldsCells(t: Cells, data: map<nat, map<nat, Record>>) {
    && (forall b, i :: (b, i) in t <==> b in data && i in data[b])
    && (forall b, i :: (b, i) in t ==> t[(b, i)] == data[b][i])
  }

  /** The index lists name the stored indexes, each once. */
  ghost predicate ListsIndexes(data: map<nat, map<nat, Record>>, indexes: map<nat, seq<nat>>) {
    && indexes.Keys == data.Keys
    && (forall b :: b in indexes ==> NoDuplicates(indexes[b]) && indexes[b] != [])
    && (forall b, i :: b in indexes ==> (i in indexes[b] <==> i in data[b]))
  }

  ghost predicate Represents(t: Cells, data: map<nat, map<nat, Record>>, indexes: map<nat, seq<nat>>) {
    HoldsCells(t, data) && ListsIndexes(data, indexes)
  }

  lemma {:induction false} SortedRow(t: Cells, data: map<nat, map<nat, Record>>, indexes: map<nat, seq<nat>>, b: nat)
    requires Represents(t, data, indexes)
    ensures b in indexes <==> Indexes(t, b) != {}
    ensures b in indexes ==> SortInts(indexes[b]) == Ascending(Indexes(t, b))
  {
    IndexIsCell(t, b);
    if b in indexes {
      assert indexes[b][0] in indexes[b];
      assert indexes[b][0] in Indexes(t, b);
      SortKeeps(indexes[b]);
      IncreasingUnique(SortInts(indexes[b]), Ascending(Indexes(t, b)));
    }
  }

  method CollectBlocks(logs: seq<Log>) returns (bns: seq<nat>)
    ensures bns == FirstSeen(logs)
  {
    bns := [];
    var bnsMap: map<nat, bool> := map[];
    for i := 0 to |logs|
      invariant bns == FirstSeen(logs[..i])
      invariant forall b :: b in bnsMap <==> b in bns
    {
      assert logs[..i + 1][..i] == logs[..i];
      if logs[i].blockNumber !in bnsMap {
        bnsMap := bnsMap[logs[i].blockNumber := true];
        bns := bns + [logs[i].blockNumber];
      }
    }
    assert logs[..|logs|] == logs;
  }

  method CollectTxs(logs: seq<Log>) returns (txHashToLog: map<Hash, Log>, txHashes: seq<Hash>)
    ensures txHashToLog == LogTable(logs) && txHashes == Hashes(logs)
  {
    txHashToLog, txHashes := map[], [];
    for i := 0 to |logs|
      invariant txHashToLog == LogTable(logs[..i]) && txHashes == Hashes(logs[..i])
    {
      assert logs[..i + 1][..i] == logs[..i];
      txHashToLog := txHashToLog[logs[i].txHash := logs[i]];
      txHashes := txHashes + [logs[i].txHash];
    }
    assert logs[..|logs|] == logs;
  }

  method SliceBlocks(blocks: seq<Header>) returns (blockToSlice: map<nat, nat>)
    ensures blockToSlice == SliceTable(blocks)
  {
    blockToSlice := map[];
    for i := 0 to |blocks|
      invariant blockToSlice == SliceTable(blocks[..i])
    {
      assert blocks[..i + 1][..i] == blocks[..i];
      blockToSlice := blockToSlice[blocks[i].number := i];
    }
    assert blocks[..|blocks|] == blocks;
  }

  /** The loop over the transactions (fetcher/fetcher.go:109-149). */
  method CollectCells(lib: Lib, logs: seq<Log>, blocks: seq<Header>, txs: seq<Tx>)
    returns (
      failure: Option<FetchError>,
      bnToIndexToData: map<nat, map<nat, Record>>,
      bnToLogIndexes: map<nat, seq<nat>>)
    requires blocks != []
    ensures var table := Table(lib, logs, blocks, txs);
            match failure
            case Some(e) => table == Err(e)
            case None => table.Ok? && Represents(table.value, bnToIndexToData, bnToLogIndexes)
  {
    var txHashToLog, _ := CollectTxs(logs);
    var blockToSlice := SliceBlocks(blocks);
    bnToIndexToData, bnToLogIndexes := map[], map[];
    for n := 0 to |txs|
      invariant Table(lib, logs, blocks, txs[..n]).Ok?
      invariant Represents(Table(lib, logs, blocks, txs[..n]).value, bnToIndexToData, bnToLogIndexes)
    {
      assert txs[..n + 1][..n] == txs[..n];
      var tx := txs[n];
      var log := if tx.hash in txHashToLog then txHashToLog[tx.hash] else ZERO_LOG;
      var block := blocks[if log.blockNumber in blockToSlice then blockToSlice[log.blockNumber] else 0];
      var verdict := Judge(lib, log, block, tx);
      assert verdict == Outcome(lib, logs, blocks, tx);
      match verdict
      case Fail(e) =>
        TableFails(lib, logs, blocks, txs, n + 1);
        return Some(e), map[], map[];
      case Skip =>
      case Keep(record) =>
        bnToIndexToData, bnToLogIndexes := KeepCell(
          Table(lib, logs, blocks, txs[..n]).value, bnToIndexToData, bnToLogIndexes,
          log.blockNumber, log.index, record);
    }
    assert txs[..|txs|] == txs;
    failure := None;
  }

  /** Storing one kept record: the index list grows only for a new index. */
  method KeepCell(
      ghost t: Cells, data: map<nat, map<nat, Record>>, indexes: map<nat, seq<nat>>, bn: nat, lIndex: nat,
      record: Record)
    returns (data': map<nat, map<nat, Record>>, indexes': map<nat, seq<nat>>)
    requires Represents(t, data, indexes)
    ensures Represents(t[(bn, lIndex) := record], data', indexes')
  {
    data', indexes' := data, indexes;
    var row: map<nat, Record> := if bn in data then data[bn] else map[];
    if lIndex !in row {
      indexes' := indexes'[bn := (if bn in indexes' then indexes'[bn] else []) + [lIndex]];
    }
    row := row[lIndex := record];
    data' := data'[bn := row];
    StillHoldsCells(t, data, bn, lIndex, record);
    StillListsIndexes(data, indexes, bn, lIndex, record);
  }

  /** Looking up a list of log indexes in one block's records (fetcher/fetcher.go:155-157). */
  method CollectRow(cells: map<nat, Record>, sorted: seq<nat>) returns (row: seq<Record>)
    requires forall i :: i in sorted ==> i in cells
    ensures |row| == |sorted| && forall k :: 0 <= k < |row| ==> row[k] == cells[sorted[k]]
  {
    row := [];
    for k := 0 to |sorted|
      invariant |row| == k && forall i :: 0 <= i < k ==> row[i] == cells[sorted[i]]
    {
      row := row + [cells[sorted[k]]];
    }
  }

  lemma {:induction false} RowFound(
      t: Cells, b: nat, data: map<nat, map<nat, Record>>, indexes: map<nat, seq<nat>>, row: seq<Record>)
    requires Represents(t, data, indexes) && b in indexes
    requires var sorted := SortInts(indexes[b]);
             |row| == |sorted| && forall k :: 0 <= k < |row| ==> sorted[k] in data[b] && row[k] == data[b][sorted[k]]
    ensures row == Row(t, b)
  {
    SortedRow(t, data, indexes, b);
    IndexIsCell(t, b);
    var sorted := SortInts(indexes[b]);
    forall k | 0 <= k < |row| ensures row[k] == Row(t, b)[k] {
      assert (b, sorted[k]) in t;
    }
  }

  /** The loop over the blocks (fetcher/fetcher.go:153-158). */
  method CollectRows(ghost t: Cells, bns: seq<nat>, data: map<nat, map<nat, Record>>, indexes: map<nat, seq<nat>>)
    returns (dataToSave: map<nat, seq<Record>>)
    requires Represents(t, data, indexes)
    ensures dataToSave == Rows(t, bns)
  {
    dataToSave := map[];
    for n := 0 to |bns|
      invariant dataToSave == Rows(t, bns[..n])
    {
      var bn := bns[n];
      RowsSnoc(t, bns[..n], bn);
      SortedRow(t, data, indexes, bn);
      if bn in indexes {
        SortKeeps(indexes[bn]);
        var row := CollectRow(data[bn], SortInts(indexes[bn]));
        RowFound(t, bn, data, indexes, row);
        dataToSave := dataToSave[bn := row];
      }
      assert bns[..n + 1] == bns[..n] + [bn];
    }
    assert bns[..|bns|] == bns;
  }

  lemma {:induction false} RowsSnoc(t: Cells, bns: seq<nat>, b: nat)
    ensures Rows(t, bns + [b]) == if Indexes(t, b) != {} then Rows(t, bns)[b := Row(t, b)] else Rows(t, bns)
  {
  }

  lemma {:induction false} TableFails(lib: Lib, logs: seq<Log>, blocks: seq<Header>, txs: seq<Tx>, n: nat)
    requires blocks != [] && n <= |txs|
    requires Table(lib, logs, blocks, txs[..n]).Err?
    ensures Table(lib, logs, blocks, txs) == Table(lib, logs, blocks, txs[..n])
    decreases |txs| - n
  {
    if n < |txs| {
      assert txs[..n + 1][..n] == txs[..n];
      TableFails(lib, logs, blocks, txs, n + 1);
    } else {
      assert txs[..n] == txs;
    }
  }

  lemma {:induction false} StillHoldsCells(t: Cells, data: map<nat, map<nat, Record>>, b: nat, i: nat, r: Record)
    requires HoldsCells(t, data)
    ensures HoldsCells(t[(b, i) := r], data[b := (if b in data then data[b] else map[])[i := r]])
  {
    var t' := t[(b, i) := r];
    var data' := data[b := (if b in data then data[b] else map[])[i := r]];
    forall b', i'
      ensures (b', i') in t' <==> b' in data' && i' in data'[b']
      ensures (b', i') in t' ==> t'[(b', i')] == data'[b'][i']
    {
      assert (b', i') == (b, i) <==> b' == b && i' == i;
    }
  }

  lemma {:induction false} StillListsIndexes(
      data: map<nat, map<nat, Record>>, indexes: map<nat, seq<nat>>, b: nat, i: nat, r: Record)
    requires ListsIndexes(data, indexes)
    ensures var row := if b in data then data[b] else map[];
            ListsIndexes(
              data[b := row[i := r]],
              if i in row then indexes else indexes[b := (if b in indexes then indexes[b] else []) + [i]])
  {
  }

  /**
   fetchData with the replies of the balancer: `logsReply` answers GetLogs and
   `getBatch` answers GetBlocksAndTxs.
   */
  method FetchData(lib: Lib, logsReply: Logs, getBatch: (seq<nat>, seq<Hash>) -> Batch)
    returns (r: Result<map<nat, seq<Record>>, FetchError>)
    requires forall bns, hashes :: bns != [] ==>
               var batch := getBatch(bns, hashes); batch.Ok? ==> |batch.value.0| == |bns|
    ensures logsReply.Ok? ==> Answers(logsReply, getBatch(FirstSeen(logsReply.value), Hashes(logsReply.value)))
    ensures logsReply.Err? ==> r == Err(logsReply.error)
    ensures logsReply.Ok? ==>
              r == Fetched(lib, logsReply, getBatch(FirstSeen(logsReply.value), Hashes(logsReply.value)))
  {
    if logsReply.Err? {
      return Err(logsReply.error);
    }
    var logs := logsReply.value;
    if |logs| == 0 {
      return Ok(map[]);
    }
    var bns := CollectBlocks(logs);
    var _, txHashes := CollectTxs(logs);
    var batch := getBatch(bns, txHashes);
    if batch.Err? {
      return Err(batch.error);
    }
    assert bns != [];
    var failure, data, indexes := CollectCells(lib, logs, batch.value.0, batch.value.1);
    if failure.Some? {
      return Err(failure.value);
    }
    var dataToSave := CollectRows(Table(lib, logs, batch.value.0, batch.value.1).value, bns, data, indexes);
    return Ok(dataToSave);
  }
}
