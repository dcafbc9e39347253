/**
 The synchronizer (synchronizer/synchronizer.go): an out-of-order buffer whose
 longest contiguous prefix is flushed to the database under consecutive keys.
 */
module Synchronizer {
  import opened Wrappers
  import opened Encoding
  import opened Types
  import opened Persistor

  type Buffer = map<nat, seq<Record>>

  datatype State = State(currBlock: nat, currIndex: nat, buffer: Buffer, db: Db)

  /** The blocks of an item's range that lie below `upto`, each with its records. */
  function BlocksBelow(item: SyncItem, upto: nat): Buffer {
    map b | item.startBlock <= b <= item.endBlock && b < upto :: item.At(b)
  }

  /** What adding an item puts in the buffer: one entry for each block of its range. */
  function Blocks(item: SyncItem): Buffer {
    BlocksBelow(item, item.endBlock + 1)
  }

  /** The buffer after the blocks of the item below `upto` were written one by one. */
  function AddedBelow(m: Buffer, item: SyncItem, upto: nat): Buffer {
    if upto <= item.startBlock then m else AddedBelow(m, item, upto - 1)[upto - 1 := item.At(upto - 1)]
  }

  /** The least block at or after `b` that is missing from the buffer. */
  function Frontier(m: Buffer, b: nat): (f: nat)
    ensures b <= f && f !in m
    ensures forall i :: b <= i < f ==> i in m
    decreases set k | k in m && k >= b
  {
    if b !in m then b else
    assert (set k | k in m && k >= b) == {b} + (set k | k in m && k >= b + 1);
    Frontier(m, b + 1)
  }

  /** The records of the blocks from `a` up to, not including, `b`. */
  function Flat(m: Buffer, a: nat, b: nat): seq<Record>
    requires a <= b && forall i :: a <= i < b ==> i in m
  {
    if a == b then [] else Flat(m, a, b - 1) + m[b - 1]
  }

  function Without(m: Buffer, a: nat, b: nat): Buffer {
    map k | k in m && !(a <= k < b) :: m[k]
  }

  /** The blocks below `f` are committed with these records, and forgotten. */
  function Flushed(s: State, f: nat, records: seq<Record>): State
    requires s.db.Open() && f > 0
  {
    State(
      f,
      s.currIndex + |records|,
      Without(s.buffer, s.currBlock, f),
      s.db.Save(Numbered(s.currIndex, records), f - 1))
  }

  /** The synchronizer and its database after `save`; a failed commit changes neither. */
  function Saved(s: State, commits: bool): State
    requires s.db.Open()
  {
    if s.currBlock !in s.buffer || !commits then s else
    var f := Frontier(s.buffer, s.currBlock);
    Flushed(s, f, Flat(s.buffer, s.currBlock, f))
  }

  class Synchronizer {
    var currBlock: nat
    var currIndex: nat
    var dataToSave: Buffer
    const persistor: Persistor

    function Contents(): State
      reads this, persistor
    {
      State(currBlock, currIndex, dataToSave, persistor.Contents())
    }

    constructor (p: Persistor)
      ensures persistor == p
      ensures Contents() == State(0, 0, map[], p.Contents())
    {
      currBlock, currIndex, dataToSave, persistor := 0, 0, map[], p;
    }

    method Add(item: SyncItem)
      modifies this`dataToSave
      ensures Contents() == old(Contents()).(buffer := old(dataToSave) + Blocks(item))
    {
      ghost var before := dataToSave;
      var i := item.startBlock;
      while i <= item.endBlock
        invariant item.startBlock <= i && (i <= item.endBlock + 1 || i == item.startBlock)
        invariant dataToSave == AddedBelow(before, item, i)
      {
        if i !in item.data {
          dataToSave := dataToSave[i := []];
        } else {
          dataToSave := dataToSave[i := item.data[i]];
        }
        i := i + 1;
      }
      AddedIsBlocks(before, item, i);
    }

    method Save(commits: bool) returns (ok: bool)
      requires persistor.Contents().Open()
      modifies this, persistor
      ensures Contents() == Saved(old(Contents()), commits)
      ensures ok == (commits || old(currBlock) !in old(dataToSave))
    {
      var startBlock, startKey := currBlock, currIndex;
      if startBlock !in dataToSave {
        return true;
      }
      var registers: seq<Register> := [];
      var blockIterator, keyIterator := startBlock, startKey;
      ghost var f := Frontier(dataToSave, startBlock);
      while blockIterator in dataToSave
        invariant startBlock <= blockIterator <= f
        invariant dataToSave == old(dataToSave)
        invariant registers == Numbered(startKey, Flat(dataToSave, startBlock, blockIterator))
        invariant keyIterator == startKey + |registers|
        decreases f - blockIterator
      {
        var data := dataToSave[blockIterator];
        ghost var before := Flat(dataToSave, startBlock, blockIterator);
        for j := 0 to |data|
          invariant registers == Numbered(startKey, before + data[..j])
          invariant keyIterator == startKey + |registers|
        {
          registers := registers + [Register(keyIterator, data[j])];
          keyIterator := keyIterator + 1;
          assert before + data[..j + 1] == (before + data[..j]) + [data[j]];
        }
        assert data[..|data|] == data;
        blockIterator := blockIterator + 1;
      }
      assert blockIterator == f;
      var endBlock := blockIterator - 1;
      ok := persistor.SaveData(registers, endBlock, commits);
      if !ok {
        return;
      }
      currBlock := currBlock + (blockIterator - startBlock);
      currIndex := currIndex + (keyIterator - startKey);
      for i := startBlock to blockIterator
        invariant currBlock == blockIterator && currIndex == keyIterator
        invariant dataToSave == Without(old(dataToSave), startBlock, i)
        invariant persistor.Contents() == old(persistor.Contents()).Save(registers, endBlock)
      {
        dataToSave := dataToSave - {i};
      }
    }
  }

  lemma {:induction false} OneMoreBlock(m: Buffer, item: SyncItem, i: nat)
    requires i > 0 && item.Covers(i - 1)
    ensures m + BlocksBelow(item, i) == (m + BlocksBelow(item, i - 1))[i - 1 := item.At(i - 1)]
  {
  }

  lemma {:induction false} AddedIsBelow(m: Buffer, item: SyncItem, i: nat)
    requires item.startBlock <= i && (i <= item.endBlock + 1 || i == item.startBlock)
    ensures AddedBelow(m, item, i) == m + BlocksBelow(item, i)
  {
    if i == item.startBlock {
      assert BlocksBelow(item, i) == map[];
      assert m + map[] == m;
    } else {
      AddedIsBelow(m, item, i - 1);
      OneMoreBlock(m, item, i);
      assert AddedBelow(m, item, i) == m + BlocksBelow(item, i);
    }
  }

  lemma {:induction false} AddedIsBlocks(m: Buffer, item: SyncItem, i: nat)
    requires i == item.endBlock + 1 >= item.startBlock || i == item.startBlock > item.endBlock
    ensures AddedBelow(m, item, i) == m + Blocks(item)
  {
    AddedIsBelow(m, item, i);
    assert BlocksBelow(item, i) == Blocks(item);
  }

  // ---------- What a save does to the buffer ----------

  lemma {:induction false} FrontierUnique(m: Buffer, b: nat, f: nat)
    requires b <= f && f !in m && forall i :: b <= i < f ==> i in m
    ensures Frontier(m, b) == f
  {
  }

  lemma {:induction false} FlatAgrees(m: Buffer, n: Buffer, a: nat, b: nat)
    requires a <= b && forall i :: a <= i < b ==> i in m && i in n && m[i] == n[i]
    ensures Flat(m, a, b) == Flat(n, a, b)
    decreases b - a
  {
    if a < b {
      FlatAgrees(m, n, a, b - 1);
    }
  }

  lemma {:induction false} FlatSplit(m: Buffer, a: nat, b: nat, c: nat)
    requires a <= b <= c && forall i :: a <= i < c ==> i in m
    ensures Flat(m, a, c) == Flat(m, a, b) + Flat(m, b, c)
    decreases c - b
  {
    if b < c {
      FlatSplit(m, a, b, c - 1);
      assert Flat(m, a, b) + Flat(m, b, c) == (Flat(m, a, b) + Flat(m, b, c - 1)) + m[c - 1];
    } else {
      assert Flat(m, a, b) + [] == Flat(m, a, b);
    }
  }

  /**
   A successful save moves the current block to the least block at or after it
   that is missing from the buffer, forgets exactly the blocks in between, and
   records the last of them; a failed save, and one with nothing to save, change nothing.
   */
  lemma {:induction false} SaveMoves(s: State, commits: bool)
    requires s.db.Open()
    ensures var s' := Saved(s, commits);
            if !commits || s.currBlock !in s.buffer then s' == s else
              && s.currBlock < s'.currBlock && s'.currBlock !in s.buffer
              && (forall b :: s.currBlock <= b < s'.currBlock ==> b in s.buffer)
              && (forall b :: b in s'.buffer <==> b in s.buffer && !(s.currBlock <= b < s'.currBlock))
              && (forall b :: b in s'.buffer ==> s'.buffer[b] == s.buffer[b])
              && s'.db.Open() && s'.db.admin.value.last == Some(IntToBytes(s'.currBlock - 1))
              && s'.db.admin.value.mode == s.db.admin.value.mode
              && s'.currIndex == s.currIndex + |Flat(s.buffer, s.currBlock, s'.currBlock)|
  {
  }

  lemma {:induction false} FlatAt(m: Buffer, a: nat, f: nat, b: nat, j: nat)
    requires a <= b < f && (forall i :: a <= i < f ==> i in m) && j < |m[b]|
    ensures |Flat(m, a, b)| + j < |Flat(m, a, f)|
    ensures Flat(m, a, f)[|Flat(m, a, b)| + j] == m[b][j]
    decreases f
  {
    if b < f - 1 {
      FlatAt(m, a, f - 1, b, j);
    }
  }

  /**
   After a successful save, record j of a saved block is found under the key that
   counts the records before it; every key outside the new ones is as before.
   */
  lemma {:induction false} SaveStores(s: State, b: nat, j: nat)
    requires s.db.Open() && s.currBlock <= b < Saved(s, true).currBlock && b in s.buffer && j < |s.buffer[b]|
    requires forall i :: s.currBlock <= i < b ==> i in s.buffer
    requires Saved(s, true).currIndex <= TWO_63
    ensures var s' := Saved(s, true);
            var key := IntToBytes(s.currIndex + |Flat(s.buffer, s.currBlock, b)| + j);
            && s'.db.Open() && key in s'.db.data.value && s'.db.data.value[key] == s.buffer[b][j]
            && (forall k :: k in s.db.data.value ==> k in s'.db.data.value)
            && (forall k :: k in s'.db.data.value ==>
                  || (exists i :: 0 <= i < s'.currIndex - s.currIndex && k == KeyAt(s.currIndex, i))
                  || (k in s.db.data.value && s'.db.data.value[k] == s.db.data.value[k]))
  {
    SaveMoves(s, true);
    var f := Frontier(s.buffer, s.currBlock);
    var records := Flat(s.buffer, s.currBlock, f);
    FlatAt(s.buffer, s.currBlock, f, b, j);
    PutFromValue(s.db.data.value, s.currIndex, records, |Flat(s.buffer, s.currBlock, b)| + j);
    PutFromKeys(s.db.data.value, s.currIndex, records);
  }

  /** Two saves in a row commit what one save commits. */
  lemma {:induction false} SaveTwice(db: Db, index: nat, r1: seq<Record>, b1: nat, r2: seq<Record>, b2: nat)
    requires db.Open()
    ensures db.Save(Numbered(index, r1), b1).Save(Numbered(index + |r1|, r2), b2)
         == db.Save(Numbered(index, r1 + r2), b2)
  {
    PutFromConcat(db.data.value, index, r1, r2);
  }

  ghost predicate Ahead(s: State, m: Buffer) {
    m.Keys !! s.buffer.Keys && forall b :: b in m ==> b >= s.currBlock
  }

  /** Flushing up to `f`, adding `m` and flushing again removes what one flush removes. */
  lemma {:induction false} FlushTwice(buffer: Buffer, m: Buffer, c: nat, f: nat)
    requires m.Keys !! buffer.Keys && forall b :: b in m ==> b >= c
    requires c in buffer && f == Frontier(buffer, c)
    ensures var rest := Without(buffer, c, f) + m;
            var f2 := Frontier(buffer + m, c);
            && f <= f2 == Frontier(rest, f)
            && Flat(buffer + m, c, f2) == Flat(buffer, c, f) + Flat(rest, f, f2)
            && Without(buffer + m, c, f2) == Without(rest, f, f2)
  {
    var all := buffer + m;
    var rest := Without(buffer, c, f) + m;
    var f2 := Frontier(all, c);
    assert f <= f2;
    FrontierUnique(rest, f, f2);
    FlatAgrees(buffer, all, c, f);
    FlatAgrees(all, rest, f, f2);
    FlatSplit(all, c, f, f2);
    assert Without(all, c, f2) == Without(rest, f, f2);
  }

  /** A save before the delivery of new blocks can be left to the save after it. */
  lemma {:induction false} SaveCanWait(s: State, commits: bool, m: Buffer)
    requires s.db.Open() && Ahead(s, m)
    ensures Ahead(Saved(s, commits), m)
    ensures var s1 := Saved(s, commits);
            Saved(s1.(buffer := s1.buffer + m), true) == Saved(s.(buffer := s.buffer + m), true)
  {
    if s.currBlock in s.buffer && commits {
      var c := s.currBlock;
      var f := Frontier(s.buffer, c);
      FlushTwice(s.buffer, m, c, f);
      SaveAgain(s, m, f);
    }
  }

  lemma {:induction false} SaveAgain(s: State, m: Buffer, f: nat)
    requires s.db.Open() && s.currBlock in s.buffer && f == Frontier(s.buffer, s.currBlock)
    requires var rest := Without(s.buffer, s.currBlock, f) + m;
             var f2 := Frontier(s.buffer + m, s.currBlock);
             && f <= f2 == Frontier(rest, f)
             && Flat(s.buffer + m, s.currBlock, f2) == Flat(s.buffer, s.currBlock, f) + Flat(rest, f, f2)
             && Without(s.buffer + m, s.currBlock, f2) == Without(rest, f, f2)
    ensures var s1 := Saved(s, true);
            Saved(s1.(buffer := s1.buffer + m), true) == Saved(s.(buffer := s.buffer + m), true)
  {
    var rest := Without(s.buffer, s.currBlock, f) + m;
    var f2 := Frontier(rest, f);
    var r1, r2 := Flat(s.buffer, s.currBlock, f), Flat(rest, f, f2);
    if f2 == f {
      assert r1 + r2 == r1;
      assert Without(rest, f, f2) == rest;
    } else {
      FlushedTwice(s, m, f, r1, f2, r2);
    }
  }

  lemma {:induction false} FlushedTwice(s: State, m: Buffer, f: nat, r1: seq<Record>, f2: nat, r2: seq<Record>)
    requires s.db.Open() && 0 < f <= f2
    requires Without(s.buffer + m, s.currBlock, f2) == Without(Without(s.buffer, s.currBlock, f) + m, f, f2)
    ensures var s1 := Flushed(s, f, r1);
            Flushed(s1.(buffer := s1.buffer + m), f2, r2) == Flushed(s.(buffer := s.buffer + m), f2, r1 + r2)
  {
    SaveTwice(s.db, s.currIndex, r1, f - 1, r2, f2 - 1);
  }

  // ---------- Schedules ----------

  datatype Op = Deliver(item: SyncItem) | Tick(commits: bool)

  function After(s: State, op: Op): State
    requires s.db.Open()
  {
    match op
    case Deliver(item) => s.(buffer := s.buffer + Blocks(item))
    case Tick(commits) => Saved(s, commits)
  }

  function RunOps(s: State, ops: seq<Op>): (r: State)
    requires s.db.Open()
    ensures r.db.Open()
    decreases |ops|
  {
    if ops == [] then s else RunOps(After(s, ops[0]), ops[1..])
  }

  lemma {:induction false} AddTwice(m: Buffer, m1: Buffer, m2: Buffer)
    ensures m + (m1 + m2) == (m + m1) + m2
  {
  }

  /** Everything the deliveries of a schedule bring. */
  function Delivered(ops: seq<Op>): Buffer {
    if ops == [] then map[]
    else (if ops[0].Deliver? then Blocks(ops[0].item) else map[]) + Delivered(ops[1..])
  }

  /** No block is delivered twice, nor below `floor`, nor when it is already in `taken`. */
  ghost predicate Fresh(ops: seq<Op>, floor: nat, taken: set<nat>) {
    ops == [] ||
    if ops[0].Deliver? then
      && (forall b: nat :: ops[0].item.Covers(b) ==> b >= floor && b !in taken)
      && Fresh(ops[1..], floor, taken + Blocks(ops[0].item).Keys)
    else
      Fresh(ops[1..], floor, taken)
  }

  lemma {:induction false} FreshWeaken(ops: seq<Op>, floor: nat, taken: set<nat>, floor': nat, taken': set<nat>)
    requires Fresh(ops, floor, taken)
    requires forall b: nat :: b >= floor && b !in taken ==> b >= floor' && b !in taken'
    ensures Fresh(ops, floor', taken')
  {
    if ops != [] {
      if ops[0].Deliver? {
        var k := Blocks(ops[0].item).Keys;
        FreshWeaken(ops[1..], floor, taken + k, floor', taken' + k);
      } else {
        FreshWeaken(ops[1..], floor, taken, floor', taken');
      }
    }
  }

  lemma {:induction false} DeliveredIsFresh(ops: seq<Op>, floor: nat, taken: set<nat>)
    requires Fresh(ops, floor, taken)
    ensures forall b :: b in Delivered(ops) ==> b >= floor && b !in taken
  {
    if ops != [] {
      if ops[0].Deliver? {
        DeliveredIsFresh(ops[1..], floor, taken + Blocks(ops[0].item).Keys);
        assert forall b :: b in Blocks(ops[0].item) ==> ops[0].item.Covers(b);
      } else {
        DeliveredIsFresh(ops[1..], floor, taken);
      }
    }
  }

  /**
   Whatever the order of the deliveries, and wherever saves and failed saves
   fall between them, one last successful save leaves the synchronizer and the
   database as if everything had been added first and saved once.
   */
  lemma {:induction false} ScheduleIndependence(s: State, ops: seq<Op>)
    requires s.db.Open() && Fresh(ops, s.currBlock, s.buffer.Keys)
    ensures Saved(RunOps(s, ops), true) == Saved(s.(buffer := s.buffer + Delivered(ops)), true)
    decreases |ops|
  {
    if ops == [] {
      assert s.buffer + map[] == s.buffer;
    } else {
      var s1 := After(s, ops[0]);
      var rest := Delivered(ops[1..]);
      if ops[0].Deliver? {
        var m := Blocks(ops[0].item);
        assert s1.buffer.Keys == s.buffer.Keys + m.Keys;
        ScheduleIndependence(s1, ops[1..]);
        AddTwice(s.buffer, m, rest);
      } else {
        DeliveredIsFresh(ops, s.currBlock, s.buffer.Keys);
        assert Delivered(ops) == rest;
        SaveCanWait(s, ops[0].commits, rest);
        FreshWeaken(ops[1..], s.currBlock, s.buffer.Keys, s1.currBlock, s1.buffer.Keys);
        ScheduleIndependence(s1, ops[1..]);
      }
    }
  }

  /** Two schedules that deliver the same blocks end in the same state. */
  lemma {:induction false} SameBlocksSameState(s: State, ops1: seq<Op>, ops2: seq<Op>)
    requires s.db.Open()
    requires Fresh(ops1, s.currBlock, s.buffer.Keys) && Fresh(ops2, s.currBlock, s.buffer.Keys)
    requires Delivered(ops1) == Delivered(ops2)
    ensures Saved(RunOps(s, ops1), true) == Saved(RunOps(s, ops2), true)
  {
    ScheduleIndependence(s, ops1);
    ScheduleIndependence(s, ops2);
  }

  /** The state in which every block of `whole` is committed under the next keys and the buffer is empty. */
  function Completed(s: State, whole: SyncItem): State
    requires s.db.Open() && s.currBlock <= whole.endBlock && whole.startBlock == s.currBlock
  {
    var end := whole.endBlock + 1;
    var records := Flat(Blocks(whole), s.currBlock, end);
    State(end, s.currIndex + |records|, map[], s.db.Save(Numbered(s.currIndex, records), end - 1))
  }

  lemma {:induction false} OneInOrderAdd(s: State, whole: SyncItem)
    requires s.db.Open() && whole.startBlock == s.currBlock <= whole.endBlock
    ensures Saved(s.(buffer := Blocks(whole)), true) == Completed(s, whole)
  {
    var m := Blocks(whole);
    var end := whole.endBlock + 1;
    FrontierUnique(m, s.currBlock, end);
    assert Without(m, s.currBlock, end) == map[];
  }

  /**
   A schedule whose deliveries make up exactly the range from the current block
   to `whole.endBlock` ends past that range, with an empty buffer and every
   record of the range committed under the next keys.
   */
  lemma {:induction false} RangeCompletes(s: State, ops: seq<Op>, whole: SyncItem)
    requires s.db.Open() && s.buffer == map[]
    requires Fresh(ops, s.currBlock, {})
    requires whole.startBlock == s.currBlock <= whole.endBlock && Delivered(ops) == Blocks(whole)
    ensures Saved(RunOps(s, ops), true) == Completed(s, whole)
  {
    OneInOrderAdd(s, whole);
    assert s.buffer + Blocks(whole) == Blocks(whole);
    assert s.(buffer := s.buffer + Delivered(ops)) == s.(buffer := Blocks(whole));
    assert s.buffer.Keys == {};
    ScheduleIndependence(s, ops);
  }
}
