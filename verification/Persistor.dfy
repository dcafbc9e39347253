/**
 The database (persistor/persistor.go): two buckets that change together in one
 transaction, and the byte-ordered cursor behind paged reading.
 */
module Persistor {
  import opened Wrappers
  import opened Encoding
  import opened Types

  type Bucket = map<Key, Record>

  /** The admin bucket: the "mode" entry and the "last-block" entry. */
  datatype Admin = Admin(mode: Option<Mode>, last: Option<Key>)

  datatype Db = Db(data: Option<Bucket>, admin: Option<Admin>)
  {
    predicate Open() {
      data.Some? && admin.Some?
    }

    /** StartDB deletes what is stored: always in range mode, after a range run in full mode. */
    predicate Wipes(mode: Mode) {
      mode.ModeRange? || (admin.Some? && admin.value.mode == Some(ModeRange))
    }

    function Start(mode: Mode): Db {
      Db(
        Some(if Wipes(mode) || data.None? then map[] else data.value),
        Some(Admin(Some(mode), if Wipes(mode) || admin.None? then None else admin.value.last)))
    }

    function Save(registers: seq<Register>, lastBlock: nat): Db
      requires Open()
    {
      Db(Some(Put(data.value, registers)), Some(admin.value.(last := Some(IntToBytes(lastBlock)))))
    }

    function LastBlock(): int
      requires admin.Some?
    {
      match admin.value.last
      case None => -1
      case Some(bytes) => BytesToInt(bytes)
    }
  }

  // ---------- Writing ----------

  /** The bucket after the registers were put in order, later ones overwriting. */
  function Put(b: Bucket, registers: seq<Register>): Bucket {
    if registers == [] then b else
    var r := registers[|registers| - 1];
    Put(b, registers[..|registers| - 1])[IntToBytes(r.key) := r.data]
  }

  /** Consecutive keys from `first` on. */
  function Numbered(first: nat, records: seq<Record>): (registers: seq<Register>)
    ensures |registers| == |records|
  {
    seq(|records|, i requires 0 <= i < |records| => Register(first + i, records[i]))
  }

  function PutFrom(b: Bucket, first: nat, records: seq<Record>): Bucket {
    Put(b, Numbered(first, records))
  }

  /** The bucket that holds exactly `records`, under the keys 0, 1, 2, ... */
  function Dense(records: seq<Record>): Bucket {
    PutFrom(map[], 0, records)
  }

  lemma {:induction false} PutConcat(b: Bucket, r1: seq<Register>, r2: seq<Register>)
    ensures Put(b, r1 + r2) == Put(Put(b, r1), r2)
  {
    if r2 == [] {
      assert r1 + r2 == r1;
    } else {
      var n := |r2| - 1;
      assert (r1 + r2)[..|r1| + n] == r1 + r2[..n];
      PutConcat(b, r1, r2[..n]);
    }
  }

  /** Writing in two consecutive batches is writing once. */
  lemma {:induction false} PutFromConcat(b: Bucket, first: nat, r1: seq<Record>, r2: seq<Record>)
    ensures PutFrom(b, first, r1 + r2) == PutFrom(PutFrom(b, first, r1), first + |r1|, r2)
  {
    assert Numbered(first, r1 + r2) == Numbered(first, r1) + Numbered(first + |r1|, r2);
    PutConcat(b, Numbered(first, r1), Numbered(first + |r1|, r2));
  }

  function KeyAt(first: nat, i: nat): Key {
    IntToBytes(first + i)
  }

  lemma {:induction false} PutFromStep(b: Bucket, first: nat, records: seq<Record>)
    requires records != []
    ensures var n := |records| - 1;
            PutFrom(b, first, records) == PutFrom(b, first, records[..n])[KeyAt(first, n) := records[n]]
  {
    var n := |records| - 1;
    assert Numbered(first, records)[..n] == Numbered(first, records[..n]);
  }

  /** Every record is found under its key. */
  lemma {:induction false} PutFromValue(b: Bucket, first: nat, records: seq<Record>, i: nat)
    requires first + |records| <= TWO_63 && i < |records|
    ensures KeyAt(first, i) in PutFrom(b, first, records) && PutFrom(b, first, records)[KeyAt(first, i)] == records[i]
  {
    var n := |records| - 1;
    PutFromStep(b, first, records);
    if i < n {
      PutFromValue(b, first, records[..n], i);
      KeyOrder(first + i, first + n);
    }
  }

  /** Every other key is what it was. */
  lemma {:induction false} PutFromKeys(b: Bucket, first: nat, records: seq<Record>)
    ensures forall k | k in PutFrom(b, first, records) ::
              || (exists i :: 0 <= i < |records| && k == KeyAt(first, i))
              || (k in b && PutFrom(b, first, records)[k] == b[k])
    ensures forall k | k in b :: k in PutFrom(b, first, records)
  {
    if records != [] {
      PutFromStep(b, first, records);
      PutFromKeys(b, first, records[..|records| - 1]);
    }
  }

  /** Key k of a dense bucket holds record k, and there is no other key. */
  lemma {:induction false} DenseLookup(records: seq<Record>)
    requires |records| <= TWO_63
    ensures forall i | 0 <= i < |records| ::
              IntToBytes(i) in Dense(records) && Dense(records)[IntToBytes(i)] == records[i]
    ensures forall k :: k in Dense(records) ==> exists i :: 0 <= i < |records| && k == IntToBytes(i)
  {
    PutFromKeys(map[], 0, records);
    forall i | 0 <= i < |records|
      ensures IntToBytes(i) in Dense(records) && Dense(records)[IntToBytes(i)] == records[i]
    {
      PutFromValue(map[], 0, records, i);
      assert IntToBytes(i) == KeyAt(0, i);
    }
    forall k | k in Dense(records) ensures exists i :: 0 <= i < |records| && k == IntToBytes(i) {
      var i :| 0 <= i < |records| && k == KeyAt(0, i);
      assert k == IntToBytes(i);
    }
  }

  // ---------- The cursor ----------

  lemma {:induction false} LeastExists(s: set<Key>)
    requires s != {}
    ensures exists k :: k in s && forall j | j in s :: AtMost(k, j)
  {
    var x :| x in s;
    var rest := s - {x};
    if rest == {} {
      assert s == {x};
    } else {
      LeastExists(rest);
      var m :| m in rest && forall j | j in rest :: AtMost(m, j);
      var k := if Less(x, m) then x else m;
      LessTotal(x, m);
      forall j | j in s ensures AtMost(k, j) {
        if j != x && Less(x, m) && m != j {
          assert j in rest;
          LessTransitive(x, m, j);
        }
      }
    }
  }

  /** The first key in byte order. */
  function Least(s: set<Key>): (k: Key)
    requires s != {}
    ensures k in s && forall j | j in s :: AtMost(k, j)
  {
    LeastExists(s);
    assert forall a, b | a in s && b in s && AtMost(a, b) && AtMost(b, a) :: a == b by {
      forall a, b | a in s && b in s && AtMost(a, b) && AtMost(b, a) ensures a == b {
        if a != b {
          LessTransitive(a, b, a);
          LessIrreflexive(a);
        }
      }
    }
    var k: Key :| k in s && forall j | j in s :: AtMost(k, j);
    k
  }

  function First(s: set<Key>): Option<Key> {
    if s == {} then None else Some(Least(s))
  }

  function KeysFrom(b: Bucket, from: Key): set<Key> {
    set k | k in b.Keys && AtMost(from, k)
  }

  function KeysAfter(b: Bucket, at: Key): set<Key> {
    set k | k in b.Keys && Less(at, k)
  }

  /** Cursor.Seek: the first key at or after `from`. */
  function Seek(b: Bucket, from: Key): Option<Key> {
    First(KeysFrom(b, from))
  }

  /** Cursor.Next: the first key after `at`. */
  function Next(b: Bucket, at: Key): Option<Key> {
    First(KeysAfter(b, at))
  }

  // ---------- Pages ----------

  /** A record as it is served, with the index its key decodes to. */
  datatype Entry = Entry(index: Int, data: Record)

  predicate InPage(page: seq<Entry>, k: Key) {
    exists j :: 0 <= j < |page| && IntToBytes(page[j].index) == k
  }

  predicate Before(page: seq<Entry>, k: Key) {
    forall j :: 0 <= j < |page| ==> Less(IntToBytes(page[j].index), k)
  }

  /** Every entry is stored under its index, at or after `start`, in strictly ascending key order. */
  ghost predicate Ascends(b: Bucket, start: Int, page: seq<Entry>) {
    && (forall j :: 0 <= j < |page| ==>
          && IntToBytes(page[j].index) in b
          && b[IntToBytes(page[j].index)] == page[j].data
          && AtMost(IntToBytes(start), IntToBytes(page[j].index)))
    && (forall j :: 0 <= j < |page| ==> Before(page[..j], IntToBytes(page[j].index)))
  }

  /**
   The first `limit` entries at or after `start` in key order: a key that is
   left out comes after the page, and only when the page is full.
   */
  ghost predicate IsPage(b: Bucket, start: Int, limit: int, page: seq<Entry>) {
    && |page| <= (if limit < 0 then 0 else limit)
    && Ascends(b, start, page)
    && (forall k | k in b && AtMost(IntToBytes(start), k) && !InPage(page, k) ::
          |page| >= limit && Before(page, k))
  }

  class Persistor {
    var data: Option<Bucket>
    var admin: Option<Admin>

    function Contents(): Db
      reads this
    {
      Db(data, admin)
    }

    /** Opens a database file that already holds `db`. */
    constructor (db: Db)
      ensures Contents() == db
    {
      data, admin := db.data, db.admin;
    }

    /**
     Range mode starts on empty buckets, and so does full mode after a range run;
     otherwise full mode keeps the records and the last block. `commits` is false when
     the transaction fails; it is then rolled back.
     */
    method StartDB(mode: Mode, commits: bool) returns (ok: bool)
      modifies this
      ensures ok == commits
      ensures Contents() == if commits then old(Contents()).Start(mode) else old(Contents())
      ensures ok ==> Contents().Open() && admin.value.mode == Some(mode)
      ensures ok && mode.ModeFull? && !(old(admin).Some? && old(admin).value.mode == Some(ModeRange)) ==>
                && data.value == (if old(data).Some? then old(data).value else map[])
                && admin.value.last == (if old(admin).Some? then old(admin).value.last else None)
      ensures ok && (mode.ModeRange? || (old(admin).Some? && old(admin).value.mode == Some(ModeRange))) ==>
                data.value == map[] && admin.value.last == None
    {
      var txData, txAdmin := data, admin;
      if mode.ModeRange? {
        txData := None;
        txAdmin := None;
      }
      if mode.ModeFull? && txAdmin.Some? && txAdmin.value.mode == Some(ModeRange) {
        txAdmin := None;
        txData := None;
      }
      if txData.None? {
        txData := Some(map[]);
      }
      if txAdmin.None? {
        txAdmin := Some(Admin(None, None));
      }
      txAdmin := Some(txAdmin.value.(mode := Some(mode)));
      if commits {
        data, admin := txData, txAdmin;
      }
      return commits;
    }

    method GetLastBlockIndex() returns (block: Int)
      requires admin.Some?
      ensures block == Contents().LastBlock()
      ensures match admin.value.last
              case None => block == -1
              case Some(bytes) => IntToBytes(block) == bytes
    {
      if admin.value.last.None? {
        return -1;
      }
      RoundTripKey(admin.value.last.value);
      return BytesToInt(admin.value.last.value);
    }

    method SaveData(registers: seq<Register>, lastBlock: nat, commits: bool) returns (ok: bool)
      requires Contents().Open()
      modifies this
      ensures ok == commits
      ensures Contents() == if commits then old(Contents()).Save(registers, lastBlock) else old(Contents())
    {
      var bucket := data.value;
      for i := 0 to |registers|
        invariant bucket == Put(data.value, registers[..i])
      {
        assert registers[..i + 1][..i] == registers[..i];
        bucket := bucket[IntToBytes(registers[i].key) := registers[i].data];
      }
      assert registers[..|registers|] == registers;
      if commits {
        data := Some(bucket);
        admin := Some(admin.value.(last := Some(IntToBytes(lastBlock))));
      }
      return commits;
    }

    method GetPaginated(startIndex: Int, limit: int) returns (results: seq<Entry>, nextIndex: int)
      requires data.Some?
      ensures IsPage(data.value, startIndex, limit, results)
      ensures nextIndex == startIndex + |results|
    {
      var b := data.value;
      results, nextIndex := [], startIndex;
      var from := IntToBytes(startIndex);
      var k := Seek(b, from);
      var i := 0;
      assert forall j | j in b && AtMost(from, j) :: j in KeysFrom(b, from);
      while i < limit && k.Some?
        invariant |results| == i <= (if limit < 0 then 0 else limit)
        invariant nextIndex == startIndex + i
        invariant Ascends(b, startIndex, results)
        invariant k.Some? ==> k.value in b && AtMost(from, k.value) && Before(results, k.value)
        invariant forall j | j in b && AtMost(from, j) && !InPage(results, j) :: k.Some? && AtMost(k.value, j)
      {
        RoundTripKey(k.value);
        ghost var page, at := results, k.value;
        results := results + [Entry(BytesToInt(k.value), b[k.value])];
        nextIndex := nextIndex + 1;
        k := Next(b, k.value);
        i := i + 1;
        CursorAdvances(b, startIndex, page, at, results[i - 1], k);
      }
      forall j | j in b && AtMost(from, j) && !InPage(results, j)
        ensures |results| >= limit && Before(results, j)
      {
        BeforeTransitive(results, k.value, j);
      }
    }
  }

  lemma {:induction false} BeforeTransitive(page: seq<Entry>, at: Key, k: Key)
    requires Before(page, at) && AtMost(at, k)
    ensures Before(page, k)
  {
    forall j | 0 <= j < |page| ensures Less(IntToBytes(page[j].index), k) {
      if at != k {
        LessTransitive(IntToBytes(page[j].index), at, k);
      }
    }
  }

  lemma {:induction false} CursorAdvances(b: Bucket, start: Int, page: seq<Entry>, at: Key, e: Entry, next: Option<Key>)
    requires Ascends(b, start, page)
    requires at in b && AtMost(IntToBytes(start), at) && Before(page, at)
    requires e == Entry(BytesToInt(at), b[at]) && next == Next(b, at)
    requires forall j | j in b && AtMost(IntToBytes(start), j) && !InPage(page, j) :: AtMost(at, j)
    ensures Ascends(b, start, page + [e])
    ensures next.Some? ==>
              && next.value in b && AtMost(IntToBytes(start), next.value) && Before(page + [e], next.value)
    ensures forall j | j in b && AtMost(IntToBytes(start), j) && !InPage(page + [e], j) ::
              next.Some? && AtMost(next.value, j)
  {
    RoundTripKey(at);
    var page' := page + [e];
    forall j | 0 <= j < |page'| ensures Before(page'[..j], IntToBytes(page'[j].index)) {
      assert page'[..j] == page[..j];
      if j == |page| {
        assert page[..j] == page;
      }
    }
    if next.Some? {
      BeforeTransitive(page, at, next.value);
      if IntToBytes(start) != at {
        LessTransitive(IntToBytes(start), at, next.value);
      }
    }
    forall j | j in b && AtMost(IntToBytes(start), j) && !InPage(page', j)
      ensures next.Some? && AtMost(next.value, j)
    {
      assert IntToBytes(page'[|page|].index) == at;
      assert !InPage(page, j) by {
        forall i | 0 <= i < |page| ensures IntToBytes(page[i].index) != j {
          assert page'[i] == page[i];
        }
      }
      assert j in KeysAfter(b, at);
    }
  }
}
