/**
 Following the next-page links of the data endpoint (router/router.go) over a
 bucket with dense keys.
 */
module Paging {
  import opened Encoding
  import opened Types
  import opened Persistor

  /** The records from `start` on, with their indexes. */
  function Tail(records: seq<Record>, start: nat): seq<Entry>
    requires start <= |records| <= TWO_63
  {
    seq(|records| - start, j requires 0 <= j < |records| - start => Entry(start + j, records[start + j]))
  }

  lemma {:induction false} TailAt(records: seq<Record>, start: nat, entries: seq<Entry>)
    requires start <= |records| <= TWO_63 && entries == Tail(records, start)
    ensures |entries| == |records| - start
    ensures forall j :: 0 <= j < |entries| ==> entries[j] == Entry(start + j, records[start + j])
  {
  }

  /** What a page over dense keys must hold. */
  function DensePage(records: seq<Record>, start: Int, limit: int): seq<Entry>
    requires |records| <= TWO_63
  {
    if start < 0 || start >= |records| || limit <= 0 then []
    else if |records| - start <= limit then Tail(records, start)
    else Tail(records, start)[..limit]
  }

  /** A link to the next page is given exactly when the page is full (router/router.go:66-69). */
  predicate HasNext(page: seq<Entry>, limit: int) {
    |page| == limit
  }

  lemma {:induction false} PageIndexes(records: seq<Record>, start: Int, limit: int, page: seq<Entry>)
    requires |records| <= TWO_63
    requires IsPage(Dense(records), start, limit, page)
    ensures page != [] ==> start >= 0
    ensures forall j :: 0 <= j < |page| ==>
              start <= page[j].index < |records| && 0 <= page[j].index && page[j].data == records[page[j].index]
    ensures forall i, j :: 0 <= i < j < |page| ==> page[i].index < page[j].index
  {
    DenseLookup(records);
    forall j | 0 <= j < |page|
      ensures 0 <= start <= page[j].index < |records| && page[j].data == records[page[j].index]
    {
      var k := IntToBytes(page[j].index);
      assert k in Dense(records);
      var i :| 0 <= i < |records| && k == IntToBytes(i);
      KeyOrder(page[j].index, i);
      KeyOrder(i, start);
      KeyOrder(start, i);
      if start < 0 {
        LessTransitive(IntToBytes(i), IntToBytes(start), IntToBytes(i));
      }
    }
    if page != [] {
      assert start <= page[0].index;
    }
    forall i, j | 0 <= i < j < |page| ensures page[i].index < page[j].index {
      assert Before(page[..j], IntToBytes(page[j].index));
      assert page[..j][i] == page[i];
      KeyOrder(page[i].index, page[j].index);
    }
  }

  lemma {:induction false} NoGap(records: seq<Record>, start: nat, limit: int, page: seq<Entry>, q: nat)
    requires |records| <= TWO_63 && start < TWO_63
    requires IsPage(Dense(records), start, limit, page)
    requires start <= q < |records|
    requires forall j :: 0 <= j < |page| ==> page[j].index != q
    ensures |page| >= limit && forall j :: 0 <= j < |page| ==> page[j].index < q
  {
    DenseLookup(records);
    PageIndexes(records, start, limit, page);
    KeyOrder(start, q);
    var k := IntToBytes(q);
    forall j | 0 <= j < |page| ensures IntToBytes(page[j].index) != k {
      KeyOrder(page[j].index, q);
    }
    assert !InPage(page, k) && k in Dense(records);
    forall j | 0 <= j < |page| ensures page[j].index < q {
      KeyOrder(page[j].index, q);
    }
  }

  lemma {:induction false} PagePosition(records: seq<Record>, start: nat, limit: int, page: seq<Entry>, j: nat)
    requires |records| <= TWO_63 && start < TWO_63
    requires IsPage(Dense(records), start, limit, page)
    requires j < |page|
    ensures page[j].index == start + j
  {
    PageIndexes(records, start, limit, page);
    if j > 0 {
      PagePosition(records, start, limit, page, j - 1);
    }
    if page[j].index > start + j {
      forall i | 0 <= i < |page| ensures page[i].index != start + j {
        if i < j - 1 {
          assert page[i].index < page[j - 1].index;
        } else if i > j {
          assert page[j].index < page[i].index;
        }
      }
      NoGap(records, start, limit, page, start + j);
      assert false;
    }
  }

  lemma {:induction false} PageEntries(records: seq<Record>, start: Int, limit: int, page: seq<Entry>)
    requires |records| <= TWO_63
    requires IsPage(Dense(records), start, limit, page)
    ensures page != [] ==> start >= 0
    ensures forall j :: 0 <= j < |page| ==>
              page[j].index == start + j && 0 <= page[j].index < |records| && page[j].data == records[page[j].index]
  {
    PageIndexes(records, start, limit, page);
    forall j | 0 <= j < |page| ensures page[j].index == start + j {
      PagePosition(records, start, limit, page, j);
    }
  }

  /** Over dense keys the cursor walk returns exactly the slice of the records; a negative start finds nothing. */
  lemma {:induction false} PageOfDense(records: seq<Record>, start: Int, limit: int, page: seq<Entry>)
    requires |records| <= TWO_63
    requires IsPage(Dense(records), start, limit, page)
    ensures |page| == if start < 0 || start >= |records| || limit <= 0 then 0
                      else if |records| - start < limit then |records| - start else limit
    ensures forall j :: 0 <= j < |page| ==>
              page[j].index == start + j && 0 <= page[j].index < |records| && page[j].data == records[page[j].index]
  {
    PageEntries(records, start, limit, page);
    if page != [] {
      assert page[|page| - 1].index == start + |page| - 1;
    }
    if start >= 0 && |page| < limit && start + |page| < |records| {
      NoGap(records, start, limit, page, start + |page|);
      assert false;
    }
  }

  lemma {:induction false} PageIsSlice(records: seq<Record>, start: Int, limit: int, page: seq<Entry>)
    requires |records| <= TWO_63
    requires IsPage(Dense(records), start, limit, page)
    ensures page == DensePage(records, start, limit)
  {
    PageOfDense(records, start, limit, page);
  }

  /** One request: what the bucket held when it was served, and the page. */
  datatype Visit = Visit(snapshot: seq<Record>, page: seq<Entry>)

  /**
   A client that starts at `start` and follows every link until a page has none,
   while saves may append records between its requests.
   */
  ghost predicate Follows(walk: seq<Visit>, start: nat, limit: nat)
    decreases |walk|
  {
    && walk != [] && start < TWO_63
    && IsPage(Dense(walk[0].snapshot), start, limit, walk[0].page)
    && if HasNext(walk[0].page, limit) then
         |walk| > 1 && walk[0].snapshot <= walk[1].snapshot && Follows(walk[1..], start + |walk[0].page|, limit)
       else
         |walk| == 1
  }

  function Served(walk: seq<Visit>): seq<Entry> {
    if walk == [] then [] else walk[0].page + Served(walk[1..])
  }

  /** One request of a walk, with its page spelled out. */
  lemma {:induction false} FirstRequest(walk: seq<Visit>, start: nat, limit: nat)
    requires Follows(walk, start, limit) && limit > 0
    requires start <= |walk[0].snapshot| < TWO_63
    ensures walk[0].page == DensePage(walk[0].snapshot, start, limit)
    ensures |walk| > 1 <==> start + limit <= |walk[0].snapshot|
    ensures |walk| > 1 ==> walk[0].snapshot <= walk[1].snapshot && Follows(walk[1..], start + limit, limit)
  {
    PageIsSlice(walk[0].snapshot, start, limit, walk[0].page);
  }

  /** The first page of a walk and everything after it make up the tail. */
  lemma {:induction false} TailSplit(now: seq<Record>, last: seq<Record>, start: nat, limit: nat)
    requires limit > 0 && now <= last && start + limit <= |now| && |last| < TWO_63
    ensures Tail(last, start) == DensePage(now, start, limit) + Tail(last, start + limit)
  {
    assert |DensePage(now, start, limit)| == limit;
    forall j | 0 <= j < limit ensures Tail(last, start)[j] == DensePage(now, start, limit)[j] {
      assert last[start + j] == now[start + j];
    }
  }

  lemma {:induction false} ServedIsTail(walk: seq<Visit>, start: nat, limit: nat)
    requires Follows(walk, start, limit) && limit > 0
    requires start <= |walk[0].snapshot|
    requires forall t :: 0 <= t < |walk| ==> |walk[t].snapshot| < TWO_63
    ensures walk[0].snapshot <= walk[|walk| - 1].snapshot
    ensures Served(walk) == Tail(walk[|walk| - 1].snapshot, start)
    decreases |walk|
  {
    FirstRequest(walk, start, limit);
    if |walk| > 1 {
      ServedIsTail(walk[1..], start + limit, limit);
      TailSplit(walk[0].snapshot, walk[|walk| - 1].snapshot, start, limit);
    } else {
      assert Served(walk[1..]) == [];
    }
  }

  /**
   The pages together are every record from `start` to the end of what the last
   request saw: each once, in order, whatever was appended in between.
   */
  lemma {:induction false} LinksServeEverything(walk: seq<Visit>, start: nat, limit: nat)
    requires Follows(walk, start, limit) && limit > 0
    requires start <= |walk[0].snapshot|
    requires forall t :: 0 <= t < |walk| ==> |walk[t].snapshot| < TWO_63
    ensures var last := walk[|walk| - 1].snapshot;
            && walk[0].snapshot <= last && |Served(walk)| == |last| - start
            && forall j :: 0 <= j < |Served(walk)| ==> Served(walk)[j] == Entry(start + j, last[start + j])
  {
    ServedIsTail(walk, start, limit);
    TailAt(walk[|walk| - 1].snapshot, start, Served(walk));
  }

  /** One more page of `limit` records. */
  lemma {:induction false} OnePageMore(pages: nat, limit: nat, rest: nat)
    requires pages > 0 && limit <= rest && (pages - 1) * limit <= rest - limit < pages * limit
    ensures pages * limit <= rest < (pages + 1) * limit
  {
    assert pages * limit == (pages - 1) * limit + limit;
    assert (pages + 1) * limit == pages * limit + limit;
  }

  /** Over n unchanging records the walk takes floor((n - start) / limit) + 1 requests, written without the division. */
  lemma {:induction false} LinksStop(walk: seq<Visit>, records: seq<Record>, start: nat, limit: nat)
    requires Follows(walk, start, limit) && limit > 0
    requires start <= |records| < TWO_63
    requires forall t :: 0 <= t < |walk| ==> walk[t].snapshot == records
    ensures (|walk| - 1) * limit <= |records| - start < |walk| * limit
    decreases |walk|
  {
    FirstRequest(walk, start, limit);
    if |walk| > 1 {
      LinksStop(walk[1..], records, start + limit, limit);
      OnePageMore(|walk| - 1, limit, |records| - start);
    }
  }
}
