/**
 Fetching a range with splitting (fetcher/fetcher.go:165-203): a range that is
 too big is cut in two, and the halves are fetched on their own.
 */
module Fetcher {
  import opened Wrappers
  import opened Types
  import opened FetchJoin
  import opened ChainSpec

  function Mid(lo: nat, hi: nat): nat {
    (lo + hi) / 2
  }

  /** The number of blocks of a range; none when it is inverted. */
  function Width(lo: nat, hi: nat): nat {
    if hi < lo then 0 else hi - lo + 1
  }

  /** What a task does once its fetch has returned. */
  datatype Next = Send(item: SyncItem) | Split(leftEnd: nat, rightStart: nat) | Panic

  function NextOf(lo: nat, hi: nat, r: Result<map<nat, seq<Record>>, FetchError>): Next {
    match r
    case Ok(data) => Send(SyncItem(lo, hi, data))
    case Err(e) => if e.ReqTooBig? then Split(Mid(lo, hi), Mid(lo, hi) + 1) else Panic
  }

  /** A task splits exactly when one of its requests is too big, and in the middle; any other error is the end. */
  lemma {:induction false} SplitsIff(lib: Lib, lo: nat, hi: nat, logs: Logs, batch: Batch)
    requires Answers(logs, batch)
    ensures var next := NextOf(lo, hi, Fetched(lib, logs, batch));
            && (next.Split? <==>
                  logs == Err(ReqTooBig) || (logs.Ok? && logs.value != [] && batch == Err(ReqTooBig)))
            && (next.Split? ==> next.leftEnd == (lo + hi) / 2 && next.rightStart == (lo + hi) / 2 + 1)
            && (next.Panic? <==> Fetched(lib, logs, batch).Err? && !next.Split?)
            && (next.Send? ==> next.item.startBlock == lo && next.item.endBlock == hi)
  {
    RequestErrors(lib, logs, batch);
  }

  class Fetcher {
    var permits: nat
    /** Ranges handed to new tasks. */
    var spawned: seq<(nat, nat)>
    /** Items handed to the synchronizer. */
    var sent: seq<SyncItem>

    constructor (concurrency: nat)
      ensures permits == concurrency && spawned == [] && sent == []
    {
      permits, spawned, sent := concurrency, [], [];
    }

    method RequestRange(startBlock: nat, endBlock: nat)
      modifies this
      ensures permits == old(permits) && sent == old(sent)
      ensures spawned == old(spawned) + [(startBlock, endBlock)]
    {
      spawned := spawned + [(startBlock, endBlock)];
    }

    /** The permit is given back before anything is sent or spawned, whatever the fetch returned. */
    method ConcurrentFetchData(lib: Lib, logsReply: Logs, getBatch: (seq<nat>, seq<Hash>) -> Batch)
      returns (r: Result<map<nat, seq<Record>>, FetchError>)
      requires forall bns, hashes :: bns != [] ==>
                 var batch := getBatch(bns, hashes); batch.Ok? ==> |batch.value.0| == |bns|
      modifies this
      ensures permits == old(permits) + 1 && spawned == old(spawned) && sent == old(sent)
      ensures logsReply.Ok? ==> Answers(logsReply, getBatch(FirstSeen(logsReply.value), Hashes(logsReply.value)))
      ensures logsReply.Err? ==> r == Err(logsReply.error)
      ensures logsReply.Ok? ==>
                r == Fetched(lib, logsReply, getBatch(FirstSeen(logsReply.value), Hashes(logsReply.value)))
    {
      r := FetchData(lib, logsReply, getBatch);
      permits := permits + 1;
    }

    method FetchWithRetry(
        lib: Lib, startBlock: nat, endBlock: nat, logsReply: Logs, getBatch: (seq<nat>, seq<Hash>) -> Batch)
      returns (panicked: bool, ghost r: Result<map<nat, seq<Record>>, FetchError>)
      requires permits > 0
      requires forall bns, hashes :: bns != [] ==>
                 var batch := getBatch(bns, hashes); batch.Ok? ==> |batch.value.0| == |bns|
      modifies this
      ensures permits == old(permits)
      ensures logsReply.Ok? ==> Answers(logsReply, getBatch(FirstSeen(logsReply.value), Hashes(logsReply.value)))
      ensures r == if logsReply.Err? then Err(logsReply.error)
                   else Fetched(lib, logsReply, getBatch(FirstSeen(logsReply.value), Hashes(logsReply.value)))
      ensures if r.Ok? then
                && !panicked && sent == old(sent) + [SyncItem(startBlock, endBlock, r.value)]
                && spawned == old(spawned)
              else if r == Err(ReqTooBig) then
                && !panicked && sent == old(sent)
                && spawned == old(spawned)
                   + [(startBlock, (startBlock + endBlock) / 2), ((startBlock + endBlock) / 2 + 1, endBlock)]
              else
                panicked && sent == old(sent) && spawned == old(spawned)
    {
      permits := permits - 1;
      var result := ConcurrentFetchData(lib, logsReply, getBatch);
      r := result;
      if result.Ok? {
        sent := sent + [SyncItem(startBlock, endBlock, result.value)];
        return false, r;
      }
      if result.error.ReqTooBig? {
        var midBlock := (startBlock + endBlock) / 2;
        spawned := spawned + [(startBlock, midBlock), (midBlock + 1, endBlock)];
        return false, r;
      }
      return true, r;
    }
  }

  // ---------- Splitting ----------

  /** Every block of a range is in exactly one half, and a half of an inverted range is inverted. */
  lemma {:induction false} SplitPartitions(lo: nat, hi: nat, b: nat)
    ensures lo <= b <= hi <==> lo <= b <= Mid(lo, hi) || Mid(lo, hi) + 1 <= b <= hi
    ensures !(lo <= b <= Mid(lo, hi) && Mid(lo, hi) + 1 <= b <= hi)
    ensures Width(lo, Mid(lo, hi)) + Width(Mid(lo, hi) + 1, hi) == Width(lo, hi)
    ensures lo < hi ==> 0 < Width(lo, Mid(lo, hi)) < Width(lo, hi) && 0 < Width(Mid(lo, hi) + 1, hi)
  {
  }

  /** The answers a range got: a reply and the data made of it, or "too big" and the answers of its halves. */
  datatype Tree = Leaf(reply: seq<Log>, data: map<nat, seq<Record>>) | Node(left: Tree, right: Tree)

  /** Every leaf is a truthful fetch of its own range, whatever the order of its reply. */
  ghost predicate Fetches(lib: Lib, c: Chain, lo: nat, hi: nat, tree: Tree)
    decreases tree
  {
    match tree
    case Leaf(reply, data) =>
      exists batch ::
        Truthful(c, lo, hi, Ok(reply), batch) && Answers(Ok(reply), batch) && Fetched(lib, Ok(reply), batch) == Ok(data)
    case Node(left, right) =>
      Fetches(lib, c, lo, Mid(lo, hi), left) && Fetches(lib, c, Mid(lo, hi) + 1, hi, right)
  }

  /** What the leaves send to the synchronizer, together. */
  function Union(tree: Tree): map<nat, seq<Record>> {
    match tree
    case Leaf(_, data) => data
    case Node(left, right) => Union(left) + Union(right)
  }

  /** What the nodes replied to the leaves, one after the other. */
  function Gathered(tree: Tree): seq<Log> {
    match tree
    case Leaf(reply, _) => reply
    case Node(left, right) => Gathered(left) + Gathered(right)
  }

  lemma {:induction false} JoinReplies(c: Chain, lo: nat, hi: nat, r1: seq<Log>, r2: seq<Log>)
    requires HoldsRange(c, lo, Mid(lo, hi), r1) && HoldsRange(c, Mid(lo, hi) + 1, hi, r2)
    ensures HoldsRange(c, lo, hi, r1 + r2)
  {
    forall l ensures l in r1 + r2 <==> lo <= l.blockNumber <= hi && l in c.logs(l.blockNumber) {
      SplitPartitions(lo, hi, l.blockNumber);
    }
  }

  ghost predicate NoCommonTx(r1: seq<Log>, r2: seq<Log>) {
    forall l1, l2 :: l1 in r1 && l2 in r2 ==> l1.txHash != l2.txHash
  }

  /** A transaction is in one block, and hence in one half. */
  lemma {:induction false} HalvesShareNothing(c: Chain, lo: nat, hi: nat, r1: seq<Log>, r2: seq<Log>)
    requires Valid(c) && HoldsRange(c, lo, Mid(lo, hi), r1) && HoldsRange(c, Mid(lo, hi) + 1, hi, r2)
    ensures NoCommonTx(r1, r2)
  {
    forall l1, l2 | l1 in r1 && l2 in r2 ensures l1.txHash != l2.txHash {
      var b1, b2 := l1.blockNumber, l2.blockNumber;
      var i :| 0 <= i < |c.logs(b1)| && c.logs(b1)[i] == l1;
      var j :| 0 <= j < |c.logs(b2)| && c.logs(b2)[j] == l2;
      if l1.txHash == l2.txHash {
        OneBlock(c, b1, i, b2, j);
      }
    }
  }

  /** So the last log of a transaction in both replies together is the last one in its half. */
  lemma {:induction false} LastInHalf(r1: seq<Log>, r2: seq<Log>, l: Log)
    requires NoCommonTx(r1, r2)
    ensures LastIn(r1 + r2, l) <==> LastIn(r1, l) || LastIn(r2, l)
  {
    var r := r1 + r2;
    if LastIn(r1, l) {
      var i :| 0 <= i < |r1| && r1[i] == l && forall j :: i < j < |r1| ==> r1[j].txHash != l.txHash;
      assert l in r1;
      forall j | i < j < |r| ensures r[j].txHash != l.txHash {
        assert j >= |r1| ==> r[j] in r2;
      }
      assert r[i] == l;
    }
    if LastIn(r2, l) {
      var i :| 0 <= i < |r2| && r2[i] == l && forall j :: i < j < |r2| ==> r2[j].txHash != l.txHash;
      assert r[|r1| + i] == l;
      forall j | |r1| + i < j < |r| ensures r[j].txHash != l.txHash {
        assert r[j] == r2[j - |r1|];
      }
    }
    if LastIn(r, l) {
      LastInPart(r1, r2, l);
    }
  }

  lemma {:induction false} LastInPart(r1: seq<Log>, r2: seq<Log>, l: Log)
    requires LastIn(r1 + r2, l)
    ensures LastIn(r1, l) || LastIn(r2, l)
  {
    var r := r1 + r2;
    var i :| 0 <= i < |r| && r[i] == l && forall j :: i < j < |r| ==> r[j].txHash != l.txHash;
    if i < |r1| {
      forall j | i < j < |r1| ensures r1[j].txHash != l.txHash {
        assert r[j] == r1[j];
      }
      assert r1[i] == l;
    } else {
      forall j | i - |r1| < j < |r2| ensures r2[j].txHash != l.txHash {
        assert r[|r1| + j] == r2[j];
      }
      assert r2[i - |r1|] == l;
    }
  }

  /** The records of a block come from the reply of the half that holds it. */
  lemma {:induction false} PickedByHalf(lib: Lib, c: Chain, r1: seq<Log>, r2: seq<Log>, logs: seq<Log>, left: bool)
    requires NoCommonTx(r1, r2) && forall l :: l in logs ==> l !in (if left then r2 else r1)
    ensures PickedBy(lib, c, r1 + r2, logs) == PickedBy(lib, c, if left then r1 else r2, logs)
    ensures PickedBy(lib, c, if left then r2 else r1, logs) == []
  {
    if logs != [] {
      LastInHalf(r1, r2, logs[0]);
      assert logs[0] in logs && forall l :: l in logs[1..] ==> l in logs;
      PickedByHalf(lib, c, r1, r2, logs[1..], left);
    }
  }

  lemma {:induction false} SpecOfHalves(lib: Lib, c: Chain, lo: nat, hi: nat, r1: seq<Log>, r2: seq<Log>, b: nat)
    requires Valid(c) && HoldsRange(c, lo, Mid(lo, hi), r1) && HoldsRange(c, Mid(lo, hi) + 1, hi, r2)
    ensures ReplySpec(lib, c, r1 + r2, b)
         == if b <= Mid(lo, hi) then ReplySpec(lib, c, r1, b) else ReplySpec(lib, c, r2, b)
    ensures (if b <= Mid(lo, hi) then ReplySpec(lib, c, r2, b) else ReplySpec(lib, c, r1, b)) == []
  {
    HalvesShareNothing(c, lo, hi, r1, r2);
    forall l | l in c.logs(b) ensures l.blockNumber == b {
      var i :| 0 <= i < |c.logs(b)| && c.logs(b)[i] == l;
    }
    PickedByHalf(lib, c, r1, r2, c.logs(b), b <= Mid(lo, hi));
  }

  lemma {:induction false} JoinHalves(
      lib: Lib, c: Chain, lo: nat, hi: nat,
      r1: seq<Log>, m1: map<nat, seq<Record>>, r2: seq<Log>, m2: map<nat, seq<Record>>)
    requires Valid(c) && HoldsRange(c, lo, Mid(lo, hi), r1) && HoldsRange(c, Mid(lo, hi) + 1, hi, r2)
    requires IsReplyMap(lib, c, r1, m1) && IsReplyMap(lib, c, r2, m2)
    ensures IsReplyMap(lib, c, r1 + r2, m1 + m2)
  {
    forall b: nat
      ensures b in m1 + m2 <==> ReplySpec(lib, c, r1 + r2, b) != []
      ensures b in m1 + m2 ==> (m1 + m2)[b] == ReplySpec(lib, c, r1 + r2, b)
    {
      SpecOfHalves(lib, c, lo, hi, r1, r2, b);
    }
  }

  /**
   Whatever ranges are answered "too big", and in whatever order the nodes list the
   logs, the replies to the leaves make up a reply for the whole range, and the data
   of the leaves is what that reply yields.
   */
  lemma {:induction false} UnionMeetsReply(lib: Lib, c: Chain, lo: nat, hi: nat, tree: Tree)
    requires Valid(c) && Fetches(lib, c, lo, hi, tree)
    ensures HoldsRange(c, lo, hi, Gathered(tree))
    ensures IsReplyMap(lib, c, Gathered(tree), Union(tree)) && !ReplyFails(lib, c, Gathered(tree))
    decreases tree
  {
    match tree
    case Leaf(reply, data) =>
      var batch :|
        && Truthful(c, lo, hi, Ok(reply), batch) && Answers(Ok(reply), batch)
        && Fetched(lib, Ok(reply), batch) == Ok(data);
      FetchMeetsReply(lib, c, lo, hi, Ok(reply), batch);
    case Node(left, right) =>
      UnionMeetsReply(lib, c, lo, Mid(lo, hi), left);
      UnionMeetsReply(lib, c, Mid(lo, hi) + 1, hi, right);
      JoinReplies(c, lo, hi, Gathered(left), Gathered(right));
      JoinHalves(lib, c, lo, hi, Gathered(left), Union(left), Gathered(right), Union(right));
      JoinFailures(lib, c, Gathered(left), Gathered(right));
  }

  lemma {:induction false} JoinFailures(lib: Lib, c: Chain, r1: seq<Log>, r2: seq<Log>)
    requires !ReplyFails(lib, c, r1) && !ReplyFails(lib, c, r2)
    ensures !ReplyFails(lib, c, r1 + r2)
  {
    forall l | LastIn(r1 + r2, l) ensures Readable(lib, c, l) {
      LastInPart(r1, r2, l);
    }
  }

  lemma {:induction false} ReplyMapUnique(
      lib: Lib, c: Chain, reply: seq<Log>, m1: map<nat, seq<Record>>, m2: map<nat, seq<Record>>)
    requires IsReplyMap(lib, c, reply, m1) && IsReplyMap(lib, c, reply, m2)
    ensures m1 == m2
  {
  }

  /** One fetch of the whole range that gets all replies of the leaves returns exactly their data. */
  lemma {:induction false} SplittingKeepsMeaning(lib: Lib, c: Chain, lo: nat, hi: nat, tree: Tree, batch: Batch)
    requires Valid(c) && Fetches(lib, c, lo, hi, tree)
    requires batch.Ok? && ValidBatch(c, Gathered(tree), batch.value.0, batch.value.1)
    ensures Truthful(c, lo, hi, Ok(Gathered(tree)), batch)
    ensures Answers(Ok(Gathered(tree)), batch) && Fetched(lib, Ok(Gathered(tree)), batch) == Ok(Union(tree))
  {
    var reply := Gathered(tree);
    UnionMeetsReply(lib, c, lo, hi, tree);
    FetchMeetsReply(lib, c, lo, hi, Ok(reply), batch);
    ReplyMapUnique(lib, c, reply, Fetched(lib, Ok(reply), batch).value, Union(tree));
  }

  // ---------- Splitting with replies in log order ----------

  predicate LeavesInOrder(tree: Tree) {
    match tree
    case Leaf(reply, _) => InLogOrder(reply)
    case Node(left, right) => LeavesInOrder(left) && LeavesInOrder(right)
  }

  lemma {:induction false} JoinInOrder(r1: seq<Log>, r2: seq<Log>)
    requires NoCommonTx(r1, r2) && InLogOrder(r1) && InLogOrder(r2)
    ensures InLogOrder(r1 + r2)
  {
    var r := r1 + r2;
    forall i, j | 0 <= i < |r1| <= j < |r| ensures r[i].txHash != r[j].txHash {
      assert r[i] in r1 && r[j] in r2;
    }
    forall i, j | 0 <= i < j < |r| && r[i].txHash == r[j].txHash ensures r[i].index < r[j].index {
      if j < |r1| {
        assert r[i] == r1[i] && r[j] == r1[j];
      } else if i >= |r1| {
        assert r[i] == r2[i - |r1|] && r[j] == r2[j - |r1|];
      }
    }
  }

  lemma {:induction false} GatheredInOrder(lib: Lib, c: Chain, lo: nat, hi: nat, tree: Tree)
    requires Valid(c) && Fetches(lib, c, lo, hi, tree) && LeavesInOrder(tree)
    ensures InLogOrder(Gathered(tree))
    decreases tree
  {
    if tree.Node? {
      GatheredInOrder(lib, c, lo, Mid(lo, hi), tree.left);
      GatheredInOrder(lib, c, Mid(lo, hi) + 1, hi, tree.right);
      UnionMeetsReply(lib, c, lo, Mid(lo, hi), tree.left);
      UnionMeetsReply(lib, c, Mid(lo, hi) + 1, hi, tree.right);
      HalvesShareNothing(c, lo, hi, Gathered(tree.left), Gathered(tree.right));
      JoinInOrder(Gathered(tree.left), Gathered(tree.right));
    }
  }

  /** With replies in log order the leaves hold the specified records of the range. */
  lemma {:induction false} UnionMeetsSpec(lib: Lib, c: Chain, lo: nat, hi: nat, tree: Tree)
    requires Valid(c) && Fetches(lib, c, lo, hi, tree) && LeavesInOrder(tree)
    ensures IsRangeMap(lib, c, lo, hi, Union(tree))
    ensures !Fails(lib, c, lo, hi)
  {
    UnionMeetsReply(lib, c, lo, hi, tree);
    GatheredInOrder(lib, c, lo, hi, tree);
    InOrderMap(lib, c, lo, hi, Gathered(tree), Union(tree));
    InOrderFails(lib, c, lo, hi, Gathered(tree));
  }

  /** So any honest fetch of the whole range returns the same. */
  lemma {:induction false} SplittingInLogOrder(
      lib: Lib, c: Chain, lo: nat, hi: nat, tree: Tree, logs: Logs, batch: Batch)
    requires Valid(c) && Fetches(lib, c, lo, hi, tree) && LeavesInOrder(tree)
    requires Honest(c, lo, hi, logs, batch) && logs.Ok? && batch.Ok?
    ensures Answers(logs, batch) && Fetched(lib, logs, batch) == Ok(Union(tree))
  {
    UnionMeetsSpec(lib, c, lo, hi, tree);
    FetchMeetsSpec(lib, c, lo, hi, logs, batch);
    RangeMapUnique(lib, c, lo, hi, Fetched(lib, logs, batch).value, Union(tree));
  }

  // ---------- A node that always answers alike ----------

  /** Which ranges a node finds too big. */
  type Limits = (nat, nat) -> bool

  /** One of the halves of such a range is the range itself. */
  predicate HalfIsWhole(lo: nat, hi: nat) {
    hi <= lo <= hi + 2
  }

  lemma {:induction false} HalfIsWholeIff(lo: nat, hi: nat)
    ensures HalfIsWhole(lo, hi) <==> (lo, Mid(lo, hi)) == (lo, hi) || (Mid(lo, hi) + 1, hi) == (lo, hi)
  {
  }

  /** The blocks of a range, or how far an empty one is inverted: what splitting makes smaller. */
  function Size(lo: nat, hi: nat): nat {
    if lo <= hi then hi - lo + 1 else lo - hi
  }

  /** The splitting of the range ends: no range that it comes to is too big and one of its own halves. */
  predicate Tame(tooBig: Limits, lo: nat, hi: nat)
    decreases Size(lo, hi)
  {
    tooBig(lo, hi) ==>
      !HalfIsWhole(lo, hi) && Tame(tooBig, lo, Mid(lo, hi)) && Tame(tooBig, Mid(lo, hi) + 1, hi)
  }

  /** The fetches that a range takes, if its splitting ends. */
  function NodeFetches(tooBig: Limits, lo: nat, hi: nat): nat
    decreases Size(lo, hi)
  {
    if !tooBig(lo, hi) || HalfIsWhole(lo, hi) then 1
    else 1 + NodeFetches(tooBig, lo, Mid(lo, hi)) + NodeFetches(tooBig, Mid(lo, hi) + 1, hi)
  }

  /** Splitting comes from the first range to (a, b) by taking left and right halves. */
  predicate Comes(tooBig: Limits, lo: nat, hi: nat, path: seq<bool>, a: nat, b: nat)
    decreases |path|
  {
    if path == [] then a == lo && b == hi else
    tooBig(lo, hi) &&
    if path[0] then Comes(tooBig, lo, Mid(lo, hi), path[1..], a, b)
    else Comes(tooBig, Mid(lo, hi) + 1, hi, path[1..], a, b)
  }

  lemma {:induction false} TameCover(tooBig: Limits, lo: nat, hi: nat, path: seq<bool>, a: nat, b: nat)
    requires Tame(tooBig, lo, hi) && Comes(tooBig, lo, hi, path, a, b)
    ensures !(tooBig(a, b) && HalfIsWhole(a, b))
    decreases |path|
  {
    if path != [] {
      if path[0] {
        TameCover(tooBig, lo, Mid(lo, hi), path[1..], a, b);
      } else {
        TameCover(tooBig, Mid(lo, hi) + 1, hi, path[1..], a, b);
      }
    }
  }

  lemma {:induction false} WildPath(tooBig: Limits, lo: nat, hi: nat) returns (path: seq<bool>, a: nat, b: nat)
    requires !Tame(tooBig, lo, hi)
    ensures Comes(tooBig, lo, hi, path, a, b) && tooBig(a, b) && HalfIsWhole(a, b)
    decreases Size(lo, hi)
  {
    if HalfIsWhole(lo, hi) {
      path, a, b := [], lo, hi;
    } else {
      var left := !Tame(tooBig, lo, Mid(lo, hi));
      var rest;
      if left {
        rest, a, b := WildPath(tooBig, lo, Mid(lo, hi));
      } else {
        rest, a, b := WildPath(tooBig, Mid(lo, hi) + 1, hi);
      }
      path := [left] + rest;
      assert path[1..] == rest;
    }
  }

  /** The splitting comes to a range that is too big and one of its own halves. */
  ghost predicate ComesToWhole(tooBig: Limits, lo: nat, hi: nat) {
    exists path, a, b :: Comes(tooBig, lo, hi, path, a, b) && tooBig(a, b) && HalfIsWhole(a, b)
  }

  lemma {:induction false} TameIff(tooBig: Limits, lo: nat, hi: nat)
    ensures Tame(tooBig, lo, hi) <==> !ComesToWhole(tooBig, lo, hi)
  {
    if ComesToWhole(tooBig, lo, hi) {
      var path, a, b :| Comes(tooBig, lo, hi, path, a, b) && tooBig(a, b) && HalfIsWhole(a, b);
      if Tame(tooBig, lo, hi) {
        TameCover(tooBig, lo, hi, path, a, b);
      }
    } else if !Tame(tooBig, lo, hi) {
      var path, a, b := WildPath(tooBig, lo, hi);
    }
  }

  // ---------- The cost of splitting ----------

  /** One-block (and empty) ranges are never too big. */
  predicate SplitsOnlyWide(tree: Tree, lo: nat, hi: nat) {
    tree.Node? ==>
      && lo < hi
      && SplitsOnlyWide(tree.left, lo, Mid(lo, hi))
      && SplitsOnlyWide(tree.right, Mid(lo, hi) + 1, hi)
  }

  function Calls(tree: Tree): nat {
    match tree
    case Leaf(_, _) => 1
    case Node(left, right) => 1 + Calls(left) + Calls(right)
  }

  function Depth(tree: Tree): nat {
    match tree
    case Leaf(_, _) => 0
    case Node(left, right) => 1 + if Depth(left) > Depth(right) then Depth(left) else Depth(right)
  }

  function CeilLog2(w: nat): nat {
    if w <= 1 then 0 else 1 + CeilLog2((w + 1) / 2)
  }

  function Pow2(k: nat): nat {
    if k == 0 then 1 else 2 * Pow2(k - 1)
  }

  /** CeilLog2 is the least k with w <= 2^k. */
  lemma {:induction false} CeilLog2Exact(w: nat)
    ensures w <= Pow2(CeilLog2(w))
    ensures w > 1 ==> Pow2(CeilLog2(w) - 1) < w
  {
    if w > 1 {
      var half := (w + 1) / 2;
      CeilLog2Exact(half);
      if half > 1 {
        assert Pow2(CeilLog2(w) - 1) == 2 * Pow2(CeilLog2(half) - 1);
      } else {
        assert CeilLog2(half) == 0;
      }
    }
  }

  lemma {:induction false} CeilLog2Monotone(v: nat, w: nat)
    requires v <= w
    ensures CeilLog2(v) <= CeilLog2(w)
  {
    if v > 1 {
      CeilLog2Monotone((v + 1) / 2, (w + 1) / 2);
    }
  }

  /** A request of w >= 1 blocks takes at most 2w - 1 fetches, at depth at most ceil(log2 w). */
  lemma {:induction false} SplitCost(tree: Tree, lo: nat, hi: nat)
    requires lo <= hi && SplitsOnlyWide(tree, lo, hi)
    ensures Calls(tree) <= 2 * Width(lo, hi) - 1
    ensures Depth(tree) <= CeilLog2(Width(lo, hi))
  {
    if tree.Node? {
      SplitPartitions(lo, hi, lo);
      SplitCost(tree.left, lo, Mid(lo, hi));
      SplitCost(tree.right, Mid(lo, hi) + 1, hi);
      var w := Width(lo, hi);
      assert Width(lo, Mid(lo, hi)) == (w + 1) / 2;
      CeilLog2Monotone(Width(Mid(lo, hi) + 1, hi), (w + 1) / 2);
    }
  }
}
