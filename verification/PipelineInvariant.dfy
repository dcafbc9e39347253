/**
 The invariant of the step system: who owns each block, what the buffer, the
 channel and the database hold, and where the counters stand.
 */
module PipelineInvariant {
  import opened Wrappers
  import opened Encoding
  import opened Types
  import opened Persistor
  import opened FetchJoin
  import opened ChainSpec
  import opened Fetcher
  import opened Pipeline

  // ---------- Totals over the tasks ----------

  /**
   What is counted: tasks that own a block, permits in use, steps or fetches that are
   left when only ranges of more than one block are too big, or steps that are left
   with a node of the given limits.
   */
  datatype Gauge = OwnersOf(block: nat) | InUse | WorkLeft | FetchesLeft | NodeWork(tooBig: Limits)

  function Covers(lo: nat, hi: nat, b: nat): nat {
    if lo <= b <= hi then 1 else 0
  }

  /** Fetches of a range of w blocks, when only ranges of more than one block are too big: one if it is empty. */
  function RangeFetches(lo: nat, hi: nat): nat {
    if Width(lo, hi) <= 1 then 1 else 2 * Width(lo, hi) - 1
  }

  /** Steps a range can still take: four for each of its fetches. */
  function RangeWork(lo: nat, hi: nat): nat {
    4 * RangeFetches(lo, hi)
  }

  function Weight(g: Gauge, t: Task): nat {
    match g
    case OwnersOf(b) => (
      match t
      case Waiting(lo, hi) => Covers(lo, hi, b)
      case Fetching(lo, hi) => Covers(lo, hi, b)
      case Sending(item) => Covers(item.startBlock, item.endBlock, b))
    case InUse => if t.Fetching? then 1 else 0
    case WorkLeft => (
      match t
      case Waiting(lo, hi) => RangeWork(lo, hi)
      case Fetching(lo, hi) => RangeWork(lo, hi) - 1
      case Sending(_) => 2)
    case FetchesLeft => (
      match t
      case Waiting(lo, hi) => RangeFetches(lo, hi)
      case Fetching(lo, hi) => RangeFetches(lo, hi)
      case Sending(_) => 0)
    case NodeWork(tooBig) => (
      match t
      case Waiting(lo, hi) => 4 * NodeFetches(tooBig, lo, hi)
      case Fetching(lo, hi) => 4 * NodeFetches(tooBig, lo, hi) - 1
      case Sending(_) => 2)
  }

  function Total(g: Gauge, tasks: seq<Task>): nat {
    if tasks == [] then 0 else Weight(g, tasks[0]) + Total(g, tasks[1..])
  }

  lemma {:induction false} TotalConcat(g: Gauge, a: seq<Task>, b: seq<Task>)
    ensures Total(g, a + b) == Total(g, a) + Total(g, b)
  {
    if a == [] {
      assert a + b == b;
    } else {
      assert (a + b)[1..] == a[1..] + b;
      TotalConcat(g, a[1..], b);
    }
  }

  lemma {:induction false} TotalReplace(g: Gauge, tasks: seq<Task>, i: nat, parts: seq<Task>)
    requires i < |tasks|
    ensures Total(g, Replace(tasks, i, parts)) + Weight(g, tasks[i]) == Total(g, tasks) + Total(g, parts)
  {
    assert tasks == tasks[..i] + ([tasks[i]] + tasks[i + 1..]);
    TotalConcat(g, tasks[..i], [tasks[i]] + tasks[i + 1..]);
    TotalConcat(g, [tasks[i]], tasks[i + 1..]);
    TotalConcat(g, tasks[..i] + parts, tasks[i + 1..]);
    TotalConcat(g, tasks[..i], parts);
    assert [tasks[i]][1..] == [];
  }

  lemma {:induction false} TotalOne(g: Gauge, t: Task)
    ensures Total(g, [t]) == Weight(g, t)
  {
    assert [t][1..] == [];
  }

  lemma {:induction false} TotalTwo(g: Gauge, t1: Task, t2: Task)
    ensures Total(g, [t1, t2]) == Weight(g, t1) + Weight(g, t2)
  {
    assert [t1, t2][1..] == [t2];
    TotalOne(g, t2);
  }

  lemma {:induction false} TotalAtLeast(g: Gauge, tasks: seq<Task>, i: nat)
    requires i < |tasks|
    ensures Total(g, tasks) >= Weight(g, tasks[i])
  {
    TotalReplace(g, tasks, i, []);
  }

  function QueueOwners(queue: seq<SyncItem>, b: nat): nat {
    if queue == [] then 0 else Covers(queue[0].startBlock, queue[0].endBlock, b) + QueueOwners(queue[1..], b)
  }

  lemma {:induction false} QueueOwnersSnoc(queue: seq<SyncItem>, item: SyncItem, b: nat)
    ensures QueueOwners(queue + [item], b) == QueueOwners(queue, b) + Covers(item.startBlock, item.endBlock, b)
  {
    if queue == [] {
      assert queue + [item] == [item];
      assert [item][1..] == [];
    } else {
      assert (queue + [item])[1..] == queue[1..] + [item];
      QueueOwnersSnoc(queue[1..], item, b);
    }
  }

  // ---------- The database ----------

  /** The records of the blocks from `a` up to, not including, `b`: what a sequential scan finds. */
  function Scan(cfg: Config, a: nat, b: nat): seq<Record> {
    if b <= a then [] else Scan(cfg, a, b - 1) + BlockSpec(cfg.lib, cfg.chain, b - 1)
  }

  function StartOf(runs: seq<Run>): nat {
    if runs == [] then 0 else runs[0].from
  }

  function EndOf(runs: seq<Run>): nat {
    if runs == [] then 0 else runs[|runs| - 1].upto
  }

  /** Each process writes the scan of its blocks from key 0 on, over what is there. */
  function Written(cfg: Config, runs: seq<Run>): Bucket {
    if runs == [] then map[] else
    var n := |runs| - 1;
    PutFrom(Written(cfg, runs[..n]), 0, Scan(cfg, runs[n].from, runs[n].upto))
  }

  /** Each process continues where the one before it stopped. */
  predicate Contiguous(runs: seq<Run>) {
    && (forall i :: 0 <= i < |runs| ==> runs[i].from <= runs[i].upto)
    && (forall i :: 0 < i < |runs| ==> runs[i].from == runs[i - 1].upto)
  }

  function LastEntry(runs: seq<Run>): Option<Key> {
    if StartOf(runs) == EndOf(runs) then None else
    if EndOf(runs) == 0 then None else Some(IntToBytes(EndOf(runs) - 1))
  }

  /** The histories agree with each other and with the mode. */
  ghost predicate HistoryOk(mode: Option<Mode>, runs: seq<Run>, committed: seq<nat>) {
    && (mode == Some(ModeFull) || mode == Some(ModeRange))
    && (mode == Some(ModeFull) ==> StartOf(runs) == 0)
    && (mode == Some(ModeRange) ==> |runs| <= 1)
    && Contiguous(runs)
    && committed == Interval(StartOf(runs), EndOf(runs))
    && EndOf(runs) <= MAX_HEIGHT
  }

  ghost predicate DbOk(cfg: Config, db: Db, runs: seq<Run>, committed: seq<nat>) {
    && db.Open()
    && (cfg.logOrder ==> db.data.value == Written(cfg, runs))
    && db.admin.value.last == LastEntry(runs)
    && HistoryOk(db.admin.value.mode, runs, committed)
  }

  /** No process has ever opened the database. */
  ghost predicate Untouched(w: World) {
    w == INITIAL
  }

  // ---------- The process ----------

  /** With replies in log order, the index counts the records of the scan. */
  ghost predicate Counted(cfg: Config, p: Proc, u: nat, index: nat) {
    cfg.logOrder ==> index == |Scan(cfg, p.start, u)|
  }

  /** The frontier u of the database against the counters, at each point of save. */
  ghost predicate Counters(cfg: Config, p: Proc, u: nat) {
    p.start <= u &&
    if !p.started then
      u == p.start && p.currBlock == p.currIndex == 0 && p.buffer == map[] && p.sync.Idle?
    else
      match p.sync
      case Idle => p.currBlock == u && Counted(cfg, p, u, p.currIndex)
      case Committed(block, index) => p.start <= p.currBlock < u == block && Counted(cfg, p, u, index)
      case Published(from, index) => p.start <= from < u == p.currBlock && Counted(cfg, p, u, index)
  }

  /** The first block that may still be in the buffer. */
  function Low(p: Proc): nat {
    if p.sync.Published? then p.sync.from else p.currBlock
  }

  ghost predicate BufferOk(cfg: Config, buffer: Sync.Buffer, low: nat) {
    forall b :: b in buffer ==> b >= low && (cfg.logOrder ==> buffer[b] == BlockSpec(cfg.lib, cfg.chain, b))
  }

  ghost predicate ItemOk(cfg: Config, item: SyncItem) {
    cfg.logOrder ==> forall b :: item.Covers(b) ==> item.At(b) == BlockSpec(cfg.lib, cfg.chain, b)
  }

  /** With replies in log order, every fetch that succeeds yields the specified records. */
  ghost predicate Faithful(cfg: Config) {
    forall lo, hi, logs, batch ::
      MayReply(cfg, lo, hi, logs, batch) && Answers(logs, batch) && FetchResult(cfg, logs, batch).Ok?
      ==> ItemOk(cfg, SyncItem(lo, hi, FetchResult(cfg, logs, batch).value))
  }

  ghost predicate QueueOk(cfg: Config, queue: seq<SyncItem>) {
    forall i :: 0 <= i < |queue| ==> ItemOk(cfg, queue[i])
  }

  ghost predicate TasksOk(cfg: Config, tasks: seq<Task>) {
    forall i :: 0 <= i < |tasks| && tasks[i].Sending? ==> ItemOk(cfg, tasks[i].item)
  }

  /** Saved, buffered, queued, or with a task: how often block b is accounted for. */
  function Owners(p: Proc, u: nat, b: nat): nat {
    (if p.start <= b < u then 1 else 0)
    + (if b in p.buffer && b >= u then 1 else 0)
    + QueueOwners(p.queue, b)
    + Total(OwnersOf(b), p.tasks)
  }

  /** Every block of the process's range is in exactly one place, and no other block anywhere. */
  ghost predicate Conserved(p: Proc, u: nat) {
    forall b: nat :: Owners(p, u, b) == Covers(p.start, p.currEnd, b)
  }

  ghost predicate OrchOk(full: bool, p: Proc, u: nat) {
    && (p.orch.Off? <==> !full)
    && (p.orch.Asking? ==> p.started && p.orch.seen == p.currBlock == u && u > p.currEnd)
  }

  ghost predicate ProcOk(cfg: Config, full: bool, u: nat, p: Proc) {
    && p.start <= MAX_HEIGHT && p.currEnd < MAX_HEIGHT
    && p.permits + Total(InUse, p.tasks) == cfg.concurrency
    && |p.queue| <= CAPACITY
    && Counters(cfg, p, u)
    && BufferOk(cfg, p.buffer, Low(p))
    && QueueOk(cfg, p.queue) && TasksOk(cfg, p.tasks)
    && Conserved(p, u)
    && OrchOk(full, p, u)
  }

  ghost predicate Inv(cfg: Config, w: World) {
    || Untouched(w)
    || (&& DbOk(cfg, w.db, w.runs, w.committed)
        && (w.proc.Some? ==>
              && w.runs != [] && w.runs[|w.runs| - 1].from == w.proc.value.start
              && ProcOk(cfg, w.db.admin.value.mode == Some(ModeFull), EndOf(w.runs), w.proc.value)))
  }

  // ---------- Steps inside the process ----------

  lemma {:induction false} StartKeeps(cfg: Config, full: bool, u: nat, p: Proc)
    requires ProcOk(cfg, full, u, p) && !p.started
    ensures ProcOk(cfg, full, u, ProcStep(p, StartSync))
  {
    var p' := ProcStep(p, StartSync);
    assert Scan(cfg, p.start, u) == [];
    forall b: nat ensures Owners(p', u, b) == Owners(p, u, b) {}
  }

  lemma {:induction false} TasksOkReplace(cfg: Config, tasks: seq<Task>, i: nat, parts: seq<Task>)
    requires TasksOk(cfg, tasks) && i < |tasks| && TasksOk(cfg, parts)
    ensures TasksOk(cfg, Replace(tasks, i, parts))
  {
    var all := Replace(tasks, i, parts);
    forall k | 0 <= k < |all| && all[k].Sending? ensures ItemOk(cfg, all[k].item) {
      if k < i {
        assert all[k] == tasks[k];
      } else if k < i + |parts| {
        assert all[k] == parts[k - i];
      } else {
        assert all[k] == tasks[k - |parts| + 1];
      }
    }
  }

  /** Replacing a task by others that own the same blocks and, with the permits, the same share. */
  lemma {:induction false} ReplaceKeeps(
      cfg: Config, full: bool, u: nat, p: Proc, i: nat, parts: seq<Task>, permits: nat)
    requires ProcOk(cfg, full, u, p) && i < |p.tasks| && TasksOk(cfg, parts)
    requires forall b: nat :: Total(OwnersOf(b), parts) == Weight(OwnersOf(b), p.tasks[i])
    requires permits + Total(InUse, parts) == p.permits + Weight(InUse, p.tasks[i])
    ensures ProcOk(cfg, full, u, p.(permits := permits, tasks := Replace(p.tasks, i, parts)))
  {
    var p' := p.(permits := permits, tasks := Replace(p.tasks, i, parts));
    TotalReplace(InUse, p.tasks, i, parts);
    TasksOkReplace(cfg, p.tasks, i, parts);
    forall b: nat ensures Owners(p', u, b) == Owners(p, u, b) {
      TotalReplace(OwnersOf(b), p.tasks, i, parts);
    }
  }

  lemma {:induction false} AcquireKeeps(cfg: Config, full: bool, u: nat, p: Proc, i: nat)
    requires ProcOk(cfg, full, u, p) && Internal(p, Acquire(i))
    ensures ProcOk(cfg, full, u, ProcStep(p, Acquire(i)))
  {
    var task := Fetching(p.tasks[i].lo, p.tasks[i].hi);
    forall b: nat ensures Total(OwnersOf(b), [task]) == Weight(OwnersOf(b), p.tasks[i]) {
      TotalOne(OwnersOf(b), task);
    }
    TotalOne(InUse, task);
    ReplaceKeeps(cfg, full, u, p, i, [task], p.permits - 1);
  }

  lemma {:induction false} FetchKeeps(
      cfg: Config, full: bool, u: nat, p: Proc, i: nat, r: Result<map<nat, seq<Record>>, FetchError>)
    requires ProcOk(cfg, full, u, p) && i < |p.tasks| && p.tasks[i].Fetching?
    requires r.Ok? ==> ItemOk(cfg, SyncItem(p.tasks[i].lo, p.tasks[i].hi, r.value))
    ensures AfterFetch(p, i, r).Some? ==> ProcOk(cfg, full, u, AfterFetch(p, i, r).value)
    ensures AfterFetch(p, i, r).Some? ==> AfterFetch(p, i, r).value.start == p.start
  {
    var lo, hi := p.tasks[i].lo, p.tasks[i].hi;
    match NextOf(lo, hi, r)
    case Send(item) =>
      assert AfterFetch(p, i, r)
          == Some(p.(permits := p.permits + 1, tasks := Replace(p.tasks, i, [Sending(item)])));
      SentKeeps(cfg, full, u, p, i, item);
    case Split(_, _) =>
      assert AfterFetch(p, i, r)
          == Some(p.(permits := p.permits + 1,
                     tasks := Replace(p.tasks, i, [Waiting(lo, Mid(lo, hi)), Waiting(Mid(lo, hi) + 1, hi)])));
      SplitKeeps(cfg, full, u, p, i);
    case Panic =>
  }

  lemma {:induction false} SentKeeps(cfg: Config, full: bool, u: nat, p: Proc, i: nat, item: SyncItem)
    requires ProcOk(cfg, full, u, p) && i < |p.tasks| && p.tasks[i].Fetching?
    requires item.startBlock == p.tasks[i].lo && item.endBlock == p.tasks[i].hi && ItemOk(cfg, item)
    ensures ProcOk(cfg, full, u, p.(permits := p.permits + 1, tasks := Replace(p.tasks, i, [Sending(item)])))
  {
    forall b: nat ensures Total(OwnersOf(b), [Sending(item)]) == Weight(OwnersOf(b), p.tasks[i]) {
      TotalOne(OwnersOf(b), Sending(item));
    }
    TotalOne(InUse, Sending(item));
    ReplaceKeeps(cfg, full, u, p, i, [Sending(item)], p.permits + 1);
  }

  lemma {:induction false} SplitKeeps(cfg: Config, full: bool, u: nat, p: Proc, i: nat)
    requires ProcOk(cfg, full, u, p) && i < |p.tasks| && p.tasks[i].Fetching?
    ensures var lo, hi := p.tasks[i].lo, p.tasks[i].hi;
            var halves := [Waiting(lo, Mid(lo, hi)), Waiting(Mid(lo, hi) + 1, hi)];
            ProcOk(cfg, full, u, p.(permits := p.permits + 1, tasks := Replace(p.tasks, i, halves)))
  {
    var lo, hi := p.tasks[i].lo, p.tasks[i].hi;
    var left, right := Waiting(lo, Mid(lo, hi)), Waiting(Mid(lo, hi) + 1, hi);
    forall b: nat ensures Total(OwnersOf(b), [left, right]) == Weight(OwnersOf(b), p.tasks[i]) {
      TotalTwo(OwnersOf(b), left, right);
      SplitPartitions(lo, hi, b);
    }
    TotalTwo(InUse, left, right);
    ReplaceKeeps(cfg, full, u, p, i, [left, right], p.permits + 1);
  }

  lemma {:induction false} ValidIsFaithful(cfg: Config)
    requires Valid(cfg.chain)
    ensures Faithful(cfg)
  {
    forall lo, hi, logs, batch |
      MayReply(cfg, lo, hi, logs, batch) && Answers(logs, batch) && FetchResult(cfg, logs, batch).Ok?
      ensures ItemOk(cfg, SyncItem(lo, hi, FetchResult(cfg, logs, batch).value))
    {
      if cfg.logOrder {
        FetchMeetsSpec(cfg.lib, cfg.chain, lo, hi, logs, batch);
      }
    }
  }

  lemma {:induction false} SendKeeps(cfg: Config, full: bool, u: nat, p: Proc, i: nat)
    requires ProcOk(cfg, full, u, p) && Internal(p, SendItem(i)) && |p.queue| < CAPACITY
    ensures ProcOk(cfg, full, u, ProcStep(p, SendItem(i)))
  {
    var p' := ProcStep(p, SendItem(i));
    var item := p.tasks[i].item;
    TotalReplace(InUse, p.tasks, i, []);
    TasksOkReplace(cfg, p.tasks, i, []);
    forall b: nat ensures Owners(p', u, b) == Owners(p, u, b) {
      SendOwners(p, u, i, b);
    }
  }

  lemma {:induction false} SendOwners(p: Proc, u: nat, i: nat, b: nat)
    requires Internal(p, SendItem(i))
    ensures Owners(ProcStep(p, SendItem(i)), u, b) == Owners(p, u, b)
  {
    TotalReplace(OwnersOf(b), p.tasks, i, []);
    QueueOwnersSnoc(p.queue, p.tasks[i].item, b);
  }

  lemma {:induction false} ReceiveOwners(p: Proc, u: nat, b: nat)
    requires p.queue != [] && p.start <= u && Owners(p, u, b) == Covers(p.start, p.currEnd, b)
    ensures p.queue[0].Covers(b) ==> b >= u
    ensures Owners(ProcStep(p, Receive), u, b) == Owners(p, u, b)
  {
    assert b in Sync.Blocks(p.queue[0]) <==> p.queue[0].Covers(b);
  }

  lemma {:induction false} ReceiveConserved(p: Proc, u: nat)
    requires p.queue != [] && p.start <= u && Conserved(p, u)
    ensures Conserved(ProcStep(p, Receive), u)
    ensures forall b: nat :: p.queue[0].Covers(b) ==> b >= u
  {
    forall b: nat
      ensures Owners(ProcStep(p, Receive), u, b) == Covers(p.start, p.currEnd, b)
      ensures p.queue[0].Covers(b) ==> b >= u
    {
      assert Owners(p, u, b) == Covers(p.start, p.currEnd, b);
      ReceiveOwners(p, u, b);
    }
  }

  lemma {:induction false} ReceiveBuffer(cfg: Config, p: Proc, u: nat)
    requires p.queue != [] && BufferOk(cfg, p.buffer, u) && ItemOk(cfg, p.queue[0])
    requires forall b: nat :: p.queue[0].Covers(b) ==> b >= u
    ensures BufferOk(cfg, ProcStep(p, Receive).buffer, u)
  {
    var item := p.queue[0];
    forall b | b in p.buffer + Sync.Blocks(item)
      ensures b >= u
      ensures cfg.logOrder ==> (p.buffer + Sync.Blocks(item))[b] == BlockSpec(cfg.lib, cfg.chain, b)
    {
      assert b in Sync.Blocks(item) <==> item.Covers(b);
    }
  }

  lemma {:induction false} ReceiveKeeps(cfg: Config, full: bool, u: nat, p: Proc)
    requires ProcOk(cfg, full, u, p) && p.started && p.sync.Idle? && p.queue != []
    ensures ProcOk(cfg, full, u, ProcStep(p, Receive))
  {
    ReceiveConserved(p, u);
    assert ItemOk(cfg, p.queue[0]);
    ReceiveBuffer(cfg, p, u);
  }

  lemma {:induction false} PublishKeeps(cfg: Config, full: bool, u: nat, p: Proc)
    requires ProcOk(cfg, full, u, p) && p.sync.Committed?
    ensures ProcOk(cfg, full, u, ProcStep(p, Publish))
  {
    var p' := ProcStep(p, Publish);
    forall b: nat ensures Owners(p', u, b) == Owners(p, u, b) {}
  }

  lemma {:induction false} CleanKeeps(cfg: Config, full: bool, u: nat, p: Proc)
    requires ProcOk(cfg, full, u, p) && p.sync.Published?
    ensures ProcOk(cfg, full, u, ProcStep(p, Clean))
  {
    var p' := ProcStep(p, Clean);
    forall b: nat ensures Owners(p', u, b) == Owners(p, u, b) {}
  }

  lemma {:induction false} TickKeeps(cfg: Config, full: bool, u: nat, p: Proc)
    requires ProcOk(cfg, full, u, p) && p.orch.Resting?
    ensures ProcOk(cfg, full, u, ProcStep(p, Tick))
  {
    var p' := ProcStep(p, Tick);
    forall b: nat ensures Owners(p', u, b) == Owners(p, u, b) {}
    if p.currBlock > p.currEnd {
      FrontierBound(p, u);
    }
  }

  /** Nothing beyond the requested end is ever committed. */
  lemma {:induction false} FrontierBound(p: Proc, u: nat)
    requires Conserved(p, u) && p.start <= u
    ensures u == p.start || u <= p.currEnd + 1
  {
    if u > p.start {
      assert Owners(p, u, u - 1) == Covers(p.start, p.currEnd, u - 1);
    }
  }

  lemma {:induction false} TagKeeps(cfg: Config, full: bool, u: nat, p: Proc, reply: Option<nat>)
    requires ProcOk(cfg, full, u, p) && p.orch.Asking? && (reply.Some? ==> reply.value < MAX_HEIGHT)
    ensures ProcOk(cfg, full, u, ProcStep(p, Tag(reply)))
  {
    var p' := ProcStep(p, Tag(reply));
    var end := if reply.Some? then reply.value else 0;
    if u > end {
      forall b: nat ensures Owners(p', u, b) == Owners(p, u, b) {}
    } else {
      FrontierBound(p, u);
      TotalConcat(InUse, p.tasks, [Waiting(u, end)]);
      TotalOne(InUse, Waiting(u, end));
      forall b: nat ensures Owners(p', u, b) == Covers(p'.start, p'.currEnd, b) {
        TotalConcat(OwnersOf(b), p.tasks, [Waiting(u, end)]);
        TotalOne(OwnersOf(b), Waiting(u, end));
        assert Owners(p, u, b) == Covers(p.start, p.currEnd, b);
      }
    }
  }

  // ---------- The commit ----------

  lemma {:induction false} Associate(a: seq<Record>, b: seq<Record>, c: seq<Record>)
    ensures a + (b + c) == (a + b) + c
  {
  }

  lemma {:induction false} ScanSplit(cfg: Config, a: nat, b: nat, c: nat)
    requires a <= b <= c
    ensures Scan(cfg, a, c) == Scan(cfg, a, b) + Scan(cfg, b, c)
    decreases c - b
  {
    if b == c {
      assert Scan(cfg, a, b) + [] == Scan(cfg, a, b);
    } else {
      ScanSplit(cfg, a, b, c - 1);
      Associate(Scan(cfg, a, b), Scan(cfg, b, c - 1), BlockSpec(cfg.lib, cfg.chain, c - 1));
    }
  }

  lemma {:induction false} FlatIsScan(cfg: Config, buffer: Sync.Buffer, low: nat, a: nat, b: nat)
    requires cfg.logOrder && BufferOk(cfg, buffer, low) && a <= b && forall i :: a <= i < b ==> i in buffer
    ensures Sync.Flat(buffer, a, b) == Scan(cfg, a, b)
    decreases b - a
  {
    if a < b {
      FlatIsScan(cfg, buffer, low, a, b - 1);
    }
  }

  lemma {:induction false} IntervalSplit(a: nat, b: nat, c: nat)
    requires a <= b <= c
    ensures Interval(a, c) == Interval(a, b) + Interval(b, c)
    decreases c - b
  {
    if b == c {
      assert Interval(a, b) + [] == Interval(a, b);
    } else {
      IntervalSplit(a, b, c - 1);
      assert Interval(a, b) + Interval(b, c) == (Interval(a, b) + Interval(b, c - 1)) + [c - 1];
    }
  }

  /** Extending the last process's blocks extends what is written. */
  lemma {:induction false} WrittenExtends(cfg: Config, runs: seq<Run>, f: nat)
    requires runs != [] && Contiguous(runs) && EndOf(runs) <= f
    ensures var n := |runs| - 1;
            Written(cfg, runs[n := runs[n].(upto := f)])
            == PutFrom(Written(cfg, runs), |Scan(cfg, runs[n].from, runs[n].upto)|, Scan(cfg, runs[n].upto, f))
  {
    var n := |runs| - 1;
    var from, u := runs[n].from, runs[n].upto;
    LastWritten(cfg, runs[n := runs[n].(upto := f)], runs[..n], Run(from, f));
    LastWritten(cfg, runs, runs[..n], runs[n]);
    ScanSplit(cfg, from, u, f);
    PutFromConcat(Written(cfg, runs[..n]), 0, Scan(cfg, from, u), Scan(cfg, u, f));
  }

  lemma {:induction false} LastWritten(cfg: Config, runs: seq<Run>, before: seq<Run>, last: Run)
    requires runs == before + [last]
    ensures Written(cfg, runs) == PutFrom(Written(cfg, before), 0, Scan(cfg, last.from, last.upto))
  {
    assert runs[..|before|] == before;
  }

  lemma {:induction false} CommitProcKeeps(cfg: Config, full: bool, u: nat, p: Proc)
    requires ProcOk(cfg, full, u, p) && p.started && p.sync.Idle? && p.currBlock in p.buffer
    ensures var f := Sync.Frontier(p.buffer, u);
            var records := Sync.Flat(p.buffer, u, f);
            && (cfg.logOrder ==> records == Scan(cfg, u, f)) && u < f <= MAX_HEIGHT
            && ProcOk(cfg, full, f, p.(sync := Committed(f, p.currIndex + |records|)))
  {
    var f := Sync.Frontier(p.buffer, u);
    if cfg.logOrder {
      FlatIsScan(cfg, p.buffer, u, u, f);
      ScanSplit(cfg, p.start, u, f);
    }
    var p' := p.(sync := Committed(f, p.currIndex + |Sync.Flat(p.buffer, u, f)|));
    assert f - 1 in p.buffer;
    assert Owners(p, u, f - 1) == Covers(p.start, p.currEnd, f - 1);
    assert Owners(p, u, u) == Covers(p.start, p.currEnd, u);
    forall b: nat ensures Owners(p', f, b) == Owners(p, u, b) {
      assert u <= b < f ==> b in p.buffer;
    }
  }

  lemma {:induction false} CommitHistory(mode: Option<Mode>, runs: seq<Run>, committed: seq<nat>, f: nat)
    requires HistoryOk(mode, runs, committed) && runs != [] && EndOf(runs) < f <= MAX_HEIGHT
    ensures var n := |runs| - 1;
            var runs' := runs[n := runs[n].(upto := f)];
            && HistoryOk(mode, runs', committed + Interval(EndOf(runs), f))
            && EndOf(runs') == f && StartOf(runs') == StartOf(runs) && StartOf(runs) < f
  {
    StartBeforeEnd(runs);
    IntervalSplit(StartOf(runs), EndOf(runs), f);
  }

  lemma {:induction false} CommitBucket(cfg: Config, db: Db, runs: seq<Run>, index: nat, records: seq<Record>, f: nat)
    requires db.Open() && db.data.value == Written(cfg, runs)
    requires runs != [] && Contiguous(runs) && EndOf(runs) <= f
    requires records == Scan(cfg, EndOf(runs), f) && index == |Scan(cfg, runs[|runs| - 1].from, EndOf(runs))|
    ensures var n := |runs| - 1;
            PutFrom(db.data.value, index, records) == Written(cfg, runs[n := runs[n].(upto := f)])
  {
    WrittenExtends(cfg, runs, f);
  }

  /** The histories and the database after a commit of the blocks from the frontier up to f. */
  lemma {:induction false} CommitDbKeeps(
      cfg: Config, db: Db, runs: seq<Run>, committed: seq<nat>, index: nat, records: seq<Record>, f: nat)
    requires DbOk(cfg, db, runs, committed) && runs != []
    requires EndOf(runs) < f <= MAX_HEIGHT && (cfg.logOrder ==> records == Scan(cfg, EndOf(runs), f))
    requires cfg.logOrder ==> index == |Scan(cfg, runs[|runs| - 1].from, EndOf(runs))|
    ensures var n := |runs| - 1;
            DbOk(cfg, db.Save(Numbered(index, records), f - 1), runs[n := runs[n].(upto := f)],
                 committed + Interval(EndOf(runs), f))
  {
    var n := |runs| - 1;
    CommitHistory(db.admin.value.mode, runs, committed, f);
    if cfg.logOrder {
      CommitBucket(cfg, db, runs, index, records, f);
    }
    DbAssembles(
      cfg, db, runs[n := runs[n].(upto := f)], committed + Interval(EndOf(runs), f), index, records, f);
  }

  lemma {:induction false} DbAssembles(
      cfg: Config, db: Db, runs: seq<Run>, committed: seq<nat>, index: nat, records: seq<Record>, f: nat)
    requires db.Open() && (cfg.logOrder ==> PutFrom(db.data.value, index, records) == Written(cfg, runs))
    requires StartOf(runs) < EndOf(runs) == f && HistoryOk(db.admin.value.mode, runs, committed)
    ensures DbOk(cfg, db.Save(Numbered(index, records), f - 1), runs, committed)
  {
    SaveParts(db, index, records, f - 1);
  }

  lemma {:induction false} SaveParts(db: Db, index: nat, records: seq<Record>, last: nat)
    requires db.Open()
    ensures var db' := db.Save(Numbered(index, records), last);
            && db'.Open() && db'.data.value == PutFrom(db.data.value, index, records)
            && db'.admin.value.mode == db.admin.value.mode && db'.admin.value.last == Some(IntToBytes(last))
  {
  }

  lemma {:induction false} CommitKeeps(cfg: Config, w: World, p: Proc)
    requires Inv(cfg, w) && w.proc == Some(p)
    requires p.started && p.sync.Idle? && p.currBlock in p.buffer
    ensures w.db.Open() && w.runs != [] && Inv(cfg, AfterCommit(w, p))
  {
    var u := EndOf(w.runs);
    CommitProcKeeps(cfg, w.db.admin.value.mode == Some(ModeFull), u, p);
    var f := Sync.Frontier(p.buffer, p.currBlock);
    var records := Sync.Flat(p.buffer, p.currBlock, f);
    CommitDbKeeps(cfg, w.db, w.runs, w.committed, p.currIndex, records, f);
    CommitAssembles(cfg, w, p, f, records);
  }

  lemma {:induction false} CommitAssembles(cfg: Config, w: World, p: Proc, f: nat, records: seq<Record>)
    requires w.db.Open() && w.runs != [] && w.runs[|w.runs| - 1].from == p.start
    requires p.currBlock in p.buffer && p.currBlock == EndOf(w.runs)
    requires f == Sync.Frontier(p.buffer, p.currBlock) && records == Sync.Flat(p.buffer, p.currBlock, f)
    requires ProcOk(cfg, w.db.admin.value.mode == Some(ModeFull), f, p.(sync := Committed(f, p.currIndex + |records|)))
    requires var n := |w.runs| - 1;
             DbOk(cfg, w.db.Save(Numbered(p.currIndex, records), f - 1), w.runs[n := w.runs[n].(upto := f)],
                  w.committed + Interval(p.currBlock, f))
    ensures Inv(cfg, AfterCommit(w, p))
  {
    var after := AfterCommit(w, p);
    assert after.proc == Some(p.(sync := Committed(f, p.currIndex + |records|)));
    assert EndOf(after.runs) == f;
    assert after.db.admin.value.mode == w.db.admin.value.mode;
  }

  lemma {:induction false} StartBeforeEnd(runs: seq<Run>)
    requires Contiguous(runs)
    ensures StartOf(runs) <= EndOf(runs)
  {
    if |runs| > 1 {
      var n := |runs| - 1;
      assert Contiguous(runs[..n]);
      StartBeforeEnd(runs[..n]);
      assert runs[n].from == runs[n - 1].upto;
    }
  }

  // ---------- Starting and stopping ----------

  function KeptRuns(w: World, mode: Mode): seq<Run> {
    if w.db.Wipes(mode) then [] else w.runs
  }

  function KeptBlocks(w: World, mode: Mode): seq<nat> {
    if w.db.Wipes(mode) then [] else w.committed
  }

  lemma {:induction false} EmptyHistory(cfg: Config, mode: Mode)
    ensures DbOk(cfg, Db(Some(map[]), Some(Admin(Some(mode), None))), [], [])
  {
    assert StartOf([]) == EndOf([]) == 0;
  }

  /** StartDB leaves the database and the histories in agreement, whether or not it empties them. */
  lemma {:induction false} StartDbKeeps(cfg: Config, w: World, mode: Mode)
    requires Inv(cfg, w) && w.proc.None?
    ensures DbOk(cfg, w.db.Start(mode), KeptRuns(w, mode), KeptBlocks(w, mode))
  {
    if Untouched(w) || w.db.Wipes(mode) {
      EmptyHistory(cfg, mode);
      assert w.db.Start(mode) == Db(Some(map[]), Some(Admin(Some(mode), None)));
    } else {
      assert w.db.admin.value.mode == Some(ModeFull) && mode.ModeFull?;
      assert w.db.Start(mode) == w.db;
    }
  }

  lemma {:induction false} NextBlock(cfg: Config, db: Db, runs: seq<Run>, committed: seq<nat>)
    requires DbOk(cfg, db, runs, committed) && db.admin.value.mode == Some(ModeFull)
    ensures db.LastBlock() == EndOf(runs) - 1
  {
    StartBeforeEnd(runs);
    if EndOf(runs) > 0 {
      RoundTrip(EndOf(runs) - 1);
    }
  }

  /** In full mode the next process starts right after the last committed block. */
  lemma {:induction false} FullStartIsNext(cfg: Config, w: World)
    requires Inv(cfg, w) && w.proc.None?
    ensures FullStart(w) == EndOf(KeptRuns(w, ModeFull)) <= MAX_HEIGHT
  {
    StartDbKeeps(cfg, w, ModeFull);
    NextBlock(cfg, w.db.Start(ModeFull), KeptRuns(w, ModeFull), KeptBlocks(w, ModeFull));
  }

  lemma {:induction false} FreshProcOk(cfg: Config, full: bool, start: nat, end: nat)
    requires start <= MAX_HEIGHT && end < MAX_HEIGHT
    ensures var p := Proc(start, end, false, 0, 0, map[], [], [Waiting(start, end)], cfg.concurrency, Idle,
                          if full then Resting else Off);
            ProcOk(cfg, full, start, p)
  {
    var p := Proc(start, end, false, 0, 0, map[], [], [Waiting(start, end)], cfg.concurrency, Idle,
                  if full then Resting else Off);
    TotalOne(InUse, Waiting(start, end));
    forall b: nat ensures Owners(p, start, b) == Covers(start, end, b) {
      TotalOne(OwnersOf(b), Waiting(start, end));
    }
  }

  /** A process that has committed nothing yet changes nothing in the database. */
  lemma {:induction false} RunAdded(cfg: Config, db: Db, runs: seq<Run>, committed: seq<nat>, start: nat)
    requires DbOk(cfg, db, runs, committed) && start <= MAX_HEIGHT
    requires db.admin.value.mode == Some(ModeFull) ==> start == EndOf(runs)
    requires db.admin.value.mode == Some(ModeRange) ==> runs == []
    ensures DbOk(cfg, db, runs + [Run(start, start)], committed)
    ensures EndOf(runs + [Run(start, start)]) == start
  {
    var more := runs + [Run(start, start)];
    assert more[..|runs|] == runs;
    assert Scan(cfg, start, start) == [];
    assert Numbered(0, Scan(cfg, start, start)) == [];
    assert Written(cfg, more) == Written(cfg, runs);
    if runs == [] {
      assert StartOf(more) == EndOf(more) == start && StartOf(runs) == EndOf(runs) == 0;
      assert Interval(start, start) == Interval(0, 0) == [];
    } else {
      assert StartOf(more) == StartOf(runs) && EndOf(more) == EndOf(runs);
    }
  }

  lemma {:induction false} BootKeeps(cfg: Config, w: World, mode: Mode, start: nat, end: nat)
    requires Inv(cfg, w) && w.proc.None?
    requires start <= MAX_HEIGHT && end < MAX_HEIGHT
    requires mode.ModeFull? ==> start == FullStart(w)
    ensures Inv(cfg, Boot(cfg, w, mode, start, end))
  {
    StartDbKeeps(cfg, w, mode);
    FreshProcOk(cfg, mode.ModeFull?, start, end);
    if mode.ModeFull? {
      FullStartIsNext(cfg, w);
    }
    RunAdded(cfg, w.db.Start(mode), KeptRuns(w, mode), KeptBlocks(w, mode), start);
  }

  lemma {:induction false} BootFailsKeeps(cfg: Config, w: World)
    requires Inv(cfg, w) && w.proc.None?
    ensures Inv(cfg, Apply(cfg, w, BootFails))
  {
    StartDbKeeps(cfg, w, ModeFull);
  }

  // ---------- Every step ----------

  lemma {:induction false} InternalKeeps(cfg: Config, w: World, p': Proc)
    requires Inv(cfg, w) && w.proc.Some? && w.db.Open() && p'.start == w.proc.value.start
    requires ProcOk(cfg, w.db.admin.value.mode == Some(ModeFull), EndOf(w.runs), p')
    ensures Inv(cfg, w.(proc := Some(p')))
  {
  }

  /** The steps that change nothing outside the process, in the states that allow them. */
  predicate Ready(p: Proc, l: Label) {
    && Internal(p, l)
    && match l
       case StartSync => !p.started
       case SendItem(_) => |p.queue| < CAPACITY
       case Receive => p.started && p.sync.Idle?
       case Tick => p.orch.Resting?
       case Tag(reply) => reply.Some? ==> reply.value < MAX_HEIGHT
       case _ => l.Acquire? || l.CommitFails? || l.Publish? || l.Clean?
  }

  lemma {:induction false} ProcStepOk(cfg: Config, full: bool, u: nat, p: Proc, l: Label)
    requires ProcOk(cfg, full, u, p) && Ready(p, l)
    ensures ProcOk(cfg, full, u, ProcStep(p, l)) && ProcStep(p, l).start == p.start
  {
    match l {
      case StartSync => StartKeeps(cfg, full, u, p);
      case Acquire(i) => AcquireKeeps(cfg, full, u, p, i);
      case SendItem(i) => SendKeeps(cfg, full, u, p, i);
      case Receive => ReceiveKeeps(cfg, full, u, p);
      case Publish => PublishKeeps(cfg, full, u, p);
      case Clean => CleanKeeps(cfg, full, u, p);
      case Tick => TickKeeps(cfg, full, u, p);
      case Tag(reply) => TagKeeps(cfg, full, u, p, reply);
      case CommitFails =>
    }
  }

  predicate OfProcess(l: Label) {
    || l.StartSync? || l.Acquire? || l.SendItem? || l.Receive? || l.CommitFails?
    || l.Publish? || l.Clean? || l.Tick? || l.Tag?
  }

  lemma {:induction false} ProcStepApplies(cfg: Config, w: World, l: Label)
    requires Enabled(cfg, w, l) && OfProcess(l)
    ensures w.proc.Some? && w.db.Open() && Ready(w.proc.value, l)
    ensures Apply(cfg, w, l) == w.(proc := Some(ProcStep(w.proc.value, l)))
  {
  }

  lemma {:induction false} ProcStepKeeps(cfg: Config, w: World, l: Label)
    requires Inv(cfg, w) && Enabled(cfg, w, l) && OfProcess(l)
    ensures Inv(cfg, Apply(cfg, w, l))
  {
    ProcStepApplies(cfg, w, l);
    InternalStep(cfg, w, l);
  }

  lemma {:induction false} InternalStep(cfg: Config, w: World, l: Label)
    requires Inv(cfg, w) && w.proc.Some? && w.db.Open() && Ready(w.proc.value, l)
    ensures Inv(cfg, w.(proc := Some(ProcStep(w.proc.value, l))))
  {
    ProcStepOk(cfg, w.db.admin.value.mode == Some(ModeFull), EndOf(w.runs), w.proc.value, l);
    InternalKeeps(cfg, w, ProcStep(w.proc.value, l));
  }

  /** Every enabled step, of whatever kind, keeps the invariant. */
  lemma {:induction false} StepKeeps(cfg: Config, w: World, l: Label)
    requires Faithful(cfg) && Inv(cfg, w) && Enabled(cfg, w, l)
    ensures Inv(cfg, Apply(cfg, w, l))
  {
    match l
    case BootRange(lo, hi) => BootKeeps(cfg, w, ModeRange, lo, hi);
    case BootFull(tag) =>
      FullStartIsNext(cfg, w);
      BootKeeps(cfg, w, ModeFull, FullStart(w), tag);
    case BootFails => BootFailsKeeps(cfg, w);
    case Commit => CommitKeeps(cfg, w, w.proc.value);
    case FetchDone(i, logs, batch) =>
      var r := FetchResult(cfg, logs, batch);
      FetchKeeps(cfg, w.db.admin.value.mode == Some(ModeFull), EndOf(w.runs), w.proc.value, i, r);
      var after := AfterFetch(w.proc.value, i, r);
      if after.Some? {
        InternalKeeps(cfg, w, after.value);
      }
    case Crash =>
    case _ => ProcStepKeeps(cfg, w, l);
  }

  lemma {:induction false} InitialInv(cfg: Config)
    ensures Inv(cfg, INITIAL)
  {
  }

  /** The invariant holds after every run of the whole system. */
  lemma {:induction false} RunKeeps(cfg: Config, w: World, ls: seq<Label>)
    requires Faithful(cfg) && Inv(cfg, w) && ValidRun(cfg, w, ls)
    ensures Inv(cfg, Exec(cfg, w, ls))
    decreases |ls|
  {
    if ls != [] {
      StepKeeps(cfg, w, ls[0]);
      RunKeeps(cfg, Apply(cfg, w, ls[0]), ls[1..]);
    }
  }

  lemma {:induction false} ReachableInv(cfg: Config, w: World)
    requires Valid(cfg.chain) && Reachable(cfg, w)
    ensures Inv(cfg, w)
  {
    var ls :| ValidRun(cfg, INITIAL, ls) && Exec(cfg, INITIAL, ls) == w;
    ValidIsFaithful(cfg);
    InitialInv(cfg);
    RunKeeps(cfg, INITIAL, ls);
  }
}
