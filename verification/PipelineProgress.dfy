/**
 Progress of the step system: while blocks of the requested range are not saved
 some step can be taken, every such step uses up a bounded amount of work, and
 when none is left the whole range is saved.
 */
module PipelineProgress {
  import opened Wrappers
  import opened Types
  import opened FetchJoin
  import opened ChainSpec
  import opened Fetcher
  import opened PlainReply
  import opened Pipeline
  import opened PipelineInvariant

  // ---------- Work ----------

  function Unsaved(p: Proc, u: nat): nat {
    if u <= p.currEnd then p.currEnd + 1 - u else 0
  }

  function SaveLeft(sync: SyncPc): nat {
    match sync
    case Idle => 0
    case Committed(_, _) => 2
    case Published(_, _) => 1
  }

  /** The steps that the process can still take before its range is saved. */
  function Left(p: Proc, u: nat): nat {
    (if p.started then 0 else 1) + Total(WorkLeft, p.tasks) + |p.queue| + 3 * Unsaved(p, u) + SaveLeft(p.sync)
  }

  function LeftIn(w: World): nat {
    if w.proc.None? then 0 else Left(w.proc.value, EndOf(w.runs))
  }

  /** The fetch does not take the process down: it sends its item, or it splits. */
  ghost predicate Survives(cfg: Config, t: Task, logs: Logs, batch: Batch)
    requires t.Fetching? && Answers(logs, batch)
  {
    !NextOf(t.lo, t.hi, FetchResult(cfg, logs, batch)).Panic?
  }

  /** Steps that move a request on, whatever a fetch answers as long as it is not given up. */
  ghost predicate Works(cfg: Config, w: World, l: Label) {
    w.proc.Some? && Enabled(cfg, w, l) &&
    match l
    case FetchDone(i, logs, batch) => Survives(cfg, w.proc.value.tasks[i], logs, batch)
    case _ => l.StartSync? || l.Acquire? || l.SendItem? || l.Receive? || l.Commit? || l.Publish? || l.Clean?
  }

  /** A request for at most one block, possibly for none, is too big: its halves are no smaller. */
  ghost predicate Respawns(cfg: Config, w: World, l: Label) {
    Works(cfg, w, l) && l.FetchDone? &&
    var t := w.proc.value.tasks[l.task];
    t.lo >= t.hi && NextOf(t.lo, t.hi, FetchResult(cfg, l.logs, l.batch)).Split?
  }

  /** Steps that move nothing: a failed commit, a tick, a tag that opens no cycle. */
  ghost predicate Idles(cfg: Config, w: World, l: Label) {
    w.proc.Some? && Enabled(cfg, w, l) &&
    match l
    case Tag(reply) => reply.None? || reply.value < w.proc.value.orch.seen
    case _ => l.CommitFails? || l.Tick?
  }

  // ---------- Every working step uses up work ----------

  lemma {:induction false} AcquireShrinks(p: Proc, u: nat, i: nat)
    requires Internal(p, Acquire(i))
    ensures Left(ProcStep(p, Acquire(i)), u) < Left(p, u)
    ensures Total(FetchesLeft, ProcStep(p, Acquire(i)).tasks) == Total(FetchesLeft, p.tasks)
  {
    var task := Fetching(p.tasks[i].lo, p.tasks[i].hi);
    TotalReplace(WorkLeft, p.tasks, i, [task]);
    TotalOne(WorkLeft, task);
    TotalReplace(FetchesLeft, p.tasks, i, [task]);
    TotalOne(FetchesLeft, task);
  }

  lemma {:induction false} SendShrinks(p: Proc, u: nat, i: nat)
    requires Internal(p, SendItem(i))
    ensures Left(ProcStep(p, SendItem(i)), u) < Left(p, u)
    ensures Total(FetchesLeft, ProcStep(p, SendItem(i)).tasks) == Total(FetchesLeft, p.tasks)
  {
    TotalReplace(WorkLeft, p.tasks, i, []);
    TotalReplace(FetchesLeft, p.tasks, i, []);
  }

  lemma {:induction false} HalvesAreLess(lo: nat, hi: nat)
    ensures var halves := RangeFetches(lo, Mid(lo, hi)) + RangeFetches(Mid(lo, hi) + 1, hi);
            halves == if lo < hi then RangeFetches(lo, hi) - 1 else RangeFetches(lo, hi) + 1
  {
    SplitPartitions(lo, hi, lo);
  }

  lemma {:induction false} SplitTotals(g: Gauge, p: Proc, i: nat)
    requires i < |p.tasks| && p.tasks[i].Fetching?
    ensures var lo, hi := p.tasks[i].lo, p.tasks[i].hi;
            var halves := [Waiting(lo, Mid(lo, hi)), Waiting(Mid(lo, hi) + 1, hi)];
            Total(g, Replace(p.tasks, i, halves)) + Weight(g, p.tasks[i])
            == Total(g, p.tasks) + Weight(g, halves[0]) + Weight(g, halves[1])
  {
    var lo, hi := p.tasks[i].lo, p.tasks[i].hi;
    var left, right := Waiting(lo, Mid(lo, hi)), Waiting(Mid(lo, hi) + 1, hi);
    TotalReplace(g, p.tasks, i, [left, right]);
    TotalTwo(g, left, right);
  }

  lemma {:induction false} SendTotals(g: Gauge, p: Proc, i: nat, item: SyncItem)
    requires i < |p.tasks|
    ensures Total(g, Replace(p.tasks, i, [Sending(item)])) + Weight(g, p.tasks[i])
         == Total(g, p.tasks) + Weight(g, Sending(item))
  {
    TotalReplace(g, p.tasks, i, [Sending(item)]);
    TotalOne(g, Sending(item));
  }

  /** What a fetch does to the work and to the fetches that are left. */
  ghost predicate FetchEffect(p: Proc, p': Proc, u: nat, respawns: bool) {
    && p'.start == p.start && p'.currEnd == p.currEnd
    && var was, now := Total(FetchesLeft, p.tasks), Total(FetchesLeft, p'.tasks);
       if respawns then Left(p', u) == Left(p, u) + 5 && now == was + 1 else Left(p', u) < Left(p, u) && now < was
  }

  lemma {:induction false} SentShrinks(p: Proc, u: nat, i: nat, item: SyncItem)
    requires i < |p.tasks| && p.tasks[i].Fetching?
    ensures FetchEffect(p, p.(permits := p.permits + 1, tasks := Replace(p.tasks, i, [Sending(item)])), u, false)
  {
    SendTotals(WorkLeft, p, i, item);
    SendTotals(FetchesLeft, p, i, item);
  }

  lemma {:induction false} SplitShrinks(p: Proc, u: nat, i: nat)
    requires i < |p.tasks| && p.tasks[i].Fetching?
    ensures var lo, hi := p.tasks[i].lo, p.tasks[i].hi;
            var halves := [Waiting(lo, Mid(lo, hi)), Waiting(Mid(lo, hi) + 1, hi)];
            FetchEffect(p, p.(permits := p.permits + 1, tasks := Replace(p.tasks, i, halves)), u, lo >= hi)
  {
    SplitTotals(WorkLeft, p, i);
    SplitTotals(FetchesLeft, p, i);
    HalvesAreLess(p.tasks[i].lo, p.tasks[i].hi);
  }

  /** A fetch uses up work, unless it respawns a request for at most one block: that adds five steps and one fetch. */
  lemma {:induction false} FetchShrinks(p: Proc, u: nat, i: nat, r: Result<map<nat, seq<Record>>, FetchError>)
    requires i < |p.tasks| && p.tasks[i].Fetching? && !NextOf(p.tasks[i].lo, p.tasks[i].hi, r).Panic?
    ensures AfterFetch(p, i, r).Some?
    ensures FetchEffect(
              p, AfterFetch(p, i, r).value, u,
              p.tasks[i].lo >= p.tasks[i].hi && NextOf(p.tasks[i].lo, p.tasks[i].hi, r).Split?)
  {
    match NextOf(p.tasks[i].lo, p.tasks[i].hi, r) {
      case Send(item) => SentShrinks(p, u, i, item);
      case Split(_, _) => SplitShrinks(p, u, i);
    }
  }

  lemma {:induction false} CommitLowers(cfg: Config, full: bool, u: nat, p: Proc)
    requires ProcOk(cfg, full, u, p) && p.started && p.sync.Idle? && p.currBlock in p.buffer
    ensures var f := Sync.Frontier(p.buffer, p.currBlock);
            forall index :: Left(p.(sync := Committed(f, index)), f) < Left(p, u)
  {
    CommitProcKeeps(cfg, full, u, p);
    var f := Sync.Frontier(p.buffer, u);
    var records := Sync.Flat(p.buffer, u, f);
    FrontierBound(p.(sync := Committed(f, p.currIndex + |records|)), f);
  }

  lemma {:induction false} CommitShrinks(cfg: Config, w: World)
    requires Inv(cfg, w) && w.proc.Some? && Enabled(cfg, w, Commit)
    ensures var w' := Apply(cfg, w, Commit); LeftIn(w') < LeftIn(w) && SameCycle(w, w')
    ensures FetchesIn(Apply(cfg, w, Commit)) == FetchesIn(w)
  {
    var p, u := w.proc.value, EndOf(w.runs);
    CommitLowers(cfg, w.db.admin.value.mode == Some(ModeFull), u, p);
    var w' := AfterCommit(w, p);
    assert EndOf(w'.runs) == Sync.Frontier(p.buffer, p.currBlock);
  }

  function FetchesIn(w: World): nat {
    if w.proc.None? then 0 else Total(FetchesLeft, w.proc.value.tasks)
  }

  /** The process goes on, and with the same request. */
  predicate SameCycle(w: World, w': World) {
    && w.proc.Some? && w'.proc.Some?
    && w'.proc.value.start == w.proc.value.start && w'.proc.value.currEnd == w.proc.value.currEnd
  }

  lemma {:induction false} OtherShrinks(p: Proc, u: nat, l: Label)
    requires Internal(p, l)
    requires l.Acquire? || l.SendItem? || l.Publish? || l.Clean? || l.Receive? || (l.StartSync? && !p.started)
    ensures var p' := ProcStep(p, l);
            && Left(p', u) < Left(p, u) && Total(FetchesLeft, p'.tasks) == Total(FetchesLeft, p.tasks)
            && p'.start == p.start && p'.currEnd == p.currEnd
  {
    match l {
      case Acquire(i) => AcquireShrinks(p, u, i);
      case SendItem(i) => SendShrinks(p, u, i);
      case _ =>
    }
  }

  /** Every working step uses up work, unless it respawns a request for at most one block. */
  lemma {:induction false} WorkShrinks(cfg: Config, w: World, l: Label)
    requires Inv(cfg, w) && Works(cfg, w, l)
    ensures var w' := Apply(cfg, w, l);
            && SameCycle(w, w')
            && (if Respawns(cfg, w, l) then LeftIn(w') == LeftIn(w) + 5 else LeftIn(w') < LeftIn(w))
            && (if Respawns(cfg, w, l) then FetchesIn(w') == FetchesIn(w) + 1
                else if l.FetchDone? then FetchesIn(w') < FetchesIn(w)
                else FetchesIn(w') == FetchesIn(w))
  {
    var p, u := w.proc.value, EndOf(w.runs);
    match l {
      case FetchDone(i, logs, batch) => FetchShrinks(p, u, i, FetchResult(cfg, logs, batch));
      case Commit => CommitShrinks(cfg, w);
      case _ => OtherShrinks(p, u, l);
    }
  }

  lemma {:induction false} IdleKeepsLeft(cfg: Config, w: World, l: Label)
    requires Inv(cfg, w) && Idles(cfg, w, l)
    ensures var w' := Apply(cfg, w, l);
            SameCycle(w, w') && LeftIn(w') == LeftIn(w) && FetchesIn(w') == FetchesIn(w)
  {
  }

  // ---------- Unfinished work is never stuck ----------

  /** No deciding log of the chain fails. */
  ghost predicate NeverFails(cfg: Config) {
    forall lo, hi :: !Fails(cfg.lib, cfg.chain, lo, hi)
  }

  lemma {:induction false} SomeTaskOfKind(g: Gauge, tasks: seq<Task>) returns (i: nat)
    requires Total(g, tasks) > 0
    ensures i < |tasks| && Weight(g, tasks[i]) > 0
  {
    if Weight(g, tasks[0]) > 0 {
      i := 0;
    } else {
      i := SomeTaskOfKind(g, tasks[1..]);
      i := i + 1;
    }
  }

  /** A fetch that holds a permit can succeed. */
  lemma {:induction false} FetchWorks(cfg: Config, w: World, i: nat) returns (l: Label)
    requires Valid(cfg.chain) && NeverFails(cfg)
    requires w.proc.Some? && w.db.Open() && w.runs != []
    requires i < |w.proc.value.tasks| && w.proc.value.tasks[i].Fetching?
    ensures Works(cfg, w, l) && !Respawns(cfg, w, l)
  {
    var lo, hi := w.proc.value.tasks[i].lo, w.proc.value.tasks[i].hi;
    var logs := PlainLogs(cfg.chain, lo, hi);
    var batch := PlainBatch(cfg.chain, logs);
    PlainIsHonest(cfg.chain, lo, hi);
    PlainSucceeds(cfg.lib, cfg.chain, lo, hi);
    l := FetchDone(i, Ok(logs), Ok(batch));
  }

  /** With a free permit whenever nothing is being fetched, any task can take its next step. */
  lemma {:induction false} TaskWorks(cfg: Config, w: World) returns (l: Label)
    requires Valid(cfg.chain) && NeverFails(cfg) && cfg.concurrency > 0
    requires w.proc.Some? && w.db.Open() && w.runs != []
    requires w.proc.value.tasks != [] && |w.proc.value.queue| < CAPACITY
    requires w.proc.value.permits + Total(InUse, w.proc.value.tasks) == cfg.concurrency
    ensures Works(cfg, w, l) && !Respawns(cfg, w, l)
  {
    var p := w.proc.value;
    match p.tasks[0] {
      case Sending(_) => l := SendItem(0);
      case Fetching(_, _) => l := FetchWorks(cfg, w, 0);
      case Waiting(_, _) =>
        if p.permits > 0 {
          l := Acquire(0);
        } else {
          var i := SomeTaskOfKind(InUse, p.tasks);
          l := FetchWorks(cfg, w, i);
        }
    }
  }

  /** When every request is delivered, the first unsaved block waits in the buffer. */
  lemma {:induction false} FirstUnsavedIsBuffered(cfg: Config, full: bool, u: nat, p: Proc)
    requires ProcOk(cfg, full, u, p) && p.tasks == [] && p.queue == [] && p.started && p.sync.Idle?
    requires Left(p, u) > 0
    ensures p.currBlock == u && u in p.buffer
  {
    assert Owners(p, u, u) == Covers(p.start, p.currEnd, u);
  }

  /** Steps of save and of the channel, when one is due. */
  lemma {:induction false} SaveWorks(cfg: Config, w: World) returns (l: Label)
    requires w.proc.Some? && w.db.Open() && w.runs != []
    requires var p := w.proc.value; !p.started || !p.sync.Idle? || p.queue != [] || p.currBlock in p.buffer
    ensures Works(cfg, w, l) && !Respawns(cfg, w, l)
  {
    var p := w.proc.value;
    if !p.started {
      l := StartSync;
    } else {
      match p.sync {
        case Committed(_, _) => l := Publish;
        case Published(_, _) => l := Clean;
        case Idle => l := if p.queue != [] then Receive else Commit;
      }
    }
  }

  /**
   No deadlock: with at least one permit and no failing log, a process that has
   work left can take a working step, wherever its permits, its channel and its
   save stand.
   */
  lemma {:induction false} NeverStuck(cfg: Config, w: World) returns (l: Label)
    requires Valid(cfg.chain) && NeverFails(cfg) && cfg.concurrency > 0
    requires Inv(cfg, w) && LeftIn(w) > 0
    ensures Works(cfg, w, l) && !Respawns(cfg, w, l)
  {
    var p := w.proc.value;
    if !p.started || !p.sync.Idle? || p.queue != [] {
      l := SaveWorks(cfg, w);
    } else if p.tasks != [] {
      l := TaskWorks(cfg, w);
    } else {
      FirstUnsavedIsBuffered(cfg, w.db.admin.value.mode == Some(ModeFull), EndOf(w.runs), p);
      l := SaveWorks(cfg, w);
    }
  }

  /** The first block after the request. */
  function Target(p: Proc): nat {
    if p.start <= p.currEnd then p.currEnd + 1 else p.start
  }

  lemma {:induction false} NoTasksLeft(p: Proc, u: nat)
    requires Left(p, u) == 0
    ensures p.started && p.tasks == [] && p.queue == [] && p.sync.Idle? && u > p.currEnd
  {
  }

  lemma {:induction false} BufferEmpty(cfg: Config, p: Proc, u: nat)
    requires Conserved(p, u) && BufferOk(cfg, p.buffer, u) && p.queue == [] && p.tasks == []
    requires p.start <= u && u > p.currEnd
    ensures p.buffer == map[] && u == Target(p)
  {
    FrontierBound(p, u);
    forall b: nat ensures b !in p.buffer {
      assert Owners(p, u, b) == Covers(p.start, p.currEnd, b);
    }
  }

  /** With nothing left, everything requested is saved and nothing is in flight, queued or half saved. */
  lemma {:induction false} NothingLeft(cfg: Config, w: World)
    requires Inv(cfg, w) && w.proc.Some? && LeftIn(w) == 0
    ensures var p := w.proc.value;
            && p.started && p.tasks == [] && p.queue == [] && p.sync.Idle?
            && p.permits == cfg.concurrency
            && p.currBlock == EndOf(w.runs) == Target(p)
            && p.buffer == map[]
  {
    NoTasksLeft(w.proc.value, EndOf(w.runs));
    BufferEmpty(cfg, w.proc.value, EndOf(w.runs));
  }

  // ---------- Runs of one cycle ----------

  /** A run in which every step works or idles: no crash, no process that gives up, no new cycle. */
  ghost predicate CycleRun(cfg: Config, w: World, ls: seq<Label>)
    decreases |ls|
  {
    ls == [] ||
    (&& (Works(cfg, w, ls[0]) || Idles(cfg, w, ls[0]))
     && CycleRun(cfg, Apply(cfg, w, ls[0]), ls[1..]))
  }

  ghost function WorkSteps(cfg: Config, w: World, ls: seq<Label>): nat
    requires CycleRun(cfg, w, ls)
    decreases |ls|
  {
    if ls == [] then 0 else
    (if Works(cfg, w, ls[0]) then 1 else 0) + WorkSteps(cfg, Apply(cfg, w, ls[0]), ls[1..])
  }

  ghost function FetchSteps(cfg: Config, w: World, ls: seq<Label>): nat
    requires CycleRun(cfg, w, ls)
    decreases |ls|
  {
    if ls == [] then 0 else
    (if ls[0].FetchDone? then 1 else 0) + FetchSteps(cfg, Apply(cfg, w, ls[0]), ls[1..])
  }

  /** How often a request for at most one block was too big. */
  ghost function RespawnSteps(cfg: Config, w: World, ls: seq<Label>): nat
    requires CycleRun(cfg, w, ls)
    decreases |ls|
  {
    if ls == [] then 0 else
    (if Respawns(cfg, w, ls[0]) then 1 else 0) + RespawnSteps(cfg, Apply(cfg, w, ls[0]), ls[1..])
  }

  lemma {:induction false} CycleRunIsRun(cfg: Config, w: World, ls: seq<Label>)
    requires CycleRun(cfg, w, ls)
    ensures ValidRun(cfg, w, ls)
    decreases |ls|
  {
    if ls != [] {
      CycleRunIsRun(cfg, Apply(cfg, w, ls[0]), ls[1..]);
    }
  }

  /** What one step of a cycle does to the work and the fetches that are left. */
  lemma {:induction false} CycleStep(cfg: Config, w: World, l: Label)
    requires Faithful(cfg) && Inv(cfg, w) && (Works(cfg, w, l) || Idles(cfg, w, l))
    ensures var w' := Apply(cfg, w, l);
            var again := if Respawns(cfg, w, l) then 1 else 0;
            && Inv(cfg, w') && SameCycle(w, w')
            && (if Works(cfg, w, l) then 1 else 0) + LeftIn(w') <= LeftIn(w) + 6 * again
            && (if l.FetchDone? then 1 else 0) + FetchesIn(w') <= FetchesIn(w) + 2 * again
  {
    StepKeeps(cfg, w, l);
    if Works(cfg, w, l) {
      WorkShrinks(cfg, w, l);
    } else {
      IdleKeepsLeft(cfg, w, l);
    }
  }

  lemma {:induction false} CycleRunBound(cfg: Config, w: World, ls: seq<Label>)
    requires Faithful(cfg) && Inv(cfg, w) && w.proc.Some? && CycleRun(cfg, w, ls)
    ensures ValidRun(cfg, w, ls)
    ensures var w' := Exec(cfg, w, ls);
            && Inv(cfg, w') && SameCycle(w, w')
            && WorkSteps(cfg, w, ls) + LeftIn(w') <= LeftIn(w) + 6 * RespawnSteps(cfg, w, ls)
            && FetchSteps(cfg, w, ls) + FetchesIn(w') <= FetchesIn(w) + 2 * RespawnSteps(cfg, w, ls)
    decreases |ls|
  {
    CycleRunIsRun(cfg, w, ls);
    if ls != [] {
      CycleStep(cfg, w, ls[0]);
      CycleRunBound(cfg, Apply(cfg, w, ls[0]), ls[1..]);
    }
  }

  /**
   A cycle ends unless requests for at most one block, empty ones included, keep
   being too big: from any reachable state a run in which this happens k times takes
   at most LeftIn(w) + 6k working steps and 2k fetches more than are left at first,
   however failed commits, ticks and tag requests are mixed in, and a run after which
   no working step is possible has saved every block of the range.
   */
  lemma {:induction false} CycleEnds(cfg: Config, w: World, ls: seq<Label>)
    requires Valid(cfg.chain) && NeverFails(cfg) && cfg.concurrency > 0
    requires Reachable(cfg, w) && w.proc.Some? && CycleRun(cfg, w, ls)
    ensures ValidRun(cfg, w, ls)
    ensures WorkSteps(cfg, w, ls) <= LeftIn(w) + 6 * RespawnSteps(cfg, w, ls)
    ensures FetchSteps(cfg, w, ls) <= FetchesIn(w) + 2 * RespawnSteps(cfg, w, ls)
    ensures var w' := Exec(cfg, w, ls);
            (forall l :: !Works(cfg, w', l)) ==>
              && w'.proc.Some? && w'.proc.value.started && w'.proc.value.sync.Idle?
              && w'.proc.value.currBlock == EndOf(w'.runs) == Target(w.proc.value)
              && w'.proc.value.tasks == [] && w'.proc.value.queue == [] && w'.proc.value.buffer == map[]
              && w'.proc.value.permits == cfg.concurrency
  {
    ReachableInv(cfg, w);
    ValidIsFaithful(cfg);
    CycleRunBound(cfg, w, ls);
    var w' := Exec(cfg, w, ls);
    if forall l :: !Works(cfg, w', l) {
      if LeftIn(w') > 0 {
        var l := NeverStuck(cfg, w');
      }
      NothingLeft(cfg, w');
    }
  }

  /** Some run of the cycle takes more than m working steps. */
  ghost predicate LongCycle(cfg: Config, w: World, m: nat) {
    exists ls :: CycleRun(cfg, w, ls) && WorkSteps(cfg, w, ls) > m
  }

  /** In some run of the cycle, requests for at most one block are too big more than k times. */
  ghost predicate OftenTooBig(cfg: Config, w: World, k: nat) {
    exists ls :: CycleRun(cfg, w, ls) && RespawnSteps(cfg, w, ls) > k
  }

  lemma {:induction false} RespawnsAreWork(cfg: Config, w: World, ls: seq<Label>)
    requires CycleRun(cfg, w, ls)
    ensures RespawnSteps(cfg, w, ls) <= WorkSteps(cfg, w, ls)
    decreases |ls|
  {
    if ls != [] {
      RespawnsAreWork(cfg, Apply(cfg, w, ls[0]), ls[1..]);
    }
  }

  /**
   The cycles that start in a reachable state are without bound if and only if the
   too-big answers to requests for at most one block are.
   */
  lemma {:induction false} EndlessIff(cfg: Config, w: World)
    requires Valid(cfg.chain) && Reachable(cfg, w) && w.proc.Some?
    ensures (forall m: nat :: LongCycle(cfg, w, m)) <==> (forall k: nat :: OftenTooBig(cfg, w, k))
  {
    ReachableInv(cfg, w);
    ValidIsFaithful(cfg);
    if forall m: nat :: LongCycle(cfg, w, m) {
      forall k: nat ensures OftenTooBig(cfg, w, k) {
        assert LongCycle(cfg, w, LeftIn(w) + 6 * k);
        var ls :| CycleRun(cfg, w, ls) && WorkSteps(cfg, w, ls) > LeftIn(w) + 6 * k;
        CycleRunBound(cfg, w, ls);
      }
    }
    if forall k: nat :: OftenTooBig(cfg, w, k) {
      forall m: nat ensures LongCycle(cfg, w, m) {
        assert OftenTooBig(cfg, w, m);
        var ls :| CycleRun(cfg, w, ls) && RespawnSteps(cfg, w, ls) > m;
        RespawnsAreWork(cfg, w, ls);
      }
    }
  }

  /**
   A fresh process for n >= 1 blocks takes at most 11n - 3 working steps and 2n - 1
   fetches, and for an empty range five and one, plus six and two for every request
   for at most one block that is too big.
   */
  lemma {:induction false} FreshCycleIsShort(cfg: Config, w: World, boot: Label, ls: seq<Label>)
    requires Valid(cfg.chain) && Reachable(cfg, w) && (boot.BootRange? || boot.BootFull?) && Enabled(cfg, w, boot)
    requires CycleRun(cfg, Apply(cfg, w, boot), ls)
    ensures var booted := Apply(cfg, w, boot);
            && booted.proc.Some?
            && var n := Width(booted.proc.value.start, booted.proc.value.currEnd);
               && WorkSteps(cfg, booted, ls) <= (if n == 0 then 5 else 11 * n - 3) + 6 * RespawnSteps(cfg, booted, ls)
               && FetchSteps(cfg, booted, ls) <= (if n == 0 then 1 else 2 * n - 1) + 2 * RespawnSteps(cfg, booted, ls)
  {
    ReachableInv(cfg, w);
    ValidIsFaithful(cfg);
    StepKeeps(cfg, w, boot);
    var booted := Apply(cfg, w, boot);
    FreshWork(cfg, w, boot);
    CycleRunBound(cfg, booted, ls);
  }

  lemma {:induction false} FreshWork(cfg: Config, w: World, boot: Label)
    requires (boot.BootRange? || boot.BootFull?) && Enabled(cfg, w, boot)
    ensures var booted := Apply(cfg, w, boot);
            && booted.proc.Some?
            && var n := Width(booted.proc.value.start, booted.proc.value.currEnd);
               && LeftIn(booted) == (if n == 0 then 5 else 11 * n - 3)
               && FetchesIn(booted) == (if n == 0 then 1 else 2 * n - 1)
  {
    var p := Apply(cfg, w, boot).proc.value;
    TotalOne(WorkLeft, Waiting(p.start, p.currEnd));
    TotalOne(FetchesLeft, Waiting(p.start, p.currEnd));
  }

  /** The permits in use and the free ones are always as many as configured. */
  lemma {:induction false} PermitsAreKept(cfg: Config, w: World)
    requires Valid(cfg.chain) && Reachable(cfg, w) && w.proc.Some?
    ensures w.proc.value.permits + Total(InUse, w.proc.value.tasks) == cfg.concurrency
  {
    ReachableInv(cfg, w);
  }
}
