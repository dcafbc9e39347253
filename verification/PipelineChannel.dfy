/**
 The bounded channel between the fetch tasks and the synchronizer: when a send
 has to wait, and that it can have to.
 */
module PipelineChannel {
  import opened Wrappers
  import opened Types
  import opened ChainSpec
  import opened Fetcher
  import opened PlainReply
  import opened Pipeline
  import opened PipelineInvariant
  import opened PipelineResults
  import opened PipelineProgress
  import opened PipelineRuns
  import opened PipelineTooBig

  /** A task that has its item ready has to wait exactly while the channel holds 200 items. */
  lemma {:induction false} SendWaitsIff(cfg: Config, w: World, i: nat)
    requires Valid(cfg.chain) && Reachable(cfg, w) && w.proc.Some?
    requires i < |w.proc.value.tasks| && w.proc.value.tasks[i].Sending?
    ensures !Enabled(cfg, w, SendItem(i)) <==> |w.proc.value.queue| == 200
  {
    ReachableInv(cfg, w);
  }

  // ---------- Narrow items ----------

  predicate Narrow(item: SyncItem) {
    Width(item.startBlock, item.endBlock) <= 1
  }

  predicate NarrowTask(t: Task) {
    t.Sending? ==> Narrow(t.item)
  }

  predicate NarrowTasks(tasks: seq<Task>) {
    forall i :: 0 <= i < |tasks| ==> NarrowTask(tasks[i])
  }

  predicate NarrowQueue(queue: seq<SyncItem>) {
    forall i :: 0 <= i < |queue| ==> Narrow(queue[i])
  }

  lemma {:induction false} NarrowReplace(tasks: seq<Task>, i: nat, parts: seq<Task>)
    requires NarrowTasks(tasks) && i < |tasks| && NarrowTasks(parts)
    ensures NarrowTasks(Replace(tasks, i, parts))
  {
    var all := Replace(tasks, i, parts);
    forall k | 0 <= k < |all| ensures NarrowTask(all[k]) {
      if k < i {
        assert all[k] == tasks[k];
      } else if k < i + |parts| {
        assert all[k] == parts[k - i];
      } else {
        assert all[k] == tasks[k - |parts| + 1];
      }
    }
  }

  /** A queue of items of at most one block owns at most as many blocks as it has items. */
  lemma {:induction false} NarrowOwners(queue: seq<SyncItem>, blocks: set<nat>)
    requires NarrowQueue(queue) && forall b :: b in blocks ==> QueueOwners(queue, b) >= 1
    ensures |blocks| <= |queue|
  {
    if queue == [] {
      assert blocks == {};
    } else {
      var rest := blocks - {queue[0].startBlock};
      forall b | b in rest ensures QueueOwners(queue[1..], b) >= 1 {}
      NarrowOwners(queue[1..], rest);
      assert |blocks| <= |rest| + 1 by {
        assert blocks <= rest + {queue[0].startBlock};
        SubsetSize(blocks, rest + {queue[0].startBlock});
      }
    }
  }

  lemma {:induction false} SubsetSize(a: set<nat>, b: set<nat>)
    requires a <= b
    ensures |a| <= |b|
  {
    if a != {} {
      var x :| x in a;
      SubsetSize(a - {x}, b - {x});
    }
  }

  function BlocksFrom(lo: nat, n: nat): (blocks: set<nat>)
    ensures |blocks| == n && forall b :: b in blocks <==> lo <= b < lo + n
  {
    if n == 0 then {} else BlocksFrom(lo, n - 1) + {lo + n - 1}
  }

  // ---------- Filling the channel ----------

  /** Only narrow items have been made of what is still on the way. */
  predicate Filling(w: World) {
    w.proc.Some? && NarrowTasks(w.proc.value.tasks) && NarrowQueue(w.proc.value.queue)
  }

  /** The tasks and the channel have moved, and nothing else. */
  predicate FillsOn(w: World, w': World) {
    && w.proc.Some? && w'.proc.Some? && w'.runs == w.runs
    && w'.proc.value.start == w.proc.value.start && w'.proc.value.currEnd == w.proc.value.currEnd
    && w'.proc.value.buffer == w.proc.value.buffer
  }

  predicate SendWaits(w: World) {
    && w.proc.Some? && |w.proc.value.queue| == CAPACITY
    && exists i :: 0 <= i < |w.proc.value.tasks| && w.proc.value.tasks[i].Sending?
  }

  /** A working step of a fetch task. */
  ghost predicate Fills(cfg: Config, w: World, l: Label) {
    Works(cfg, w, l) && !Respawns(cfg, w, l) && Filling(Apply(cfg, w, l)) && FillsOn(w, Apply(cfg, w, l))
  }

  lemma {:induction false} FillBySend(cfg: Config, w: World, i: nat)
    requires Filling(w) && w.db.Open() && w.runs != [] && |w.proc.value.queue| < CAPACITY
    requires i < |w.proc.value.tasks| && w.proc.value.tasks[i].Sending?
    ensures Fills(cfg, w, SendItem(i))
  {
    NarrowReplace(w.proc.value.tasks, i, []);
  }

  lemma {:induction false} FillByAcquire(cfg: Config, w: World, i: nat)
    requires Filling(w) && w.db.Open() && w.runs != [] && w.proc.value.permits > 0
    requires i < |w.proc.value.tasks| && w.proc.value.tasks[i].Waiting?
    ensures Fills(cfg, w, Acquire(i))
  {
    NarrowReplace(w.proc.value.tasks, i, [Fetching(w.proc.value.tasks[i].lo, w.proc.value.tasks[i].hi)]);
  }

  /** A range of more than one block is split, a narrow one is fetched. */
  lemma {:induction false} FillByFetch(cfg: Config, w: World, i: nat) returns (l: Label)
    requires Valid(cfg.chain) && NeverFails(cfg)
    requires Filling(w) && w.db.Open() && w.runs != []
    requires i < |w.proc.value.tasks| && w.proc.value.tasks[i].Fetching?
    ensures Fills(cfg, w, l)
  {
    var tasks := w.proc.value.tasks;
    var lo, hi := tasks[i].lo, tasks[i].hi;
    if lo < hi {
      l := TooBig(i);
      TooBigStep(cfg, w, i, lo, hi);
      NarrowReplace(tasks, i, Halves(lo, hi));
    } else {
      var item := FetchDelivers(cfg, w, i);
      var logs := PlainLogs(cfg.chain, lo, hi);
      l := FetchDone(i, Ok(logs), Ok(PlainBatch(cfg.chain, logs)));
      NarrowReplace(tasks, i, [Sending(item)]);
    }
  }

  lemma {:induction false} FetchDelivers(cfg: Config, w: World, i: nat) returns (item: SyncItem)
    requires Valid(cfg.chain) && NeverFails(cfg)
    requires w.proc.Some? && w.db.Open() && w.runs != []
    requires i < |w.proc.value.tasks| && w.proc.value.tasks[i].Fetching?
    ensures var t := w.proc.value.tasks[i];
            var logs := PlainLogs(cfg.chain, t.lo, t.hi);
            var l := FetchDone(i, Ok(logs), Ok(PlainBatch(cfg.chain, logs)));
            && Works(cfg, w, l) && !Respawns(cfg, w, l)
            && item.startBlock == t.lo && item.endBlock == t.hi
            && NextOf(t.lo, t.hi, FetchResult(cfg, l.logs, l.batch)) == Send(item)
  {
    var t := w.proc.value.tasks[i];
    var logs := PlainLogs(cfg.chain, t.lo, t.hi);
    PlainIsHonest(cfg.chain, t.lo, t.hi);
    PlainSucceeds(cfg.lib, cfg.chain, t.lo, t.hi);
    item := SyncItem(t.lo, t.hi, FetchResult(cfg, Ok(logs), Ok(PlainBatch(cfg.chain, logs))).value);
  }

  lemma {:induction false} FillStep(cfg: Config, w: World) returns (l: Label)
    requires Valid(cfg.chain) && NeverFails(cfg) && cfg.concurrency > 0
    requires Filling(w) && w.db.Open() && w.runs != []
    requires w.proc.value.permits + Total(InUse, w.proc.value.tasks) == cfg.concurrency
    requires w.proc.value.tasks != [] && |w.proc.value.queue| <= CAPACITY && !SendWaits(w)
    ensures Fills(cfg, w, l)
  {
    var p := w.proc.value;
    if i :| 0 <= i < |p.tasks| && p.tasks[i].Sending? {
      l := SendItem(i);
      FillBySend(cfg, w, i);
    } else if p.permits > 0 && p.tasks[0].Waiting? {
      l := Acquire(0);
      FillByAcquire(cfg, w, 0);
    } else if p.permits > 0 {
      l := FillByFetch(cfg, w, 0);
    } else {
      var i := SomeTaskOfKind(InUse, p.tasks);
      l := FillByFetch(cfg, w, i);
    }
  }

  /** While nothing is received, the tasks can go on until the channel is full or all of them are through. */
  lemma {:induction false} FillRun(cfg: Config, w: World) returns (ls: seq<Label>)
    requires Valid(cfg.chain) && NeverFails(cfg) && cfg.concurrency > 0
    requires Reachable(cfg, w) && Filling(w)
    ensures CycleRun(cfg, w, ls) && ValidRun(cfg, w, ls)
    ensures var w' := Exec(cfg, w, ls);
            Reachable(cfg, w') && Filling(w') && FillsOn(w, w') && (SendWaits(w') || w'.proc.value.tasks == [])
    decreases LeftIn(w)
  {
    if SendWaits(w) || w.proc.value.tasks == [] {
      ls := [];
    } else {
      ReachableInv(cfg, w);
      var l := FillStep(cfg, w);
      WorkShrinks(cfg, w, l);
      ReachableStep(cfg, w, l);
      var rest := FillRun(cfg, Apply(cfg, w, l));
      OneMore(cfg, w, l, rest);
      ls := [l] + rest;
    }
  }

  /** The block is requested and neither saved nor buffered. */
  predicate Pending(w: World, b: nat) {
    && w.proc.Some?
    && w.proc.value.start <= b <= w.proc.value.currEnd
    && EndOf(w.runs) <= b && b !in w.proc.value.buffer
  }

  ghost predicate OnTheWay(w: World, b: nat, n: nat) {
    forall k: nat :: b <= k < b + n ==> Pending(w, k)
  }

  lemma {:induction false} StillOnTheWay(w: World, w': World, b: nat, n: nat)
    requires FillsOn(w, w') && OnTheWay(w, b, n)
    ensures OnTheWay(w', b, n)
  {
    forall k: nat | b <= k < b + n ensures Pending(w', k) {
      assert Pending(w, k);
    }
  }

  /** Narrow items of more than 200 blocks do not fit into the channel. */
  lemma {:induction false} TooManyToFit(cfg: Config, w: World, b: nat)
    requires Valid(cfg.chain) && Reachable(cfg, w) && Filling(w) && OnTheWay(w, b, CAPACITY + 1)
    ensures w.proc.value.tasks != []
  {
    ReachableInv(cfg, w);
    var p, u := w.proc.value, EndOf(w.runs);
    if p.tasks == [] {
      var blocks := BlocksFrom(b, CAPACITY + 1);
      forall k | k in blocks ensures QueueOwners(p.queue, k) >= 1 {
        assert Pending(w, k);
        assert Owners(p, u, k) == Covers(p.start, p.currEnd, k);
      }
      NarrowOwners(p.queue, blocks);
    }
  }

  /** More than 200 blocks on the way can fill the channel and leave a task waiting to send. */
  lemma {:induction false} ChannelFills(cfg: Config, w: World, b: nat) returns (ls: seq<Label>, i: nat)
    requires Valid(cfg.chain) && NeverFails(cfg) && cfg.concurrency > 0
    requires Reachable(cfg, w) && Filling(w) && OnTheWay(w, b, CAPACITY + 1)
    ensures CycleRun(cfg, w, ls) && ValidRun(cfg, w, ls)
    ensures var w' := Exec(cfg, w, ls);
            && w'.proc.Some? && |w'.proc.value.queue| == 200
            && i < |w'.proc.value.tasks| && w'.proc.value.tasks[i].Sending? && !Enabled(cfg, w', SendItem(i))
  {
    ls := FillRun(cfg, w);
    var w' := Exec(cfg, w, ls);
    StillOnTheWay(w, w', b, CAPACITY + 1);
    TooManyToFit(cfg, w', b);
    i :| 0 <= i < |w'.proc.value.tasks| && w'.proc.value.tasks[i].Sending?;
  }

  lemma {:induction false} BootedOnTheWay(cfg: Config, w: World, boot: Label)
    requires (boot.BootRange? || boot.BootFull?) && Enabled(cfg, w, boot)
    requires var p := Apply(cfg, w, boot).proc; p.Some? && p.value.start + 200 <= p.value.currEnd
    ensures var booted := Apply(cfg, w, boot);
            Filling(booted) && OnTheWay(booted, booted.proc.value.start, CAPACITY + 1)
  {
    var booted := Apply(cfg, w, boot);
    var start := booted.proc.value.start;
    assert booted.runs[|booted.runs| - 1] == Run(start, start);
  }

  /** Every request of more than 200 blocks that a process starts with can do so, in either mode. */
  lemma {:induction false} FirstRequestFills(cfg: Config, w: World, boot: Label) returns (ls: seq<Label>, i: nat)
    requires Valid(cfg.chain) && NeverFails(cfg) && cfg.concurrency > 0
    requires Reachable(cfg, w) && (boot.BootRange? || boot.BootFull?) && Enabled(cfg, w, boot)
    requires var p := Apply(cfg, w, boot).proc; p.Some? && p.value.start + 200 <= p.value.currEnd
    ensures var booted := Apply(cfg, w, boot);
            && CycleRun(cfg, booted, ls) && ValidRun(cfg, booted, ls)
            && var w' := Exec(cfg, booted, ls);
               && w'.proc.Some? && |w'.proc.value.queue| == 200
               && i < |w'.proc.value.tasks| && w'.proc.value.tasks[i].Sending? && !Enabled(cfg, w', SendItem(i))
  {
    var booted := Apply(cfg, w, boot);
    ReachableStep(cfg, w, boot);
    BootedOnTheWay(cfg, w, boot);
    ls, i := ChannelFills(cfg, booted, booted.proc.value.start);
  }

  /** So can every request of more than 200 blocks that a tag opens later. */
  lemma {:induction false} LaterRequestFills(cfg: Config, w: World, tag: nat) returns (ls: seq<Label>, i: nat)
    requires Valid(cfg.chain) && NeverFails(cfg) && cfg.concurrency > 0
    requires Reachable(cfg, w) && Enabled(cfg, w, Tag(Some(tag))) && w.proc.value.orch.seen + 200 <= tag
    ensures var cycle := Apply(cfg, w, Tag(Some(tag)));
            && CycleRun(cfg, cycle, ls) && ValidRun(cfg, cycle, ls)
            && var w' := Exec(cfg, cycle, ls);
               && w'.proc.Some? && |w'.proc.value.queue| == 200
               && i < |w'.proc.value.tasks| && w'.proc.value.tasks[i].Sending? && !Enabled(cfg, w', SendItem(i))
  {
    var cycle := Apply(cfg, w, Tag(Some(tag)));
    QuietIsNarrow(cfg, w);
    ReachableStep(cfg, w, Tag(Some(tag)));
    OpenedOnTheWay(cfg, w, tag);
    ls, i := ChannelFills(cfg, cycle, w.proc.value.orch.seen);
  }

  /** When the tag is asked for, only empty items are on the way. */
  lemma {:induction false} QuietIsNarrow(cfg: Config, w: World)
    requires Valid(cfg.chain) && Reachable(cfg, w) && w.proc.Some? && w.proc.value.orch.Asking?
    ensures Filling(w)
  {
    AskingMeansQuiet(cfg, w);
    var p := w.proc.value;
    forall i | 0 <= i < |p.tasks| ensures NarrowTask(p.tasks[i]) {
      if p.tasks[i].Sending? {
        assert !HasBlock(p.tasks[i], p.tasks[i].item.startBlock);
      }
    }
    forall i | 0 <= i < |p.queue| ensures Narrow(p.queue[i]) {
      assert !p.queue[i].Covers(p.queue[i].startBlock);
    }
  }

  lemma {:induction false} OpenedOnTheWay(cfg: Config, w: World, tag: nat)
    requires Valid(cfg.chain) && Reachable(cfg, w) && Enabled(cfg, w, Tag(Some(tag)))
    requires w.proc.value.orch.seen + CAPACITY <= tag && Filling(w)
    ensures var cycle := Apply(cfg, w, Tag(Some(tag)));
            Filling(cycle) && OnTheWay(cycle, w.proc.value.orch.seen, CAPACITY + 1)
  {
    AskingMeansQuiet(cfg, w);
    ReachableInv(cfg, w);
    var cycle := Apply(cfg, w, Tag(Some(tag)));
    assert cycle.proc.value.tasks == w.proc.value.tasks + [Waiting(w.proc.value.orch.seen, tag)];
  }
}
