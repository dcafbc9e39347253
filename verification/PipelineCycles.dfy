/**
 How a process goes on and how it stops: a tick and its tag request against the
 orchestrator, the next cycle from every state that has saved its range, and what
 can interrupt a process at any point.
 */
module PipelineCycles {
  import opened Wrappers
  import opened Types
  import opened Persistor
  import opened FetchJoin
  import opened ChainSpec
  import opened Pipeline
  import opened PipelineInvariant
  import opened PipelineResults
  import opened PipelineProgress
  import opened PipelineRuns

  // ---------- A tick in steps ----------

  /** With the synchronizer past the requested end a tick asks, holding the block it read; else it does nothing. */
  lemma {:induction false} TickAsks(cfg: Config, w: World)
    requires Valid(cfg.chain) && Reachable(cfg, w) && w.proc.Some? && w.proc.value.orch.Resting?
    ensures Enabled(cfg, w, Tick)
    ensures var p := w.proc.value;
            if p.currBlock > p.currEnd then
              Apply(cfg, w, Tick) == w.(proc := Some(p.(orch := Asking(p.currBlock))))
            else
              Apply(cfg, w, Tick) == w
  {
    ReachableInv(cfg, w);
  }

  /**
   Past the requested end, a tick and its tag request are together one tick of the
   orchestrator: a tag that is not behind becomes the requested end and opens a task
   from the block that was read; an older or a failed one changes nothing.
   */
  lemma {:induction false} TickInSteps(cfg: Config, w: World, reply: Option<nat>)
    requires Enabled(cfg, w, Tick) && w.proc.value.currBlock > w.proc.value.currEnd
    requires reply.Some? ==> reply.value < MAX_HEIGHT
    ensures var p := w.proc.value;
            var end := if reply.Some? then reply.value else 0;
            var w1 := Apply(cfg, w, Tick);
            && Enabled(cfg, w1, Tag(reply))
            && Apply(cfg, w1, Tag(reply))
               == if p.currBlock <= end then
                    w.(proc := Some(p.(currEnd := end, tasks := p.tasks + [Waiting(p.currBlock, end)])))
                  else
                    w
  {
  }

  // ---------- The next cycle ----------

  /** From every reachable state past the requested end, a tag that is not behind opens the next range. */
  lemma {:induction false} NextCycleOpens(cfg: Config, w: World, tag: nat) returns (next: World)
    requires Valid(cfg.chain) && Reachable(cfg, w) && w.proc.Some? && w.proc.value.orch.Resting?
    requires w.proc.value.currEnd < w.proc.value.currBlock <= tag < MAX_HEIGHT
    ensures Reachable(cfg, next)
    ensures var p := w.proc.value;
            next == w.(proc := Some(p.(currEnd := tag, tasks := p.tasks + [Waiting(p.currBlock, tag)])))
  {
    TickAsks(cfg, w);
    TickInSteps(cfg, w, Some(tag));
    ReachableStep(cfg, w, Tick);
    ReachableStep(cfg, Apply(cfg, w, Tick), Tag(Some(tag)));
    next := Apply(cfg, Apply(cfg, w, Tick), Tag(Some(tag)));
  }

  /** A full-mode process that has saved its range, resting or asking, can take a newer tag. */
  lemma {:induction false} NewerTag(cfg: Config, w: World, tag: nat) returns (next: World)
    requires Valid(cfg.chain) && Reachable(cfg, w) && w.proc.Some? && !w.proc.value.orch.Off?
    requires EndOf(w.runs) == w.proc.value.currBlock == Target(w.proc.value) <= tag < MAX_HEIGHT
    ensures Reachable(cfg, next) && next.proc.Some? && next.proc.value.currEnd == tag && next.runs == w.runs
    ensures next.proc.value.start == w.proc.value.start && next.proc.value.orch.Resting?
    ensures next.db == w.db
  {
    if w.proc.value.orch.Resting? {
      next := NextCycleOpens(cfg, w, tag);
    } else {
      ReachableInv(cfg, w);
      ReachableStep(cfg, w, Tag(Some(tag)));
      next := Apply(cfg, w, Tag(Some(tag)));
    }
  }

  /**
   Full mode keeps up: from every reachable state of a process, whatever it is doing,
   and for every tag past what was requested, the same process can come to have saved
   everything up to that tag, with the orchestrator ready for the next one.
   */
  lemma {:induction false} FullModeKeepsUp(cfg: Config, w: World, tag: nat) returns (w': World)
    requires Valid(cfg.chain) && NeverFails(cfg) && cfg.concurrency > 0
    requires Reachable(cfg, w) && w.proc.Some? && !w.proc.value.orch.Off?
    requires w.proc.value.start <= tag && w.proc.value.currEnd < tag < MAX_HEIGHT
    ensures Reachable(cfg, w') && w'.proc.Some? && w.runs != []
    ensures w'.proc.value.orch.Resting? && w'.proc.value.currEnd == tag && w'.proc.value.currBlock == tag + 1
    ensures var last := |w.runs| - 1;
            w'.runs == w.runs[last := Run(w.runs[last].from, tag + 1)]
  {
    ReachableInv(cfg, w);
    var saved := RangeCompletes(cfg, w);
    var next := NewerTag(cfg, saved, tag);
    ReachableInv(cfg, next);
    w' := RangeCompletes(cfg, next);
    OnlyTheEndMoved(w.runs, saved.runs, w'.runs);
  }

  lemma {:induction false} OnlyTheEndMoved(a: seq<Run>, b: seq<Run>, c: seq<Run>)
    requires a != [] && |a| == |b| == |c|
    requires a[..|a| - 1] == b[..|a| - 1] == c[..|a| - 1]
    requires a[|a| - 1].from == b[|a| - 1].from == c[|a| - 1].from
    ensures c == a[|a| - 1 := Run(a[|a| - 1].from, c[|a| - 1].upto)]
  {
    assert c == c[..|c| - 1] + [c[|c| - 1]];
  }

  /**
   Such cycles occur: a new full-mode process saves up to its first tag and rests; a
   tick and a later tag then request exactly the blocks between the two.
   */
  lemma {:induction false} SecondCycleOccurs(cfg: Config, first: nat, second: nat) returns (w: World, w': World)
    requires Valid(cfg.chain) && NeverFails(cfg) && cfg.concurrency > 0 && first < second < MAX_HEIGHT
    ensures Reachable(cfg, w) && w.proc.Some? && w.runs == [Run(0, first + 1)] && w.proc.value.tasks == []
    ensures w.proc.value.currEnd == first && w.proc.value.currBlock == first + 1 && w.proc.value.orch.Resting?
    ensures Reachable(cfg, w') && ValidRun(cfg, w, [Tick, Tag(Some(second))])
    ensures w' == Exec(cfg, w, [Tick, Tag(Some(second))])
    ensures w'.proc.Some? && w'.proc.value.currEnd == second
    ensures w'.proc.value.tasks == [Waiting(first + 1, second)]
  {
    assert ValidRun(cfg, INITIAL, []) && Exec(cfg, INITIAL, []) == INITIAL;
    var booted := BootFullReaches(cfg, INITIAL, first);
    w := RangeCompletes(cfg, booted);
    RunsOf(w, [], 0, first + 1, booted);
    TickAsks(cfg, w);
    TickInSteps(cfg, w, Some(second));
    var asking := Apply(cfg, w, Tick);
    ExecOne(cfg, w, Tick);
    ExecOne(cfg, asking, Tag(Some(second)));
    ExecConcat(cfg, w, [Tick], [Tag(Some(second))]);
    assert [Tick] + [Tag(Some(second))] == [Tick, Tag(Some(second))];
    ReachableOn(cfg, w, [Tick, Tag(Some(second))]);
    w' := Exec(cfg, w, [Tick, Tag(Some(second))]);
  }

  // ---------- What interrupts a process ----------

  /** A process can stop in every reachable state; the database and the histories are left as they are. */
  lemma {:induction false} StopsAnywhere(cfg: Config, w: World)
    requires Valid(cfg.chain) && Reachable(cfg, w)
    ensures Reachable(cfg, w.(proc := None))
  {
    if w.proc.Some? {
      var _ := CrashKeeps(cfg, w);
    } else {
      assert w.(proc := None) == w;
    }
  }

  /**
   From every reachable state a stop and a start in full mode, with any tag, lead to a
   fresh process: it continues after the last saved block of a full-mode database, and
   at block 0 with empty buckets otherwise.
   */
  lemma {:induction false} RestartsInFullMode(cfg: Config, w: World, tag: nat) returns (w': World)
    requires Valid(cfg.chain) && Reachable(cfg, w) && tag < MAX_HEIGHT
    ensures Reachable(cfg, w') && w'.db.Open() && w'.db.admin.value.mode == Some(ModeFull)
    ensures var full := w.db.Open() && w.db.admin.value.mode == Some(ModeFull);
            && (full ==> w'.db == w.db && w'.runs != [] && w'.runs[..|w'.runs| - 1] == w.runs)
            && (!full ==> w'.db.data.value == map[] && w'.db.admin.value.last == None && |w'.runs| == 1)
            && w'.proc == Some(Proc(
                 if full then |w.committed| else 0, tag, false, 0, 0, map[], [],
                 [Waiting(if full then |w.committed| else 0, tag)], cfg.concurrency, Idle, Resting))
  {
    StopsAnywhere(cfg, w);
    var stopped := w.(proc := None);
    w' := BootFullReaches(cfg, stopped, tag);
    ReachableInv(cfg, w);
    if w.db.Open() && w.db.admin.value.mode == Some(ModeFull) {
      FullModeSavesInOrder(cfg, w);
    }
  }

  /** A stop and a start in range mode lead to a process that asks for the range over empty buckets. */
  lemma {:induction false} RestartsInRangeMode(cfg: Config, w: World, lo: nat, hi: nat) returns (w': World)
    requires Valid(cfg.chain) && Reachable(cfg, w) && 0 < lo < MAX_HEIGHT && 0 < hi < MAX_HEIGHT
    ensures Reachable(cfg, w') && w'.db == Db(Some(map[]), Some(Admin(Some(ModeRange), None)))
    ensures w'.runs == [Run(lo, lo)] && w'.committed == []
    ensures w'.proc == Some(
              Proc(lo, hi, false, 0, 0, map[], [], [Waiting(lo, hi)], cfg.concurrency, Idle, Off))
  {
    StopsAnywhere(cfg, w);
    ReachableStep(cfg, w.(proc := None), BootRange(lo, hi));
    w' := Apply(cfg, w.(proc := None), BootRange(lo, hi));
  }

  /** A start in full mode whose tag request fails leaves the database started and no process. */
  lemma {:induction false} StartCanFail(cfg: Config, w: World) returns (w': World)
    requires Valid(cfg.chain) && Reachable(cfg, w)
    ensures Reachable(cfg, w') && w'.proc.None? && w'.db.Open() && w'.db.admin.value.mode == Some(ModeFull)
    ensures if w.db.Open() && w.db.admin.value.mode == Some(ModeFull) then
              w'.db == w.db && w'.runs == w.runs && w'.committed == w.committed
            else
              && w'.db.data.value == map[] && w'.db.admin.value.last == None
              && w'.runs == [] && w'.committed == []
  {
    StopsAnywhere(cfg, w);
    ReachableInv(cfg, w);
    ReachableStep(cfg, w.(proc := None), BootFails);
    w' := Apply(cfg, w.(proc := None), BootFails);
  }

  /** Wherever a save can commit, its transaction can fail instead, and nothing changes. */
  lemma {:induction false} CommitCanFail(cfg: Config, w: World)
    requires w.proc.Some? && w.proc.value.started && w.proc.value.sync.Idle? && Enabled(cfg, w, Commit)
    ensures w.proc.value.currBlock in w.proc.value.buffer
    ensures Enabled(cfg, w, CommitFails) && Apply(cfg, w, CommitFails) == w
  {
  }

  /**
   Any truthful reply can meet a fetch, with logs in any order unless the nodes keep
   log order. One that fails, but not for being too big, takes the process down and
   changes nothing else.
   */
  lemma {:induction false} FailingFetchStops(cfg: Config, w: World, i: nat, logs: Logs, batch: Batch)
    requires Valid(cfg.chain) && Reachable(cfg, w) && w.proc.Some?
    requires i < |w.proc.value.tasks| && w.proc.value.tasks[i].Fetching?
    requires Truthful(cfg.chain, w.proc.value.tasks[i].lo, w.proc.value.tasks[i].hi, logs, batch)
    requires Answers(logs, batch) && (cfg.logOrder && logs.Ok? ==> InLogOrder(logs.value))
    ensures Enabled(cfg, w, FetchDone(i, logs, batch))
    ensures var r := Fetched(cfg.lib, logs, batch);
            r.Err? && r.error != ReqTooBig ==> Apply(cfg, w, FetchDone(i, logs, batch)) == w.(proc := None)
  {
    ReachableInv(cfg, w);
  }
}
