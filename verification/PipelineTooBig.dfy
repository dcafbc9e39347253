/**
 Requests that are too big: what a split does, requests for at most one block that
 never end, and the limits of a node under which cycles do end.
 */
module PipelineTooBig {
  import opened Wrappers
  import opened Types
  import opened FetchJoin
  import opened ChainSpec
  import opened Fetcher
  import opened Pipeline
  import opened PipelineInvariant
  import opened PipelineProgress
  import opened PipelineRuns

  // ---------- One split ----------

  /** A process whose task i asks for the given range, with a free permit. */
  predicate WaitsFor(w: World, i: nat, lo: nat, hi: nat) {
    && w.proc.Some? && w.db.Open() && w.runs != []
    && w.proc.value.permits > 0 && i < |w.proc.value.tasks| && w.proc.value.tasks[i] == Waiting(lo, hi)
  }

  /** The task list of the process, and nothing else of the state, is replaced. */
  function WithTasks(w: World, tasks: seq<Task>): World
    requires w.proc.Some?
  {
    w.(proc := Some(w.proc.value.(tasks := tasks)))
  }

  function TooBig(i: nat): Label {
    FetchDone(i, Err(ReqTooBig), Err(ReqTooBig))
  }

  function Halves(lo: nat, hi: nat): seq<Task> {
    [Waiting(lo, Mid(lo, hi)), Waiting(Mid(lo, hi) + 1, hi)]
  }

  lemma {:induction false} ReplaceTwice(tasks: seq<Task>, i: nat, t: Task, more: seq<Task>, parts: seq<Task>)
    requires i < |tasks|
    ensures Replace(Replace(tasks, i, [t] + more), i, parts) == Replace(tasks, i, parts + more)
    ensures Replace(Replace(tasks, i, [t]), i, parts) == Replace(tasks, i, parts)
    ensures Replace(tasks, i, [t] + more)[i] == t
  {
    var once := Replace(tasks, i, [t] + more);
    assert once[..i] == tasks[..i] && once[i + 1..] == more + tasks[i + 1..];
    var alone := Replace(tasks, i, [t]);
    assert alone[..i] == tasks[..i] && alone[i + 1..] == tasks[i + 1..];
  }

  lemma {:induction false} AcquireStep(cfg: Config, w: World, i: nat, lo: nat, hi: nat)
    requires WaitsFor(w, i, lo, hi)
    ensures Works(cfg, w, Acquire(i)) && !Respawns(cfg, w, Acquire(i))
    ensures var p := w.proc.value;
            Apply(cfg, w, Acquire(i))
            == w.(proc := Some(p.(permits := p.permits - 1, tasks := Replace(p.tasks, i, [Fetching(lo, hi)]))))
  {
  }

  lemma {:induction false} TooBigStep(cfg: Config, w: World, i: nat, lo: nat, hi: nat)
    requires w.proc.Some? && w.db.Open() && w.runs != []
    requires i < |w.proc.value.tasks| && w.proc.value.tasks[i] == Fetching(lo, hi)
    ensures Works(cfg, w, TooBig(i)) && (Respawns(cfg, w, TooBig(i)) <==> lo >= hi)
    ensures var p := w.proc.value;
            Apply(cfg, w, TooBig(i))
            == w.(proc := Some(p.(permits := p.permits + 1, tasks := Replace(p.tasks, i, Halves(lo, hi)))))
  {
    assert FetchResult(cfg, Err(ReqTooBig), Err(ReqTooBig)) == Err(ReqTooBig);
  }

  /** A request that is too big takes two steps to become its halves; nothing else changes. */
  lemma {:induction false} TooBigSplits(cfg: Config, w: World, i: nat, lo: nat, hi: nat)
    requires WaitsFor(w, i, lo, hi)
    ensures Works(cfg, w, Acquire(i)) && !Respawns(cfg, w, Acquire(i))
    ensures var w1 := Apply(cfg, w, Acquire(i));
            && w1.proc.Some? && i < |w1.proc.value.tasks| && w1.proc.value.tasks[i] == Fetching(lo, hi)
            && Works(cfg, w1, TooBig(i)) && (Respawns(cfg, w1, TooBig(i)) <==> lo >= hi)
            && Apply(cfg, w1, TooBig(i)) == WithTasks(w, Replace(w.proc.value.tasks, i, Halves(lo, hi)))
  {
    AcquireStep(cfg, w, i, lo, hi);
    var tasks := w.proc.value.tasks;
    assert Replace(tasks, i, [Fetching(lo, hi)])[i] == Fetching(lo, hi);
    TooBigStep(cfg, Apply(cfg, w, Acquire(i)), i, lo, hi);
    ReplaceTwice(tasks, i, Fetching(lo, hi), [], Halves(lo, hi));
  }

  /** One working step before a run of the cycle. */
  lemma {:induction false} OneMore(cfg: Config, w: World, l: Label, rest: seq<Label>)
    requires Works(cfg, w, l) && CycleRun(cfg, Apply(cfg, w, l), rest)
    ensures CycleRun(cfg, w, [l] + rest) && ValidRun(cfg, w, [l] + rest)
    ensures var w1 := Apply(cfg, w, l);
            && ValidRun(cfg, w1, rest) && Exec(cfg, w, [l] + rest) == Exec(cfg, w1, rest)
            && WorkSteps(cfg, w, [l] + rest) == WorkSteps(cfg, w1, rest) + 1
            && RespawnSteps(cfg, w, [l] + rest) == RespawnSteps(cfg, w1, rest) + if Respawns(cfg, w, l) then 1 else 0
  {
    var ls := [l] + rest;
    assert ls[0] == l && ls[1..] == rest;
    CycleRunIsRun(cfg, w, ls);
  }

  // ---------- Requests that never end ----------

  /** What becomes of a request after n too-big answers to it and to its left halves. */
  function Piled(lo: nat, hi: nat, n: nat): seq<Task>
    decreases n
  {
    if n == 0 then [Waiting(lo, hi)] else Piled(lo, Mid(lo, hi), n - 1) + [Waiting(Mid(lo, hi) + 1, hi)]
  }

  /** For a request for at most one block, n + 1 requests for at most one block. */
  lemma {:induction false} PiledShape(lo: nat, hi: nat, n: nat)
    requires lo >= hi
    ensures |Piled(lo, hi, n)| == n + 1
    ensures forall i :: 0 <= i < n + 1 ==> var t := Piled(lo, hi, n)[i]; t.Waiting? && t.lo >= t.hi
    decreases n
  {
    if n > 0 {
      PiledShape(lo, Mid(lo, hi), n - 1);
    }
  }

  lemma {:induction false} SplitAgain(cfg: Config, w: World, i: nat, lo: nat, hi: nat) returns (w2: World)
    requires WaitsFor(w, i, lo, hi)
    ensures Works(cfg, w, Acquire(i)) && !Respawns(cfg, w, Acquire(i))
    ensures var w1 := Apply(cfg, w, Acquire(i));
            && w1.proc.Some? && i < |w1.proc.value.tasks| && w1.proc.value.tasks[i] == Fetching(lo, hi)
            && Works(cfg, w1, TooBig(i)) && (Respawns(cfg, w1, TooBig(i)) <==> lo >= hi)
            && w2 == Apply(cfg, w1, TooBig(i))
    ensures WaitsFor(w2, i, lo, Mid(lo, hi)) && WaitsFor(w2, i + 1, Mid(lo, hi) + 1, hi)
    ensures w2 == WithTasks(w, Replace(w.proc.value.tasks, i, Halves(lo, hi)))
  {
    TooBigSplits(cfg, w, i, lo, hi);
    var tasks := w.proc.value.tasks;
    w2 := WithTasks(w, Replace(tasks, i, Halves(lo, hi)));
    assert w2.proc.value.tasks[i] == Halves(lo, hi)[0] && w2.proc.value.tasks[i + 1] == Halves(lo, hi)[1];
  }

  /**
   As long as a request for at most one block, or for none, is too big, a cycle can go
   on: n such answers take 2n working steps, leave n + 1 such requests in its place,
   and change nothing else.
   */
  lemma {:induction false} TooBigNeverEnds(cfg: Config, w: World, i: nat, lo: nat, hi: nat, n: nat)
    returns (ls: seq<Label>)
    requires WaitsFor(w, i, lo, hi) && lo >= hi
    ensures CycleRun(cfg, w, ls) && ValidRun(cfg, w, ls)
    ensures WorkSteps(cfg, w, ls) == 2 * n && RespawnSteps(cfg, w, ls) == n
    ensures Exec(cfg, w, ls) == WithTasks(w, Replace(w.proc.value.tasks, i, Piled(lo, hi, n)))
    decreases n
  {
    var tasks := w.proc.value.tasks;
    if n == 0 {
      ls := [];
      SameTask(w, i);
    } else {
      var w2 := SplitAgain(cfg, w, i, lo, hi);
      var rest := TooBigNeverEnds(cfg, w2, i, lo, Mid(lo, hi), n - 1);
      OneMore(cfg, Apply(cfg, w, Acquire(i)), TooBig(i), rest);
      OneMore(cfg, w, Acquire(i), [TooBig(i)] + rest);
      ls := [Acquire(i)] + ([TooBig(i)] + rest);
      PiledOn(w, w2, i, lo, hi, n);
    }
  }

  lemma {:induction false} SameTask(w: World, i: nat)
    requires w.proc.Some? && i < |w.proc.value.tasks|
    ensures WithTasks(w, Replace(w.proc.value.tasks, i, [w.proc.value.tasks[i]])) == w
  {
    var tasks := w.proc.value.tasks;
    assert Replace(tasks, i, [tasks[i]]) == tasks;
  }

  lemma {:induction false} PiledOn(w: World, w2: World, i: nat, lo: nat, hi: nat, n: nat)
    requires w.proc.Some? && i < |w.proc.value.tasks| && n > 0
    requires w2 == WithTasks(w, Replace(w.proc.value.tasks, i, Halves(lo, hi)))
    ensures i < |w2.proc.value.tasks|
    ensures WithTasks(w2, Replace(w2.proc.value.tasks, i, Piled(lo, Mid(lo, hi), n - 1)))
         == WithTasks(w, Replace(w.proc.value.tasks, i, Piled(lo, hi, n)))
  {
    var right := [Waiting(Mid(lo, hi) + 1, hi)];
    assert Halves(lo, hi) == [Waiting(lo, Mid(lo, hi))] + right;
    ReplaceTwice(w.proc.value.tasks, i, Waiting(lo, Mid(lo, hi)), right, Piled(lo, Mid(lo, hi), n - 1));
  }

  // ---------- Such requests occur ----------

  /** A range-mode process asks for its range, whether it is empty or not. */
  lemma {:induction false} BootRangeReaches(cfg: Config, w: World, lo: nat, hi: nat) returns (booted: World)
    requires Reachable(cfg, w) && w.proc.None? && 0 < lo < MAX_HEIGHT && 0 < hi < MAX_HEIGHT
    requires cfg.concurrency > 0
    ensures booted == Apply(cfg, w, BootRange(lo, hi))
    ensures Reachable(cfg, booted) && WaitsFor(booted, 0, lo, hi) && booted.proc.value.tasks == [Waiting(lo, hi)]
  {
    ReachableStep(cfg, w, BootRange(lo, hi));
    booted := Apply(cfg, w, BootRange(lo, hi));
  }

  /** Every one-block request occurs: in range mode, and for block 0 in full mode. */
  lemma {:induction false} OneBlockOccurs(cfg: Config, b: nat) returns (w: World)
    requires Valid(cfg.chain) && cfg.concurrency > 0 && b < MAX_HEIGHT
    ensures Reachable(cfg, w) && WaitsFor(w, 0, b, b)
  {
    assert ValidRun(cfg, INITIAL, []) && Exec(cfg, INITIAL, []) == INITIAL;
    if b == 0 {
      w := BootFullReaches(cfg, INITIAL, 0);
    } else {
      w := BootRangeReaches(cfg, INITIAL, b, b);
    }
  }

  function Copies(t: Task, n: nat): seq<Task> {
    if n == 0 then [] else Copies(t, n - 1) + [t]
  }

  lemma {:induction false} EmptyPiles(b: nat, n: nat)
    ensures Piled(b + 1, b, n) == Copies(Waiting(b + 1, b), n + 1)
  {
    if n > 0 {
      assert Mid(b + 1, b) == b;
      EmptyPiles(b, n - 1);
    } else {
      assert Copies(Waiting(b + 1, b), 0) + [Waiting(b + 1, b)] == [Waiting(b + 1, b)];
    }
  }

  /**
   A full-mode restart whose tag has not moved asks for the empty range after the
   last saved block. While that is too big, empty requests pile up: after n answers
   there are n + 1 of them, and nothing is saved.
   */
  lemma {:induction false} UnmovedTagPilesUp(cfg: Config, w: World, n: nat) returns (booted: World, ls: seq<Label>)
    requires Valid(cfg.chain) && cfg.concurrency > 0 && Reachable(cfg, w) && w.proc.None? && w.runs != []
    requires w.db.Open() && w.db.admin.value.mode == Some(ModeFull) && w.db.LastBlock() >= 0
    ensures Reachable(cfg, booted) && Enabled(cfg, w, BootFull(w.db.LastBlock()))
    ensures booted == Apply(cfg, w, BootFull(w.db.LastBlock()))
    ensures CycleRun(cfg, booted, ls) && ValidRun(cfg, booted, ls) && RespawnSteps(cfg, booted, ls) == n
    ensures var end := Exec(cfg, booted, ls);
            && end.proc.Some? && end.committed == booted.committed && end.db == booted.db
            && end.proc.value.tasks == Copies(Waiting(w.db.LastBlock() + 1, w.db.LastBlock()), n + 1)
  {
    var last: nat := w.db.LastBlock();
    SecondStart(cfg, w);
    ReachableInv(cfg, w);
    booted := BootFullReaches(cfg, w, last);
    ls := TooBigNeverEnds(cfg, booted, 0, last + 1, last, n);
    EmptyPiles(last, n);
    OnlyTask(Waiting(last + 1, last), Piled(last + 1, last, n));
  }

  lemma {:induction false} OnlyTask(t: Task, parts: seq<Task>)
    ensures Replace([t], 0, parts) == parts
  {
    assert [t][..0] + parts + [t][1..] == parts;
  }

  /** Such a restart occurs: after any process that saved up to its tag. */
  lemma {:induction false} UnmovedTagOccurs(cfg: Config, tag: nat, n: nat) returns (booted: World, ls: seq<Label>)
    requires Valid(cfg.chain) && NeverFails(cfg) && cfg.concurrency > 0 && tag < MAX_HEIGHT
    ensures Reachable(cfg, booted) && CycleRun(cfg, booted, ls) && ValidRun(cfg, booted, ls)
    ensures RespawnSteps(cfg, booted, ls) == n
    ensures var end := Exec(cfg, booted, ls);
            && end.proc.Some? && end.committed == booted.committed && end.db == booted.db
            && end.proc.value.tasks == Copies(Waiting(tag + 1, tag), n + 1)
  {
    assert ValidRun(cfg, INITIAL, []) && Exec(cfg, INITIAL, []) == INITIAL;
    var stopped := ProcessCompletes(cfg, INITIAL, tag);
    SecondStart(cfg, stopped);
    booted, ls := UnmovedTagPilesUp(cfg, stopped, n);
  }

  // ---------- A node that always answers alike ----------

  /** If the step is a fetch, it is too big exactly when the node says so of its range. */
  ghost predicate Obeys(cfg: Config, tooBig: Limits, w: World, l: Label) {
    l.FetchDone? && Works(cfg, w, l) ==>
      var t := w.proc.value.tasks[l.task];
      FetchResult(cfg, l.logs, l.batch) == Err(ReqTooBig) <==> tooBig(t.lo, t.hi)
  }

  /** A run of a cycle with such a node. */
  ghost predicate NodeRun(cfg: Config, tooBig: Limits, w: World, ls: seq<Label>)
    decreases |ls|
  {
    ls == [] ||
    (&& (Works(cfg, w, ls[0]) || Idles(cfg, w, ls[0])) && Obeys(cfg, tooBig, w, ls[0])
     && NodeRun(cfg, tooBig, Apply(cfg, w, ls[0]), ls[1..]))
  }

  lemma {:induction false} NodeRunIsCycle(cfg: Config, tooBig: Limits, w: World, ls: seq<Label>)
    requires NodeRun(cfg, tooBig, w, ls)
    ensures CycleRun(cfg, w, ls)
    decreases |ls|
  {
    if ls != [] {
      NodeRunIsCycle(cfg, tooBig, Apply(cfg, w, ls[0]), ls[1..]);
    }
  }

  predicate TameTask(tooBig: Limits, t: Task) {
    match t
    case Waiting(lo, hi) => Tame(tooBig, lo, hi)
    case Fetching(lo, hi) => Tame(tooBig, lo, hi)
    case Sending(_) => true
  }

  predicate TameTasks(tooBig: Limits, tasks: seq<Task>) {
    forall i :: 0 <= i < |tasks| ==> TameTask(tooBig, tasks[i])
  }

  lemma {:induction false} TameReplace(tooBig: Limits, tasks: seq<Task>, i: nat, parts: seq<Task>)
    requires TameTasks(tooBig, tasks) && i < |tasks| && TameTasks(tooBig, parts)
    ensures TameTasks(tooBig, Replace(tasks, i, parts))
  {
    var all := Replace(tasks, i, parts);
    forall k | 0 <= k < |all| ensures TameTask(tooBig, all[k]) {
      if k < i {
        assert all[k] == tasks[k];
      } else if k < i + |parts| {
        assert all[k] == parts[k - i];
      } else {
        assert all[k] == tasks[k - |parts| + 1];
      }
    }
  }

  /** The working steps that are left with this node. */
  function NodeLeft(tooBig: Limits, w: World): nat {
    if w.proc.None? then 0 else
    var p := w.proc.value;
    Total(NodeWork(tooBig), p.tasks)
    + (if p.started then 0 else 1) + |p.queue| + 3 * Unsaved(p, EndOf(w.runs)) + SaveLeft(p.sync)
  }

  /** The process has a step fewer to take, and its tasks are tame. */
  ghost predicate NodeMoves(tooBig: Limits, w: World, w': World) {
    w'.proc.Some? && NodeLeft(tooBig, w') < NodeLeft(tooBig, w) && TameTasks(tooBig, w'.proc.value.tasks)
  }

  lemma {:induction false} NodeAcquire(tooBig: Limits, p: Proc, i: nat)
    requires Internal(p, Acquire(i)) && TameTasks(tooBig, p.tasks)
    ensures var p' := ProcStep(p, Acquire(i));
            && Total(NodeWork(tooBig), p'.tasks) + 1 == Total(NodeWork(tooBig), p.tasks)
            && TameTasks(tooBig, p'.tasks)
  {
    var task := Fetching(p.tasks[i].lo, p.tasks[i].hi);
    TotalReplace(NodeWork(tooBig), p.tasks, i, [task]);
    TotalOne(NodeWork(tooBig), task);
    assert TameTask(tooBig, p.tasks[i]);
    TameReplace(tooBig, p.tasks, i, [task]);
  }

  lemma {:induction false} NodeSend(tooBig: Limits, p: Proc, i: nat)
    requires Internal(p, SendItem(i)) && TameTasks(tooBig, p.tasks)
    ensures var p' := ProcStep(p, SendItem(i));
            && Total(NodeWork(tooBig), p'.tasks) + 2 == Total(NodeWork(tooBig), p.tasks)
            && TameTasks(tooBig, p'.tasks)
  {
    TotalReplace(NodeWork(tooBig), p.tasks, i, []);
    TameReplace(tooBig, p.tasks, i, []);
  }

  lemma {:induction false} NodeFetch(
      tooBig: Limits, p: Proc, i: nat, r: Result<map<nat, seq<Record>>, FetchError>)
    requires i < |p.tasks| && p.tasks[i].Fetching? && TameTasks(tooBig, p.tasks)
    requires !NextOf(p.tasks[i].lo, p.tasks[i].hi, r).Panic?
    requires r == Err(ReqTooBig) <==> tooBig(p.tasks[i].lo, p.tasks[i].hi)
    ensures AfterFetch(p, i, r).Some?
    ensures var p' := AfterFetch(p, i, r).value;
            && Total(NodeWork(tooBig), p'.tasks) < Total(NodeWork(tooBig), p.tasks) && TameTasks(tooBig, p'.tasks)
            && p'.started == p.started && p'.queue == p.queue && p'.sync == p.sync && p'.currEnd == p.currEnd
  {
    var lo, hi := p.tasks[i].lo, p.tasks[i].hi;
    assert TameTask(tooBig, p.tasks[i]);
    match NextOf(lo, hi, r) {
      case Send(item) =>
        SendTotals(NodeWork(tooBig), p, i, item);
        TameReplace(tooBig, p.tasks, i, [Sending(item)]);
      case Split(_, _) =>
        SplitTotals(NodeWork(tooBig), p, i);
        TameReplace(tooBig, p.tasks, i, Halves(lo, hi));
    }
  }

  /** A step that does not touch the tasks lowers both measures alike. */
  lemma {:induction false} NodeOther(cfg: Config, tooBig: Limits, w: World, l: Label)
    requires Inv(cfg, w) && Works(cfg, w, l) && TameTasks(tooBig, w.proc.value.tasks)
    requires l.StartSync? || l.Receive? || l.Commit? || l.Publish? || l.Clean?
    ensures NodeMoves(tooBig, w, Apply(cfg, w, l))
  {
    WorkShrinks(cfg, w, l);
    assert Apply(cfg, w, l).proc.value.tasks == w.proc.value.tasks;
  }

  /** With a node for which the requests are tame, every working step leaves fewer. */
  lemma {:induction false} NodeShrinks(cfg: Config, tooBig: Limits, w: World, l: Label)
    requires Inv(cfg, w) && Works(cfg, w, l) && Obeys(cfg, tooBig, w, l) && TameTasks(tooBig, w.proc.value.tasks)
    ensures NodeMoves(tooBig, w, Apply(cfg, w, l))
  {
    var p := w.proc.value;
    match l {
      case Acquire(i) => NodeAcquire(tooBig, p, i);
      case SendItem(i) => NodeSend(tooBig, p, i);
      case FetchDone(i, logs, batch) => NodeFetch(tooBig, p, i, FetchResult(cfg, logs, batch));
      case _ => NodeOther(cfg, tooBig, w, l);
    }
  }

  lemma {:induction false} NodeIdles(cfg: Config, tooBig: Limits, w: World, l: Label)
    requires Inv(cfg, w) && Idles(cfg, w, l)
    ensures var w' := Apply(cfg, w, l);
            w'.proc.Some? && NodeLeft(tooBig, w') == NodeLeft(tooBig, w) && w'.proc.value.tasks == w.proc.value.tasks
  {
  }

  lemma {:induction false} NodeRunBound(cfg: Config, tooBig: Limits, w: World, ls: seq<Label>)
    requires Faithful(cfg) && Inv(cfg, w) && w.proc.Some? && TameTasks(tooBig, w.proc.value.tasks)
    requires NodeRun(cfg, tooBig, w, ls)
    ensures CycleRun(cfg, w, ls) && WorkSteps(cfg, w, ls) <= NodeLeft(tooBig, w)
    decreases |ls|
  {
    NodeRunIsCycle(cfg, tooBig, w, ls);
    if ls != [] {
      CycleStep(cfg, w, ls[0]);
      if Works(cfg, w, ls[0]) {
        NodeShrinks(cfg, tooBig, w, ls[0]);
      } else {
        NodeIdles(cfg, tooBig, w, ls[0]);
      }
      NodeRunBound(cfg, tooBig, Apply(cfg, w, ls[0]), ls[1..]);
    }
  }

  /** A request that is not tame can be followed for as long as one likes. */
  lemma {:induction false} WildRequestRuns(
      cfg: Config, tooBig: Limits, w: World, i: nat, lo: nat, hi: nat, n: nat)
    returns (ls: seq<Label>)
    requires WaitsFor(w, i, lo, hi) && !Tame(tooBig, lo, hi)
    ensures NodeRun(cfg, tooBig, w, ls) && CycleRun(cfg, w, ls) && WorkSteps(cfg, w, ls) == 2 * n
    decreases n
  {
    if n == 0 {
      ls := [];
    } else {
      var w2 := SplitAgain(cfg, w, i, lo, hi);
      var rest;
      HalfIsWholeIff(lo, hi);
      if !Tame(tooBig, lo, Mid(lo, hi)) {
        rest := WildRequestRuns(cfg, tooBig, w2, i, lo, Mid(lo, hi), n - 1);
      } else {
        rest := WildRequestRuns(cfg, tooBig, w2, i + 1, Mid(lo, hi) + 1, hi, n - 1);
      }
      ls := SplitFirst(cfg, tooBig, w, i, lo, hi, rest);
    }
  }

  lemma {:induction false} SplitFirst(
      cfg: Config, tooBig: Limits, w: World, i: nat, lo: nat, hi: nat, rest: seq<Label>)
    returns (ls: seq<Label>)
    requires WaitsFor(w, i, lo, hi) && tooBig(lo, hi)
    requires Works(cfg, w, Acquire(i))
    requires Works(cfg, Apply(cfg, w, Acquire(i)), TooBig(i))
    requires var w2 := Apply(cfg, Apply(cfg, w, Acquire(i)), TooBig(i));
             NodeRun(cfg, tooBig, w2, rest) && CycleRun(cfg, w2, rest)
    ensures NodeRun(cfg, tooBig, w, ls) && CycleRun(cfg, w, ls)
    ensures WorkSteps(cfg, w, ls)
         == 2 + WorkSteps(cfg, Apply(cfg, Apply(cfg, w, Acquire(i)), TooBig(i)), rest)
  {
    var w1 := Apply(cfg, w, Acquire(i));
    var more := [TooBig(i)] + rest;
    ls := [Acquire(i)] + more;
    AcquireStep(cfg, w, i, lo, hi);
    assert w1.proc.value.tasks[i] == Fetching(lo, hi);
    assert FetchResult(cfg, Err(ReqTooBig), Err(ReqTooBig)) == Err(ReqTooBig);
    assert more[0] == TooBig(i) && more[1..] == rest && ls[0] == Acquire(i) && ls[1..] == more;
    OneMore(cfg, w1, TooBig(i), rest);
    OneMore(cfg, w, Acquire(i), more);
    assert NodeRun(cfg, tooBig, w1, more);
  }

  /** No run of the cycle with this node takes more than m working steps. */
  ghost predicate NodeBounded(cfg: Config, tooBig: Limits, w: World, m: nat) {
    forall ls :: NodeRun(cfg, tooBig, w, ls) && CycleRun(cfg, w, ls) ==> WorkSteps(cfg, w, ls) <= m
  }

  /**
   With a node that always answers alike, the cycles of a fresh process are bounded if
   and only if the splitting of its request comes to no range that is too big and one
   of its own halves: one block, or an empty range inverted by at most two.
   */
  lemma {:induction false} NodeCyclesEndIff(cfg: Config, tooBig: Limits, w: World, boot: Label)
    requires Valid(cfg.chain) && Reachable(cfg, w) && cfg.concurrency > 0
    requires (boot.BootRange? || boot.BootFull?) && Enabled(cfg, w, boot)
    ensures var booted := Apply(cfg, w, boot);
            && booted.proc.Some?
            && ((exists m: nat :: NodeBounded(cfg, tooBig, booted, m))
                <==> Tame(tooBig, booted.proc.value.start, booted.proc.value.currEnd))
  {
    ReachableInv(cfg, w);
    ValidIsFaithful(cfg);
    StepKeeps(cfg, w, boot);
    var booted := Apply(cfg, w, boot);
    var lo, hi := booted.proc.value.start, booted.proc.value.currEnd;
    assert booted.proc.value.tasks == [Waiting(lo, hi)];
    if Tame(tooBig, lo, hi) {
      TameEnds(cfg, tooBig, booted);
    }
    if m: nat :| NodeBounded(cfg, tooBig, booted, m) {
      if !Tame(tooBig, lo, hi) {
        var ls := WildRequestRuns(cfg, tooBig, booted, 0, lo, hi, m + 1);
      }
    }
  }

  lemma {:induction false} TameEnds(cfg: Config, tooBig: Limits, w: World)
    requires Faithful(cfg) && Inv(cfg, w) && w.proc.Some? && TameTasks(tooBig, w.proc.value.tasks)
    ensures NodeBounded(cfg, tooBig, w, NodeLeft(tooBig, w))
  {
    forall ls | NodeRun(cfg, tooBig, w, ls) && CycleRun(cfg, w, ls)
      ensures WorkSteps(cfg, w, ls) <= NodeLeft(tooBig, w)
    {
      NodeRunBound(cfg, tooBig, w, ls);
    }
  }
}
