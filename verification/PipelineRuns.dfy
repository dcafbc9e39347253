/**
 Runs of the step system put together: the three steps of a save against the
 save of the synchronizer, whole processes that complete, two processes that
 lose records, and the request that never ends.
 */
module PipelineRuns {
  import opened Wrappers
  import opened Encoding
  import opened Types
  import opened Persistor
  import opened FetchJoin
  import opened ChainSpec
  import opened Pipeline
  import opened PipelineInvariant
  import opened PipelineResults
  import opened PipelineProgress

  // ---------- Runs one after the other ----------

  lemma {:induction false} ExecConcat(cfg: Config, w: World, a: seq<Label>, b: seq<Label>)
    requires ValidRun(cfg, w, a) && ValidRun(cfg, Exec(cfg, w, a), b)
    ensures ValidRun(cfg, w, a + b) && Exec(cfg, w, a + b) == Exec(cfg, Exec(cfg, w, a), b)
    decreases |a|
  {
    if a == [] {
      assert a + b == b;
    } else {
      assert (a + b)[0] == a[0] && (a + b)[1..] == a[1..] + b;
      ExecConcat(cfg, Apply(cfg, w, a[0]), a[1..], b);
    }
  }

  lemma {:induction false} ExecOne(cfg: Config, w: World, l: Label)
    requires Enabled(cfg, w, l)
    ensures ValidRun(cfg, w, [l]) && Exec(cfg, w, [l]) == Apply(cfg, w, l)
  {
    assert [l][0] == l && [l][1..] == [];
    assert ValidRun(cfg, Apply(cfg, w, l), []);
  }

  lemma {:induction false} ReachableOn(cfg: Config, w: World, ls: seq<Label>)
    requires Reachable(cfg, w) && ValidRun(cfg, w, ls)
    ensures Reachable(cfg, Exec(cfg, w, ls))
  {
    var before :| ValidRun(cfg, INITIAL, before) && Exec(cfg, INITIAL, before) == w;
    ExecConcat(cfg, INITIAL, before, ls);
  }

  lemma {:induction false} ReachableStep(cfg: Config, w: World, l: Label)
    requires Reachable(cfg, w) && Enabled(cfg, w, l)
    ensures Reachable(cfg, Apply(cfg, w, l))
  {
    ExecOne(cfg, w, l);
    ReachableOn(cfg, w, [l]);
  }

  // ---------- A save in steps ----------

  /** What the synchronizer and the database hold. */
  function SyncState(w: World): Sync.State
    requires w.proc.Some?
  {
    Sync.State(w.proc.value.currBlock, w.proc.value.currIndex, w.proc.value.buffer, w.db)
  }

  /** Commit, publish and clean, one after the other, are one successful save of the synchronizer. */
  lemma {:induction false} SaveInSteps(cfg: Config, w: World)
    requires Enabled(cfg, w, Commit)
    ensures var w1 := Apply(cfg, w, Commit);
            && Enabled(cfg, w1, Publish)
            && var w2 := Apply(cfg, w1, Publish);
               && Enabled(cfg, w2, Clean)
               && var w3 := Apply(cfg, w2, Clean);
                  && w3.proc.Some? && w3.proc.value.sync.Idle?
                  && SyncState(w3) == Sync.Saved(SyncState(w), true)
  {
  }

  // ---------- A process that completes ----------

  /** Only the end of the last process's interval moves, and the orchestrator does not act. */
  predicate SameRun(w: World, w': World) {
    && w.proc.Some? && w'.proc.Some? && w'.proc.value.orch == w.proc.value.orch
    && w.runs != [] && |w'.runs| == |w.runs|
    && w'.runs[..|w.runs| - 1] == w.runs[..|w.runs| - 1]
    && w'.runs[|w.runs| - 1].from == w.runs[|w.runs| - 1].from
    && w.db.admin.Some? && w'.db.admin.Some? && w'.db.admin.value.mode == w.db.admin.value.mode
  }

  lemma {:induction false} StepSameRun(cfg: Config, w: World, l: Label)
    requires Works(cfg, w, l)
    ensures SameRun(w, Apply(cfg, w, l))
  {
  }

  /** A running process can always be brought to the end of its range. */
  lemma {:induction false} CycleCompletes(cfg: Config, w: World) returns (ls: seq<Label>)
    requires Valid(cfg.chain) && Faithful(cfg) && NeverFails(cfg) && cfg.concurrency > 0
    requires Inv(cfg, w) && w.proc.Some? && w.runs != [] && w.db.Open()
    ensures CycleRun(cfg, w, ls) && ValidRun(cfg, w, ls)
    ensures var w' := Exec(cfg, w, ls);
            && Inv(cfg, w') && w'.proc.Some? && LeftIn(w') == 0 && SameRun(w, w')
            && SameCycle(w, w')
    decreases LeftIn(w)
  {
    if LeftIn(w) == 0 {
      ls := [];
    } else {
      var l := NeverStuck(cfg, w);
      StepKeeps(cfg, w, l);
      WorkShrinks(cfg, w, l);
      StepSameRun(cfg, w, l);
      var w1 := Apply(cfg, w, l);
      var rest := CycleCompletes(cfg, w1);
      ls := [l] + rest;
      assert ls[0] == l && ls[1..] == rest;
      assert CycleRun(cfg, w1, rest);
    }
  }

  /** Starting a full-mode process keeps the state reachable and adds a run that has saved nothing. */
  lemma {:induction false} BootFullReaches(cfg: Config, w: World, tag: nat) returns (booted: World)
    requires Valid(cfg.chain) && Reachable(cfg, w) && w.proc.None? && tag < MAX_HEIGHT
    ensures Reachable(cfg, booted) && FullStart(w) >= 0 && booted == Apply(cfg, w, BootFull(tag))
    ensures booted.runs == KeptRuns(w, ModeFull) + [Run(FullStart(w), FullStart(w))]
    ensures booted.db.Open() && booted.db.admin.value.mode == Some(ModeFull)
    ensures booted.proc.Some? && booted.proc.value.tasks == [Waiting(FullStart(w), tag)]
    ensures booted.proc.value.start == FullStart(w) && booted.proc.value.currEnd == tag
    ensures booted.proc.value.permits == cfg.concurrency
  {
    ReachableInv(cfg, w);
    FullStartIsNext(cfg, w);
    ReachableStep(cfg, w, BootFull(tag));
    booted := Apply(cfg, w, BootFull(tag));
  }

  /** From any reachable state a running process can come to the end of its range. */
  lemma {:induction false} RangeCompletes(cfg: Config, w: World) returns (done: World)
    requires Valid(cfg.chain) && NeverFails(cfg) && cfg.concurrency > 0
    requires Reachable(cfg, w) && w.proc.Some? && w.runs != [] && w.db.Open()
    ensures Reachable(cfg, done) && done.proc.Some? && SameRun(w, done)
    ensures EndOf(done.runs) == done.proc.value.currBlock == Target(w.proc.value)
    ensures done.proc.value.currEnd == w.proc.value.currEnd && done.proc.value.start == w.proc.value.start
    ensures done.proc.value.tasks == []
  {
    ReachableInv(cfg, w);
    ValidIsFaithful(cfg);
    var ls := CycleCompletes(cfg, w);
    done := Exec(cfg, w, ls);
    ReachableOn(cfg, w, ls);
    NothingLeft(cfg, done);
  }

  /**
   Full mode, with a tag that is not behind: the process that starts after the
   last saved block can save everything up to the tag before it stops.
   */
  lemma {:induction false} ProcessCompletes(cfg: Config, w: World, tag: nat) returns (w': World)
    requires Valid(cfg.chain) && NeverFails(cfg) && cfg.concurrency > 0
    requires Reachable(cfg, w) && w.proc.None? && FullStart(w) <= tag < MAX_HEIGHT
    ensures Reachable(cfg, w') && w'.proc.None? && FullStart(w) >= 0
    ensures w'.runs == KeptRuns(w, ModeFull) + [Run(FullStart(w), tag + 1)]
    ensures w'.db.Open() && w'.db.admin.value.mode == Some(ModeFull)
  {
    var booted := BootFullReaches(cfg, w, tag);
    var done := RangeCompletes(cfg, booted);
    w' := CrashKeeps(cfg, done);
    RunsOf(done, KeptRuns(w, ModeFull), FullStart(w), tag + 1, booted);
  }

  lemma {:induction false} CrashKeeps(cfg: Config, w: World) returns (w': World)
    requires Valid(cfg.chain) && Reachable(cfg, w) && w.proc.Some?
    ensures Reachable(cfg, w') && w' == w.(proc := None) && w.db.Open()
  {
    ReachableInv(cfg, w);
    ReachableStep(cfg, w, Crash);
    w' := Apply(cfg, w, Crash);
  }

  lemma {:induction false} RunsOf(w: World, kept: seq<Run>, from: nat, upto: nat, booted: World)
    requires booted.runs == kept + [Run(from, from)] && SameRun(booted, w) && EndOf(w.runs) == upto
    ensures w.runs == kept + [Run(from, upto)]
  {
    var n := |kept|;
    assert booted.runs[..n] == kept;
    assert w.runs == w.runs[..n] + [w.runs[n]];
  }

  // ---------- Two processes lose records ----------

  lemma {:induction false} TwoRuns(cfg: Config, runs: seq<Run>)
    requires runs == [Run(0, 1), Run(1, 2)]
    requires BlockSpec(cfg.lib, cfg.chain, 0) != [] && BlockSpec(cfg.lib, cfg.chain, 1) != []
    ensures Productive(cfg, runs) == 2
  {
    assert runs[..1] == [Run(0, 1)] && runs[..1][..0] == [];
    assert Productive(cfg, []) == 0;
    assert Productive(cfg, runs[..1]) == 1;
  }

  /**
   On every chain whose first two blocks both have records, one stop between them
   is enough: some reachable state has saved both blocks and does not hold their
   records.
   */
  lemma {:induction false} RestartLosesRecords(cfg: Config) returns (w: World)
    requires cfg.logOrder && Valid(cfg.chain) && NeverFails(cfg) && cfg.concurrency > 0
    requires BlockSpec(cfg.lib, cfg.chain, 0) != [] && BlockSpec(cfg.lib, cfg.chain, 1) != []
    requires |Scan(cfg, 0, 2)| <= TWO_63
    ensures Reachable(cfg, w) && w.db.Open() && w.db.LastBlock() == 1
    ensures w.db.data.value != Dense(Scan(cfg, 0, 2))
  {
    assert ValidRun(cfg, INITIAL, []) && Exec(cfg, INITIAL, []) == INITIAL;
    var first := ProcessCompletes(cfg, INITIAL, 0);
    assert first.runs == [Run(0, 1)];
    SecondStart(cfg, first);
    w := ProcessCompletes(cfg, first, 1);
    assert w.runs == [Run(0, 1), Run(1, 2)];
    TwoRuns(cfg, w.runs);
    RecordsSurviveRestartsIff(cfg, w);
    SecondStart(cfg, w);
  }

  lemma {:induction false} SecondStart(cfg: Config, w: World)
    requires Valid(cfg.chain) && Reachable(cfg, w) && w.proc.None? && w.runs != []
    requires w.db.Open() && w.db.admin.value.mode == Some(ModeFull)
    ensures KeptRuns(w, ModeFull) == w.runs && FullStart(w) == EndOf(w.runs) == w.db.LastBlock() + 1
  {
    ReachableInv(cfg, w);
    FullStartIsNext(cfg, w);
    NextBlock(cfg, w.db, w.runs, w.committed);
  }

  /** The hash of the one transaction of block b. */
  function HashOf(b: nat): Hash {
    seq(b, _ => '1')
  }

  /** A chain with one matching log in every block. */
  function OneLogEach(): Config {
    Config(
      Lib("address", (_, _) => Some("address"), data => Root(data)),
      Chain((b: nat) => [Log(b, HashOf(b), 0, [])], (b: nat) => Header(b, 0, []), h => Tx(h, Some("address"), [])),
      1,
      true)
  }

  lemma {:induction false} OneLogBlock(lib: Lib, c: Chain, log: Log)
    requires Matches(lib, c, log)
    ensures Picked(lib, c, [log]) == [RecordFor(lib, c, log)]
  {
    assert [log][1..] == [];
    assert !Occurs(log.txHash, []);
    assert Picked(lib, c, []) == [];
  }

  lemma {:induction false} OneLogEachIsValid()
    ensures Valid(OneLogEach().chain) && NeverFails(OneLogEach())
    ensures forall b: nat :: BlockSpec(OneLogEach().lib, OneLogEach().chain, b) == [Record([], 0, [])]
  {
    var cfg := OneLogEach();
    forall b1, b2 | HashOf(b1) == HashOf(b2) ensures b1 == b2 {
      assert |HashOf(b1)| == |HashOf(b2)|;
    }
    forall b: nat ensures BlockSpec(cfg.lib, cfg.chain, b) == [Record([], 0, [])] {
      OneLogBlock(cfg.lib, cfg.chain, cfg.chain.logs(b)[0]);
      assert cfg.chain.logs(b) == [cfg.chain.logs(b)[0]];
    }
  }

  /** So the promise is false of the code: here two saved blocks leave one record. */
  lemma {:induction false} LossOnOneChain() returns (w: World)
    ensures Reachable(OneLogEach(), w) && w.db.Open() && w.db.LastBlock() == 1
    ensures w.db.data.value != Dense(Scan(OneLogEach(), 0, 2)) && |Scan(OneLogEach(), 0, 2)| == 2
  {
    OneLogEachIsValid();
    var cfg := OneLogEach();
    assert Scan(cfg, 0, 0) == [];
    assert |Scan(cfg, 0, 1)| == 1;
    assert |Scan(cfg, 0, 2)| == 2;
    w := RestartLosesRecords(cfg);
  }
}
