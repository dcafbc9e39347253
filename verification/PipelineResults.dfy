/**
 What the invariant says about every reachable state: the bucket is the
 sequential scan, blocks are conserved, cycles open cleanly, and restarts
 continue at the right block.
 */
module PipelineResults {
  import opened Wrappers
  import opened Encoding
  import opened Types
  import opened Persistor
  import opened ChainSpec
  import opened Pipeline
  import opened PipelineInvariant

  // ---------- One process ----------

  /**
   While one process works on empty buckets, the data bucket maps key k to the
   k-th record of a sequential scan of the committed blocks, in every reachable
   state; outside a save the counters say how far the scan has come.
   */
  lemma {:induction false} BucketIsScan(cfg: Config, w: World)
    requires cfg.logOrder && Valid(cfg.chain) && Reachable(cfg, w) && |w.runs| == 1
    ensures w.db.Open() && w.db.data.value == Dense(Scan(cfg, w.runs[0].from, w.runs[0].upto))
    ensures w.proc.Some? && w.proc.value.started && w.proc.value.sync.Idle? ==>
              && w.proc.value.currBlock == w.runs[0].upto
              && w.proc.value.currIndex == |Scan(cfg, w.runs[0].from, w.runs[0].upto)|
  {
    ReachableInv(cfg, w);
    assert w.runs[..0] == [];
    assert Written(cfg, []) == map[];
  }

  /** Reading the bucket of one process: record k of the scan under key k, and nothing else. */
  lemma {:induction false} BucketLookup(cfg: Config, w: World)
    requires cfg.logOrder && Valid(cfg.chain) && Reachable(cfg, w) && |w.runs| == 1
    requires |Scan(cfg, w.runs[0].from, w.runs[0].upto)| <= TWO_63
    ensures w.db.Open()
    ensures var scan := Scan(cfg, w.runs[0].from, w.runs[0].upto);
            && (forall k :: 0 <= k < |scan| ==>
                  IntToBytes(k) in w.db.data.value && w.db.data.value[IntToBytes(k)] == scan[k])
            && (forall key :: key in w.db.data.value ==> exists k :: 0 <= k < |scan| && key == IntToBytes(k))
  {
    BucketIsScan(cfg, w);
    DenseLookup(Scan(cfg, w.runs[0].from, w.runs[0].upto));
  }

  /**
   Conservation: every block from the start to the end of the requested range is
   saved, or buffered, or in one queued item, or with one task, and never in two
   of these places; a block outside the range is in none.
   */
  lemma {:induction false} EveryBlockInOnePlace(cfg: Config, w: World, b: nat)
    requires Valid(cfg.chain) && Reachable(cfg, w) && w.proc.Some?
    ensures var p := w.proc.value;
            var u := EndOf(w.runs);
            (if p.start <= b < u then 1 else 0)
            + (if b in p.buffer && b >= u then 1 else 0)
            + QueueOwners(p.queue, b)
            + Total(OwnersOf(b), p.tasks)
            == if p.start <= b <= p.currEnd then 1 else 0
  {
    ReachableInv(cfg, w);
    assert Owners(w.proc.value, EndOf(w.runs), b) == Covers(w.proc.value.start, w.proc.value.currEnd, b);
  }

  // ---------- Cycles ----------

  lemma {:induction false} QueueOwnersAtLeast(queue: seq<SyncItem>, i: nat, b: nat)
    requires i < |queue| && queue[i].Covers(b)
    ensures QueueOwners(queue, b) >= 1
  {
    if i > 0 {
      QueueOwnersAtLeast(queue[1..], i - 1, b);
    }
  }

  predicate HasBlock(t: Task, b: nat) {
    match t
    case Waiting(lo, hi) => lo <= b <= hi
    case Fetching(lo, hi) => lo <= b <= hi
    case Sending(item) => item.Covers(b)
  }

  /**
   Whenever the orchestrator holds a block it read past the requested end,
   everything requested is saved and nothing non-empty is in flight, queued or
   buffered: the read cannot go stale while it asks for the tag.
   */
  lemma {:induction false} AskingMeansQuiet(cfg: Config, w: World)
    requires Valid(cfg.chain) && Reachable(cfg, w) && w.proc.Some? && w.proc.value.orch.Asking?
    ensures var p := w.proc.value;
            && p.orch.seen == p.currBlock == EndOf(w.runs)
            && (EndOf(w.runs) == p.currEnd + 1 || (EndOf(w.runs) == p.start > p.currEnd))
            && (forall i, b :: 0 <= i < |p.tasks| ==> !HasBlock(p.tasks[i], b))
            && (forall i, b :: 0 <= i < |p.queue| ==> !p.queue[i].Covers(b))
            && (forall b :: b in p.buffer ==> b < EndOf(w.runs))
  {
    ReachableInv(cfg, w);
    var p := w.proc.value;
    var u := EndOf(w.runs);
    FrontierBound(p, u);
    forall b: nat
      ensures Total(OwnersOf(b), p.tasks) == 0 && QueueOwners(p.queue, b) == 0 && (b in p.buffer ==> b < u)
    {
      assert Owners(p, u, b) == Covers(p.start, p.currEnd, b);
    }
    forall i, b: nat | 0 <= i < |p.tasks| ensures !HasBlock(p.tasks[i], b) {
      TotalAtLeast(OwnersOf(b), p.tasks, i);
    }
    forall i, b: nat | 0 <= i < |p.queue| ensures !p.queue[i].Covers(b) {
      if p.queue[i].Covers(b) {
        QueueOwnersAtLeast(p.queue, i, b);
      }
    }
  }

  /**
   A tag at or past the block that was read opens a cycle that starts exactly
   where the work done so far stops; any other answer, and a failed one, opens none.
   */
  lemma {:induction false} CyclesAreAdjacent(cfg: Config, w: World, reply: Option<nat>)
    requires Valid(cfg.chain) && Reachable(cfg, w) && Enabled(cfg, w, Tag(reply))
    ensures var p := w.proc.value;
            var p' := Apply(cfg, w, Tag(reply)).proc.value;
            var u := EndOf(w.runs);
            if reply.Some? && reply.value >= u then
              && p'.currEnd == reply.value > p.currEnd
              && p'.tasks == p.tasks + [Waiting(u, reply.value)]
              && (u == p.currEnd + 1 || u == p.start)
            else
              p'.currEnd == p.currEnd && p'.tasks == p.tasks
  {
    AskingMeansQuiet(cfg, w);
    ReachableInv(cfg, w);
  }

  // ---------- Restarts ----------

  lemma {:induction false} IntervalAt(a: nat, b: nat)
    requires a <= b
    ensures |Interval(a, b)| == b - a && forall i :: 0 <= i < b - a ==> Interval(a, b)[i] == a + i
    decreases b - a
  {
    if a < b {
      IntervalAt(a, b - 1);
    }
  }

  /**
   In full mode, across any stops, crashes and restarts, the blocks handed to
   successful saves are 0, 1, ..., last-block, each once and in order, and the
   next process starts with the first block that is not saved.
   */
  lemma {:induction false} FullModeSavesInOrder(cfg: Config, w: World)
    requires Valid(cfg.chain) && Reachable(cfg, w)
    requires w.db.Open() && w.db.admin.value.mode == Some(ModeFull)
    ensures |w.committed| == w.db.LastBlock() + 1
    ensures forall i :: 0 <= i < |w.committed| ==> w.committed[i] == i
    ensures FullStart(w) == |w.committed|
  {
    ReachableInv(cfg, w);
    StartBeforeEnd(w.runs);
    NextBlock(cfg, w.db, w.runs, w.committed);
    IntervalAt(0, EndOf(w.runs));
    assert w.db.Start(ModeFull) == w.db;
  }

  /** Range mode commits a contiguous interval from its first block, never past its last. */
  lemma {:induction false} RangeModeSavesInOrder(cfg: Config, w: World)
    requires Valid(cfg.chain) && Reachable(cfg, w) && w.proc.Some? && w.proc.value.orch.Off?
    ensures w.committed == Interval(w.proc.value.start, EndOf(w.runs)) && |w.runs| == 1
    ensures EndOf(w.runs) == w.proc.value.start || EndOf(w.runs) <= w.proc.value.currEnd + 1
  {
    ReachableInv(cfg, w);
    FrontierBound(w.proc.value, EndOf(w.runs));
  }

  // ---------- What a restart does to the keys ----------

  function RunScan(cfg: Config, r: Run): seq<Record> {
    Scan(cfg, r.from, r.upto)
  }

  function Longest(cfg: Config, runs: seq<Run>): nat {
    if runs == [] then 0 else
    var before := Longest(cfg, runs[..|runs| - 1]);
    var here := |RunScan(cfg, runs[|runs| - 1])|;
    if here > before then here else before
  }

  function Productive(cfg: Config, runs: seq<Run>): nat {
    if runs == [] then 0 else
    Productive(cfg, runs[..|runs| - 1]) + if RunScan(cfg, runs[|runs| - 1]) == [] then 0 else 1
  }

  lemma {:induction false} ContiguousInit(runs: seq<Run>)
    requires runs != [] && Contiguous(runs)
    ensures Contiguous(runs[..|runs| - 1])
    ensures var n := |runs| - 1;
            && StartOf(runs) == (if n == 0 then runs[n].from else StartOf(runs[..n]))
            && (n > 0 ==> EndOf(runs[..n]) == runs[n].from)
  {
  }

  /** The scan of all committed blocks is that of the earlier processes and then of the last. */
  lemma {:induction false} ScanOfRuns(cfg: Config, runs: seq<Run>)
    requires runs != [] && Contiguous(runs)
    ensures var n := |runs| - 1;
            Scan(cfg, StartOf(runs), EndOf(runs))
            == Scan(cfg, StartOf(runs[..n]), EndOf(runs[..n])) + RunScan(cfg, runs[n])
  {
    var n := |runs| - 1;
    ContiguousInit(runs);
    if n == 0 {
      assert Scan(cfg, StartOf(runs[..n]), EndOf(runs[..n])) == [];
    } else {
      StartBeforeEnd(runs[..n]);
      ScanSplit(cfg, StartOf(runs), runs[n].from, runs[n].upto);
    }
  }

  lemma {:induction false} WrittenKeys(cfg: Config, runs: seq<Run>, k: Key) returns (i: nat)
    requires k in Written(cfg, runs)
    ensures i < Longest(cfg, runs) && k == IntToBytes(i)
  {
    var n := |runs| - 1;
    PutFromKeys(Written(cfg, runs[..n]), 0, RunScan(cfg, runs[n]));
    if j :| 0 <= j < |RunScan(cfg, runs[n])| && k == KeyAt(0, j) {
      i := j;
    } else {
      i := WrittenKeys(cfg, runs[..n], k);
    }
  }

  /** With two processes that saved records, the longest scan is shorter than all of them together. */
  lemma {:induction false} LongestIsShorter(cfg: Config, runs: seq<Run>)
    requires Contiguous(runs)
    ensures Longest(cfg, runs) <= |Scan(cfg, StartOf(runs), EndOf(runs))|
    ensures Productive(cfg, runs) >= 1 <==> |Scan(cfg, StartOf(runs), EndOf(runs))| > 0
    ensures Longest(cfg, runs) > 0 <==> Productive(cfg, runs) >= 1
    ensures Productive(cfg, runs) >= 2 ==> Longest(cfg, runs) < |Scan(cfg, StartOf(runs), EndOf(runs))|
  {
    if runs != [] {
      ContiguousInit(runs);
      ScanOfRuns(cfg, runs);
      LongestIsShorter(cfg, runs[..|runs| - 1]);
    }
  }

  lemma {:induction false} OneProductive(cfg: Config, runs: seq<Run>)
    requires Contiguous(runs) && Productive(cfg, runs) <= 1
    ensures Written(cfg, runs) == Dense(Scan(cfg, StartOf(runs), EndOf(runs)))
  {
    if runs == [] {
      assert Numbered(0, Scan(cfg, 0, 0)) == [];
    } else {
      var n := |runs| - 1;
      var before, here := Scan(cfg, StartOf(runs[..n]), EndOf(runs[..n])), RunScan(cfg, runs[n]);
      ContiguousInit(runs);
      ScanOfRuns(cfg, runs);
      LongestIsShorter(cfg, runs[..n]);
      OneProductive(cfg, runs[..n]);
      if here == [] {
        assert before + here == before;
        assert Numbered(0, here) == [];
      } else {
        assert before == [] && before + here == here;
        assert Numbered(0, before) == [];
      }
    }
  }

  /** Two processes that saved records leave the last key of the whole scan unused. */
  lemma {:induction false} LastKeyMissing(cfg: Config, runs: seq<Run>)
    requires Contiguous(runs) && Productive(cfg, runs) >= 2
    requires |Scan(cfg, StartOf(runs), EndOf(runs))| <= TWO_63
    ensures |Scan(cfg, StartOf(runs), EndOf(runs))| > 0
    ensures IntToBytes(|Scan(cfg, StartOf(runs), EndOf(runs))| - 1) !in Written(cfg, runs)
  {
    var n := |Scan(cfg, StartOf(runs), EndOf(runs))|;
    LongestIsShorter(cfg, runs);
    if IntToBytes(n - 1) in Written(cfg, runs) {
      var i := WrittenKeys(cfg, runs, IntToBytes(n - 1));
      KeyOrder(i, n - 1);
    }
  }

  lemma {:induction false} SurviveIff(cfg: Config, runs: seq<Run>)
    requires Contiguous(runs) && |Scan(cfg, StartOf(runs), EndOf(runs))| <= TWO_63
    ensures Written(cfg, runs) == Dense(Scan(cfg, StartOf(runs), EndOf(runs))) <==> Productive(cfg, runs) <= 1
  {
    var all := Scan(cfg, StartOf(runs), EndOf(runs));
    if Productive(cfg, runs) <= 1 {
      OneProductive(cfg, runs);
    } else {
      LastKeyMissing(cfg, runs);
      DenseLookup(all);
      assert IntToBytes(|all| - 1) in Dense(all);
    }
  }

  /**
   The operator is told that data saved before a restart is not lost
   (fetcher/fetcher.go:201). The index restarts at 0, so the bucket holds the
   scan of all saved blocks if and only if at most one process since the buckets
   were last emptied has saved any record.
   */
  lemma {:induction false} RecordsSurviveRestartsIff(cfg: Config, w: World)
    requires cfg.logOrder && Valid(cfg.chain) && Reachable(cfg, w) && w.db.Open()
    requires |Scan(cfg, StartOf(w.runs), EndOf(w.runs))| <= TWO_63
    ensures w.db.data.value == Dense(Scan(cfg, StartOf(w.runs), EndOf(w.runs))) <==> Productive(cfg, w.runs) <= 1
  {
    ReachableInv(cfg, w);
    SurviveIff(cfg, w.runs);
  }

  /** The last process's records replace whatever was stored under the first keys. */
  lemma {:induction false} RestartOverwrites(cfg: Config, w: World, k: nat)
    requires cfg.logOrder && Valid(cfg.chain) && Reachable(cfg, w) && w.runs != []
    requires |RunScan(cfg, w.runs[|w.runs| - 1])| <= TWO_63 && k < |RunScan(cfg, w.runs[|w.runs| - 1])|
    ensures w.db.Open() && IntToBytes(k) in w.db.data.value
    ensures w.db.data.value[IntToBytes(k)] == RunScan(cfg, w.runs[|w.runs| - 1])[k]
  {
    ReachableInv(cfg, w);
    var n := |w.runs| - 1;
    PutFromValue(Written(cfg, w.runs[..n]), 0, RunScan(cfg, w.runs[n]), k);
    assert KeyAt(0, k) == IntToBytes(k);
  }
}
