/**
 The indexer as a step system: fetch tasks, the channel, the synchronizer, the
 database and the orchestrator, with every interleaving of their steps, crashes
 at any point and restarts in either mode.
 */
module Pipeline {
  import opened Wrappers
  import opened Types
  import opened Persistor
  import opened FetchJoin
  import opened ChainSpec
  import opened Fetcher
  import Sync = Synchronizer

  /** `logOrder` says that the nodes list the logs of one transaction in log order. */
  datatype Config = Config(lib: Lib, chain: Chain, concurrency: nat, logOrder: bool)

  /** The synchronizer's channel (synchronizer/synchronizer.go:35). */
  const CAPACITY: nat := 200

  /** A fetchWithRetry goroutine: waiting for a permit, fetching, or blocked on the channel. */
  datatype Task = Waiting(lo: nat, hi: nat) | Fetching(lo: nat, hi: nat) | Sending(item: SyncItem)

  /**
   Where the synchronizer is inside save: a commit is followed by the update of
   the current block, then of the index and the buffer.
   */
  datatype SyncPc = Idle | Committed(block: nat, index: nat) | Published(from: nat, index: nat)

  /** The orchestrator rests between ticks, or holds a block it read while it asks for the tag. */
  datatype OrchPc = Off | Resting | Asking(seen: nat)

  datatype Proc = Proc(
    start: nat,
    currEnd: nat,
    started: bool,
    currBlock: nat,
    currIndex: nat,
    buffer: Sync.Buffer,
    queue: seq<SyncItem>,
    tasks: seq<Task>,
    permits: nat,
    sync: SyncPc,
    orch: OrchPc)

  /** One process: it started at `from` and has committed the blocks below `upto`. */
  datatype Run = Run(from: nat, upto: nat)

  /**
   The database file, the running process if any, and two histories since the
   buckets were last emptied: the processes, and the blocks handed to successful
   SaveData calls.
   */
  datatype World = World(db: Db, proc: Option<Proc>, runs: seq<Run>, committed: seq<nat>)

  const INITIAL: World := World(Db(None, None), None, [], [])

  datatype Label =
    | BootRange(lo: nat, hi: nat)
    | BootFull(tag: nat)
    | BootFails
    | StartSync
    | Acquire(task: nat)
    | FetchDone(task: nat, logs: Logs, batch: Batch)
    | SendItem(task: nat)
    | Receive
    | CommitFails
    | Commit
    | Publish
    | Clean
    | Tick
    | Tag(reply: Option<nat>)
    | Crash

  // ---------- Pieces of steps ----------

  /** The blocks from `a` up to, not including, `b`. */
  function Interval(a: nat, b: nat): seq<nat> {
    if b <= a then [] else Interval(a, b - 1) + [b - 1]
  }

  /** The task at position i is replaced by the given ones. */
  function Replace(tasks: seq<Task>, i: nat, parts: seq<Task>): seq<Task>
    requires i < |tasks|
  {
    tasks[..i] + parts + tasks[i + 1..]
  }

  /** StartDB, and a process that begins at `start` with one request up to `end`. */
  function Boot(cfg: Config, w: World, mode: Mode, start: nat, end: nat): World {
    var kept := if w.db.Wipes(mode) then [] else w.runs;
    World(
      w.db.Start(mode),
      Some(Proc(
        start, end, false, 0, 0, map[], [], [Waiting(start, end)], cfg.concurrency, Idle,
        if mode.ModeFull? then Resting else Off)),
      kept + [Run(start, start)],
      if w.db.Wipes(mode) then [] else w.committed)
  }

  /** In full mode a process starts after the last saved block (orchestrator/orchestrator.go:94-99). */
  function FullStart(w: World): int {
    w.db.Start(ModeFull).LastBlock() + 1
  }

  function FetchResult(cfg: Config, logs: Logs, batch: Batch): Result<map<nat, seq<Record>>, FetchError>
    requires Answers(logs, batch)
  {
    Fetched(cfg.lib, logs, batch)
  }

  /** What the nodes may answer to the two requests of a fetch. */
  ghost predicate MayReply(cfg: Config, lo: nat, hi: nat, logs: Logs, batch: Batch) {
    && Truthful(cfg.chain, lo, hi, logs, batch)
    && (cfg.logOrder && logs.Ok? ==> InLogOrder(logs.value))
  }

  /** The permit is free again; the task sends, splits, or takes the whole process down. */
  function AfterFetch(p: Proc, i: nat, r: Result<map<nat, seq<Record>>, FetchError>): Option<Proc>
    requires i < |p.tasks| && p.tasks[i].Fetching?
  {
    var task := p.tasks[i];
    match NextOf(task.lo, task.hi, r)
    case Send(item) => Some(p.(permits := p.permits + 1, tasks := Replace(p.tasks, i, [Sending(item)])))
    case Split(leftEnd, rightStart) =>
      Some(p.(permits := p.permits + 1,
              tasks := Replace(p.tasks, i, [Waiting(task.lo, leftEnd), Waiting(rightStart, task.hi)])))
    case Panic => None
  }

  /** The transaction of save: the contiguous blocks from the current one, under the next keys. */
  function AfterCommit(w: World, p: Proc): World
    requires w.db.Open() && w.runs != [] && p.currBlock in p.buffer
  {
    var f := Sync.Frontier(p.buffer, p.currBlock);
    var records := Sync.Flat(p.buffer, p.currBlock, f);
    var last := |w.runs| - 1;
    World(
      w.db.Save(Numbered(p.currIndex, records), f - 1),
      Some(p.(sync := Committed(f, p.currIndex + |records|))),
      w.runs[last := w.runs[last].(upto := f)],
      w.committed + Interval(p.currBlock, f))
  }

  /** The orchestrator acts on the block it read; a failed tag request counts as block 0. */
  function AfterTag(p: Proc, reply: Option<nat>): Proc
    requires p.orch.Asking?
  {
    var seen := p.orch.seen;
    var end := if reply.Some? then reply.value else 0;
    if seen > end then p.(orch := Resting)
    else p.(orch := Resting, currEnd := end, tasks := p.tasks + [Waiting(seen, end)])
  }

  // ---------- Steps ----------

  predicate BootEnabled(w: World, l: Label)
    requires l.BootRange? || l.BootFull? || l.BootFails?
  {
    w.proc.None? &&
    match l
    case BootRange(lo, hi) => 0 < lo < MAX_HEIGHT && 0 < hi < MAX_HEIGHT
    case BootFull(tag) => tag < MAX_HEIGHT && FullStart(w) >= 0
    case BootFails => true
  }

  ghost predicate Enabled(cfg: Config, w: World, l: Label) {
    if l.BootRange? || l.BootFull? || l.BootFails? then BootEnabled(w, l)
    else
      w.proc.Some? && w.db.Open() && w.runs != [] &&
      var p := w.proc.value;
      match l
      case StartSync => !p.started
      case Acquire(i) => i < |p.tasks| && p.tasks[i].Waiting? && p.permits > 0
      case FetchDone(i, logs, batch) =>
        && i < |p.tasks| && p.tasks[i].Fetching?
        && MayReply(cfg, p.tasks[i].lo, p.tasks[i].hi, logs, batch) && Answers(logs, batch)
      case SendItem(i) => i < |p.tasks| && p.tasks[i].Sending? && |p.queue| < CAPACITY
      case Receive => p.started && p.sync.Idle? && p.queue != []
      case CommitFails => p.started && p.sync.Idle? && p.currBlock in p.buffer
      case Commit => p.started && p.sync.Idle? && p.currBlock in p.buffer
      case Publish => p.sync.Committed?
      case Clean => p.sync.Published?
      case Tick => p.orch.Resting?
      case Tag(reply) => p.orch.Asking? && (reply.Some? ==> reply.value < MAX_HEIGHT)
      case Crash => true
      case _ => false
  }

  ghost function Apply(cfg: Config, w: World, l: Label): World
    requires Enabled(cfg, w, l)
  {
    match l
    case BootRange(lo, hi) => Boot(cfg, w, ModeRange, lo, hi)
    case BootFull(tag) => Boot(cfg, w, ModeFull, FullStart(w), tag)
    case BootFails =>
      World(w.db.Start(ModeFull), None,
            if w.db.Wipes(ModeFull) then [] else w.runs,
            if w.db.Wipes(ModeFull) then [] else w.committed)
    case Crash => w.(proc := None)
    case Commit => AfterCommit(w, w.proc.value)
    case FetchDone(i, logs, batch) => w.(proc := AfterFetch(w.proc.value, i, FetchResult(cfg, logs, batch)))
    case _ => w.(proc := Some(ProcStep(w.proc.value, l)))
  }

  /** The steps that change nothing outside the process. */
  predicate Internal(p: Proc, l: Label) {
    match l
    case Acquire(i) => i < |p.tasks| && p.tasks[i].Waiting? && p.permits > 0
    case SendItem(i) => i < |p.tasks| && p.tasks[i].Sending?
    case Receive => p.queue != []
    case Publish => p.sync.Committed?
    case Clean => p.sync.Published?
    case Tag(_) => p.orch.Asking?
    case _ => true
  }

  function ProcStep(p: Proc, l: Label): Proc
    requires Internal(p, l)
  {
    match l
    case StartSync => p.(started := true, currBlock := p.currBlock + p.start)
    case Acquire(i) =>
      p.(permits := p.permits - 1, tasks := Replace(p.tasks, i, [Fetching(p.tasks[i].lo, p.tasks[i].hi)]))
    case SendItem(i) => p.(queue := p.queue + [p.tasks[i].item], tasks := Replace(p.tasks, i, []))
    case Receive => p.(queue := p.queue[1..], buffer := p.buffer + Sync.Blocks(p.queue[0]))
    case Publish => p.(currBlock := p.sync.block, sync := Published(p.currBlock, p.sync.index))
    case Clean =>
      p.(currIndex := p.sync.index, buffer := Sync.Without(p.buffer, p.sync.from, p.currBlock), sync := Idle)
    case Tick => if p.currBlock > p.currEnd then p.(orch := Asking(p.currBlock)) else p
    case Tag(reply) => AfterTag(p, reply)
    case _ => p
  }

  // ---------- Runs ----------

  ghost predicate ValidRun(cfg: Config, w: World, ls: seq<Label>)
    decreases |ls|
  {
    ls == [] || (Enabled(cfg, w, ls[0]) && ValidRun(cfg, Apply(cfg, w, ls[0]), ls[1..]))
  }

  ghost function Exec(cfg: Config, w: World, ls: seq<Label>): World
    requires ValidRun(cfg, w, ls)
    decreases |ls|
  {
    if ls == [] then w else Exec(cfg, Apply(cfg, w, ls[0]), ls[1..])
  }

  ghost predicate Reachable(cfg: Config, w: World) {
    exists ls :: ValidRun(cfg, INITIAL, ls) && Exec(cfg, INITIAL, ls) == w
  }
}
