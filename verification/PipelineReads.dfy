/**
 Reading while indexing: a client that follows next-page links over the buckets
 of a working process.
 */
module PipelineReads {
  import opened Encoding
  import opened Types
  import opened Persistor
  import opened ChainSpec
  import opened Paging
  import opened Pipeline
  import opened PipelineInvariant
  import opened PipelineResults

  /** A reachable state in which one process has worked on empty buckets. */
  ghost predicate OneProcess(cfg: Config, w: World) {
    Reachable(cfg, w) && |w.runs| == 1 && w.db.Open()
  }

  /** The records of the blocks committed so far. */
  function Indexed(cfg: Config, w: World): seq<Record> {
    Scan(cfg, StartOf(w.runs), EndOf(w.runs))
  }

  predicate NoBoot(ls: seq<Label>) {
    forall i :: 0 <= i < |ls| ==> !ls[i].BootRange? && !ls[i].BootFull? && !ls[i].BootFails?
  }

  /** One state comes after another in the same process, or after it has stopped. */
  ghost predicate Later(cfg: Config, w: World, w': World) {
    exists ls :: NoBoot(ls) && ValidRun(cfg, w, ls) && Exec(cfg, w, ls) == w'
  }

  /** One request: the state that serves it, where it starts, and the page. */
  datatype Request = Request(world: World, start: nat, page: seq<Entry>)

  ghost predicate Serves(cfg: Config, r: Request, limit: nat) {
    OneProcess(cfg, r.world) && r.start < TWO_63 && IsPage(r.world.db.data.value, r.start, limit, r.page)
  }

  /** The next request follows the link of a full page, some time later. */
  ghost predicate Links(cfg: Config, r: Request, next: Request, limit: nat) {
    HasNext(r.page, limit) && next.start == r.start + |r.page| && Later(cfg, r.world, next.world)
  }

  /**
   A client that follows every link; each request is served from the bucket of
   its moment, and the process goes on in between.
   */
  ghost predicate Reads(cfg: Config, rs: seq<Request>, limit: nat) {
    && rs != []
    && (forall i :: 0 <= i < |rs| ==> Serves(cfg, rs[i], limit))
    && (forall i :: 0 < i < |rs| ==> Links(cfg, rs[i - 1], rs[i], limit))
    && !HasNext(rs[|rs| - 1].page, limit)
  }

  /** All pages one after the other. */
  function Joined(rs: seq<Request>): seq<Entry> {
    if rs == [] then [] else rs[0].page + Joined(rs[1..])
  }

  // ---------- The bucket only grows ----------

  predicate Grown(w: World, w': World) {
    w.runs != [] ==>
      && |w'.runs| == |w.runs|
      && w'.runs[0].from == w.runs[0].from
      && EndOf(w.runs) <= EndOf(w'.runs)
  }

  lemma {:induction false} StepGrows(cfg: Config, w: World, l: Label)
    requires Inv(cfg, w) && Enabled(cfg, w, l) && !l.BootRange? && !l.BootFull? && !l.BootFails?
    ensures Grown(w, Apply(cfg, w, l))
  {
  }

  lemma {:induction false} RunGrows(cfg: Config, w: World, ls: seq<Label>)
    requires Faithful(cfg) && Inv(cfg, w) && ValidRun(cfg, w, ls) && NoBoot(ls)
    ensures Grown(w, Exec(cfg, w, ls))
    decreases |ls|
  {
    if ls != [] {
      StepGrows(cfg, w, ls[0]);
      StepKeeps(cfg, w, ls[0]);
      RunGrows(cfg, Apply(cfg, w, ls[0]), ls[1..]);
    }
  }

  lemma {:induction false} IndexedGrows(cfg: Config, w: World, w': World)
    requires Valid(cfg.chain) && OneProcess(cfg, w) && Later(cfg, w, w') && |w'.runs| == 1
    ensures Indexed(cfg, w) <= Indexed(cfg, w')
  {
    var ls :| NoBoot(ls) && ValidRun(cfg, w, ls) && Exec(cfg, w, ls) == w';
    ReachableInv(cfg, w);
    ValidIsFaithful(cfg);
    RunGrows(cfg, w, ls);
    ScanSplit(cfg, w.runs[0].from, w.runs[0].upto, w'.runs[0].upto);
  }

  // ---------- Pages of the scan ----------

  /** Any page of the bucket is the slice of the scan that it asks for. */
  lemma {:induction false} PageOfScan(cfg: Config, w: World, start: Int, limit: int, page: seq<Entry>)
    requires cfg.logOrder && Valid(cfg.chain) && OneProcess(cfg, w) && |Indexed(cfg, w)| <= TWO_63
    requires IsPage(w.db.data.value, start, limit, page)
    ensures var scan := Indexed(cfg, w);
            && |page| == (if start < 0 || start >= |scan| || limit <= 0 then 0
                          else if |scan| - start < limit then |scan| - start else limit)
            && forall j :: 0 <= j < |page| ==>
                 page[j].index == start + j && 0 <= page[j].index < |scan| && page[j].data == scan[page[j].index]
  {
    BucketIsScan(cfg, w);
    PageOfDense(Indexed(cfg, w), start, limit, page);
  }

  /** A request against the indexed records instead of the bucket. */
  function VisitOf(cfg: Config, r: Request): Visit {
    Visit(Indexed(cfg, r.world), r.page)
  }

  /** What each request of a walk must be like. */
  ghost predicate Fits(v: Visit, start: nat, limit: nat) {
    start < TWO_63 && IsPage(Dense(v.snapshot), start, limit, v.page)
  }

  ghost predicate Continues(v: Visit, start: nat, next: Visit, nextStart: nat, limit: nat) {
    HasNext(v.page, limit) && nextStart == start + |v.page| && v.snapshot <= next.snapshot
  }

  ghost predicate Linked(walk: seq<Visit>, starts: seq<nat>, limit: nat) {
    && |walk| == |starts| > 0
    && (forall i :: 0 <= i < |walk| ==> Fits(walk[i], starts[i], limit))
    && (forall i :: 0 < i < |walk| ==> Continues(walk[i - 1], starts[i - 1], walk[i], starts[i], limit))
    && !HasNext(walk[|walk| - 1].page, limit)
  }

  lemma {:induction false} LinkedFollows(walk: seq<Visit>, starts: seq<nat>, limit: nat, i: nat)
    requires Linked(walk, starts, limit) && i < |walk|
    ensures Follows(walk[i..], starts[i], limit)
    decreases |walk| - i
  {
    assert Fits(walk[i], starts[i], limit);
    if i + 1 < |walk| {
      LinkedFollows(walk, starts, limit, i + 1);
      assert Continues(walk[i + 1 - 1], starts[i + 1 - 1], walk[i + 1], starts[i + 1], limit);
      assert walk[i..][1..] == walk[i + 1..];
    }
  }

  lemma {:induction false} RequestFits(cfg: Config, r: Request, limit: nat)
    requires cfg.logOrder && Valid(cfg.chain) && Serves(cfg, r, limit)
    ensures Fits(VisitOf(cfg, r), r.start, limit)
  {
    BucketIsScan(cfg, r.world);
  }

  lemma {:induction false} RequestContinues(cfg: Config, r: Request, next: Request, limit: nat)
    requires Valid(cfg.chain) && OneProcess(cfg, r.world) && |next.world.runs| == 1 && Links(cfg, r, next, limit)
    ensures Continues(VisitOf(cfg, r), r.start, VisitOf(cfg, next), next.start, limit)
  {
    IndexedGrows(cfg, r.world, next.world);
  }

  function WalkOf(cfg: Config, rs: seq<Request>): seq<Visit> {
    seq(|rs|, i requires 0 <= i < |rs| => VisitOf(cfg, rs[i]))
  }

  function StartsOf(rs: seq<Request>): seq<nat> {
    seq(|rs|, i requires 0 <= i < |rs| => rs[i].start)
  }

  ghost predicate AllFit(cfg: Config, rs: seq<Request>, limit: nat) {
    forall i :: 0 <= i < |rs| ==> Fits(VisitOf(cfg, rs[i]), rs[i].start, limit)
  }

  ghost predicate AllContinue(cfg: Config, rs: seq<Request>, limit: nat) {
    forall i :: 0 < i < |rs| ==>
      Continues(VisitOf(cfg, rs[i - 1]), rs[i - 1].start, VisitOf(cfg, rs[i]), rs[i].start, limit)
  }

  lemma {:induction false} ReadsFit(cfg: Config, rs: seq<Request>, limit: nat)
    requires cfg.logOrder && Valid(cfg.chain) && Reads(cfg, rs, limit)
    ensures AllFit(cfg, rs, limit)
  {
    forall i | 0 <= i < |rs| ensures Fits(VisitOf(cfg, rs[i]), rs[i].start, limit) {
      RequestFits(cfg, rs[i], limit);
    }
  }

  lemma {:induction false} ReadsContinue(cfg: Config, rs: seq<Request>, limit: nat)
    requires Valid(cfg.chain) && Reads(cfg, rs, limit)
    ensures AllContinue(cfg, rs, limit)
  {
    forall i | 0 < i < |rs|
      ensures Continues(VisitOf(cfg, rs[i - 1]), rs[i - 1].start, VisitOf(cfg, rs[i]), rs[i].start, limit)
    {
      assert Serves(cfg, rs[i - 1], limit) && Serves(cfg, rs[i], limit);
      RequestContinues(cfg, rs[i - 1], rs[i], limit);
    }
  }

  lemma {:induction false} ReadsAreLinked(cfg: Config, rs: seq<Request>, limit: nat)
    requires rs != [] && AllFit(cfg, rs, limit) && AllContinue(cfg, rs, limit)
    requires !HasNext(rs[|rs| - 1].page, limit)
    ensures Linked(WalkOf(cfg, rs), StartsOf(rs), limit)
  {
  }

  lemma {:induction false} ServedIsJoined(cfg: Config, rs: seq<Request>)
    ensures Served(WalkOf(cfg, rs)) == Joined(rs)
  {
    if rs != [] {
      assert WalkOf(cfg, rs)[1..] == WalkOf(cfg, rs[1..]);
      ServedIsJoined(cfg, rs[1..]);
    }
  }

  lemma {:induction false} JoinedIsTail(cfg: Config, rs: seq<Request>, limit: nat)
    requires cfg.logOrder && Valid(cfg.chain) && Reads(cfg, rs, limit) && limit > 0
    requires rs[0].start <= |Indexed(cfg, rs[0].world)|
    requires forall i :: 0 <= i < |rs| ==> |Indexed(cfg, rs[i].world)| < TWO_63
    ensures var last := Indexed(cfg, rs[|rs| - 1].world);
            rs[0].start <= |last| && Joined(rs) == Tail(last, rs[0].start)
  {
    var walk := WalkOf(cfg, rs);
    ReadsFit(cfg, rs, limit);
    ReadsContinue(cfg, rs, limit);
    ReadsAreLinked(cfg, rs, limit);
    LinkedFollows(walk, StartsOf(rs), limit, 0);
    assert walk[0..] == walk;
    ServedIsJoined(cfg, rs);
    ServedIsTail(walk, rs[0].start, limit);
  }

  /**
   Following the links while blocks are being indexed serves every record of the
   sequential scan from the first index to the end of what the last request saw,
   each once and in order.
   */
  lemma {:induction false} LinksServeTheScan(cfg: Config, rs: seq<Request>, limit: nat)
    requires cfg.logOrder && Valid(cfg.chain) && Reads(cfg, rs, limit) && limit > 0
    requires rs[0].start <= |Indexed(cfg, rs[0].world)|
    requires forall i :: 0 <= i < |rs| ==> |Indexed(cfg, rs[i].world)| < TWO_63
    ensures var last := Indexed(cfg, rs[|rs| - 1].world);
            && |Joined(rs)| == |last| - rs[0].start
            && forall j :: 0 <= j < |Joined(rs)| ==>
                 Joined(rs)[j] == Entry(rs[0].start + j, last[rs[0].start + j])
  {
    JoinedIsTail(cfg, rs, limit);
    TailAt(Indexed(cfg, rs[|rs| - 1].world), rs[0].start, Joined(rs));
  }
}
