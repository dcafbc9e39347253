/**
 What calls of the balancer mean: which clients they visit, whose answer they
 return, and how blocks come and go over any run of calls made one at a time.
 */
module BalancerRuns {
  import opened Wrappers
  import opened Balancer

  // ---------- Visits and results ----------

  /** Visit j goes to the client at counter + j; it meets its script if it may be contacted, and is blocked if not. */
  ghost predicate Visits<V>(counter: nat, n: nat, script: nat -> Reply<V>, trace: seq<Visit<V>>) {
    forall j :: 0 <= j < |trace| ==>
      && n > 0
      && trace[j].client == Turn(counter + j, n)
      && trace[j].fate == (if trace[j].Contacts() then FateOf(script(counter + j).outcome) else WasBlocked)
  }

  predicate NoneDecisive<V>(trace: seq<Visit<V>>) {
    forall j :: 0 <= j < |trace| ==> !trace[j].fate.Decisive()
  }

  /** The result is that of the first decisive visit, which is the last one made, or else the given failure. */
  ghost predicate Decides<V>(trace: seq<Visit<V>>, result: Result<V, Error>, failure: Error) {
    if result == Err(failure) then NoneDecisive(trace)
    else
      && trace != [] && NoneDecisive(trace[..|trace| - 1])
      && match trace[|trace| - 1].fate
         case Succeeded(v) => result == Ok(v)
         case TooBig => result == Err(ReqTooBig)
         case _ => false
  }

  lemma {:induction false} VisitsJoin<V>(
      counter: nat, n: nat, script: nat -> Reply<V>, a: seq<Visit<V>>, b: seq<Visit<V>>)
    requires Visits(counter, n, script, a) && Visits(counter + |a|, n, script, b)
    ensures Visits(counter, n, script, a + b)
  {
    var all := a + b;
    forall j | 0 <= j < |all|
      ensures n > 0 && all[j].client == Turn(counter + j, n)
      ensures all[j].fate == if all[j].Contacts() then FateOf(script(counter + j).outcome) else WasBlocked
    {
      if j < |a| {
        assert all[j] == a[j];
      } else {
        assert all[j] == b[j - |a|] && counter + j == counter + |a| + (j - |a|);
      }
    }
  }

  lemma {:induction false} NoneJoin<V>(a: seq<Visit<V>>, b: seq<Visit<V>>)
    requires NoneDecisive(a) && NoneDecisive(b)
    ensures NoneDecisive(a + b)
  {
    var all := a + b;
    forall j | 0 <= j < |all| ensures !all[j].fate.Decisive() {
      if j >= |a| {
        assert all[j] == b[j - |a|];
      }
    }
  }

  lemma {:induction false} DecidesJoin<V>(a: seq<Visit<V>>, b: seq<Visit<V>>, result: Result<V, Error>, failure: Error)
    requires NoneDecisive(a) && Decides(b, result, failure)
    ensures Decides(a + b, result, failure)
  {
    if result == Err(failure) {
      NoneJoin(a, b);
    } else {
      var last := |b| - 1;
      NoneJoin(a, b[..last]);
      assert (a + b)[..|a| + last] == a + b[..last];
      assert (a + b)[|a| + last] == b[last];
    }
  }

  lemma {:induction false} OneVisit<V>(s: State, script: nat -> Reply<V>)
    requires s.until != []
    ensures Visits(s.counter, |s.until|, script, [NextVisit(s, script(s.counter))])
  {
  }

  lemma {:induction false} PassVisits<V>(s: State, script: nat -> Reply<V>, blockTime: nat, k: nat)
    requires k > 0 ==> s.until != []
    ensures Visits(s.counter, |s.until|, script, Retries(s, script, blockTime, k).trace)
    decreases k
  {
    if k > 0 {
      var visit := NextVisit(s, script(s.counter));
      var s' := AfterAttempt(s, script(s.counter), blockTime);
      OneVisit(s, script);
      PassVisits(s', script, blockTime, k - 1);
      VisitsJoin(s.counter, |s.until|, script, [visit], Retries(s', script, blockTime, k - 1).trace);
    }
  }

  lemma {:induction false} PassDecides<V>(s: State, script: nat -> Reply<V>, blockTime: nat, k: nat)
    requires k > 0 ==> s.until != []
    ensures var out := Retries(s, script, blockTime, k); Decides(out.trace, out.result, MaxRetries)
    decreases k
  {
    if k > 0 {
      var visit := NextVisit(s, script(s.counter));
      var s' := AfterAttempt(s, script(s.counter), blockTime);
      if !visit.fate.Decisive() {
        PassDecides(s', script, blockTime, k - 1);
        var rest := Retries(s', script, blockTime, k - 1);
        DecidesJoin([visit], rest.trace, rest.result, MaxRetries);
      }
    }
  }

  /** A pass visits the next clients in cyclic order up to the first decisive one. */
  lemma {:induction false} PassMeaning<V>(s: State, script: nat -> Reply<V>, blockTime: nat, k: nat)
    requires k > 0 ==> s.until != []
    ensures var out := Retries(s, script, blockTime, k);
            && Visits(s.counter, |s.until|, script, out.trace)
            && Decides(out.trace, out.result, MaxRetries)
  {
    PassVisits(s, script, blockTime, k);
    PassDecides(s, script, blockTime, k);
  }

  lemma {:induction false} CallCounts<V>(s: State, script: nat -> Reply<V>, blockTime: nat, k: nat)
    ensures var out := Rounds(s, script, blockTime, k);
            && out.state.counter == s.counter + |out.trace|
            && |out.trace| <= Times(k, |s.until|)
            && (out.result == Err(MaxRounds) ==> |out.trace| == Times(k, |s.until|))
            && |out.state.until| == |s.until|
    decreases k
  {
    if k > 0 {
      var out := Retries(s, script, blockTime, |s.until|);
      RetriesTrace(s, script, blockTime, |s.until|);
      PassDecides(s, script, blockTime, |s.until|);
      CallCounts(Slept(out.state, blockTime), script, blockTime, k - 1);
    }
  }

  ghost predicate VisitsFrom<V>(s: State, script: nat -> Reply<V>, trace: seq<Visit<V>>) {
    Visits(s.counter, |s.until|, script, trace)
  }

  lemma {:induction false} RoundVisits<V>(
      s: State, script: nat -> Reply<V>, blockTime: nat, next: State, rest: seq<Visit<V>>)
    requires Retries(s, script, blockTime, |s.until|).result == Err(MaxRetries)
    requires next == Slept(Retries(s, script, blockTime, |s.until|).state, blockTime) && VisitsFrom(next, script, rest)
    ensures VisitsFrom(s, script, Retries(s, script, blockTime, |s.until|).trace + rest)
  {
    RetriesTrace(s, script, blockTime, |s.until|);
    PassVisits(s, script, blockTime, |s.until|);
    VisitsJoin(s.counter, |s.until|, script, Retries(s, script, blockTime, |s.until|).trace, rest);
  }

  lemma {:induction false} CallVisits<V>(s: State, script: nat -> Reply<V>, blockTime: nat, k: nat)
    ensures VisitsFrom(s, script, Rounds(s, script, blockTime, k).trace)
    decreases k
  {
    if k > 0 {
      var out := Retries(s, script, blockTime, |s.until|);
      if out.result == Err(MaxRetries) {
        var next := Slept(out.state, blockTime);
        CallVisits(next, script, blockTime, k - 1);
        RoundVisits(s, script, blockTime, next, Rounds(next, script, blockTime, k - 1).trace);
      } else {
        PassVisits(s, script, blockTime, |s.until|);
      }
    }
  }

  lemma {:induction false} CallDecides<V>(s: State, script: nat -> Reply<V>, blockTime: nat, k: nat)
    ensures var out := Rounds(s, script, blockTime, k); Decides(out.trace, out.result, MaxRounds)
    decreases k
  {
    if k > 0 {
      var out := Retries(s, script, blockTime, |s.until|);
      PassDecides(s, script, blockTime, |s.until|);
      if out.result == Err(MaxRetries) {
        var next := Slept(out.state, blockTime);
        CallDecides(next, script, blockTime, k - 1);
        var rest := Rounds(next, script, blockTime, k - 1);
        DecidesJoin(out.trace, rest.trace, rest.result, MaxRounds);
      }
    }
  }

  /**
   A call makes at most maxRounds * n attempts, moves the counter by exactly the
   number of attempts, and returns the answer of the first decisive client in
   visiting order, or else ErrMaxRounds after every attempt was made.
   */
  lemma {:induction false} CallMeaning<V>(s: State, script: nat -> Reply<V>, blockTime: nat, k: nat)
    ensures var out := Rounds(s, script, blockTime, k);
            && Visits(s.counter, |s.until|, script, out.trace)
            && Decides(out.trace, out.result, MaxRounds)
            && out.state.counter == s.counter + |out.trace|
            && |out.trace| <= k * |s.until|
            && (out.result == Err(MaxRounds) ==> |out.trace| == k * |s.until|)
            && |out.state.until| == |s.until|
  {
    CallCounts(s, script, blockTime, k);
    CallVisits(s, script, blockTime, k);
    CallDecides(s, script, blockTime, k);
    TimesIsProduct(k, |s.until|);
  }

  /** The outcome of a contacted client that ends a call. */
  predicate EndsCall<V>(o: Outcome<V>) {
    o.Answer? || SaysTooBig(o)
  }

  /** What the last visit of a call says, if it contacts its client. */
  predicate EndsWith<V>(script: nat -> Reply<V>, counter: nat, trace: seq<Visit<V>>) {
    trace != [] && trace[|trace| - 1].Contacts() && EndsCall(script(counter + |trace| - 1).outcome)
  }

  lemma {:induction false} LastVisit<V>(
      counter: nat, n: nat, script: nat -> Reply<V>, trace: seq<Visit<V>>, result: Result<V, Error>, failure: Error)
    requires Visits(counter, n, script, trace) && Decides(trace, result, failure)
    requires failure != ReqTooBig
    ensures forall j :: 0 <= j < |trace| - (if result == Err(failure) then 0 else 1) && trace[j].Contacts() ==>
              !EndsCall(script(counter + j).outcome)
    ensures result != Err(failure) ==> EndsWith(script, counter, trace)
    ensures result == Err(ReqTooBig) <==>
              EndsWith(script, counter, trace) && SaysTooBig(script(counter + |trace| - 1).outcome)
    ensures result.Ok? <==> EndsWith(script, counter, trace) && script(counter + |trace| - 1).outcome.Answer?
    ensures result.Ok? ==> script(counter + |trace| - 1).outcome == Answer(result.value)
  {
    var last := |trace| - 1;
    forall j | 0 <= j < |trace| - (if result == Err(failure) then 0 else 1) && trace[j].Contacts()
      ensures !EndsCall(script(counter + j).outcome)
    {
      if j < last && result != Err(failure) {
        assert trace[..last][j] == trace[j];
      }
    }
  }

  /**
   A call in the terms of the nodes: it returns the answer, or ErrReqTooBig, of the
   first contacted client that answers or fails with -32602 or -32600. A 429, a
   timeout or any other failure never ends it: without such a client the result is
   ErrMaxRounds, after maxRounds * n attempts.
   */
  lemma {:induction false} CallEnds<V>(s: State, script: nat -> Reply<V>, blockTime: nat, k: nat)
    ensures var out := Rounds(s, script, blockTime, k);
            var last := s.counter + |out.trace| - 1;
            && (out.result == Err(ReqTooBig) <==>
                  EndsWith(script, s.counter, out.trace) && SaysTooBig(script(last).outcome))
            && (out.result.Ok? <==> EndsWith(script, s.counter, out.trace) && script(last).outcome.Answer?)
            && (out.result.Ok? ==> script(last).outcome == Answer(out.result.value))
            && (out.result.Err? ==> out.result.error == ReqTooBig || out.result.error == MaxRounds)
            && (out.result == Err(MaxRounds) ==> |out.trace| == k * |s.until|)
            && (forall j | 0 <= j < |out.trace| - (if out.result == Err(MaxRounds) then 0 else 1) ::
                  out.trace[j].Contacts() ==> !EndsCall(script(s.counter + j).outcome))
  {
    var out := Rounds(s, script, blockTime, k);
    CallMeaning(s, script, blockTime, k);
    LastVisit(s.counter, |s.until|, script, out.trace, out.result, MaxRounds);
  }

  // ---------- One attempt ----------

  /**
   What one attempt does, in the terms of the node. It reaches the client in turn
   exactly when that client's entry is a time not after its begin. A timeout or a 429
   blocks the client for the block time from the end of the attempt, another failure
   for good; an answer, and a request that is too big, block nobody.
   */
  lemma {:induction false} AttemptEffect<V>(s: State, reply: Reply<V>, blockTime: nat)
    requires s.until != []
    ensures var n := |s.until|;
            var i := s.counter % n;
            var visit, s' := NextVisit(s, reply), AfterAttempt(s, reply, blockTime);
            var begin := s.now + reply.wait;
            var reached := s.until[i].At? && s.until[i].time <= begin;
            && visit.client == i && visit.entry == s.until[i] && visit.at == begin
            && (visit.fate.WasBlocked? <==> !reached)
            && s'.counter == s.counter + 1
            && s'.now == begin + (if reached then reply.took else 0)
            && s'.until
               == if reached && AsksToWait(reply.outcome) then s.until[i := At(s'.now + blockTime)]
                  else if reached && FailsOtherwise(reply.outcome) then s.until[i := Forever]
                  else s.until
  {
    TurnIsRemainder(s.counter, |s.until|);
  }

  /** The first attempt of a new balancer reaches its first client. */
  lemma {:induction false} FirstAttemptReaches<V>(s: State, reply: Reply<V>)
    requires s.until != [] && s.counter == 0
    requires forall i :: 0 <= i < |s.until| ==> s.until[i] == At(s.now - 1_000_000_000)
    ensures NextVisit(s, reply).client == 0 && NextVisit(s, reply).Contacts()
    ensures NextVisit(s, reply).fate == FateOf(reply.outcome)
  {
  }

  /** So the first call of a balancer with an endpoint contacts it, if there is a round at all. */
  lemma {:induction false} FirstCallReaches<V>(n: nat, now: int, script: nat -> Reply<V>, blockTime: nat, k: nat)
    requires n > 0 && k > 0
    ensures var trace := Rounds(NewState(n, now), script, blockTime, k).trace;
            trace != [] && trace[0].client == 0 && trace[0].Contacts()
  {
    var s := NewState(n, now);
    FirstAttemptReaches(s, script(s.counter));
    assert Retries(s, script, blockTime, n).trace[0] == NextVisit(s, script(s.counter));
  }

  // ---------- Cyclic order ----------

  /** Among n consecutive counters exactly one is a given client's turn. */
  lemma {:induction false} Offset(c: nat, n: nat, i: nat) returns (j: nat)
    requires i < n
    ensures j < n && Turn(c + j, n) == i
  {
    if c >= n {
      j := Offset(c - n, n, i);
    } else if i >= c {
      j := i - c;
    } else {
      j := n - c + i;
      assert Turn(n + i, n) == Turn(i, n);
    }
  }

  lemma {:induction false} DistinctTurns(a: nat, b: nat, n: nat)
    requires a < b < a + n
    ensures Turn(a, n) != Turn(b, n)
  {
    if a >= n {
      DistinctTurns(a - n, b - n, n);
    } else if b >= n {
      assert Turn(b, n) == Turn(b - n, n) == b - n;
    }
  }

  predicate VisitedOnce<V>(trace: seq<Visit<V>>, i: nat) {
    && (exists j :: 0 <= j < |trace| && trace[j].client == i)
    && (forall j, k :: 0 <= j < k < |trace| ==> !(trace[j].client == i && trace[k].client == i))
  }

  /** A failing pass visits every client exactly once, and the next pass begins with the same client. */
  lemma {:induction false} FailingPassVisitsAll<V>(s: State, script: nat -> Reply<V>, blockTime: nat)
    requires s.until != [] && Retries(s, script, blockTime, |s.until|).result == Err(MaxRetries)
    ensures var out := Retries(s, script, blockTime, |s.until|);
            && (forall i :: 0 <= i < |s.until| ==> VisitedOnce(out.trace, i))
            && Turn(out.state.counter, |s.until|) == Turn(s.counter, |s.until|)
  {
    var n := |s.until|;
    RetriesTrace(s, script, blockTime, n);
    PassMeaning(s, script, blockTime, n);
    var trace := Retries(s, script, blockTime, n).trace;
    forall i | 0 <= i < n ensures VisitedOnce(trace, i) {
      var j := Offset(s.counter, n, i);
      assert trace[j].client == i;
      forall j, k | 0 <= j < k < |trace| ensures trace[j].client != trace[k].client {
        DistinctTurns(s.counter + j, s.counter + k, n);
      }
    }
  }

  // ---------- Blocks ----------

  /** No temporary block reaches further than the block time from now. */
  predicate Bounded(s: State, blockTime: nat) {
    forall i :: 0 <= i < |s.until| && s.until[i].At? ==> s.until[i].time <= s.now + blockTime
  }

  predicate Broke<V>(trace: seq<Visit<V>>, i: nat) {
    exists j :: 0 <= j < |trace| && trace[j].client == i && trace[j].fate.Broken?
  }

  /** A client is blocked for good exactly when it was before or one of its visits failed in another way. */
  ghost predicate ForeverIff<V>(u: seq<Until>, trace: seq<Visit<V>>, u': seq<Until>) {
    && |u'| == |u|
    && (forall i :: 0 <= i < |u| ==> (u'[i].Forever? <==> u[i].Forever? || Broke(trace, i)))
  }

  /** A client whose block lasts, for good or beyond the end, is never contacted and its block stays as it is. */
  ghost predicate Rested<V>(u: seq<Until>, end: int, trace: seq<Visit<V>>, u': seq<Until>) {
    && |u'| == |u|
    && (forall i :: 0 <= i < |u| && (u[i].Forever? || end < u[i].time) ==> u'[i] == u[i])
    && (forall j :: 0 <= j < |trace| ==> trace[j].client < |u|)
    && (forall j :: 0 <= j < |trace| && (u[trace[j].client].Forever? || end < u[trace[j].client].time) ==>
          trace[j].fate.WasBlocked? && !trace[j].Contacts())
  }

  ghost predicate KeepsBlocks<V>(s: State, blockTime: nat, out: Out<V>) {
    && out.state.now >= s.now
    && ForeverIff(s.until, out.trace, out.state.until)
    && Rested(s.until, out.state.now, out.trace, out.state.until)
    && (Bounded(s, blockTime) ==> Bounded(out.state, blockTime))
  }

  lemma {:induction false} BrokeJoin<V>(a: seq<Visit<V>>, b: seq<Visit<V>>, i: nat)
    ensures Broke(a + b, i) <==> Broke(a, i) || Broke(b, i)
  {
    if Broke(a, i) {
      var j :| 0 <= j < |a| && a[j].client == i && a[j].fate.Broken?;
      assert (a + b)[j] == a[j];
    }
    if Broke(b, i) {
      var j :| 0 <= j < |b| && b[j].client == i && b[j].fate.Broken?;
      assert (a + b)[|a| + j] == b[j];
    }
  }

  lemma {:induction false} KeepsJoin<V>(s: State, blockTime: nat, mid: State, a: seq<Visit<V>>, rest: Out<V>)
    requires KeepsBlocks(s, blockTime, Out(mid, a, Err(MaxRetries)))
    requires KeepsBlocks(mid, blockTime, rest)
    ensures KeepsBlocks(s, blockTime, Continued(a, rest))
  {
    var all := a + rest.trace;
    forall i | 0 <= i < |s.until|
      ensures rest.state.until[i].Forever? <==> s.until[i].Forever? || Broke(all, i)
    {
      BrokeJoin(a, rest.trace, i);
    }
    RestedJoin(s.until, mid.now, a, mid.until, rest);
  }

  lemma {:induction false} RestedJoin<V>(u: seq<Until>, now: int, a: seq<Visit<V>>, mid: seq<Until>, rest: Out<V>)
    requires Rested(u, now, a, mid) && now <= rest.state.now
    requires Rested(mid, rest.state.now, rest.trace, rest.state.until)
    ensures Rested(u, rest.state.now, a + rest.trace, rest.state.until)
  {
    var all, end := a + rest.trace, rest.state.now;
    forall i | 0 <= i < |u| && Blocks(u[i], end) ensures mid[i] == u[i] && rest.state.until[i] == u[i] {
      assert Blocks(u[i], now);
    }
    forall j | 0 <= j < |all|
      ensures all[j].client < |u|
      ensures Blocks(u[all[j].client], end) ==> all[j].fate.WasBlocked? && !all[j].Contacts()
    {
      if j >= |a| {
        assert all[j] == rest.trace[j - |a|];
      }
    }
  }

  lemma {:induction false} AttemptKeeps<V>(s: State, script: nat -> Reply<V>, blockTime: nat, result: Result<V, Error>)
    requires s.until != []
    ensures var visit := NextVisit(s, script(s.counter));
            KeepsBlocks(s, blockTime, Out(AfterAttempt(s, script(s.counter), blockTime), [visit], result))
  {
    var visit := NextVisit(s, script(s.counter));
    forall i ensures Broke([visit], i) <==> visit.client == i && visit.fate.Broken? {
      if visit.client == i && visit.fate.Broken? {
        assert [visit][0] == visit;
      }
    }
  }

  lemma {:induction false} NothingKeeps<V>(s: State, blockTime: nat, result: Result<V, Error>, later: nat)
    ensures KeepsBlocks(s, blockTime, Out(s.(now := s.now + later), [], result))
  {
  }

  lemma {:induction false} PassKeeps<V>(s: State, script: nat -> Reply<V>, blockTime: nat, k: nat)
    requires k > 0 ==> s.until != []
    ensures KeepsBlocks(s, blockTime, Retries(s, script, blockTime, k))
    decreases k
  {
    if k == 0 {
      NothingKeeps<V>(s, blockTime, Err(MaxRetries), 0);
    } else {
      var visit := NextVisit(s, script(s.counter));
      var s' := AfterAttempt(s, script(s.counter), blockTime);
      AttemptKeeps(s, script, blockTime, Retries(s, script, blockTime, k).result);
      if !visit.fate.Decisive() {
        AttemptKeeps(s, script, blockTime, Err(MaxRetries));
        PassKeeps(s', script, blockTime, k - 1);
        KeepsJoin(s, blockTime, s', [visit], Retries(s', script, blockTime, k - 1));
      }
    }
  }

  lemma {:induction false} SleepKeeps<V>(s: State, blockTime: nat, rest: Out<V>)
    requires KeepsBlocks(Slept(s, blockTime), blockTime, rest)
    ensures KeepsBlocks(s, blockTime, rest)
  {
  }

  lemma {:induction false} CallKeeps<V>(s: State, script: nat -> Reply<V>, blockTime: nat, k: nat)
    ensures KeepsBlocks(s, blockTime, Rounds(s, script, blockTime, k))
    decreases k
  {
    if k == 0 {
      NothingKeeps<V>(s, blockTime, Err(MaxRounds), 0);
    } else {
      var out := Retries(s, script, blockTime, |s.until|);
      PassKeeps(s, script, blockTime, |s.until|);
      if out.result == Err(MaxRetries) {
        var next := Slept(out.state, blockTime);
        CallKeeps(next, script, blockTime, k - 1);
        SleepKeeps(out.state, blockTime, Rounds(next, script, blockTime, k - 1));
        KeepsJoin(s, blockTime, out.state, out.trace, Rounds(next, script, blockTime, k - 1));
      }
    }
  }

  // ---------- ErrMaxRounds ----------

  predicate Free(u: Until, now: int) {
    u.At? ==> u.time <= now
  }

  /** The next k clients are free, except those blocked for good. */
  ghost predicate FreeNext(s: State, k: nat)
    requires s.until != []
  {
    forall c: nat :: s.counter <= c < s.counter + k ==> Free(s.until[Turn(c, |s.until|)], s.now)
  }

  /** At the end the client is blocked for good, or this visit reached it and it timed out or was rate limited. */
  predicate Answered<V>(visit: Visit<V>, end: seq<Until>) {
    visit.client < |end| && (end[visit.client].Forever? || visit.fate.Transient())
  }

  lemma {:induction false} StillFree<V>(s: State, script: nat -> Reply<V>, blockTime: nat, k: nat)
    requires s.until != [] && 0 < k <= |s.until| && FreeNext(s, k)
    ensures FreeNext(AfterAttempt(s, script(s.counter), blockTime), k - 1)
  {
    var s' := AfterAttempt(s, script(s.counter), blockTime);
    var n := |s.until|;
    forall c: nat | s'.counter <= c < s'.counter + (k - 1) ensures Free(s'.until[Turn(c, n)], s'.now) {
      DistinctTurns(s.counter, c, n);
    }
  }

  /** A failing pass over free clients reaches each of them. */
  lemma {:induction false} FreePassReaches<V>(s: State, script: nat -> Reply<V>, blockTime: nat, k: nat)
    requires s.until != [] && k <= |s.until| && FreeNext(s, k)
    requires Retries(s, script, blockTime, k).result == Err(MaxRetries)
    ensures var out := Retries(s, script, blockTime, k);
            forall j :: 0 <= j < |out.trace| ==> Answered(out.trace[j], out.state.until)
    decreases k
  {
    if k > 0 {
      var out := Retries(s, script, blockTime, k);
      var visit := NextVisit(s, script(s.counter));
      var s' := AfterAttempt(s, script(s.counter), blockTime);
      var rest := Retries(s', script, blockTime, k - 1);
      StillFree(s, script, blockTime, k);
      FreePassReaches(s', script, blockTime, k - 1);
      PassKeeps(s', script, blockTime, k - 1);
      assert Free(s.until[visit.client], s.now);
      assert out.trace == [visit] + rest.trace;
      assert Answered(visit, rest.state.until);
    }
  }

  /** The sleep after a failed round outlasts every temporary block. */
  lemma {:induction false} SleepFrees(s: State, blockTime: nat, k: nat)
    requires s.until != [] && Bounded(s, blockTime)
    ensures FreeNext(Slept(s, blockTime), k)
  {
  }

  lemma {:induction false} AnsweredLater<V>(trace: seq<Visit<V>>, mid: seq<Until>, end: seq<Until>)
    requires |mid| == |end| && forall i :: 0 <= i < |mid| && mid[i].Forever? ==> end[i].Forever?
    requires AllAnswered(trace, mid)
    ensures AllAnswered(trace, end)
  {
  }

  ghost predicate AllAnswered<V>(trace: seq<Visit<V>>, end: seq<Until>) {
    forall j :: 0 <= j < |trace| ==> Answered(trace[j], end)
  }

  lemma {:induction false} AnsweredJoin<V>(a: seq<Visit<V>>, b: seq<Visit<V>>, end: seq<Until>)
    requires AllAnswered(a, end) && AllAnswered(b, end)
    ensures AllAnswered(a + b, end)
  {
  }

  /** One failing round, given that the rounds after it reach everyone. */
  lemma {:induction false} FreeRoundReaches<V>(s: State, script: nat -> Reply<V>, blockTime: nat, rest: Out<V>)
    requires s.until != [] && FreeNext(s, |s.until|)
    requires Retries(s, script, blockTime, |s.until|).result == Err(MaxRetries)
    requires var mid := Retries(s, script, blockTime, |s.until|).state;
             KeepsBlocks(Slept(mid, blockTime), blockTime, rest)
    requires AllAnswered(rest.trace, rest.state.until)
    ensures AllAnswered(Continued(Retries(s, script, blockTime, |s.until|).trace, rest).trace, rest.state.until)
  {
    var out := Retries(s, script, blockTime, |s.until|);
    FreePassReaches(s, script, blockTime, |s.until|);
    AnsweredLater(out.trace, out.state.until, rest.state.until);
    AnsweredJoin(out.trace, rest.trace, rest.state.until);
  }

  lemma {:induction false} FreeRoundsReach<V>(s: State, script: nat -> Reply<V>, blockTime: nat, k: nat)
    requires s.until != [] && Bounded(s, blockTime) && FreeNext(s, |s.until|)
    requires Rounds(s, script, blockTime, k).result == Err(MaxRounds)
    ensures AllAnswered(Rounds(s, script, blockTime, k).trace, Rounds(s, script, blockTime, k).state.until)
    decreases k
  {
    if k > 0 {
      var next, rest := FailedRound(s, script, blockTime, k);
      FreeRoundsReach(next, script, blockTime, k - 1);
      CallKeeps(next, script, blockTime, k - 1);
      FreeRoundReaches(s, script, blockTime, rest);
    }
  }

  /** A call that gives up failed in its first round, and then in the others. */
  lemma {:induction false} FirstRoundFailed<V>(s: State, script: nat -> Reply<V>, blockTime: nat, k: nat)
    requires k > 0 && Rounds(s, script, blockTime, k).result == Err(MaxRounds)
    ensures var out := Retries(s, script, blockTime, |s.until|);
            var rest := Rounds(Slept(out.state, blockTime), script, blockTime, k - 1);
            && out.result == Err(MaxRetries) && |out.trace| == |s.until| && |out.state.until| == |s.until|
            && rest.result == Err(MaxRounds) && Rounds(s, script, blockTime, k) == Continued(out.trace, rest)
  {
    PassDecides(s, script, blockTime, |s.until|);
    RetriesTrace(s, script, blockTime, |s.until|);
  }

  /** After the sleep of a failed round all clients are free. */
  lemma {:induction false} FailedRound<V>(s: State, script: nat -> Reply<V>, blockTime: nat, k: nat)
    returns (next: State, rest: Out<V>)
    requires s.until != [] && Bounded(s, blockTime) && k > 0
    requires Rounds(s, script, blockTime, k).result == Err(MaxRounds)
    ensures var out := Retries(s, script, blockTime, |s.until|);
            && out.result == Err(MaxRetries) && next == Slept(out.state, blockTime) && |out.trace| == |s.until|
            && rest == Rounds(next, script, blockTime, k - 1) && rest.result == Err(MaxRounds)
            && Rounds(s, script, blockTime, k) == Continued(out.trace, rest)
    ensures next.until != [] && |next.until| == |s.until| && Bounded(next, blockTime) && FreeNext(next, |next.until|)
  {
    var out := Retries(s, script, blockTime, |s.until|);
    next := Slept(out.state, blockTime);
    rest := Rounds(next, script, blockTime, k - 1);
    FirstRoundFailed(s, script, blockTime, k);
    PassKeeps(s, script, blockTime, |s.until|);
    SleepFrees(out.state, blockTime, |s.until|);
  }

  /**
   When a call gives up with ErrMaxRounds, every client that is not blocked for
   good at the end was contacted in every round after the first, and timed out
   or was rate limited there: a temporary block never outlasts the sleep.
   */
  lemma {:induction false} GivingUpMeansAllWereAsked<V>(
      s: State, script: nat -> Reply<V>, blockTime: nat, maxRounds: nat, round: nat, i: nat)
    returns (j: nat)
    requires Bounded(s, blockTime) && Rounds(s, script, blockTime, maxRounds).result == Err(MaxRounds)
    requires 0 < round < maxRounds && i < |s.until|
    ensures Times(round, |s.until|) <= j < Times(round, |s.until|) + |s.until|
    ensures var out := Rounds(s, script, blockTime, maxRounds);
            && j < |out.trace| && out.trace[j].client == i
            && i < |out.state.until|
            && (!out.state.until[i].Forever? ==> out.trace[j].fate.Transient())
  {
    var n := |s.until|;
    var out := Rounds(s, script, blockTime, maxRounds);
    CallCounts(s, script, blockTime, maxRounds);
    CallVisits(s, script, blockTime, maxRounds);
    LaterRoundsReach(s, script, blockTime, maxRounds);
    var offset := Offset(s.counter + Times(round, n), n, i);
    j := Times(round, n) + offset;
    RoundFits(round, maxRounds, n);
    assert s.counter + j == s.counter + Times(round, n) + offset;
    assert Answered(out.trace[j], out.state.until);
  }

  lemma {:induction false} RoundFits(round: nat, maxRounds: nat, n: nat)
    requires round < maxRounds
    ensures Times(round, n) + n <= Times(maxRounds, n)
    ensures round > 0 ==> n <= Times(round, n)
  {
    if round > 0 {
      RoundFits(round - 1, maxRounds - 1, n);
    }
  }

  lemma {:induction false} LaterRoundsReach<V>(s: State, script: nat -> Reply<V>, blockTime: nat, k: nat)
    requires s.until != [] && Bounded(s, blockTime) && k > 0
    requires Rounds(s, script, blockTime, k).result == Err(MaxRounds)
    ensures var out := Rounds(s, script, blockTime, k);
            forall j :: |s.until| <= j < |out.trace| ==> Answered(out.trace[j], out.state.until)
  {
    var next, rest := FailedRound(s, script, blockTime, k);
    FreeRoundsReach(next, script, blockTime, k - 1);
    AfterPrefix(Retries(s, script, blockTime, |s.until|).trace, rest);
  }

  lemma {:induction false} AfterPrefix<V>(before: seq<Visit<V>>, rest: Out<V>)
    requires AllAnswered(rest.trace, rest.state.until)
    ensures var whole := Continued(before, rest);
            forall j :: |before| <= j < |whole.trace| ==> Answered(whole.trace[j], whole.state.until)
  {
    var whole := Continued(before, rest);
    forall j | |before| <= j < |whole.trace| ensures Answered(whole.trace[j], whole.state.until) {
      assert whole.trace[j] == rest.trace[j - |before|];
    }
  }

  // ---------- Runs of calls ----------

  /** A call, some time after the one before it. */
  datatype Call<+V> = Call(pause: nat, script: nat -> Reply<V>)

  /** Calls made one at a time: the state in the end and all visits on the way. */
  function Calls<V>(s: State, calls: seq<Call<V>>, blockTime: nat, maxRounds: nat): Out<V>
    decreases |calls|
  {
    if calls == [] then Out(s, [], Err(MaxRounds)) else
    var out := Rounds(s.(now := s.now + calls[0].pause), calls[0].script, blockTime, maxRounds);
    Continued(out.trace, Calls(out.state, calls[1..], blockTime, maxRounds))
  }

  /**
   Over any run of calls a client is blocked for good exactly when it was before
   or failed in another way on some visit; a client whose block lasts, for good or
   beyond the end of the run, is never contacted and keeps its block; and no
   temporary block reaches further than the block time from now.
   */
  lemma {:induction false} BlocksOverRuns<V>(s: State, calls: seq<Call<V>>, blockTime: nat, maxRounds: nat)
    ensures KeepsBlocks(s, blockTime, Calls(s, calls, blockTime, maxRounds))
    decreases |calls|
  {
    if calls == [] {
      NothingKeeps<V>(s, blockTime, Err(MaxRounds), 0);
    } else {
      var later := s.(now := s.now + calls[0].pause);
      var out := Rounds(later, calls[0].script, blockTime, maxRounds);
      var rest := Calls(out.state, calls[1..], blockTime, maxRounds);
      CallKeeps(later, calls[0].script, blockTime, maxRounds);
      BlocksOverRuns(out.state, calls[1..], blockTime, maxRounds);
      KeepsJoin(s, blockTime, out.state, out.trace, rest);
    }
  }

  // ---------- Every state on the way ----------

  /** What happens to a balancer, one thing at a time: an attempt, or time that passes. */
  datatype Event<+V> = Attempt(reply: Reply<V>) | Passes(d: nat)

  function AfterEvent<V>(s: State, e: Event<V>, blockTime: nat): State {
    match e
    case Attempt(reply) => if s.until == [] then s else AfterAttempt(s, reply, blockTime)
    case Passes(d) => s.(now := s.now + d)
  }

  function AfterEvents<V>(s: State, es: seq<Event<V>>, blockTime: nat): State
    decreases |es|
  {
    if es == [] then s else AfterEvents(AfterEvent(s, es[0], blockTime), es[1..], blockTime)
  }

  lemma {:induction false} EventsJoin<V>(s: State, a: seq<Event<V>>, b: seq<Event<V>>, blockTime: nat)
    ensures AfterEvents(s, a + b, blockTime) == AfterEvents(AfterEvents(s, a, blockTime), b, blockTime)
    decreases |a|
  {
    if a == [] {
      assert a + b == b;
    } else {
      assert (a + b)[0] == a[0] && (a + b)[1..] == a[1..] + b;
      EventsJoin(AfterEvent(s, a[0], blockTime), a[1..], b, blockTime);
    }
  }

  lemma {:induction false} EventsMore<V>(s: State, e: Event<V>, es: seq<Event<V>>, blockTime: nat)
    ensures AfterEvents(s, [e] + es, blockTime) == AfterEvents(AfterEvent(s, e, blockTime), es, blockTime)
  {
    assert ([e] + es)[0] == e && ([e] + es)[1..] == es;
  }

  /** Every attempt gets the reply that one of the calls has for its counter. */
  ghost predicate FromCalls<V>(s: State, es: seq<Event<V>>, calls: seq<Call<V>>, blockTime: nat)
    decreases |es|
  {
    es == [] ||
    (&& (es[0].Attempt? ==> exists q :: 0 <= q < |calls| && es[0].reply == calls[q].script(s.counter))
     && FromCalls(AfterEvent(s, es[0], blockTime), es[1..], calls, blockTime))
  }

  lemma {:induction false} FromCallsJoin<V>(
      s: State, a: seq<Event<V>>, b: seq<Event<V>>, calls: seq<Call<V>>, blockTime: nat)
    requires FromCalls(s, a, calls, blockTime) && FromCalls(AfterEvents(s, a, blockTime), b, calls, blockTime)
    ensures FromCalls(s, a + b, calls, blockTime)
    decreases |a|
  {
    if a == [] {
      assert a + b == b;
    } else {
      assert (a + b)[0] == a[0] && (a + b)[1..] == a[1..] + b;
      FromCallsJoin(AfterEvent(s, a[0], blockTime), a[1..], b, calls, blockTime);
    }
  }

  lemma {:induction false} FromMoreCalls<V>(s: State, es: seq<Event<V>>, calls: seq<Call<V>>, blockTime: nat)
    requires calls != [] && FromCalls(s, es, calls[1..], blockTime)
    ensures FromCalls(s, es, calls, blockTime)
    decreases |es|
  {
    if es != [] {
      if es[0].Attempt? {
        var q :| 0 <= q < |calls[1..]| && es[0].reply == calls[1..][q].script(s.counter);
        assert es[0].reply == calls[q + 1].script(s.counter);
      }
      FromMoreCalls(AfterEvent(s, es[0], blockTime), es[1..], calls, blockTime);
    }
  }

  lemma {:induction false} OneEvent<V>(
      s: State, e: Event<V>, es: seq<Event<V>>, calls: seq<Call<V>>, blockTime: nat)
    requires e.Attempt? ==> calls != [] && e.reply == calls[0].script(s.counter)
    requires FromCalls(AfterEvent(s, e, blockTime), es, calls, blockTime)
    ensures FromCalls(s, [e] + es, calls, blockTime)
    ensures AfterEvents(s, [e] + es, blockTime) == AfterEvents(AfterEvent(s, e, blockTime), es, blockTime)
  {
    EventsMore(s, e, es, blockTime);
    assert ([e] + es)[0] == e && ([e] + es)[1..] == es;
  }

  /** A pass is a sequence of attempts. */
  lemma {:induction false} PassIsEvents<V>(s: State, calls: seq<Call<V>>, blockTime: nat, k: nat)
    returns (es: seq<Event<V>>)
    requires (k > 0 ==> s.until != []) && calls != []
    ensures FromCalls(s, es, calls, blockTime)
    ensures AfterEvents(s, es, blockTime) == Retries(s, calls[0].script, blockTime, k).state
    decreases k
  {
    if k == 0 {
      es := [];
    } else {
      var script := calls[0].script;
      var s' := AfterAttempt(s, script(s.counter), blockTime);
      var rest: seq<Event<V>> := [];
      if !NextFate(s, script(s.counter)).Decisive() {
        rest := PassIsEvents(s', calls, blockTime, k - 1);
      }
      OneEvent(s, Attempt(script(s.counter)), rest, calls, blockTime);
      es := [Attempt(script(s.counter))] + rest;
    }
  }

  lemma {:induction false} SleepThen<V>(
      s: State, es: seq<Event<V>>, rest: seq<Event<V>>, calls: seq<Call<V>>, blockTime: nat)
    requires FromCalls(s, es, calls, blockTime)
    requires FromCalls(Slept(AfterEvents(s, es, blockTime), blockTime), rest, calls, blockTime)
    ensures FromCalls(s, es + ([Passes(blockTime)] + rest), calls, blockTime)
    ensures AfterEvents(s, es + ([Passes(blockTime)] + rest), blockTime)
         == AfterEvents(Slept(AfterEvents(s, es, blockTime), blockTime), rest, blockTime)
  {
    OneEvent(AfterEvents(s, es, blockTime), Passes(blockTime), rest, calls, blockTime);
    EventsJoin(s, es, [Passes(blockTime)] + rest, blockTime);
    FromCallsJoin(s, es, [Passes(blockTime)] + rest, calls, blockTime);
  }

  /** A call is a sequence of attempts and sleeps. */
  lemma {:induction false} CallIsEvents<V>(s: State, calls: seq<Call<V>>, blockTime: nat, k: nat)
    returns (es: seq<Event<V>>)
    requires calls != []
    ensures FromCalls(s, es, calls, blockTime)
    ensures AfterEvents(s, es, blockTime) == Rounds(s, calls[0].script, blockTime, k).state
    decreases k
  {
    if k == 0 {
      es := [];
    } else {
      var out := Retries(s, calls[0].script, blockTime, |s.until|);
      var pass := PassIsEvents(s, calls, blockTime, |s.until|);
      if out.result == Err(MaxRetries) {
        var rest := CallIsEvents(Slept(out.state, blockTime), calls, blockTime, k - 1);
        SleepThen(s, pass, rest, calls, blockTime);
        es := pass + ([Passes(blockTime)] + rest);
      } else {
        es := pass;
      }
    }
  }

  lemma {:induction false} PauseThen<V>(
      s: State, d: nat, a: seq<Event<V>>, b: seq<Event<V>>, calls: seq<Call<V>>, blockTime: nat)
    requires var later := s.(now := s.now + d);
             FromCalls(later, a, calls, blockTime) && FromCalls(AfterEvents(later, a, blockTime), b, calls, blockTime)
    ensures FromCalls(s, [Passes(d)] + (a + b), calls, blockTime)
    ensures AfterEvents(s, [Passes(d)] + (a + b), blockTime)
         == AfterEvents(AfterEvents(s.(now := s.now + d), a, blockTime), b, blockTime)
  {
    FromCallsJoin(s.(now := s.now + d), a, b, calls, blockTime);
    EventsJoin(s.(now := s.now + d), a, b, blockTime);
    OneEvent(s, Passes(d), a + b, calls, blockTime);
  }

  /**
   A run of calls is one sequence of attempts, each with the reply that its call has
   for it, and of sleeps and pauses: its states, those inside a call included, are
   those of the prefixes.
   */
  lemma {:induction false} RunIsEvents<V>(s: State, calls: seq<Call<V>>, blockTime: nat, maxRounds: nat)
    returns (es: seq<Event<V>>)
    ensures FromCalls(s, es, calls, blockTime)
    ensures AfterEvents(s, es, blockTime) == Calls(s, calls, blockTime, maxRounds).state
    decreases |calls|
  {
    if calls == [] {
      es := [];
    } else {
      var later := s.(now := s.now + calls[0].pause);
      var call := CallIsEvents(later, calls, blockTime, maxRounds);
      var out := Rounds(later, calls[0].script, blockTime, maxRounds);
      var rest := RunIsEvents(out.state, calls[1..], blockTime, maxRounds);
      FromMoreCalls(out.state, rest, calls, blockTime);
      assert Calls(s, calls, blockTime, maxRounds).state == Calls(out.state, calls[1..], blockTime, maxRounds).state;
      PauseThen(s, calls[0].pause, call, rest, calls, blockTime);
      es := [Passes(calls[0].pause)] + (call + rest);
    }
  }

  lemma {:induction false} EventKeeps<V>(s: State, e: Event<V>, blockTime: nat)
    requires Bounded(s, blockTime)
    ensures var s' := AfterEvent(s, e, blockTime);
            && Bounded(s', blockTime) && |s'.until| == |s.until| && s'.now >= s.now
            && forall i :: 0 <= i < |s.until| && s.until[i].Forever? ==> s'.until[i].Forever?
  {
  }

  lemma {:induction false} EventsKeep<V>(s: State, es: seq<Event<V>>, blockTime: nat)
    requires Bounded(s, blockTime)
    ensures var s' := AfterEvents(s, es, blockTime);
            && Bounded(s', blockTime) && |s'.until| == |s.until| && s'.now >= s.now
            && forall i :: 0 <= i < |s.until| && s.until[i].Forever? ==> s'.until[i].Forever?
    decreases |es|
  {
    if es != [] {
      EventKeeps(s, es[0], blockTime);
      EventsKeep(AfterEvent(s, es[0], blockTime), es[1..], blockTime);
    }
  }

  /**
   In every state that a new balancer reaches, between calls and inside them, every
   client is either blocked for good or free again within the block time from now,
   and one that is blocked for good stays so.
   */
  lemma {:induction false} EveryStateIsBounded<V>(n: nat, start: int, es: seq<Event<V>>, blockTime: nat, j: nat, k: nat)
    requires j <= k <= |es|
    ensures var s1 := AfterEvents(NewState(n, start), es[..j], blockTime);
            var s2 := AfterEvents(NewState(n, start), es[..k], blockTime);
            && Bounded(s1, blockTime) && Bounded(s2, blockTime) && |s1.until| == |s2.until| == n && s1.now <= s2.now
            && forall i :: 0 <= i < n && s1.until[i].Forever? ==> s2.until[i].Forever?
  {
    var s := NewState(n, start);
    EventsKeep(s, es[..j], blockTime);
    EventsKeep(AfterEvents(s, es[..j], blockTime), es[j..k], blockTime);
    assert es[..k] == es[..j] + es[j..k];
    EventsJoin(s, es[..j], es[j..k], blockTime);
  }

  // ---------- Blocks over time, in the terms of the nodes ----------

  /** An event is an attempt that reaches client i. */
  predicate Reaches<V>(s: State, e: Event<V>, i: nat) {
    && e.Attempt? && i < |s.until| && s.counter % |s.until| == i
    && s.until[i].At? && s.until[i].time <= s.now + e.reply.wait
  }

  lemma {:induction false} EventEffect<V>(s: State, e: Event<V>, blockTime: nat, i: nat)
    requires i < |s.until|
    ensures var s' := AfterEvent(s, e, blockTime);
            && |s'.until| == |s.until| && s'.now >= s.now
            && s'.until[i] == (if Reaches(s, e, i) && AsksToWait(e.reply.outcome) then At(s'.now + blockTime)
                               else if Reaches(s, e, i) && FailsOtherwise(e.reply.outcome) then Forever
                               else s.until[i])
            && (Reaches(s, e, i) ==> s'.now >= s.until[i].time)
  {
    if e.Attempt? {
      AttemptEffect(s, e.reply, blockTime);
    }
  }

  lemma {:induction false} EventsNow<V>(s: State, es: seq<Event<V>>, blockTime: nat)
    ensures AfterEvents(s, es, blockTime).now >= s.now
    ensures |AfterEvents(s, es, blockTime).until| == |s.until|
    decreases |es|
  {
    if es != [] {
      var s' := AfterEvent(s, es[0], blockTime);
      if |s.until| > 0 {
        EventEffect(s, es[0], blockTime, 0);
      }
      EventsNow(s', es[1..], blockTime);
    }
  }

  /** An entry that is a later time, or never, is kept until then. */
  lemma {:induction false} EntryIsKept<V>(s: State, es: seq<Event<V>>, blockTime: nat, i: nat)
    requires i < |s.until|
    requires s.until[i].Forever? || AfterEvents(s, es, blockTime).now < s.until[i].time
    ensures |AfterEvents(s, es, blockTime).until| == |s.until|
    ensures AfterEvents(s, es, blockTime).until[i] == s.until[i]
    decreases |es|
  {
    if es != [] {
      var s' := AfterEvent(s, es[0], blockTime);
      EventEffect(s, es[0], blockTime, i);
      EventsNow(s', es[1..], blockTime);
      EntryIsKept(s', es[1..], blockTime, i);
    }
  }

  /**
   After a timeout or a 429 the client is left alone for the block time: whatever
   happens in between, no attempt that begins earlier reaches it.
   */
  lemma {:induction false} TimedOutClientRests<V>(
      s: State, e: Event<V>, es: seq<Event<V>>, later: Event<V>, blockTime: nat, i: nat)
    requires Reaches(s, e, i) && AsksToWait(e.reply.outcome)
    requires var s1 := AfterEvent(s, e, blockTime);
             later.Attempt? && AfterEvents(s1, es, blockTime).now + later.reply.wait < s1.now + blockTime
    ensures !Reaches(AfterEvents(AfterEvent(s, e, blockTime), es, blockTime), later, i)
  {
    EventEffect(s, e, blockTime, i);
    EntryIsKept(AfterEvent(s, e, blockTime), es, blockTime, i);
  }

  /** And once that time has come, if no other attempt reached it since, the next one in turn does. */
  lemma {:induction false} RestedClientReturns<V>(s: State, later: Event<V>, i: nat, until: int)
    requires i < |s.until| && s.until[i] == At(until)
    requires later.Attempt? && s.counter % |s.until| == i && until <= s.now + later.reply.wait
    ensures Reaches(s, later, i)
  {
  }

  /** Some attempt reached the client and failed, neither as too big nor asking to wait. */
  ghost predicate FailedOnce<V>(s: State, es: seq<Event<V>>, blockTime: nat, i: nat)
    decreases |es|
  {
    es != [] &&
    (|| (Reaches(s, es[0], i) && FailsOtherwise(es[0].reply.outcome))
     || FailedOnce(AfterEvent(s, es[0], blockTime), es[1..], blockTime, i))
  }

  /** Over any attempts and pauses a client ends up blocked for good exactly when it was or failed so once. */
  lemma {:induction false} ForeverIffFailedOnce<V>(s: State, es: seq<Event<V>>, blockTime: nat, i: nat)
    requires i < |s.until|
    ensures |AfterEvents(s, es, blockTime).until| == |s.until|
    ensures AfterEvents(s, es, blockTime).until[i].Forever? <==> s.until[i].Forever? || FailedOnce(s, es, blockTime, i)
    decreases |es|
  {
    if es != [] {
      var s' := AfterEvent(s, es[0], blockTime);
      EventEffect(s, es[0], blockTime, i);
      ForeverIffFailedOnce(s', es[1..], blockTime, i);
      if s'.until[i].Forever? {
        EntryIsKept(s', es[1..], blockTime, i);
      }
    }
  }
}
