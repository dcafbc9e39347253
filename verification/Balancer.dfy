/**
 The balancer (balancer/balancer.go): round-robin attempts over the clients with
 timed and indefinite blocks, in rounds with a sleep after each failed one. Calls
 are made one at a time.
 */
module Balancer {
  import opened Wrappers

  /** When a client may be contacted again; the zero time means never. */
  datatype Until = Forever | At(time: int)

  /** The counter, the clock, and each client's blockedUntil. */
  datatype State = State(counter: nat, now: int, until: seq<Until>)

  const TOO_BIG_CODES: seq<int> := [-32602, -32600]

  const RATE_LIMIT_CODE := 429

  /** One second on the clock, in nanoseconds. */
  const SECOND: nat := 1_000_000_000

  const COUNTER_LIMIT: nat := 0x8000_0000_0000_0000

  /** What a node does with a request; the code is missing when the error carries none. */
  datatype Outcome<+V> = Answer(value: V) | TimedOut | Failed(code: Option<int>)

  /** The environment of one attempt: the time before it, the outcome, and the time that takes. */
  datatype Reply<+V> = Reply(wait: nat, outcome: Outcome<V>, took: nat)

  datatype RpcError = RpcTooBig | RpcRateLimit | RpcOther

  datatype ClientError = ClientBlocked | ClientTimeout | ClientRpc(code: Option<int>)

  datatype Error = ReqTooBig | MaxRetries | MaxRounds

  /** What became of one attempt. */
  datatype Fate<+V> = WasBlocked | Succeeded(value: V) | TooBig | RateLimited | TimeOut | Broken
  {
    predicate Decisive() {
      Succeeded? || TooBig?
    }

    /** The client was contacted and is to be left alone for the block time. */
    predicate Transient() {
      RateLimited? || TimeOut?
    }
  }

  /** One attempt: the client in turn, its entry, the time at which the attempt begins, and its fate. */
  datatype Visit<+V> = Visit(client: nat, entry: Until, at: int, fate: Fate<V>)
  {
    /** The client may be contacted at that time, and is. */
    predicate Contacts() {
      entry.At? && entry.time <= at
    }
  }

  // ---------- What a node says ----------

  predicate SaysTooBig<V>(o: Outcome<V>) {
    o.Failed? && (o.code == Some(-32602) || o.code == Some(-32600))
  }

  predicate AsksToWait<V>(o: Outcome<V>) {
    o.TimedOut? || (o.Failed? && o.code == Some(429))
  }

  predicate FailsOtherwise<V>(o: Outcome<V>) {
    o.Failed? && !SaysTooBig(o) && !AsksToWait(o)
  }

  function HandleRPCError(code: Option<int>): (e: RpcError)
    ensures e.RpcTooBig? <==> code == Some(-32602) || code == Some(-32600)
    ensures e.RpcRateLimit? <==> code == Some(429)
  {
    match code
    case None => RpcOther
    case Some(c) =>
      if c in TOO_BIG_CODES then RpcTooBig else if c == RATE_LIMIT_CODE then RpcRateLimit else RpcOther
  }

  predicate Blocks(u: Until, now: int)
    ensures Blocks(u, now) <==> !(u.At? && u.time <= now)
  {
    u.Forever? || now < u.time
  }

  function FateOf<V>(o: Outcome<V>): (f: Fate<V>)
    ensures f.Succeeded? <==> o.Answer?
    ensures f.Succeeded? ==> f.value == o.value
    ensures f.TooBig? <==> o.Failed? && (o.code == Some(-32602) || o.code == Some(-32600))
    ensures f.RateLimited? <==> o.Failed? && o.code == Some(429)
    ensures f.TimeOut? <==> o.TimedOut?
    ensures f.Broken? <==> o.Failed? && o.code != Some(-32602) && o.code != Some(-32600) && o.code != Some(429)
  {
    match o
    case Answer(v) => Succeeded(v)
    case TimedOut => TimeOut
    case Failed(code) =>
      match HandleRPCError(code)
      case RpcTooBig => TooBig
      case RpcRateLimit => RateLimited
      case RpcOther => Broken
  }

  /** n clients that may all be contacted: a zero time would mean an indefinite block. */
  function NewState(n: nat, now: int): (s: State)
    ensures s.counter == 0 && s.now == now && |s.until| == n
    ensures forall i :: 0 <= i < n ==> s.until[i].At? && s.until[i].time == now - 1_000_000_000
  {
    State(0, now, seq(n, _ => At(now - SECOND)))
  }

  // ---------- What the loops compute ----------

  /** The client whose turn it is at counter c: the remainder of c by n. */
  function Turn(c: nat, n: nat): (i: nat)
    requires n > 0
    ensures i < n
  {
    if c < n then c else Turn(c - n, n)
  }

  lemma {:induction false} TurnIsRemainder(c: nat, n: nat)
    requires n > 0
    ensures Turn(c, n) == c % n
  {
    if c >= n {
      TurnIsRemainder(c - n, n);
      NextMultiple(c - n, n);
    }
  }

  lemma {:induction false} NextMultiple(a: nat, n: nat)
    requires n > 0
    ensures (a + n) % n == a % n
  {
    var q := (a + n) / n - a / n;
    assert a == a / n * n + a % n && a + n == (a + n) / n * n + (a + n) % n;
    assert q * n == (a + n) / n * n - a / n * n;
    Multiples(q, n);
  }

  lemma {:induction false} Multiples(q: int, n: nat)
    ensures q >= 2 ==> q * n >= 2 * n
    ensures q <= 0 ==> q * n <= 0
  {
    if q >= 2 {
      assert (q - 2) * n >= 0;
    } else if q <= 0 {
      assert -q * n >= 0;
    }
  }

  /** k times n. */
  function Times(k: nat, n: nat): nat {
    if k == 0 then 0 else n + Times(k - 1, n)
  }

  lemma {:induction false} TimesIsProduct(k: nat, n: nat)
    ensures Times(k, n) == k * n
  {
    if k > 0 {
      TimesIsProduct(k - 1, n);
      assert k * n == (k - 1) * n + n;
    }
  }

  /** The fate of the next attempt. */
  function NextFate<V>(s: State, reply: Reply<V>): Fate<V>
    requires s.until != []
  {
    if Blocks(s.until[Turn(s.counter, |s.until|)], s.now + reply.wait) then WasBlocked else FateOf(reply.outcome)
  }

  function NextVisit<V>(s: State, reply: Reply<V>): Visit<V>
    requires s.until != []
  {
    var i := Turn(s.counter, |s.until|);
    Visit(i, s.until[i], s.now + reply.wait, NextFate(s, reply))
  }

  /** The balancer after the next attempt: always one further, the client possibly blocked. */
  function AfterAttempt<V>(s: State, reply: Reply<V>, blockTime: nat): State
    requires s.until != []
  {
    var i := Turn(s.counter, |s.until|);
    var fate := NextFate(s, reply);
    var now := s.now + reply.wait + if fate.WasBlocked? then 0 else reply.took;
    State(
      s.counter + 1,
      now,
      if fate.Transient() then s.until[i := At(now + blockTime)]
      else if fate.Broken? then s.until[i := Forever]
      else s.until)
  }

  /** Where a loop ends, whom it visited, and its result. */
  datatype Out<+V> = Out(state: State, trace: seq<Visit<V>>, result: Result<V, Error>)

  /** The visits made before come first. */
  function Continued<V>(trace: seq<Visit<V>>, rest: Out<V>): Out<V> {
    Out(rest.state, trace + rest.trace, rest.result)
  }

  lemma {:induction false} ContinuedTwice<V>(a: seq<Visit<V>>, b: seq<Visit<V>>, rest: Out<V>)
    ensures Continued(a, Continued(b, rest)) == Continued(a + b, rest)
    ensures Continued([], rest) == rest
  {
    assert a + (b + rest.trace) == (a + b) + rest.trace;
    assert [] + rest.trace == rest.trace;
  }

  /** At most k attempts, up to the first decisive one. The attempt at counter c meets `script(c)`. */
  function Retries<V>(s: State, script: nat -> Reply<V>, blockTime: nat, k: nat): Out<V>
    requires k > 0 ==> s.until != []
    decreases k
  {
    if k == 0 then Out(s, [], Err(MaxRetries)) else
    var visit := NextVisit(s, script(s.counter));
    var s' := AfterAttempt(s, script(s.counter), blockTime);
    match visit.fate
    case Succeeded(v) => Out(s', [visit], Ok(v))
    case TooBig => Out(s', [visit], Err(ReqTooBig))
    case _ =>
      Continued([visit], Retries(s', script, blockTime, k - 1))
  }

  function Slept(s: State, blockTime: nat): State {
    s.(now := s.now + blockTime)
  }

  /** At most k rounds, each over all clients, with a sleep after every failed one. */
  function Rounds<V>(s: State, script: nat -> Reply<V>, blockTime: nat, k: nat): Out<V>
    decreases k
  {
    if k == 0 then Out(s, [], Err(MaxRounds)) else
    var out := Retries(s, script, blockTime, |s.until|);
    if out.result != Err(MaxRetries) then out else
    Continued(out.trace, Rounds(Slept(out.state, blockTime), script, blockTime, k - 1))
  }

  class Balancer {
    const clients: array<Until>
    const blockTime: nat
    const maxRounds: nat
    var counter: nat
    var now: int

    function Contents(): State
      reads this, clients
    {
      State(counter, now, clients[..])
    }

    constructor (endpoints: nat, blockTime: nat, maxRounds: nat, now: int)
      ensures fresh(clients) && clients.Length == endpoints
      ensures this.blockTime == blockTime && this.maxRounds == maxRounds
      ensures Contents() == NewState(endpoints, now)
      ensures forall i :: 0 <= i < endpoints ==> clients[i] == At(now - 1_000_000_000)
    {
      clients := new Until[endpoints](_ => At(now - SECOND));
      this.blockTime, this.maxRounds, this.now, counter := blockTime, maxRounds, now, 0;
    }

    /** Time passes. */
    method Elapse(d: nat)
      modifies this`now
      ensures now == old(now) + d
    {
      now := now + d;
    }

    method TemporaryBlock(index: nat)
      requires index < clients.Length
      modifies clients
      ensures clients[..] == old(clients[..])[index := At(now + blockTime)]
    {
      clients[index] := At(now + blockTime);
    }

    method IndefiniteBlock(index: nat)
      requires index < clients.Length
      modifies clients
      ensures clients[..] == old(clients[..])[index := Forever]
    {
      clients[index] := Forever;
    }

    method IsBlocked(index: nat) returns (blocked: bool)
      requires index < clients.Length
      ensures blocked <==> clients[index].Forever? || now < clients[index].time
    {
      blocked := clients[index].Forever? || now < clients[index].time;
    }

    /** One attempt; the counter moves on whatever happens, and no block is set yet. */
    method DoRetry<V>(reply: Reply<V>, index: nat) returns (r: Result<V, ClientError>)
      requires index < clients.Length
      modifies this`now, this`counter
      ensures counter == old(counter) + 1
      ensures var blocked := clients[index].Forever? || old(now) + reply.wait < clients[index].time;
              && now == old(now) + reply.wait + (if blocked then 0 else reply.took)
              && (r == Err(ClientBlocked) <==> blocked)
              && (!blocked ==>
                    match reply.outcome
                    case Answer(v) => r == Ok(v)
                    case TimedOut => r == Err(ClientTimeout)
                    case Failed(code) => r == Err(ClientRpc(code)))
    {
      Elapse(reply.wait);
      var blocked := IsBlocked(index);
      if blocked {
        counter := counter + 1;
        return Err(ClientBlocked);
      }
      Elapse(reply.took);
      counter := counter + 1;
      match reply.outcome
      case Answer(v) => return Ok(v);
      case TimedOut => return Err(ClientTimeout);
      case Failed(code) => return Err(ClientRpc(code));
    }

    /** One pass of the retry loop: the attempt, and the block that it earns the client. */
    method RetryOnce<V>(script: nat -> Reply<V>) returns (r: Option<Result<V, Error>>)
      requires 0 < clients.Length && counter < COUNTER_LIMIT
      modifies this`now, this`counter, clients
      ensures Contents() == AfterAttempt(old(Contents()), script(old(counter)), blockTime)
      ensures match NextFate(old(Contents()), script(old(counter)))
              case Succeeded(v) => r == Some(Ok(v))
              case TooBig => r == Some(Err(ReqTooBig))
              case _ => r == None
    {
      var index := counter % clients.Length;
      TurnIsRemainder(counter, clients.Length);
      var output := DoRetry(script(counter), index);
      match output
      case Ok(v) => return Some(Ok(v));
      case Err(e) =>
        match e
        case ClientTimeout =>
          TemporaryBlock(index);
          return None;
        case ClientBlocked => return None;
        case ClientRpc(code) =>
          match HandleRPCError(code)
          case RpcRateLimit =>
            TemporaryBlock(index);
            return None;
          case RpcTooBig => return Some(Err(ReqTooBig));
          case RpcOther =>
            IndefiniteBlock(index);
            return None;
    }

    method HandleRetries<V>(script: nat -> Reply<V>) returns (r: Result<V, Error>, ghost trace: seq<Visit<V>>)
      requires counter + clients.Length <= COUNTER_LIMIT
      modifies this`now, this`counter, clients
      ensures Out(Contents(), trace, r) == Retries(old(Contents()), script, blockTime, clients.Length)
    {
      trace := [];
      ghost var whole := Retries(Contents(), script, blockTime, clients.Length);
      ContinuedTwice(trace, trace, whole);
      var retry := 0;
      while retry < clients.Length
        invariant 0 <= retry <= clients.Length && counter == old(counter) + retry
        invariant whole == Continued(trace, Retries(Contents(), script, blockTime, clients.Length - retry))
      {
        ghost var visit := NextVisit(Contents(), script(counter));
        ghost var before := trace;
        trace := trace + [visit];
        var decided := RetryOnce(script);
        if decided.Some? {
          return decided.value, trace;
        }
        retry := retry + 1;
        ContinuedTwice(before, [visit], Retries(Contents(), script, blockTime, clients.Length - retry));
      }
      r := Err(MaxRetries);
      assert trace + [] == trace;
    }

    /** One pass of the round loop: a failed round ends with a sleep. */
    method RoundOnce<V>(script: nat -> Reply<V>, ghost k: nat) returns (r: Result<V, Error>, ghost trace: seq<Visit<V>>)
      requires k > 0 && counter + clients.Length <= COUNTER_LIMIT
      modifies this`now, this`counter, clients
      ensures if r == Err(MaxRetries) then
                && counter == old(counter) + clients.Length
                && Rounds(old(Contents()), script, blockTime, k)
                   == Continued(trace, Rounds(Contents(), script, blockTime, k - 1))
              else
                Rounds(old(Contents()), script, blockTime, k) == Out(Contents(), trace, r)
    {
      ghost var start := Contents();
      r, trace := HandleRetries(script);
      if r == Err(MaxRetries) {
        RoundFails(start, script, blockTime, k);
        Elapse(blockTime);
        assert Contents() == Slept(Retries(start, script, blockTime, clients.Length).state, blockTime);
      }
    }

    method HandleRounds<V>(script: nat -> Reply<V>) returns (r: Result<V, Error>, ghost trace: seq<Visit<V>>)
      requires counter + Times(maxRounds, clients.Length) <= COUNTER_LIMIT
      modifies this`now, this`counter, clients
      ensures Out(Contents(), trace, r) == Rounds(old(Contents()), script, blockTime, maxRounds)
    {
      trace := [];
      ghost var whole := Rounds(Contents(), script, blockTime, maxRounds);
      ContinuedTwice(trace, trace, whole);
      var rounds := 0;
      while true
        invariant 0 <= rounds <= maxRounds && counter + Times(maxRounds - rounds, clients.Length) <= COUNTER_LIMIT
        invariant whole == Continued(trace, Rounds(Contents(), script, blockTime, maxRounds - rounds))
        decreases maxRounds - rounds
      {
        if rounds == maxRounds {
          assert trace + [] == trace;
          return Err(MaxRounds), trace;
        }
        ghost var before, visits := trace, [];
        r, visits := RoundOnce(script, maxRounds - rounds);
        trace := before + visits;
        if r != Err(MaxRetries) {
          return;
        }
        rounds := rounds + 1;
        ContinuedTwice(before, visits, Rounds(Contents(), script, blockTime, maxRounds - rounds));
      }
    }
  }

  lemma {:induction false} RoundFails<V>(s: State, script: nat -> Reply<V>, blockTime: nat, k: nat)
    requires k > 0 && Retries(s, script, blockTime, |s.until|).result == Err(MaxRetries)
    ensures var out := Retries(s, script, blockTime, |s.until|);
            && out.state.counter == s.counter + |s.until| && |out.state.until| == |s.until|
            && Rounds(s, script, blockTime, k)
               == Continued(out.trace, Rounds(Slept(out.state, blockTime), script, blockTime, k - 1))
  {
    RetriesTrace(s, script, blockTime, |s.until|);
  }

  /** A pass never goes over its number of attempts, and each attempt moves the counter by one. */
  lemma {:induction false} RetriesTrace<V>(s: State, script: nat -> Reply<V>, blockTime: nat, k: nat)
    requires k > 0 ==> s.until != []
    ensures var out := Retries(s, script, blockTime, k);
            && out.state.counter == s.counter + |out.trace| && |out.trace| <= k
            && |out.state.until| == |s.until| && out.state.now >= s.now
            && (out.result == Err(MaxRetries) ==> |out.trace| == k)
    decreases k
  {
    if k > 0 {
      RetriesTrace(AfterAttempt(s, script(s.counter), blockTime), script, blockTime, k - 1);
    }
  }
}
