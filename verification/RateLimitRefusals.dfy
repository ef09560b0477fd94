/** When a request is refused: exactly when its device has used up the limit in its window, with whatever requests. */
module RateLimitRefusals {
  import opened Common
  import opened RateLimit
  import opened RateLimitBounds

  /** The requests of any class that were counted for a device and window. */
  function CountedSet(s: System, k: Key): set<nat> {
    set p | p in s.requests && IsCounted(s.requests[p]) && KeyOf(s.requests[p]) == k
  }

  lemma CountedStep(s: System, e: Event, k: Key)
    requires Enabled(s, e)
    ensures CountedSet(Step(s, e), k) ==
            if e.Incr? && KeyOf(s.requests[e.pid]) == k then CountedSet(s, k) + {e.pid} else CountedSet(s, k)
    ensures e.Incr? ==> e.pid !in CountedSet(s, k)
  {}

  // --- No counter exceeds what was counted ---

  ghost predicate Backed(s: System) {
    forall k :: Value(s, k) <= |CountedSet(s, k)|
  }

  lemma BackedStep(s: System, e: Event)
    requires Backed(s)
    ensures Backed(Step(s, e))
  {
    if Enabled(s, e) {
      var t := Step(s, e);
      forall k ensures Value(t, k) <= |CountedSet(t, k)| {
        CountedStep(s, e, k);
        assert Value(s, k) <= |CountedSet(s, k)|;
      }
    }
  }

  lemma {:induction false} RunBacked(s: System, es: seq<Event>)
    requires Backed(s)
    ensures Backed(Run(s, es))
    decreases es
  {
    if es != [] {
      BackedStep(s, es[0]);
      RunBacked(Step(s, es[0]), es[1..]);
    }
  }

  /** Request `pid`, counted by event `i`, has been judged. */
  ghost predicate JudgedAfter(es: seq<Event>, i: nat, pid: nat) {
    i < |es| && es[i] == Incr(pid) && Enabled(At(EMPTY, es, i), es[i]) &&
    pid in Run(EMPTY, es).requests && Run(EMPTY, es).requests[pid].stage == Decided
  }

  /** The other requests of its device and window that were counted before it. */
  function CountedBefore(es: seq<Event>, i: nat, pid: nat): set<nat>
    requires i < |es| && pid in At(EMPTY, es, i).requests
  {
    CountedSet(At(EMPTY, es, i), KeyOf(At(EMPTY, es, i).requests[pid]))
  }

  /** What INCR answered is one more than the counter it found, and decides the request. */
  lemma CountDecides(es: seq<Event>, i: nat, pid: nat)
    requires JudgedAfter(es, i, pid)
    ensures pid !in CountedBefore(es, i, pid)
    ensures var s, r := At(EMPTY, es, i), Run(EMPTY, es).requests[pid];
      r.count == Value(s, KeyOf(s.requests[pid])) + 1 && (!Admitted(r) <==> r.count > r.limit)
  {
    AtNext(EMPTY, es, i);
    AtSplit(EMPTY, es, i + 1, 0);
    CountStays(At(EMPTY, es, i + 1), es[i + 1..], pid);
  }

  /**
   * Over every run, however late its commands: a request is refused only after at
   * least `limit` others of its device were counted in its window.
   */
  lemma RefusalEarned(es: seq<Event>, i: nat, pid: nat)
    requires JudgedAfter(es, i, pid) && !Admitted(Run(EMPTY, es).requests[pid])
    ensures |CountedBefore(es, i, pid)| >= Run(EMPTY, es).requests[pid].limit
  {
    RunBacked(EMPTY, es[..i]);
    CountDecides(es, i, pid);
    var s := At(EMPTY, es, i);
    assert Value(s, KeyOf(s.requests[pid])) <= |CountedSet(s, KeyOf(s.requests[pid]))|;
  }

  // --- While every INCR is prompt, a counter is what was counted ---

  ghost predicate ExactOn(s: System, k: Key) {
    s.now < k.1 * WINDOW_MS + TTL_MS ==> Value(s, k) == |CountedSet(s, k)|
  }

  lemma ExactStep(s: System, e: Event, k: Key)
    requires Inv(s) && Prompt(s, e, SLACK_MS) && ExactOn(s, k)
    ensures ExactOn(Step(s, e), k)
  {
    if Enabled(s, e) {
      CountedStep(s, e, k);
      if e.Incr? { PromptIncr(s, e.pid); }
    }
  }

  lemma {:induction false} RunExact(s: System, es: seq<Event>, k: Key)
    requires Inv(s) && PromptRun(s, es, SLACK_MS) && ExactOn(s, k)
    ensures ExactOn(Run(s, es), k)
    decreases es
  {
    if es != [] {
      StepKeepsInv(s, es[0]);
      ExactStep(s, es[0], k);
      RunExact(Step(s, es[0]), es[1..], k);
    }
  }

  /**
   * While every INCR is prompt, a request is refused if and only if at least `limit`
   * requests of its device, of whatever class, were counted in its window before it.
   */
  lemma RefusedExact(es: seq<Event>, i: nat, pid: nat)
    requires PromptRun(EMPTY, es, SLACK_MS) && JudgedAfter(es, i, pid)
    ensures var r := Run(EMPTY, es).requests[pid];
      !Admitted(r) <==> |CountedBefore(es, i, pid)| >= r.limit
  {
    var s := At(EMPTY, es, i);
    var k := KeyOf(s.requests[pid]);
    AtSplit(EMPTY, es, i, SLACK_MS);
    RunKeepsInv(EMPTY, es[..i]);
    RunExact(EMPTY, es[..i], k);
    assert Prompt(s, es[i], SLACK_MS);
    PromptIncr(s, pid);
    CountDecides(es, i, pid);
  }

  // --- One budget for all classes ---

  /** The events of one request with nothing in between. */
  function Whole(pid: nat, device: string, path: string): seq<Event> {
    [Arrive(pid, device, path), Incr(pid)] + [Expire(pid), Decide(pid)]
  }

  lemma WholeRun(s: System, pid: nat, device: string, path: string)
    ensures var t := Step(Step(s, Arrive(pid, device, path)), Incr(pid));
      Run(s, Whole(pid, device, path)) == Step(Step(t, Expire(pid)), Decide(pid))
    ensures PromptRun(s, Whole(pid, device, path), 0) <==> Prompt(Step(s, Arrive(pid, device, path)), Incr(pid), 0)
  {
    var first, last := [Arrive(pid, device, path), Incr(pid)], [Expire(pid), Decide(pid)];
    RunConcat(s, first, last, 0);
    assert first[1..] == [Incr(pid)] && last[1..] == [Decide(pid)];
    RunOne(Step(s, first[0]), Incr(pid), 0);
    RunOne(Step(Run(s, first), last[0]), Decide(pid), 0);
  }

  /** A request that was read at `now` and has been judged. */
  predicate Served(r: Request, device: string, path: string, now: nat) {
    r.stage == Decided && r.device == device && r.limit == GetLimit(path) &&
    r.readAt == now && r.window == WindowOf(now)
  }

  lemma WholeState(s: System, pid: nat, device: string, path: string)
    requires pid !in s.requests
    ensures var t, k := Run(s, Whole(pid, device, path)), (device, WindowOf(s.now));
      PromptRun(s, Whole(pid, device, path), 0) && t.now == s.now && Value(t, k) == Value(s, k) + 1 &&
      pid in t.requests && t.requests == s.requests[pid := t.requests[pid]] &&
      Served(t.requests[pid], device, path, s.now) &&
      (Admitted(t.requests[pid]) <==> Value(s, k) < GetLimit(path)) &&
      k in t.counters && (Value(s, k) == 0 ==> t.counters[k].expiresAt == Some(s.now + TTL_MS)) &&
      (Value(s, k) > 0 ==> t.counters[k].expiresAt == s.counters[k].expiresAt)
  {
    WholeRun(s, pid, device, path);
    var k := (device, WindowOf(s.now));
    var u := Step(Step(s, Arrive(pid, device, path)), Incr(pid));
    assert Live(u, k) && Value(u, k) == Value(s, k) + 1;
    var v := Step(u, Expire(pid));
    assert Live(v, k) && Value(v, k) == Value(u, k);
  }

  /** Requests 0 .. n - 1, one after the other. */
  function Burst(n: nat, device: string, path: string): seq<Event> {
    if n == 0 then [] else Burst(n - 1, device, path) + Whole(n - 1, device, path)
  }

  /** Requests 0 .. n - 1 were admitted and counted, all at the start of the first window. */
  ghost predicate Spent(s: System, device: string, path: string, n: nat) {
    var k := (device, WindowOf(0));
    s.now == 0 && Value(s, k) == n && (n > 0 ==> s.counters[k].expiresAt == Some(TTL_MS)) &&
    (forall p: nat :: p in s.requests <==> p < n) &&
    forall p: nat :: p < n ==> Served(s.requests[p], device, path, 0) && Admitted(s.requests[p])
  }

  lemma SpendOne(s: System, device: string, path: string, n: nat)
    requires Spent(s, device, path, n) && n < GetLimit(path)
    ensures Spent(Run(s, Whole(n, device, path)), device, path, n + 1)
  {
    WholeState(s, n, device, path);
  }

  lemma {:induction false} BurstState(n: nat, device: string, path: string)
    requires n <= GetLimit(path)
    ensures PromptRun(EMPTY, Burst(n, device, path), 0) && Spent(Run(EMPTY, Burst(n, device, path)), device, path, n)
  {
    if n > 0 {
      BurstState(n - 1, device, path);
      var s := Run(EMPTY, Burst(n - 1, device, path));
      RunConcat(EMPTY, Burst(n - 1, device, path), Whole(n - 1, device, path), 0);
      SpendOne(s, device, path, n - 1);
      WholeState(s, n - 1, device, path);
    }
  }

  /**
   * Thirty sends in a window use up the budget of pendings: all are admitted, and the
   * first pending is refused.
   */
  lemma SendsUsePendings(device: string, send: string, pending: string)
    requires GetLimit(send) == SEND_LIMIT && GetLimit(pending) == PENDING_LIMIT
    ensures var es := Burst(PENDING_LIMIT, device, send) + Whole(PENDING_LIMIT, device, pending);
      var t := Run(EMPTY, es);
      PromptRun(EMPTY, es, 0) && (forall p: nat :: p in t.requests <==> p <= PENDING_LIMIT) &&
      (forall p: nat :: p < PENDING_LIMIT ==> Admitted(t.requests[p])) &&
      t.requests[PENDING_LIMIT].stage == Decided && !Admitted(t.requests[PENDING_LIMIT])
  {
    BurstState(PENDING_LIMIT, device, send);
    var s := Run(EMPTY, Burst(PENDING_LIMIT, device, send));
    RunConcat(EMPTY, Burst(PENDING_LIMIT, device, send), Whole(PENDING_LIMIT, device, pending), 0);
    WholeState(s, PENDING_LIMIT, device, pending);
  }

  const SEND_PART := "/messages/send"
  const PENDING_PART := "/messages/pending"
  const SEND := "/v1" + SEND_PART
  const PENDING := "/v1" + PENDING_PART

  lemma EndsWithPart(prefix: string, part: string)
    ensures Includes(prefix + part, part)
  {
    IncludesExact(prefix + part, part);
    assert prefix + part == prefix + part + "";
  }

  lemma Occurs(text: string, a: string, part: string, b: string, k: nat)
    requires text == a + part + b && k < |part|
    ensures |a| + k < |text| && text[|a| + k] == part[k]
  {}

  lemma PendingIsNoSend(a: string, b: string)
    ensures PENDING != a + SEND_PART + b
  {
    if PENDING == a + SEND_PART + b {
      assert |a| <= 6;
      Occurs(PENDING, a, SEND_PART, b, 1);
      Occurs(PENDING, a, SEND_PART, b, 10);
    }
  }

  lemma PendingExcludesSend()
    ensures !Includes(PENDING, SEND_PART)
  {
    IncludesExact(PENDING, SEND_PART);
    if a: string, b: string :| PENDING == a + SEND_PART + b { PendingIsNoSend(a, b); }
  }

  /** The two routes are of the two classes. */
  lemma RouteClasses()
    ensures GetLimit(SEND) == SEND_LIMIT && GetLimit(PENDING) == PENDING_LIMIT
  {
    EndsWithPart("/v1", SEND_PART);
    EndsWithPart("/v1", PENDING_PART);
    PendingExcludesSend();
  }
}
