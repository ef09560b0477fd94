/** How late INCRs may run before a window admits more requests than its limit. */
module RateLimitSlack {
  import opened RateLimit
  import opened RateLimitBounds
  import opened RateLimitRefusals

  /** Whatever the run, with INCRs that prompt no window admits more than its limit. */
  ghost predicate NeverExceeds(slack: nat) {
    forall es: seq<Event>, device: string, window: int, limit: nat ::
      PromptRun(EMPTY, es, slack) ==> |AdmittedIn(Run(EMPTY, es), device, window, limit)| <= limit
  }

  /** One more request of a device that has spent its budget: its clock is read in time, its INCR runs late. */
  function Late(pid: nat, device: string, path: string): seq<Event> {
    [Tick(59_999), Arrive(pid, device, path)] + [Tick(5_001), Incr(pid)] + [Expire(pid), Decide(pid)]
  }

  lemma Unfold2(s: System, a: Event, b: Event, slack: nat)
    ensures Run(s, [a, b]) == Step(Step(s, a), b)
    ensures PromptRun(s, [a, b], slack) <==> Prompt(s, a, slack) && Prompt(Step(s, a), b, slack)
  {
    assert [a, b] == [a] + [b];
    RunConcat(s, [a], [b], slack);
    RunOne(s, a, slack);
    RunOne(Step(s, a), b, slack);
  }

  lemma LateUnfolds(s: System, pid: nat, device: string, path: string, slack: nat)
    ensures var u := Step(Step(s, Tick(59_999)), Arrive(pid, device, path));
      var v := Step(Step(u, Tick(5_001)), Incr(pid));
      Run(s, Late(pid, device, path)) == Step(Step(v, Expire(pid)), Decide(pid)) &&
      (PromptRun(s, Late(pid, device, path), slack) <==> Prompt(Step(u, Tick(5_001)), Incr(pid), slack))
  {
    var a, b, c := [Tick(59_999), Arrive(pid, device, path)], [Tick(5_001), Incr(pid)], [Expire(pid), Decide(pid)];
    var u := Run(s, a);
    RunConcat(s, a + b, c, slack);
    RunConcat(s, a, b, slack);
    Unfold2(s, a[0], a[1], slack);
    Unfold2(u, b[0], b[1], slack);
    Unfold2(Run(u, b), c[0], c[1], slack);
  }

  /** By then the counter has expired, so the late request is counted as the first and admitted. */
  lemma LateAdmitted(s: System, device: string, path: string, n: nat)
    requires Spent(s, device, path, n) && 0 < n <= GetLimit(path)
    ensures var t := Run(s, Late(n, device, path));
      PromptRun(s, Late(n, device, path), 5_001) && n in t.requests && t.requests == s.requests[n := t.requests[n]] &&
      Admitted(t.requests[n]) && t.requests[n].device == device && t.requests[n].limit == GetLimit(path) &&
      t.requests[n].window == WindowOf(0)
  {
    LateUnfolds(s, n, device, path, 5_001);
    WindowIs(0);
    WindowIs(59_999);
    var k := (device, WindowOf(0));
    var u := Step(Step(s, Tick(59_999)), Arrive(n, device, path));
    var w := Step(u, Tick(5_001));
    assert w.counters == s.counters && w.now == TTL_MS && !Live(w, k);
    var v := Step(w, Incr(n));
    assert v.requests[n].count == 1;
  }

  /** The numbers below `n`. */
  function Numbers(n: nat): (r: set<nat>)
    ensures |r| == n && forall p: nat :: p in r <==> p < n
  {
    if n == 0 then {} else Numbers(n - 1) + {n - 1}
  }

  lemma AllAdmitted(s: System, t: System, device: string, path: string, n: nat)
    requires Spent(s, device, path, n) && n == GetLimit(path)
    requires n in t.requests && t.requests == s.requests[n := t.requests[n]]
    requires var r := t.requests[n]; Admitted(r) && r.device == device && r.limit == n && r.window == WindowOf(0)
    ensures |AdmittedIn(t, device, WindowOf(0), n)| == n + 1
  {
    forall p: nat ensures p in AdmittedIn(t, device, WindowOf(0), n) <==> p < n + 1 {}
    assert AdmittedIn(t, device, WindowOf(0), n) == Numbers(n + 1);
  }

  function OverBudget(device: string, path: string): seq<Event> {
    Burst(GetLimit(path), device, path) + Late(GetLimit(path), device, path)
  }

  /** A run with one INCR delayed by 5001 ms in which a window admits one request more than its limit. */
  lemma LateExceeds(device: string, path: string)
    ensures var es, limit := OverBudget(device, path), GetLimit(path);
      PromptRun(EMPTY, es, 5_001) && |AdmittedIn(Run(EMPTY, es), device, WindowOf(0), limit)| == limit + 1
  {
    var limit := GetLimit(path);
    var first, last := Burst(limit, device, path), Late(limit, device, path);
    BurstState(limit, device, path);
    PrompterRun(EMPTY, first, 0, 5_001);
    RunConcat(EMPTY, first, last, 5_001);
    LateAdmitted(Run(EMPTY, first), device, path, limit);
    AllAdmitted(Run(EMPTY, first), Run(EMPTY, first + last), device, path, limit);
  }

  /** Five seconds is exactly the delay under which no window ever admits more than its limit. */
  lemma BoundExact(slack: nat)
    ensures NeverExceeds(slack) <==> slack <= SLACK_MS
  {
    if slack <= SLACK_MS {
      forall es: seq<Event>, device: string, window: int, limit: nat | PromptRun(EMPTY, es, slack)
        ensures |AdmittedIn(Run(EMPTY, es), device, window, limit)| <= limit
      {
        PrompterRun(EMPTY, es, slack, SLACK_MS);
        WindowBound(es, device, window, limit);
      }
    } else {
      LateExceeds("d", "/");
      PrompterRun(EMPTY, OverBudget("d", "/"), 5_001, slack);
      assert |AdmittedIn(Run(EMPTY, OverBudget("d", "/")), "d", WindowOf(0), GetLimit("/"))| > GetLimit("/");
    }
  }
}
