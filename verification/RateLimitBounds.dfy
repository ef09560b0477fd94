/** How many requests a window, and any interval of time, lets through. */
module RateLimitBounds {
  import opened Common
  import opened RateLimit

  /** The largest delay between clock read and INCR that a counter's TTL covers. */
  const SLACK_MS: nat := 5_000

  // --- Clock arithmetic ---

  lemma FloorDivide(n: nat, d: nat)
    requires d > 0
    ensures (n as real / d as real).Floor == n / d
  {
    var q, r := n / d, n % d;
    assert n == q * d + r;
    assert n as real == (q * d) as real + r as real;
    assert (q * d) as real == q as real * d as real;
    assert n as real / d as real == q as real + r as real / d as real;
    assert 0.0 <= r as real / d as real < 1.0;
  }

  /** The two divisions by 1000 and by 60 floor to one division by 60000. */
  lemma WindowIs(ms: nat)
    ensures WindowOf(ms) == ms / WINDOW_MS
  {
    assert ms as real / 1000.0 / 60.0 == ms as real / 60000.0;
    FloorDivide(ms, 60000);
  }

  lemma SecondIs(ms: nat)
    ensures Second(ms) == ms / 1000 && WindowOf(ms) == Second(ms) / WINDOW_SECONDS
  {
    FloorDivide(ms, 1000);
    WindowIs(ms);
  }

  /** Retry-After is 60 less the current second modulo 60, and the reset is the start of the next minute, in seconds. */
  lemma HeadersAre(ms: nat)
    ensures RetryAfter(ms) == 60 - ms / 1000 % 60 && ResetAt(WindowOf(ms)) == (ms / 60_000 + 1) * 60
  {
    SecondIs(ms);
    WindowIs(ms);
  }

  /**
   * Retry-After is always between 1 and 60.  Added to the second it was computed in
   * it gives X-RateLimit-Reset exactly when that second is still in the request's window.
   */
  lemma RetryAfterExact(readAt: nat, refusedAt: nat)
    ensures 1 <= RetryAfter(refusedAt) <= WINDOW_SECONDS
    ensures Second(refusedAt) + RetryAfter(refusedAt) == ResetAt(WindowOf(readAt)) <==>
            WindowOf(refusedAt) == WindowOf(readAt)
    ensures Second(ResetAt(WindowOf(readAt)) as nat * 1000) == ResetAt(WindowOf(readAt))
    ensures forall ms: nat :: WindowOf(ms) > WindowOf(readAt) <==> Second(ms) >= ResetAt(WindowOf(readAt))
  {
    WindowIs(readAt);
    SecondIs(refusedAt);
    SecondIs(ResetAt(WindowOf(readAt)) as nat * 1000);
    forall ms: nat ensures WindowOf(ms) > WindowOf(readAt) <==> Second(ms) >= ResetAt(WindowOf(readAt)) {
      SecondIs(ms);
    }
  }

  lemma Peel(text: string, a: string, part: string, b: string)
    requires text == a + part + b
    ensures a == "" ==> part <= text
    ensures a != "" ==> text[1..] == a[1..] + part + b
  {
    if a == "" { assert text[..|part|] == part; }
  }

  /** The route class is decided by where its text occurs in the path; a send wins over a pending. */
  lemma {:induction false} IncludesExact(text: string, part: string)
    ensures Includes(text, part) <==> exists a: string, b: string :: text == a + part + b
  {
    if part <= text {
      assert text == [] + part + text[|part|..];
    } else if text != "" {
      IncludesExact(text[1..], part);
      if a: string, b: string :| text[1..] == a + part + b {
        assert text == [text[0]] + text[1..] == ([text[0]] + a) + part + b;
      }
      if a: string, b: string :| text == a + part + b {
        Peel(text, a, part, b);
      }
    }
  }

  // --- A counter never restarts ---

  predicate CountedOn(s: System, pid: nat, k: Key) {
    pid in s.requests && IsCounted(s.requests[pid]) && KeyOf(s.requests[pid]) == k
  }

  ghost predicate RequestOk(s: System, pid: nat) {
    pid in s.requests ==>
      var r := s.requests[pid];
      r.readAt <= s.now && r.window == WindowOf(r.readAt) &&
      (IsCounted(r) ==>
        r.count >= 1 &&
        if Live(s, KeyOf(r)) then r.count <= Value(s, KeyOf(r)) else s.now >= r.window * WINDOW_MS + TTL_MS)
  }

  /** No two requests of a window were given the same count. */
  ghost predicate DistinctCounts(s: System) {
    forall p, q, k :: CountedOn(s, p, k) && CountedOn(s, q, k) && s.requests[p].count == s.requests[q].count ==> p == q
  }

  ghost predicate CountersOk(s: System) {
    forall k :: k in s.counters ==> s.counters[k].expiresAt.Some? ==>
      s.counters[k].expiresAt.value >= k.1 * WINDOW_MS + TTL_MS
  }

  ghost predicate Inv(s: System) {
    CountersOk(s) && DistinctCounts(s) && (forall k :: k in s.counters ==> k.1 * WINDOW_MS <= s.now) &&
    forall pid :: RequestOk(s, pid)
  }

  lemma EmptyHolds()
    ensures Inv(EMPTY)
  {}

  lemma TickKeeps(s: System, ms: nat)
    requires Inv(s)
    ensures Inv(Step(s, Tick(ms)))
  {
    var t := Step(s, Tick(ms));
    forall pid ensures RequestOk(t, pid) {
      assert RequestOk(s, pid);
    }
    forall p, q, k | CountedOn(t, p, k) && CountedOn(t, q, k) && t.requests[p].count == t.requests[q].count
      ensures p == q
    {
      assert CountedOn(s, p, k) && CountedOn(s, q, k);
    }
  }

  /** A prompt INCR comes before its counter can have expired, so it is given a new count. */
  lemma PromptIncr(s: System, pid: nat)
    requires Inv(s) && Enabled(s, Incr(pid)) && Prompt(s, Incr(pid), SLACK_MS)
    ensures var k := KeyOf(s.requests[pid]);
      s.now < k.1 * WINDOW_MS + TTL_MS && (Live(s, k) || forall q :: !CountedOn(s, q, k))
    ensures forall q :: CountedOn(s, q, KeyOf(s.requests[pid])) ==>
              1 <= s.requests[q].count <= Value(s, KeyOf(s.requests[pid]))
  {
    assert RequestOk(s, pid);
    WindowIs(s.requests[pid].readAt);
    forall q | CountedOn(s, q, KeyOf(s.requests[pid]))
      ensures Live(s, KeyOf(s.requests[pid])) && 1 <= s.requests[q].count <= Value(s, KeyOf(s.requests[pid]))
    {
      assert RequestOk(s, q);
    }
  }

  lemma IncrKeeps(s: System, pid: nat)
    requires Inv(s) && Enabled(s, Incr(pid)) && Prompt(s, Incr(pid), SLACK_MS)
    ensures Inv(Step(s, Incr(pid)))
  {
    var t, k := Step(s, Incr(pid)), KeyOf(s.requests[pid]);
    PromptIncr(s, pid);
    WindowIs(s.requests[pid].readAt);
    assert RequestOk(s, pid);
    assert Live(t, k) && Value(t, k) == Value(s, k) + 1;
    forall q ensures RequestOk(t, q) {
      assert RequestOk(s, q);
      assert q != pid && CountedOn(s, q, k) ==> s.requests[q].count <= Value(s, k);
    }
    forall p, q, j | CountedOn(t, p, j) && CountedOn(t, q, j) && t.requests[p].count == t.requests[q].count
      ensures p == q
    {
      assert p != pid ==> CountedOn(s, p, j);
      assert q != pid ==> CountedOn(s, q, j);
    }
  }

  lemma ExpireKeeps(s: System, pid: nat)
    requires Inv(s) && Enabled(s, Expire(pid))
    ensures Inv(Step(s, Expire(pid)))
  {
    var t, k := Step(s, Expire(pid)), KeyOf(s.requests[pid]);
    assert RequestOk(s, pid);
    assert forall j :: Live(t, j) <==> Live(s, j);
    assert forall j :: Value(t, j) == Value(s, j);
    forall q ensures RequestOk(t, q) {
      assert RequestOk(s, q);
    }
    forall p, q, j | CountedOn(t, p, j) && CountedOn(t, q, j) && t.requests[p].count == t.requests[q].count
      ensures p == q
    {
      assert CountedOn(s, p, j) && CountedOn(s, q, j);
    }
  }

  lemma PutKeeps(s: System, pid: nat, r: Request)
    requires Inv(s) && r.readAt <= s.now && r.window == WindowOf(r.readAt)
    requires pid !in s.requests ==> !IsCounted(r)
    requires pid in s.requests ==>
      KeyOf(r) == KeyOf(s.requests[pid]) && r.count == s.requests[pid].count &&
      IsCounted(r) == IsCounted(s.requests[pid])
    ensures Inv(Put(s, pid, r))
  {
    var t := Put(s, pid, r);
    forall q ensures RequestOk(t, q) {
      assert RequestOk(s, q) && RequestOk(s, pid);
    }
    forall p, q, j | CountedOn(t, p, j) && CountedOn(t, q, j) && t.requests[p].count == t.requests[q].count
      ensures p == q
    {
      assert CountedOn(s, p, j) && CountedOn(s, q, j);
    }
  }

  lemma StepKeepsInv(s: System, e: Event)
    requires Inv(s) && Prompt(s, e, SLACK_MS)
    ensures Inv(Step(s, e))
  {
    if Enabled(s, e) {
      match e
      case Tick(ms) => TickKeeps(s, ms);
      case Arrive(pid, device, path) => PutKeeps(s, pid, NewRequest(s, device, path));
      case Incr(pid) => IncrKeeps(s, pid);
      case Expire(pid) => ExpireKeeps(s, pid);
      case Decide(pid) =>
        assert RequestOk(s, pid);
        PutKeeps(s, pid, Judged(s.requests[pid], s.now));
    }
  }

  lemma {:induction false} RunKeepsInv(s: System, es: seq<Event>)
    requires Inv(s) && PromptRun(s, es, SLACK_MS)
    ensures Inv(Run(s, es))
    decreases es
  {
    if es != [] {
      StepKeepsInv(s, es[0]);
      RunKeepsInv(Step(s, es[0]), es[1..]);
    }
  }

  // --- The bounds ---

  lemma {:induction false} DistinctBound(a: set<nat>, f: map<nat, nat>, limit: nat)
    requires forall x :: x in a ==> x in f && 1 <= f[x] <= limit
    requires forall x, y :: x in a && y in a && f[x] == f[y] ==> x == y
    ensures |a| <= limit
    decreases limit
  {
    if a != {} {
      if x :| x in a && f[x] == limit {
        var b := a - {x};
        DistinctBound(b, f, limit - 1);
        assert a == b + {x};
      } else {
        var x :| x in a;
        DistinctBound(a, f, limit - 1);
      }
    }
  }

  /** The requests admitted to a window, of the route classes whose limit is at most `limit`. */
  function AdmittedIn(s: System, device: string, window: int, limit: nat): set<nat> {
    set p | p in s.requests && s.requests[p].device == device && s.requests[p].window == window &&
            s.requests[p].limit <= limit && Admitted(s.requests[p])
  }

  lemma WindowHolds(s: System, device: string, window: int, limit: nat)
    requires Inv(s)
    ensures |AdmittedIn(s, device, window, limit)| <= limit
  {
    var a := AdmittedIn(s, device, window, limit);
    var f := map p | p in s.requests :: s.requests[p].count;
    forall x | x in a ensures CountedOn(s, x, (device, window)) && 1 <= f[x] <= limit {
      assert RequestOk(s, x);
    }
    DistinctBound(a, f, limit);
  }

  /**
   * Per device and window, at most 60 sends, 30 pendings and 100 requests in all
   * are admitted: any class of limit L gets at most L, however requests interleave.
   */
  lemma WindowBound(es: seq<Event>, device: string, window: int, limit: nat)
    requires PromptRun(EMPTY, es, SLACK_MS)
    ensures |AdmittedIn(Run(EMPTY, es), device, window, limit)| <= limit
  {
    RunKeepsInv(EMPTY, es);
    WindowHolds(Run(EMPTY, es), device, window, limit);
  }

  /** The requests admitted whose clock read falls in [from, from + length). */
  function AdmittedDuring(s: System, device: string, from: nat, length: nat, limit: nat): set<nat> {
    set p | p in s.requests && s.requests[p].device == device && from <= s.requests[p].readAt < from + length &&
            s.requests[p].limit <= limit && Admitted(s.requests[p])
  }

  function AdmittedAcross(s: System, device: string, first: int, n: nat, limit: nat): set<nat> {
    set p | p in s.requests && s.requests[p].device == device && first <= s.requests[p].window < first + n &&
            s.requests[p].limit <= limit && Admitted(s.requests[p])
  }

  lemma SubsetSize(a: set<nat>, b: set<nat>)
    requires a <= b
    ensures |a| <= |b|
  {
    assert b == a + (b - a);
  }

  lemma UnionSize(a: set<nat>, b: set<nat>)
    ensures |a + b| <= |a| + |b|
  {
    assert a + b == a + (b - a) && b - a <= b;
    SubsetSize(b - a, b);
  }

  function Times(limit: nat, n: nat): nat {
    if n == 0 then 0 else Times(limit, n - 1) + limit
  }

  lemma {:induction false} TimesIs(limit: nat, n: nat)
    ensures Times(limit, n) == limit * n
  {
    if n > 0 {
      TimesIs(limit, n - 1);
      assert limit * n == limit * (n - 1) + limit;
    }
  }

  lemma AcrossSplit(s: System, device: string, first: int, n: nat, limit: nat)
    requires n > 0
    ensures AdmittedAcross(s, device, first, n, limit) ==
            AdmittedAcross(s, device, first, n - 1, limit) + AdmittedIn(s, device, first + n - 1, limit)
  {}

  lemma {:induction false} WindowsHold(s: System, device: string, first: int, n: nat, limit: nat)
    requires Inv(s)
    ensures |AdmittedAcross(s, device, first, n, limit)| <= Times(limit, n)
  {
    if n > 0 {
      var a := AdmittedAcross(s, device, first, n - 1, limit);
      var b := AdmittedIn(s, device, first + n - 1, limit);
      WindowsHold(s, device, first, n - 1, limit);
      WindowHolds(s, device, first + n - 1, limit);
      AcrossSplit(s, device, first, n, limit);
      UnionSize(a, b);
    } else {
      assert AdmittedAcross(s, device, first, n, limit) == {};
    }
  }

  function CeilWindows(length: nat): nat {
    (length + WINDOW_MS - 1) / WINDOW_MS
  }

  /** Any interval of real time admits at most limit * (ceil(length / 60 s) + 1) requests of a class. */
  lemma IntervalBound(es: seq<Event>, device: string, from: nat, length: nat, limit: nat)
    requires PromptRun(EMPTY, es, SLACK_MS)
    ensures |AdmittedDuring(Run(EMPTY, es), device, from, length, limit)| <= limit * (CeilWindows(length) + 1)
  {
    var s := Run(EMPTY, es);
    var n := CeilWindows(length) + 1;
    var first := WindowOf(from);
    RunKeepsInv(EMPTY, es);
    WindowIs(from);
    forall p | p in AdmittedDuring(s, device, from, length, limit)
      ensures p in AdmittedAcross(s, device, first, n, limit)
    {
      assert RequestOk(s, p);
      WindowIs(s.requests[p].readAt);
    }
    SubsetSize(AdmittedDuring(s, device, from, length, limit), AdmittedAcross(s, device, first, n, limit));
    WindowsHold(s, device, first, n, limit);
    TimesIs(limit, n);
  }

  // --- Once refused ---

  lemma {:induction false} CountStays(s: System, es: seq<Event>, pid: nat)
    requires pid in s.requests
    ensures pid in Run(s, es).requests
    ensures var r, q := s.requests[pid], Run(s, es).requests[pid];
      q.limit == r.limit && KeyOf(q) == KeyOf(r) && (IsCounted(r) ==> IsCounted(q) && q.count == r.count)
    decreases es
  {
    if es != [] { CountStays(Step(s, es[0]), es[1..], pid); }
  }

  /**
   * Within a window, a refusal is final: a request of the same device counted
   * after a refused one, with that limit or a lower one, is refused as well.
   */
  lemma RefusedStaysRefused(es: seq<Event>, i: nat, p: nat, q: nat)
    requires PromptRun(EMPTY, es, SLACK_MS) && i < |es| && es[i] == Incr(q)
    requires p in At(EMPTY, es, i).requests && Enabled(At(EMPTY, es, i), Incr(q))
    requires var r, x := At(EMPTY, es, i).requests[p], At(EMPTY, es, i).requests[q];
      IsCounted(r) && r.count > r.limit && KeyOf(x) == KeyOf(r) && x.limit <= r.limit
    ensures var t := Run(EMPTY, es);
      q in t.requests && IsCounted(t.requests[q]) && !Admitted(t.requests[q])
  {
    AtSplit(EMPTY, es, i, SLACK_MS);
    AtSplit(EMPTY, es, i + 1, SLACK_MS);
    RunKeepsInv(EMPTY, es[..i]);
    var s := At(EMPTY, es, i);
    assert Prompt(s, es[i], SLACK_MS);
    PromptIncr(s, q);
    assert CountedOn(s, p, KeyOf(s.requests[q]));
    AtNext(EMPTY, es, i);
    CountStays(At(EMPTY, es, i + 1), es[i + 1..], q);
  }

  // --- The slack is exact ---

  /** However requests interleave, as long as their INCRs are that prompt, no counter restarts. */
  ghost predicate NeverRestarts(slack: nat) {
    forall es: seq<Event> :: PromptRun(EMPTY, es, slack) ==> DistinctCounts(Run(EMPTY, es))
  }

  lemma {:induction false} PrompterRun(s: System, es: seq<Event>, slack: nat, more: nat)
    requires PromptRun(s, es, slack) && slack <= more
    ensures PromptRun(s, es, more)
    decreases es
  {
    if es != [] { PrompterRun(Step(s, es[0]), es[1..], slack, more); }
  }

  const LATE: seq<Event> :=
    [Arrive(1, "d", "/"), Incr(1), Expire(1), Tick(59_999), Arrive(2, "d", "/"), Tick(5_001), Incr(2)]

  /** Two requests of one window, the second delayed by 5001 ms: both are given count 1. */
  lemma LateRestarts()
    ensures PromptRun(EMPTY, LATE, 5_001) && !DistinctCounts(Run(EMPTY, LATE))
  {
    WindowIs(0);
    WindowIs(59_999);
    var s1 := Step(EMPTY, LATE[0]);
    var s2 := Step(s1, LATE[1]);
    var s3 := Step(s2, LATE[2]);
    var s4 := Step(s3, LATE[3]);
    var s5 := Step(s4, LATE[4]);
    var s6 := Step(s5, LATE[5]);
    var s7 := Step(s6, LATE[6]);
    assert s3.counters == map[("d", 0) := Counter(1, Some(65_000))];
    assert s6.counters == s3.counters && s6.now == 65_000 && !Live(s6, ("d", 0));
    assert CountedOn(s7, 1, ("d", 0)) && CountedOn(s7, 2, ("d", 0));
    assert s7.requests[1].count == 1 && s7.requests[2].count == 1;
    Unfold(EMPTY, LATE, 5_001);
    Unfold(s1, LATE[1..], 5_001);
    Unfold(s2, LATE[2..], 5_001);
    Unfold(s3, LATE[3..], 5_001);
    Unfold(s4, LATE[4..], 5_001);
    Unfold(s5, LATE[5..], 5_001);
    Unfold(s6, LATE[6..], 5_001);
    assert LATE[6..][1..] == [];
  }

  lemma Unfold(s: System, es: seq<Event>, slack: nat)
    requires es != []
    ensures Run(s, es) == Run(Step(s, es[0]), es[1..])
    ensures PromptRun(s, es, slack) <==> Prompt(s, es[0], slack) && PromptRun(Step(s, es[0]), es[1..], slack)
  {}

  /** Five seconds is exactly the delay the limiter tolerates. */
  lemma SlackExact(slack: nat)
    ensures NeverRestarts(slack) <==> slack <= SLACK_MS
  {
    if slack <= SLACK_MS {
      forall es: seq<Event> | PromptRun(EMPTY, es, slack) ensures DistinctCounts(Run(EMPTY, es)) {
        PrompterRun(EMPTY, es, slack, SLACK_MS);
        RunKeepsInv(EMPTY, es);
      }
    } else {
      LateRestarts();
      PrompterRun(EMPTY, LATE, 5_001, slack);
    }
  }
}
