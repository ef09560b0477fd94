/** The three budgets of the limiter, in terms of the paths that requests arrive with. */
module RateLimitClasses {
  import opened RateLimit
  import opened RateLimitBounds
  import opened RateLimitRefusals

  /** "/messages/send" occurs in the path. */
  ghost predicate IsSend(path: string) {
    exists a: string, b: string :: path == a + "/messages/send" + b
  }

  /** "/messages/pending" occurs in the path. */
  ghost predicate IsPending(path: string) {
    exists a: string, b: string :: path == a + "/messages/pending" + b
  }

  /** The limit of a request by its path: 60 for sends, 30 for pendings, 100 for all others. */
  ghost predicate LimitFor(path: string, limit: nat) {
    limit == if IsSend(path) then 60 else if IsPending(path) then 30 else 100
  }

  lemma LimitExact(path: string)
    ensures LimitFor(path, GetLimit(path))
  {
    IncludesExact(path, "/messages/send");
    IncludesExact(path, "/messages/pending");
  }

  /** Event `i` is the arrival of request `p`. */
  ghost predicate ArrivedAt(es: seq<Event>, i: nat, p: nat, device: string, path: string) {
    i < |es| && es[i] == Arrive(p, device, path) && p !in At(EMPTY, es, i).requests
  }

  /** Request `r` arrived at event `i`, and has the device, clock reading and limit of that arrival. */
  ghost predicate Arrived(es: seq<Event>, i: nat, p: nat, path: string, r: Request) {
    ArrivedAt(es, i, p, r.device, path) && LimitFor(path, r.limit) &&
    r.readAt == At(EMPTY, es, i).now && r.window == r.readAt / 60_000
  }

  lemma ArrivalStep(s: System, e: Event, p: nat)
    requires p in Step(s, e).requests
    ensures var r := Step(s, e).requests[p];
      if p in s.requests then
        var q := s.requests[p];
        r.device == q.device && r.limit == q.limit && r.readAt == q.readAt && r.window == q.window
      else e.Arrive? && e.pid == p && r.device == e.device && r.limit == GetLimit(e.path) &&
           r.readAt == s.now && r.window == WindowOf(s.now)
  {}

  /** Over every run, each request has the limit that its path calls for. */
  lemma {:induction false} ArrivalIs(es: seq<Event>, p: nat, n: nat)
    requires n <= |es| && p in At(EMPTY, es, n).requests
    ensures exists i: nat, path :: i < n && Arrived(es, i, p, path, At(EMPTY, es, n).requests[p])
  {
    if n > 0 {
      var m := n - 1;
      AtNext(EMPTY, es, m);
      ArrivalStep(At(EMPTY, es, m), es[m], p);
      if p in At(EMPTY, es, m).requests {
        ArrivalIs(es, p, m);
        var i: nat, path :| i < m && Arrived(es, i, p, path, At(EMPTY, es, m).requests[p]);
        assert Arrived(es, i, p, path, At(EMPTY, es, n).requests[p]);
      } else {
        WindowIs(At(EMPTY, es, m).now);
        LimitExact(es[m].path);
        assert Arrived(es, m, p, es[m].path, At(EMPTY, es, n).requests[p]);
      }
    }
  }

  /** The requests of the device that were admitted and read their clock in minute `minute`. */
  function AdmittedAll(es: seq<Event>, device: string, minute: nat): set<nat> {
    var t := Run(EMPTY, es);
    set p | p in t.requests && Admitted(t.requests[p]) && t.requests[p].device == device &&
            t.requests[p].readAt / 60_000 == minute
  }

  ghost predicate CameAsSend(es: seq<Event>, p: nat, device: string) {
    exists i: nat, path :: ArrivedAt(es, i, p, device, path) && IsSend(path)
  }

  ghost predicate CameAsPending(es: seq<Event>, p: nat, device: string) {
    exists i: nat, path :: ArrivedAt(es, i, p, device, path) && IsPending(path) && !IsSend(path)
  }

  ghost function AdmittedSends(es: seq<Event>, device: string, minute: nat): set<nat> {
    set p | p in AdmittedAll(es, device, minute) && CameAsSend(es, p, device)
  }

  ghost function AdmittedPendings(es: seq<Event>, device: string, minute: nat): set<nat> {
    set p | p in AdmittedAll(es, device, minute) && CameAsPending(es, p, device)
  }

  lemma {:induction false} StillThere(s: System, es: seq<Event>, p: nat)
    requires p in s.requests
    ensures p in Run(s, es).requests
    decreases es
  {
    if es != [] { StillThere(Step(s, es[0]), es[1..], p); }
  }

  /** A request arrives only once. */
  lemma OneArrival(es: seq<Event>, p: nat, i: nat, d: string, x: string, j: nat, d': string, y: string)
    requires ArrivedAt(es, i, p, d, x) && ArrivedAt(es, j, p, d', y)
    ensures i == j
  {
    if i < j { ArrivedBefore(es, p, i, j); }
    if j < i { ArrivedBefore(es, p, j, i); }
  }

  lemma ArrivedBefore(es: seq<Event>, p: nat, i: nat, j: nat)
    requires i < j <= |es| && es[i].Arrive? && es[i].pid == p
    ensures p in At(EMPTY, es, j).requests
  {
    AtNext(EMPTY, es, i);
    assert es[..j] == es[..i + 1] + es[i + 1..j];
    RunConcat(EMPTY, es[..i + 1], es[i + 1..j], 0);
    StillThere(At(EMPTY, es, i + 1), es[i + 1..j], p);
  }

  /** What the paths of a request's arrivals say of its limit. */
  lemma LimitByPath(es: seq<Event>, p: nat, device: string)
    requires p in Run(EMPTY, es).requests && Run(EMPTY, es).requests[p].device == device
    ensures var r := Run(EMPTY, es).requests[p];
      r.limit <= 100 && r.window == r.readAt / 60_000 &&
      (CameAsSend(es, p, device) ==> r.limit == 60) && (CameAsPending(es, p, device) ==> r.limit == 30)
  {
    assert es[..|es|] == es;
    ArrivalIs(es, p, |es|);
    var r := Run(EMPTY, es).requests[p];
    var i: nat, path :| i < |es| && Arrived(es, i, p, path, r);
    forall j: nat, y | ArrivedAt(es, j, p, device, y) ensures y == path {
      OneArrival(es, p, i, device, path, j, device, y);
    }
  }

  /**
   * Over every run whose INCRs are prompt, a device has at most 60 sends, at most 30
   * pendings and at most 100 requests of whatever kind admitted in any one minute.
   */
  lemma BudgetsHold(es: seq<Event>, device: string, minute: nat)
    requires PromptRun(EMPTY, es, 5_000)
    ensures |AdmittedSends(es, device, minute)| <= 60
    ensures |AdmittedPendings(es, device, minute)| <= 30
    ensures |AdmittedAll(es, device, minute)| <= 100
  {
    var t := Run(EMPTY, es);
    forall p | p in AdmittedAll(es, device, minute)
      ensures p in AdmittedIn(t, device, minute, 100)
      ensures CameAsSend(es, p, device) ==> p in AdmittedIn(t, device, minute, 60)
      ensures CameAsPending(es, p, device) ==> p in AdmittedIn(t, device, minute, 30)
    {
      LimitByPath(es, p, device);
    }
    WindowBound(es, device, minute, 100);
    WindowBound(es, device, minute, 60);
    WindowBound(es, device, minute, 30);
    SubsetSize(AdmittedAll(es, device, minute), AdmittedIn(t, device, minute, 100));
    SubsetSize(AdmittedSends(es, device, minute), AdmittedIn(t, device, minute, 60));
    SubsetSize(AdmittedPendings(es, device, minute), AdmittedIn(t, device, minute, 30));
  }

  /**
   * While every INCR is prompt, a request is refused if and only if the budget of its path
   * was used up, by requests of its device of any kind, when it was counted in its minute.
   */
  lemma RefusedByPath(es: seq<Event>, i: nat, pid: nat)
    requires PromptRun(EMPTY, es, 5_000) && JudgedAfter(es, i, pid)
    ensures var r := Run(EMPTY, es).requests[pid];
      exists j: nat, path :: ArrivedAt(es, j, pid, r.device, path) &&
        (!Admitted(r) <==>
         |CountedBefore(es, i, pid)| >= if IsSend(path) then 60 else if IsPending(path) then 30 else 100)
  {
    RefusedExact(es, i, pid);
    assert es[..|es|] == es;
    ArrivalIs(es, pid, |es|);
    var r := Run(EMPTY, es).requests[pid];
    var j: nat, path :| j < |es| && Arrived(es, j, pid, path, r);
    assert ArrivedAt(es, j, pid, r.device, path);
  }
}
