/** When a request goes to the provider, and when two for the same balance do within the cache's thirty seconds. */
module BalanceAsks {
  import opened BalanceCache
  import opened Chains

  /** A lookup now would go to the provider. */
  predicate Asks(s: System, pid: nat, chain: Chain, address: string, limit: nat)
    requires pid !in s.requests
  {
    Step(s, Lookup(pid, chain, address), limit).requests[pid].answer == Waiting
  }

  /** A stored reply for the chain and, up to letter case, the address. */
  predicate Answers(x: Stored, chain: Chain, address: string) {
    x.chain == chain && SameUpToCase(x.address, address)
  }

  // --- The log is in order of time ---

  ghost predicate InTime(log: seq<Stored>) {
    forall i, j :: 0 <= i < j < |log| ==> log[i].at <= log[j].at
  }

  ghost predicate LogOk(s: System) {
    InTime(s.log) &&
    forall i :: 0 <= i < |s.log| ==> s.log[i].at <= s.now && s.log[i].address == Lower(s.log[i].address)
  }

  /** What is stored from a state on is appended, and not before the state's time. */
  ghost predicate LogGrown(s: System, t: System) {
    s.now <= t.now && |s.log| <= |t.log| && t.log[..|s.log|] == s.log &&
    forall k :: |s.log| <= k < |t.log| ==> s.now <= t.log[k].at
  }

  lemma StepLog(s: System, e: Event, limit: nat)
    requires LogOk(s)
    ensures LogOk(Step(s, e, limit)) && LogGrown(s, Step(s, e, limit))
  {
    if e.Receive? && Enabled(s, e) { LowerTwice(s.requests[e.pid].address); }
  }

  lemma GrownTransitive(s: System, t: System, u: System)
    requires LogGrown(s, t) && LogGrown(t, u)
    ensures LogGrown(s, u)
  {
    assert forall k :: 0 <= k < |t.log| ==> u.log[k] == t.log[k] by {
      assert forall k :: 0 <= k < |t.log| ==> u.log[..|t.log|][k] == u.log[k];
    }
    assert u.log[..|s.log|] == t.log[..|s.log|];
  }

  lemma {:induction false} RunLog(s: System, es: seq<Event>, limit: nat)
    requires LogOk(s)
    ensures LogOk(Run(s, es, limit)) && LogGrown(s, Run(s, es, limit))
    decreases es
  {
    if es != [] {
      StepLog(s, es[0], limit);
      RunLog(Step(s, es[0], limit), es[1..], limit);
      GrownTransitive(s, Step(s, es[0], limit), Run(s, es, limit));
    }
  }

  // --- When a request asks ---

  predicate IsUnder(x: Stored, key: string) {
    CacheKey(x.chain, x.address) == key
  }

  /** No reply stored under the key is younger than the TTL. */
  ghost predicate NoneRecent(log: seq<Stored>, now: nat, key: string) {
    forall i :: 0 <= i < |log| && IsUnder(log[i], key) ==> now - log[i].at >= CACHE_TTL_MS
  }

  lemma LastMatches(log: seq<Stored>, now: nat, key: string)
    requires InTime(log) && log != []
    requires IsUnder(log[|log| - 1], key)
    ensures NoneRecent(log, now, key) <==> now - log[|log| - 1].at >= CACHE_TTL_MS
  {}

  lemma LastSkipped(log: seq<Stored>, now: nat, key: string)
    requires InTime(log) && log != []
    requires !IsUnder(log[|log| - 1], key)
    ensures InTime(log[..|log| - 1]) && (NoneRecent(log, now, key) <==> NoneRecent(log[..|log| - 1], now, key))
  {
    var n := |log| - 1;
    forall i | 0 <= i < n ensures log[..n][i] == log[i] {}
    if NoneRecent(log[..n], now, key) {
      forall i | 0 <= i < |log| && IsUnder(log[i], key) ensures now - log[i].at >= CACHE_TTL_MS {
        assert i < n && IsUnder(log[..n][i], key);
      }
    } else {
      var i :| 0 <= i < n && IsUnder(log[..n][i], key) && now - log[..n][i].at < CACHE_TTL_MS;
      assert IsUnder(log[i], key);
    }
  }

  lemma {:induction false} RecentExact(log: seq<Stored>, now: nat, key: string)
    requires InTime(log)
    ensures Recent(log, now, key).None? <==> NoneRecent(log, now, key)
  {
    if log != [] {
      var x := log[|log| - 1];
      if IsUnder(x, key) {
        LastMatches(log, now, key);
      } else {
        LastSkipped(log, now, key);
        RecentExact(log[..|log| - 1], now, key);
      }
    }
  }

  lemma AsksWhen(s: System, pid: nat, chain: Chain, address: string, limit: nat)
    requires CacheOk(s) && LogOk(s) && pid !in s.requests
    ensures Asks(s, pid, chain, address, limit) <==>
            ValidAddress(address) &&
            forall k :: 0 <= k < |s.log| && Answers(s.log[k], chain, address) ==> s.now - s.log[k].at >= 30_000
  {
    var key := CacheKey(chain, address);
    FreshIsRecent(s, key);
    RecentExact(s.log, s.now, key);
    forall k | 0 <= k < |s.log|
      ensures IsUnder(s.log[k], key) <==> Answers(s.log[k], chain, address)
    {
      KeyInjective(s.log[k].chain, s.log[k].address, chain, address);
    }
  }

  /**
   * Over any run, a request goes to the provider if and only if its address is valid
   * and no reply for its chain and address up to letter case was stored in the last 30 s.
   */
  lemma AsksExact(es: seq<Event>, limit: nat, pid: nat, chain: Chain, address: string)
    requires pid !in Run(EMPTY, es, limit).requests
    ensures var t := Run(EMPTY, es, limit);
      Asks(t, pid, chain, address, limit) <==>
      ValidAddress(address) &&
      forall k :: 0 <= k < |t.log| && Answers(t.log[k], chain, address) ==> t.now - t.log[k].at >= 30_000
  {
    CacheRefinesLog(EMPTY, es, limit);
    RunLog(EMPTY, es, limit);
    AsksWhen(Run(EMPTY, es, limit), pid, chain, address, limit);
  }

  /**
   * Of two lookups for the same chain and address up to letter case less than 30 s apart, of
   * which the first asked the provider, the second asks it as well if and only if no
   * reply for them was stored in between.
   */
  lemma SecondAskExact(es: seq<Event>, more: seq<Event>, limit: nat, p: nat, q: nat,
                       chain: Chain, first: string, second: string)
    requires p !in Run(EMPTY, es, limit).requests && Asks(Run(EMPTY, es, limit), p, chain, first, limit)
    requires ValidAddress(second) && SameUpToCase(first, second)
    requires var t := Run(EMPTY, es, limit); var u := Run(Step(t, Lookup(p, chain, first), limit), more, limit);
      q !in u.requests && u.now - t.now < 30_000
    ensures var t := Run(EMPTY, es, limit); var u := Run(Step(t, Lookup(p, chain, first), limit), more, limit);
      |t.log| <= |u.log| &&
      (Asks(u, q, chain, second, limit) <==>
       forall k :: |t.log| <= k < |u.log| ==> !Answers(u.log[k], chain, first))
  {
    var t, e := Run(EMPTY, es, limit), Lookup(p, chain, first);
    var u := Run(Step(t, e, limit), more, limit);
    RunNext(EMPTY, es, e, limit);
    RunConcat(EMPTY, es + [e], more, limit);
    AsksExact(es, limit, p, chain, first);
    AsksExact(es + [e] + more, limit, q, chain, second);
    RunLog(EMPTY, es, limit);
    RunLog(Step(t, e, limit), more, limit);
    assert forall k :: 0 <= k < |t.log| ==> u.log[k] == t.log[k] by {
      assert forall k :: 0 <= k < |t.log| ==> u.log[..|t.log|][k] == u.log[k];
    }
  }

  /** Two clients that look the same balance up before either is answered make two requests to the provider. */
  lemma BothAsk(limit: nat, chain: Chain, address: string)
    requires ValidAddress(address)
    ensures var t := Run(EMPTY, [Lookup(1, chain, address), Lookup(2, chain, address)], limit);
      t.requests.Keys == {1, 2} && t.requests[1].answer == Waiting && t.requests[2].answer == Waiting
  {
    var a, b := Lookup(1, chain, address), Lookup(2, chain, address);
    assert [a, b] == [a] + [b];
    RunNext(EMPTY, [a], b, limit);
    RunOne(EMPTY, a, limit);
  }
}
