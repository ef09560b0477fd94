/** What a balance request answers, in terms of the requests and the provider's replies. */
module BalanceContent {
  import opened BalanceCache
  import opened Chains

  /** "0x" and forty hex digits. */
  predicate IsAddress(a: string) {
    |a| == 42 && a[..2] == "0x" && forall i | 2 <= i < 42 :: a[i] in "0123456789abcdefABCDEF"
  }

  lemma HexDigits(c: char)
    ensures IsHex(c) <==> c in "0123456789abcdefABCDEF"
  {
    var digits := "0123456789abcdefABCDEF";
    assert forall i: nat :: i < 10 ==> digits[i] as int == '0' as int + i;
    assert forall i: nat :: 10 <= i < 16 ==> digits[i] as int == 'a' as int + i - 10;
    assert forall i: nat :: 16 <= i < 22 ==> digits[i] as int == 'A' as int + i - 16;
    if '0' <= c <= '9' { assert digits[c as int - '0' as int] == c; }
    if 'a' <= c <= 'f' { assert digits[10 + c as int - 'a' as int] == c; }
    if 'A' <= c <= 'F' { assert digits[16 + c as int - 'A' as int] == c; }
    if i :| 0 <= i < |digits| && digits[i] == c {
      assert i < 10 || 0 <= i - 10 < 6 || 0 <= i - 16 < 6;
    }
  }

  lemma ValidExact(a: string)
    ensures ValidAddress(a) <==> IsAddress(a)
  {
    if |a| == 42 {
      assert a[..2] == [a[0], a[1]] && "0x" == ['0', 'x'];
      forall i | 2 <= i < 42 ensures IsHex(a[i]) <==> a[i] in "0123456789abcdefABCDEF" { HexDigits(a[i]); }
    }
  }

  // --- The history of a request ---

  /** The state when the first `i` events have happened. */
  function At(es: seq<Event>, limit: nat, i: nat): System
    requires i <= |es|
  {
    Run(EMPTY, es[..i], limit)
  }

  lemma AtNext(es: seq<Event>, limit: nat, i: nat)
    requires i < |es|
    ensures At(es, limit, i + 1) == Step(At(es, limit, i), es[i], limit)
  {
    assert es[..i + 1] == es[..i] + [es[i]];
    RunNext(EMPTY, es[..i], es[i], limit);
  }

  /** Event `i` is the arrival of request `pid`. */
  predicate LookupAt(es: seq<Event>, limit: nat, i: nat, pid: nat, chain: Chain, address: string) {
    i < |es| && es[i] == Lookup(pid, chain, address) && pid !in At(es, limit, i).requests
  }

  /** Event `j` is the provider's reply to request `pid`. */
  predicate ReceiveAt(es: seq<Event>, limit: nat, j: nat, pid: nat, reply: Reply) {
    j < |es| && es[j] == Receive(pid, reply) &&
    pid in At(es, limit, j).requests && At(es, limit, j).requests[pid].answer == Waiting
  }

  /** What a request that asked the provider answers. */
  predicate Passes(reply: Reply, answer: Answer) {
    match reply
    case Result(Some(balance)) => answer == Served(balance, false)
    case Result(None) => answer == Served("0x0", false)
    case ProviderError => answer == BadGateway
    case Unreachable => answer == Unavailable
  }

  /** A reply came between events `i` and `n`, and the answer is what it says. */
  ghost predicate Replied(es: seq<Event>, limit: nat, pid: nat, r: Request, i: nat, n: nat) {
    exists j: nat, reply :: i < j < n && ReceiveAt(es, limit, j, pid, reply) && Passes(reply, r.answer) &&
      r.at == At(es, limit, j).now
  }

  /** Request `r` arrived at event `i`, and its answer is as it should be when `n` events have happened. */
  ghost predicate Accounted(es: seq<Event>, limit: nat, pid: nat, r: Request, i: nat, n: nat) {
    i < n && LookupAt(es, limit, i, pid, r.chain, r.address) &&
    if !IsAddress(r.address) then r.answer == BadRequest
    else if r.answer == Waiting || (r.answer.Served? && r.answer.cached) then r.at == At(es, limit, i).now
    else Replied(es, limit, pid, r, i, n)
  }

  lemma RepliedLater(es: seq<Event>, limit: nat, pid: nat, r: Request, i: nat, n: nat)
    requires Accounted(es, limit, pid, r, i, n)
    ensures Accounted(es, limit, pid, r, i, n + 1)
  {
    if IsAddress(r.address) && !(r.answer == Waiting || (r.answer.Served? && r.answer.cached)) {
      var j: nat, reply :| i < j < n && ReceiveAt(es, limit, j, pid, reply) && Passes(reply, r.answer) &&
                           r.at == At(es, limit, j).now;
      assert j < n + 1;
    }
  }

  lemma LookupAnswers(es: seq<Event>, limit: nat, pid: nat, n: nat)
    requires n < |es| && es[n].Lookup? && es[n].pid == pid && pid !in At(es, limit, n).requests
    ensures pid in At(es, limit, n + 1).requests
    ensures Accounted(es, limit, pid, At(es, limit, n + 1).requests[pid], n, n + 1)
  {
    AtNext(es, limit, n);
    ValidExact(es[n].address);
  }

  lemma ReceiveAnswers(es: seq<Event>, limit: nat, pid: nat, i: nat, n: nat)
    requires n < |es| && es[n].Receive? && ReceiveAt(es, limit, n, pid, es[n].reply)
    requires Accounted(es, limit, pid, At(es, limit, n).requests[pid], i, n)
    ensures pid in At(es, limit, n + 1).requests
    ensures Accounted(es, limit, pid, At(es, limit, n + 1).requests[pid], i, n + 1)
  {
    AtNext(es, limit, n);
    assert Passes(es[n].reply, At(es, limit, n + 1).requests[pid].answer);
  }

  lemma StepElsewhere(s: System, e: Event, limit: nat, pid: nat)
    requires e.Lookup? && e.pid == pid ==> pid in s.requests
    requires e.Receive? && e.pid == pid ==> !(pid in s.requests && s.requests[pid].answer == Waiting)
    ensures pid in Step(s, e, limit).requests <==> pid in s.requests
    ensures pid in s.requests ==> Step(s, e, limit).requests[pid] == s.requests[pid]
  {}

  /** Over every run, each request is accounted for by its arrival and, if it asked the provider, by the reply. */
  lemma {:induction false} AnswerExact(es: seq<Event>, limit: nat, pid: nat, n: nat)
    requires n <= |es| && pid in At(es, limit, n).requests
    ensures exists i: nat :: Accounted(es, limit, pid, At(es, limit, n).requests[pid], i, n)
  {
    if n > 0 {
      var m := n - 1;
      var s, e := At(es, limit, m), es[m];
      AtNext(es, limit, m);
      if e.Lookup? && e.pid == pid && pid !in s.requests {
        LookupAnswers(es, limit, pid, m);
      } else if e.Receive? && e.pid == pid && pid in s.requests && s.requests[pid].answer == Waiting {
        AnswerExact(es, limit, pid, m);
        var i: nat :| Accounted(es, limit, pid, s.requests[pid], i, m);
        ReceiveAnswers(es, limit, pid, i, m);
      } else {
        StepElsewhere(s, e, limit, pid);
        AnswerExact(es, limit, pid, m);
        var i: nat :| Accounted(es, limit, pid, s.requests[pid], i, m);
        RepliedLater(es, limit, pid, s.requests[pid], i, m);
      }
    }
  }

  // --- Cached answers ---

  /** Event `j` is a reply to some request for the chain and, up to letter case, the address; it said `balance`. */
  ghost predicate Said(es: seq<Event>, limit: nat, j: nat, asker: nat, chain: Chain, address: string, balance: string) {
    j < |es| && es[j].Receive? && ReceiveAt(es, limit, j, asker, es[j].reply) &&
    Passes(es[j].reply, Served(balance, false)) &&
    At(es, limit, j).requests[asker].chain == chain && SameUpToCase(At(es, limit, j).requests[asker].address, address)
  }

  lemma {:induction false} RequestStays(s: System, es: seq<Event>, limit: nat, pid: nat)
    requires pid in s.requests
    ensures pid in Run(s, es, limit).requests
    ensures Run(s, es, limit).requests[pid].chain == s.requests[pid].chain
    ensures Run(s, es, limit).requests[pid].address == s.requests[pid].address
    decreases es
  {
    if es != [] { RequestStays(Step(s, es[0], limit), es[1..], limit, pid); }
  }

  lemma SaidBy(es: seq<Event>, limit: nat, asker: nat, balance: string) returns (j: nat)
    requires asker in Run(EMPTY, es, limit).requests
    requires Run(EMPTY, es, limit).requests[asker].answer == Served(balance, false)
    ensures var r := Run(EMPTY, es, limit).requests[asker];
      Said(es, limit, j, asker, r.chain, r.address, balance) && r.at == At(es, limit, j).now
  {
    assert es[..|es|] == es;
    AnswerExact(es, limit, asker, |es|);
    var r := Run(EMPTY, es, limit).requests[asker];
    var i: nat :| Accounted(es, limit, asker, r, i, |es|);
    var reply;
    j, reply :| i < j < |es| && ReceiveAt(es, limit, j, asker, reply) && Passes(reply, r.answer) &&
                r.at == At(es, limit, j).now;
    assert es == es[..j] + es[j..];
    RunConcat(EMPTY, es[..j], es[j..], limit);
    RequestStays(At(es, limit, j), es[j..], limit, asker);
  }

  lemma SameThrough(a: string, b: string, c: string)
    requires SameUpToCase(a, b) && SameUpToCase(b, c)
    ensures SameUpToCase(a, c)
  {
    LowerSame(a, b);
    LowerSame(b, c);
    LowerSame(a, c);
  }

  predicate WasCached(es: seq<Event>, limit: nat, pid: nat) {
    var t := Run(EMPTY, es, limit);
    pid in t.requests && t.requests[pid].answer.Served? && t.requests[pid].answer.cached
  }

  /** Where a cached answer comes from, at the time the request was answered. */
  lemma CachedSource(es: seq<Event>, limit: nat, pid: nat) returns (j: nat, asker: nat)
    requires WasCached(es, limit, pid)
    ensures var r := Run(EMPTY, es, limit).requests[pid];
      Said(es, limit, j, asker, r.chain, r.address, r.answer.balance) &&
      At(es, limit, j).now <= r.at < At(es, limit, j).now + 30_000
  {
    CachedAnswerGenuine(es, limit, pid);
    var t := Run(EMPTY, es, limit);
    var r := t.requests[pid];
    var x := Latest(t.log[..r.seen], CacheKey(r.chain, r.address)).value;
    asker := x.asker;
    assert FromReply(Project(t), x);
    j := SaidBy(es, limit, asker, x.balance);
    SameThrough(t.requests[asker].address, x.address, r.address);
    SaidSame(es, limit, j, asker, r.chain, t.requests[asker].address, r.address, x.balance);
  }

  lemma SaidSame(es: seq<Event>, limit: nat, j: nat, asker: nat, chain: Chain, a: string, b: string, balance: string)
    requires Said(es, limit, j, asker, chain, a, balance) && SameUpToCase(a, b)
    ensures Said(es, limit, j, asker, chain, b, balance)
  {
    SameThrough(At(es, limit, j).requests[asker].address, a, b);
  }

  lemma CachedArrival(es: seq<Event>, limit: nat, pid: nat) returns (i: nat)
    requires WasCached(es, limit, pid)
    ensures var r := Run(EMPTY, es, limit).requests[pid];
      LookupAt(es, limit, i, pid, r.chain, r.address) && r.at == At(es, limit, i).now
  {
    assert es[..|es|] == es;
    AnswerExact(es, limit, pid, |es|);
    i :| Accounted(es, limit, pid, Run(EMPTY, es, limit).requests[pid], i, |es|);
  }

  /**
   * Over every run, an answer from the cache is what the provider replied, less than 30 s
   * before, to a request for the same chain and, up to letter case, the same address.
   */
  lemma CachedWasSaid(es: seq<Event>, limit: nat, pid: nat)
    requires WasCached(es, limit, pid)
    ensures var r := Run(EMPTY, es, limit).requests[pid];
      exists i: nat, j: nat, asker :: LookupAt(es, limit, i, pid, r.chain, r.address) &&
        Said(es, limit, j, asker, r.chain, r.address, r.answer.balance) &&
        At(es, limit, j).now <= At(es, limit, i).now < At(es, limit, j).now + 30_000
  {
    var i := CachedArrival(es, limit, pid);
    var j, asker := CachedSource(es, limit, pid);
  }

  /** After a reply is stored the cache has at most 10000 entries, unless all of them are at most 30 s old. */
  lemma StoreBounded(s: System, pid: nat, reply: Reply)
    requires Enabled(s, Receive(pid, reply)) && reply.Result?
    ensures var t := Step(s, Receive(pid, reply), MAX_ENTRIES);
      |t.cache| <= 10_000 || forall k :: k in t.cache ==> t.now - t.cache[k].cachedAt <= 30_000
  {}
}
