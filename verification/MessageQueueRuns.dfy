/** Claims about whole runs of interleaved queue calls in which every enqueue is safe, as all are if no id is reused. */
module MessageQueueRuns {
  import opened Common
  import opened SortedSet
  import opened MessageQueue
  import opened MessageQueueInvariant

  lemma AtHolds(s: System, es: seq<Event>, i: nat)
    requires Inv(s) && SafeRun(s, es) && i <= |es|
    ensures Inv(At(s, es, i))
  {
    AtSplit(s, es, 0, i);
    AtSplit(s, es, i, |es|);
    RunKeepsInv(s, es[..i]);
  }

  lemma AtLater(s: System, es: seq<Event>, i: nat, j: nat)
    requires Inv(s) && SafeRun(s, es) && i <= j <= |es|
    ensures Inv(At(s, es, i)) && Inv(At(s, es, j)) && Later(At(s, es, i), At(s, es, j))
  {
    AtHolds(s, es, i);
    AtSplit(s, es, i, j);
    RunKeepsInv(At(s, es, i), es[i..j]);
  }

  /** A call keeps what it recorded at its start, and changes no more once it has returned. */
  ghost predicate SameCall(s: System, t: System, pid: nat) {
    pid in s.calls ==>
      pid in t.calls && t.calls[pid].device == s.calls[pid].device && t.calls[pid].serial == s.calls[pid].serial &&
      t.calls[pid].before == s.calls[pid].before && t.calls[pid].snapshot == s.calls[pid].snapshot &&
      (s.calls[pid].returned ==> t.calls[pid] == s.calls[pid])
  }

  lemma {:induction false} CallHistory(s: System, es: seq<Event>, pid: nat)
    ensures SameCall(s, Run(s, es), pid)
    decreases es
  {
    if es != [] {
      assert SameCall(s, Step(s, es[0]), pid);
      CallHistory(Step(s, es[0]), es[1..], pid);
    }
  }

  lemma AtCall(s: System, es: seq<Event>, i: nat, j: nat, pid: nat)
    requires i <= j <= |es|
    ensures SameCall(At(s, es, i), At(s, es, j), pid)
  {
    AtSplit(s, es, i, j);
    CallHistory(At(s, es, i), es[i..j], pid);
  }

  /** Call `pid` reads the inbox at event `b` and returns at event `f` (the same event if the inbox is empty). */
  ghost predicate Returns(s: System, es: seq<Event>, pid: nat, device: string, b: nat, f: nat) {
    b <= f < |es| && es[b] == Begin(pid, device) && pid !in At(s, es, b).calls &&
    (b < f ==> IsOpen(At(s, es, f), pid)) &&
    pid in At(s, es, f + 1).calls && At(s, es, f + 1).calls[pid].returned
  }

  /** What the call returned. */
  function Result(s: System, es: seq<Event>, pid: nat): seq<PendingMessage>
    requires pid in Run(s, es).calls
  {
    Run(s, es).calls[pid].messages
  }

  /** The transactions its messages came from. */
  function Origins(s: System, es: seq<Event>, pid: nat): seq<Option<Sent>>
    requires pid in Run(s, es).calls
  {
    Run(s, es).calls[pid].got
  }

  lemma BeginRecords(s: System, pid: nat, device: string)
    requires pid !in s.calls
    ensures var t := Step(s, Begin(pid, device));
      pid in t.calls && t.calls[pid].device == device &&
      t.calls[pid].before == s.sent && t.calls[pid].snapshot == s.store
  {}

  lemma ReturnRecord(s: System, es: seq<Event>, pid: nat, device: string, b: nat, f: nat)
    requires Returns(s, es, pid, device, b, f)
    ensures pid in At(s, es, f + 1).calls
    ensures var c := At(s, es, f + 1).calls[pid];
      c.device == device && c.before == At(s, es, b).sent && c.snapshot == At(s, es, b).store && c.returned
  {
    AtNext(s, es, b);
    BeginRecords(At(s, es, b), pid, device);
    AtCall(s, es, b + 1, f + 1, pid);
  }

  lemma ReturnStays(s: System, es: seq<Event>, pid: nat, device: string, b: nat, f: nat)
    requires Returns(s, es, pid, device, b, f)
    ensures pid in At(s, es, f + 1).calls && pid in Run(s, es).calls
    ensures Run(s, es).calls[pid] == At(s, es, f + 1).calls[pid]
  {
    AtCall(s, es, f + 1, |es|, pid);
    assert es[..|es|] == es;
  }

  lemma ReturnRecords(s: System, es: seq<Event>, pid: nat, device: string, b: nat, f: nat)
    requires Returns(s, es, pid, device, b, f)
    ensures pid in At(s, es, f + 1).calls && pid in Run(s, es).calls
    ensures Run(s, es).calls[pid] == At(s, es, f + 1).calls[pid]
    ensures var c := Run(s, es).calls[pid];
      c.device == device && c.before == At(s, es, b).sent && c.snapshot == At(s, es, b).store && c.returned
  {
    ReturnRecord(s, es, pid, device, b, f);
    ReturnStays(s, es, pid, device, b, f);
  }

  /** The upper bound on a call that has returned, from its own record. */
  lemma CollectedWasLive(c: Call, i: nat)
    requires SnapshotOk(c) && ProgressOk(c) && i < |c.messages|
    ensures var m := c.messages[i];
      m.messageId in c.before && c.before[m.messageId].device == c.device && Live(c.snapshot, m.messageId) &&
      m == ToPending(m.messageId, c.before[m.messageId].value) &&
      i < |c.got| && c.got[i] == Some(c.before[m.messageId])
  {
    assert Key(c.messages[i]) in Listed(c);
  }

  /** The lower bound, from its record and the state in which it returned. */
  lemma LiveIsCollected(t: System, c: Call, id: string)
    requires CallOk(t, c) && c.returned && id in c.before && c.before[id].device == c.device
    requires StillLive(t, id, c.before[id])
    ensures ToPending(id, c.before[id].value) in c.messages
  {
    var all, ref := Listed(c), Ref(c.before[id].value.enqueuedAt, id);
    assert all[..|all|] == all && ref in all;
    var i :| 0 <= i < |c.messages| && Keys(c.messages)[i] == ref;
    assert c.messages[i] in c.messages && c.messages[i].messageId == id;
  }

  lemma SandwichUpper(s: System, es: seq<Event>, pid: nat, device: string, b: nat, f: nat, i: nat)
    requires Inv(s) && SafeRun(s, es) && Returns(s, es, pid, device, b, f)
    requires pid in Run(s, es).calls && i < |Result(s, es, pid)|
    ensures var m, start := Result(s, es, pid)[i], At(s, es, b);
      m.messageId in start.sent && start.sent[m.messageId].device == device && Live(start.store, m.messageId) &&
      m == ToPending(m.messageId, start.sent[m.messageId].value) &&
      i < |Origins(s, es, pid)| && Origins(s, es, pid)[i] == Some(start.sent[m.messageId])
  {
    ReturnRecords(s, es, pid, device, b, f);
    AtHolds(s, es, f + 1);
    CollectedWasLive(At(s, es, f + 1).calls[pid], i);
  }

  lemma SandwichLower(s: System, es: seq<Event>, pid: nat, device: string, b: nat, f: nat, id: string)
    requires Inv(s) && SafeRun(s, es) && Returns(s, es, pid, device, b, f) && pid in Run(s, es).calls
    requires id in At(s, es, b).sent && At(s, es, b).sent[id].device == device
    requires StillLive(At(s, es, f + 1), id, At(s, es, b).sent[id])
    ensures ToPending(id, At(s, es, b).sent[id].value) in Result(s, es, pid)
  {
    ReturnRecords(s, es, pid, device, b, f);
    AtHolds(s, es, f + 1);
    LiveIsCollected(At(s, es, f + 1), At(s, es, f + 1).calls[pid], id);
  }

  /**
   * The sandwich.  However the other calls, acknowledgements and expiries
   * interleave, a dequeue returns every message of the device enqueued before it
   * read the inbox and still live when it returned, and only messages that were
   * live when it read the inbox, each exactly as it was stored.
   */
  lemma Sandwich(s: System, es: seq<Event>, pid: nat, device: string, b: nat, f: nat)
    requires Inv(s) && SafeRun(s, es) && Returns(s, es, pid, device, b, f)
    ensures pid in Run(s, es).calls
    ensures forall id :: id in At(s, es, b).sent && At(s, es, b).sent[id].device == device &&
                         StillLive(At(s, es, f + 1), id, At(s, es, b).sent[id]) ==>
              ToPending(id, At(s, es, b).sent[id].value) in Result(s, es, pid)
    ensures forall m :: m in Result(s, es, pid) ==>
              var start := At(s, es, b);
              m.messageId in start.sent && start.sent[m.messageId].device == device &&
              Live(start.store, m.messageId) && m == ToPending(m.messageId, start.sent[m.messageId].value)
  {
    ReturnRecords(s, es, pid, device, b, f);
    var start := At(s, es, b);
    forall id | id in start.sent && start.sent[id].device == device && StillLive(At(s, es, f + 1), id, start.sent[id])
      ensures ToPending(id, start.sent[id].value) in Result(s, es, pid)
    {
      SandwichLower(s, es, pid, device, b, f, id);
    }
    forall m | m in Result(s, es, pid)
      ensures m.messageId in start.sent && start.sent[m.messageId].device == device &&
              Live(start.store, m.messageId) && m == ToPending(m.messageId, start.sent[m.messageId].value)
    {
      var i :| 0 <= i < |Result(s, es, pid)| && Result(s, es, pid)[i] == m;
      SandwichUpper(s, es, pid, device, b, f, i);
    }
  }

  /** A result is strictly sorted by (enqueuedAt, messageId), so without duplicates. */
  lemma ResultSorted(s: System, es: seq<Event>, pid: nat, i: nat, j: nat)
    requires Inv(s) && SafeRun(s, es) && pid in Run(s, es).calls
    requires i < j < |Result(s, es, pid)|
    ensures var r := Result(s, es, pid);
      r[i].messageId != r[j].messageId &&
      (r[i].enqueuedAt < r[j].enqueuedAt ||
       (r[i].enqueuedAt == r[j].enqueuedAt && Less(r[i].messageId, r[j].messageId)))
  {
    RunKeepsInv(s, es);
    CollectedSorted(Run(s, es).calls[pid], i, j);
  }

  lemma CollectedSorted(c: Call, i: nat, j: nat)
    requires SnapshotOk(c) && ProgressOk(c) && i < j < |c.messages|
    ensures c.messages[i].messageId != c.messages[j].messageId && Before(Key(c.messages[i]), Key(c.messages[j]))
  {
    assert Before(Keys(c.messages)[i], Keys(c.messages)[j]);
    assert Key(c.messages[i]) in Listed(c) && Key(c.messages[j]) in Listed(c);
    var a, b :| 0 <= a < |Listed(c)| && 0 <= b < |Listed(c)| &&
                Listed(c)[a] == Key(c.messages[i]) && Listed(c)[b] == Key(c.messages[j]);
    BeforeIrreflexive(Key(c.messages[i]));
    assert a != b;
    assert Listed(c)[a].id != Listed(c)[b].id;
  }

  /** No blob is read once seven days have passed since its transaction ran. */
  lemma NoStaleBlob(s: System, es: seq<Event>, i: nat, pid: nat)
    requires Inv(s) && SafeRun(s, es) && i < |es| && es[i] == Fetch(pid)
    requires pid in At(s, es, i).calls && pid in At(s, es, i + 1).calls
    requires At(s, es, i + 1).calls[pid].messages != At(s, es, i).calls[pid].messages
    ensures var c, n := At(s, es, i).calls[pid], At(s, es, i + 1).calls[pid];
      c.todo != [] && c.todo[0] in At(s, es, i).sent &&
      var x := At(s, es, i).sent[c.todo[0]];
      n.messages == c.messages + [ToPending(c.todo[0], x.value)] && n.got == c.got + [Some(x)] &&
      x.at <= At(s, es, i).store.now < x.at + 604_800_000
  {
    AtNext(s, es, i);
    AtHolds(s, es, i);
  }

  // --- When a returned message was fetched ---

  /** Event `g` is the GET that appended message `i` of call `pid`. */
  ghost predicate FetchedAt(s: System, es: seq<Event>, pid: nat, i: nat, g: nat) {
    g < |es| && es[g] == Fetch(pid) && pid in At(s, es, g).calls && pid in At(s, es, g + 1).calls &&
    |At(s, es, g).calls[pid].messages| == i < |At(s, es, g + 1).calls[pid].messages|
  }

  /** That message is still the one the call has when `n` events have happened. */
  ghost predicate FetchedFor(s: System, es: seq<Event>, pid: nat, i: nat, g: nat, n: nat) {
    n <= |es| && pid in At(s, es, n).calls && i < |At(s, es, n).calls[pid].messages| && FetchedAt(s, es, pid, i, g) &&
    At(s, es, g + 1).calls[pid].messages[i] == At(s, es, n).calls[pid].messages[i]
  }

  lemma MessageStep(s: System, e: Event, pid: nat, i: nat)
    requires pid in Step(s, e).calls && i < |Step(s, e).calls[pid].messages|
    ensures pid in s.calls
    ensures var c, d := s.calls[pid].messages, Step(s, e).calls[pid].messages;
      (i < |c| && c[i] == d[i]) || (e == Fetch(pid) && i == |c|)
  {}

  lemma {:induction false} FetchedBefore(s: System, es: seq<Event>, pid: nat, b: nat, i: nat, n: nat)
    requires b < n <= |es| && pid !in At(s, es, b).calls
    requires pid in At(s, es, n).calls && i < |At(s, es, n).calls[pid].messages|
    ensures exists g: nat :: b < g < n && FetchedFor(s, es, pid, i, g, n)
    decreases n
  {
    AtNext(s, es, n - 1);
    MessageStep(At(s, es, n - 1), es[n - 1], pid, i);
    if i < |At(s, es, n - 1).calls[pid].messages| {
      FetchedBefore(s, es, pid, b, i, n - 1);
      var g: nat :| b < g < n - 1 && FetchedFor(s, es, pid, i, g, n - 1);
      assert FetchedFor(s, es, pid, i, g, n);
    } else {
      assert FetchedFor(s, es, pid, i, n - 1, n);
    }
  }

  /** Event `g` looks up the message of transaction `x`, before its time to live is over. */
  ghost predicate FetchedInTime(s: System, es: seq<Event>, pid: nat, x: Sent, g: nat) {
    g < |es| && es[g] == Fetch(pid) && x.at <= At(s, es, g).store.now < x.at + 604_800_000
  }

  /** What a GET of the call looks up is still as of the transaction that the call listed. */
  lemma FetchedOld(s: System, es: seq<Event>, pid: nat, device: string, b: nat, g: nat)
    requires Inv(s) && SafeRun(s, es) && b < g < |es| && es[b] == Begin(pid, device) && pid !in At(s, es, b).calls
    requires Enabled(At(s, es, g), Fetch(pid))
    ensures var id := At(s, es, g).calls[pid].todo[0];
      id in At(s, es, b).sent && Find(At(s, es, g).sent, id) == Some(At(s, es, b).sent[id])
  {
    AtNext(s, es, b);
    BeginRecords(At(s, es, b), pid, device);
    AtCall(s, es, b + 1, g, pid);
    AtHolds(s, es, g);
    NextIsOld(At(s, es, g), At(s, es, g).calls[pid]);
  }

  lemma FetchTimely(s: System, es: seq<Event>, pid: nat, device: string, b: nat, i: nat, g: nat)
    requires Inv(s) && SafeRun(s, es) && FetchedAt(s, es, pid, i, g)
    requires b < g && es[b] == Begin(pid, device) && pid !in At(s, es, b).calls
    ensures var id := At(s, es, g + 1).calls[pid].messages[i].messageId;
      id in At(s, es, b).sent && FetchedInTime(s, es, pid, At(s, es, b).sent[id], g)
  {
    NoStaleBlob(s, es, g, pid);
    AtNext(s, es, g);
    FetchedOld(s, es, pid, device, b, g);
  }

  /** Every returned message was fetched, between the inbox read and the return, before its time to live was over. */
  lemma ResultFresh(s: System, es: seq<Event>, pid: nat, device: string, b: nat, f: nat, i: nat)
    requires Inv(s) && SafeRun(s, es) && Returns(s, es, pid, device, b, f)
    requires pid in Run(s, es).calls && i < |Result(s, es, pid)|
    ensures var id := Result(s, es, pid)[i].messageId;
      id in At(s, es, b).sent && exists g: nat :: b < g <= f && FetchedInTime(s, es, pid, At(s, es, b).sent[id], g)
  {
    ReturnStays(s, es, pid, device, b, f);
    FetchedBefore(s, es, pid, b, i, f + 1);
    var g: nat :| b < g < f + 1 && FetchedFor(s, es, pid, i, g, f + 1);
    FetchTimely(s, es, pid, device, b, i, g);
  }

  /** In every reachable state the index is complete: no live message is missing from its recipient's inbox. */
  lemma NoOrphans(s: System, es: seq<Event>, id: string)
    requires Inv(s) && SafeRun(s, es) && Live(Run(s, es).store, id)
    ensures var t := Run(s, es);
      id in t.sent && t.store.msgs[id].value == t.sent[id].value &&
      var d := t.sent[id].device;
      Ref(t.store.msgs[id].value.enqueuedAt, id) in Inbox(t.store, d) &&
      t.store.msgs[id].expiresAt <= t.store.inboxes[d].expiresAt &&
      forall d', r :: r in Inbox(t.store, d') && r.id == id ==>
        d' == d && r.score == t.store.msgs[id].value.enqueuedAt
  {
    RunKeepsInv(s, es);
    assert Indexed(Run(s, es).store, Run(s, es).sent, id);
  }

  /**
   * Under any interleaving, the closing ZREM takes out of its device's inbox exactly the
   * references the call found missing, and leaves every other inbox as it is.
   */
  lemma CleanupRemoves(s: System, es: seq<Event>, pid: nat)
    requires Enabled(Run(s, es), Finish(pid, true))
    ensures var t, u := Run(s, es), Step(Run(s, es), Finish(pid, true)); var c := t.calls[pid];
      u.store.msgs == t.store.msgs &&
      (forall r :: r in Inbox(u.store, c.device) <==> r in Inbox(t.store, c.device) && r.id !in c.expired) &&
      (forall device :: device != c.device ==> Inbox(u.store, device) == Inbox(t.store, device))
  {
    var t := Run(s, es);
    var c := t.calls[pid];
    if c.expired != [] {
      forall device ensures Inbox(ZRem(t.store, c.device, c.expired), device) ==
                            if device == c.device then Remove(Inbox(t.store, device), c.expired)
                            else Inbox(t.store, device)
      {
        ZRemInboxes(t.store, c.device, c.expired, device);
      }
    }
  }

  /**
   * The closing ZREM drops no reference to a live message, adds none, and touches no message;
   * of what the call listed it leaves only references of messages the call returns.
   */
  lemma CleanupSafe(s: System, es: seq<Event>, pid: nat)
    requires Inv(s) && SafeRun(s, es) && Enabled(Run(s, es), Finish(pid, true))
    ensures var t, u := Run(s, es), Step(Run(s, es), Finish(pid, true)); var c := t.calls[pid];
      u.store.msgs == t.store.msgs &&
      (forall device, r: Ref :: Live(t.store, r.id) ==>
        (r in Inbox(u.store, device) <==> r in Inbox(t.store, device))) &&
      (forall r :: r in Inbox(u.store, c.device) && r in Listed(c) ==> r in Keys(c.messages))
  {
    RunKeepsInv(s, es);
    CleanupRemoves(s, es, pid);
    var t, u := Run(s, es), Step(Run(s, es), Finish(pid, true));
    var c := t.calls[pid];
    assert CallOk(t, c);
    assert Listed(c)[..|Listed(c)|] == Listed(c);
    forall device, r: Ref | Live(t.store, r.id) ensures r in Inbox(u.store, device) <==> r in Inbox(t.store, device) {
      if device == c.device && r in Inbox(t.store, device) { assert t.sent[r.id].device == device; }
    }
  }

  // --- Acknowledgements ---

  /** The acknowledgement at event `i` finds the message and answers true. */
  ghost predicate AckedAt(s: System, es: seq<Event>, i: nat, id: string) {
    i < |es| && es[i] == Purge(id) && Live(At(s, es, i).store, id)
  }

  /** What was acknowledged is gone: whatever is live under the id later was enqueued later. */
  lemma AckedGone(s: System, es: seq<Event>, i: nat, j: nat, id: string)
    requires Inv(s) && SafeRun(s, es) && AckedAt(s, es, i, id) && i < j <= |es|
    ensures id in At(s, es, i).sent && !StillLive(At(s, es, j), id, At(s, es, i).sent[id])
  {
    AtNext(s, es, i);
    AtHolds(s, es, i);
    AtLater(s, es, i + 1, j);
  }

  lemma {:induction false} SentStays(s: System, es: seq<Event>, id: string)
    requires NoReuse(s, es) && id in s.sent
    ensures id in Run(s, es).sent && Run(s, es).sent[id] == s.sent[id]
    decreases es
  {
    if es != [] { SentStays(Step(s, es[0]), es[1..], id); }
  }

  lemma {:induction false} NoReuseSplit(s: System, es: seq<Event>, i: nat, j: nat)
    requires NoReuse(s, es) && i <= j <= |es|
    ensures NoReuse(At(s, es, i), es[i..j])
    decreases es
  {
    if i > 0 {
      assert es[1..][i - 1..j - 1] == es[i..j] && es[..i][1..] == es[1..][..i - 1];
      NoReuseSplit(Step(s, es[0]), es[1..], i - 1, j - 1);
    } else if j > 0 {
      assert es[0..j][1..] == es[1..][0..j - 1] && es[1..][..0] == [];
      NoReuseSplit(Step(s, es[0]), es[1..], 0, j - 1);
    }
  }

  /** Without reuse, at most one acknowledgement of an id ever answers true, over every transport. */
  lemma AckedOnce(s: System, es: seq<Event>, i: nat, j: nat, id: string)
    requires Inv(s) && NoReuse(s, es)
    requires AckedAt(s, es, i, id) && AckedAt(s, es, j, id)
    ensures i == j
  {
    if i < j { AckedForGood(s, es, i, j, id); }
    if j < i { AckedForGood(s, es, j, i, id); }
  }

  lemma AckedForGood(s: System, es: seq<Event>, i: nat, j: nat, id: string)
    requires Inv(s) && NoReuse(s, es) && AckedAt(s, es, i, id) && i < j <= |es|
    ensures !Live(At(s, es, j).store, id)
    ensures id in At(s, es, i).sent && id in At(s, es, j).sent && At(s, es, j).sent[id] == At(s, es, i).sent[id]
  {
    NoReuseIsSafe(s, es);
    AckedGone(s, es, i, j, id);
    NoReuseSplit(s, es, i, j);
    AtSplit(s, es, i, j);
    SentStays(At(s, es, i), es[i..j], id);
  }

  /**
   * Whatever a dequeue begun after an acknowledgement that answered true returns
   * under that id comes from a later transaction than the acknowledged one.
   */
  lemma AckedReplaced(s: System, es: seq<Event>, i: nat, id: string,
                      pid: nat, device: string, b: nat, f: nat, k: nat)
    requires Inv(s) && SafeRun(s, es) && AckedAt(s, es, i, id)
    requires Returns(s, es, pid, device, b, f) && i < b
    requires pid in Run(s, es).calls && k < |Result(s, es, pid)| && Result(s, es, pid)[k].messageId == id
    ensures id in At(s, es, i).sent && k < |Origins(s, es, pid)| && Origins(s, es, pid)[k].Some?
    ensures Origins(s, es, pid)[k].value.serial > At(s, es, i).sent[id].serial
  {
    SandwichUpper(s, es, pid, device, b, f, k);
    AckedGone(s, es, i, b, id);
    AtLater(s, es, i, b);
  }

  /** Without reuse, no dequeue begun after an acknowledgement that answered true returns the id, on any device. */
  lemma AckedNeverReturned(s: System, es: seq<Event>, i: nat, id: string,
                           pid: nat, device: string, b: nat, f: nat)
    requires Inv(s) && NoReuse(s, es) && AckedAt(s, es, i, id)
    requires Returns(s, es, pid, device, b, f) && i < b
    ensures pid in Run(s, es).calls
    ensures forall m :: m in Result(s, es, pid) ==> m.messageId != id
  {
    NoReuseIsSafe(s, es);
    Sandwich(s, es, pid, device, b, f);
    AckedForGood(s, es, i, b, id);
  }

  // --- Acknowledgements and enqueues balance, whatever clients do ---

  predicate Sends(s: System, e: Event, id: string) {
    e.Enqueue? && Enabled(s, e) && e.message.messageId == id
  }

  /** How often the id is enqueued, and how many acknowledgements of it answer true. */
  function SendCount(s: System, es: seq<Event>, id: string): nat
    decreases es
  {
    if es == [] then 0 else (if Sends(s, es[0], id) then 1 else 0) + SendCount(Step(s, es[0]), es[1..], id)
  }

  function AckCount(s: System, es: seq<Event>, id: string): nat
    decreases es
  {
    if es == [] then 0
    else (if es[0] == Purge(id) && Live(s.store, id) then 1 else 0) + AckCount(Step(s, es[0]), es[1..], id)
  }

  /**
   * Over any run, ids reused or not: the acknowledgements of an id that answer true,
   * and one more if it is live at the end, are at most its enqueues, and one more if
   * it was live at the start.
   */
  lemma {:induction false} AcksWithinSends(s: System, es: seq<Event>, id: string)
    ensures AckCount(s, es, id) + (if Live(Run(s, es).store, id) then 1 else 0) <=
            SendCount(s, es, id) + (if Live(s.store, id) then 1 else 0)
    decreases es
  {
    if es != [] { AcksWithinSends(Step(s, es[0]), es[1..], id); }
  }
}
