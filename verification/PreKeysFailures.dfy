/** Runs in which a request fails after a claim of its own or of another request: keys that reach nobody, and gaps. */
module PreKeysFailures {
  import opened Common
  import opened PreKeys
  import opened PreKeysClaims
  import opened PreKeysRuns

  // --- An upload that the service accepts ---

  /** Two one-time keys and a signed one, of three key ids. */
  predicate TwoKeys(p: Payload) {
    |p.preKeys| == 2 && p.signedPreKey.Some? && p.kyberPreKeys == [] && p.lastResort.None? &&
    p.preKeys[0].keyId < p.preKeys[1].keyId < p.signedPreKey.value.keyId
  }

  /** The upload validator, as far as such a payload is concerned. */
  predicate Accepted(p: Payload) {
    1 <= |p.preKeys| <= 100 && (forall k | k in p.preKeys :: k.keyId > 0 && 32 <= |k.publicKey| <= 128) &&
    (p.signedPreKey.Some? ==>
      var k := p.signedPreKey.value;
      k.keyId > 0 && 32 <= |k.publicKey| <= 128 && 64 <= |k.signature| <= 256)
  }

  function Sample(): Payload {
    Payload([PlainKey(1, Fill('a', 44)), PlainKey(2, Fill('b', 44))],
            Some(SignedUpload(3, Fill('c', 44), Fill('d', 88))), [], None)
  }

  const DEVICE: string := Fill('e', 36)

  lemma SampleShape()
    ensures TwoKeys(Sample()) && Accepted(Sample())
  {}

  /** The table holds exactly the three keys, unconsumed, and no request is in progress. */
  ghost predicate Stocked(s: System, device: string, account: string) {
    s.accounts == map[device := account] && s.locks == map[] && s.claimant == map[] && s.fetches == map[] &&
    |s.rows| == 3 && (forall i :: 0 <= i < 3 ==> s.rows[i].account == account && !s.rows[i].consumed) &&
    Has(s.rows[0], OneTime) && Has(s.rows[1], OneTime) && Has(s.rows[2], SignedKey) &&
    s.rows[0].keyId < s.rows[1].keyId < s.rows[2].keyId
  }

  function Uploading(account: string, p: Payload): seq<Event> {
    [StartUpload(0, account, p), StepUpload(0)] + [StepUpload(0), StepUpload(0)] + [StepUpload(0), StepUpload(0)]
  }

  lemma Unfold2(s: System, a: Event, b: Event)
    ensures Run(s, [a, b]) == Step(Step(s, a), b)
  {
    assert [a, b] == [a] + [b];
    RunNext(s, [a], b);
    RunOne(s, a);
  }

  ghost predicate UploadingAt(s: System, device: string, account: string, p: Payload, rows: seq<Row>, done: nat) {
    s.accounts == map[device := account] && s.locks == map[] && s.claimant == map[] && s.fetches == map[] &&
    s.rows == rows && 0 in s.uploads && s.uploads[0] == Upload(account, p, done, Running)
  }

  lemma StoreOne(s: System, device: string, account: string, p: Payload, rows: seq<Row>, done: nat)
    requires UploadingAt(s, device, account, p, rows, done) && done < PHASES
    requires Unique(rows + Phase(account, p, done))
    ensures UploadingAt(Step(s, StepUpload(0)), device, account, p, rows + Phase(account, p, done), done + 1)
  {}

  lemma StoreNone(s: System, device: string, account: string, p: Payload, rows: seq<Row>, done: nat)
    requires UploadingAt(s, device, account, p, rows, done) && done < PHASES
    requires Unique(rows) && Phase(account, p, done) == []
    ensures UploadingAt(Step(s, StepUpload(0)), device, account, p, rows, done + 1)
  {
    assert rows + [] == rows;
    StoreOne(s, device, account, p, rows, done);
  }

  lemma ReportLeaves(s: System, device: string, account: string, p: Payload, rows: seq<Row>)
    requires UploadingAt(s, device, account, p, rows, PHASES)
    ensures var t := Step(s, StepUpload(0));
      t.accounts == s.accounts && t.rows == rows && t.locks == map[] && t.claimant == map[] && t.fetches == map[]
  {}

  /** The rows of the two phases that store any. */
  function Stock(account: string, p: Payload): seq<Row> {
    Phase(account, p, 0) + Phase(account, p, 1)
  }

  lemma StockIs(account: string, p: Payload)
    requires TwoKeys(p)
    ensures var rows := Stock(account, p);
      |rows| == 3 && Unique(Phase(account, p, 0)) && Unique(rows) &&
      (forall i :: 0 <= i < 3 ==> rows[i].account == account && !rows[i].consumed) &&
      Has(rows[0], OneTime) && Has(rows[1], OneTime) && Has(rows[2], SignedKey) &&
      rows[0].keyId < rows[1].keyId < rows[2].keyId
    ensures Phase(account, p, 2) == [] && Phase(account, p, 3) == []
  {}

  lemma StoresKeys(s: System, device: string, account: string, p: Payload)
    requires TwoKeys(p) && UploadingAt(s, device, account, p, [], 0)
    ensures UploadingAt(Step(Step(s, StepUpload(0)), StepUpload(0)), device, account, p, Stock(account, p), 2)
  {
    StockIs(account, p);
    assert [] + Phase(account, p, 0) == Phase(account, p, 0);
    StoreOne(s, device, account, p, [], 0);
    StoreOne(Step(s, StepUpload(0)), device, account, p, Phase(account, p, 0), 1);
  }

  lemma StoresNoMore(s: System, device: string, account: string, p: Payload)
    requires TwoKeys(p) && UploadingAt(s, device, account, p, Stock(account, p), 2)
    ensures Stocked(Step(Step(Step(s, StepUpload(0)), StepUpload(0)), StepUpload(0)), device, account)
  {
    var u := Step(s, StepUpload(0));
    StockIs(account, p);
    StoreNone(s, device, account, p, Stock(account, p), 2);
    StoreNone(u, device, account, p, Stock(account, p), 3);
    ReportLeaves(Step(u, StepUpload(0)), device, account, p, Stock(account, p));
  }

  lemma UploadUnfolds(s: System, account: string, p: Payload)
    ensures var e := StepUpload(0); var t := Step(Step(Step(s, StartUpload(0, account, p)), e), e);
      Run(s, Uploading(account, p)) == Step(Step(Step(t, e), e), e)
  {
    var e := StepUpload(0);
    var first := [StartUpload(0, account, p), e];
    RunConcat(s, first + [e, e], [e, e]);
    RunConcat(s, first, [e, e]);
    Unfold2(s, first[0], e);
    Unfold2(Run(s, first), e, e);
    Unfold2(Run(s, first + [e, e]), e, e);
  }

  lemma UploadStocks(device: string, account: string, p: Payload)
    requires TwoKeys(p)
    ensures Stocked(Run(Initial(map[device := account]), Uploading(account, p)), device, account)
  {
    var s, e := Initial(map[device := account]), StepUpload(0);
    assert device in s.accounts && account in s.accounts.Values;
    var s0 := Step(s, StartUpload(0, account, p));
    StoresKeys(s0, device, account, p);
    StoresNoMore(Step(Step(s0, e), e), device, account, p);
    UploadUnfolds(s, account, p);
  }

  // --- One request up to its lock ---

  function UpToLock(pid: nat, device: string): seq<Event> {
    [StartFetch(pid, device)] + [StepFetch(pid), StepFetch(pid)]
  }

  lemma SignedStep(s: System, pid: nat, signed: nat)
    requires pid in s.fetches && s.fetches[pid].stage.ReadingSigned?
    requires Newest(s, s.fetches[pid].account, SignedKey) == Some(signed)
    ensures Step(s, StepFetch(pid)) ==
            Put(s, pid, s.fetches[pid].(signed := Some(signed), stage := ClaimingOneTime))
  {}

  lemma LockStep(s: System, pid: nat, row: nat)
    requires pid in s.fetches && s.fetches[pid].stage.ClaimingOneTime?
    requires Claimable(s, s.fetches[pid].account, OneTime) == Some(row)
    ensures Step(s, StepFetch(pid)) ==
            Put(Lock(s, Some(row), pid), pid, s.fetches[pid].(stage := LockedOneTime(Some(row))))
  {}

  lemma ReachLock(s: System, pid: nat, device: string, signed: nat, row: nat)
    requires device in s.accounts && pid !in s.fetches
    requires Newest(s, s.accounts[device], SignedKey) == Some(signed)
    requires Claimable(s, s.accounts[device], OneTime) == Some(row)
    ensures var t := Run(s, UpToLock(pid, device));
      t.rows == s.rows && t.accounts == s.accounts && t.claimant == s.claimant && t.locks == s.locks[row := pid] &&
      t.fetches == s.fetches[pid :=
        Fetch(s.accounts[device], LockedOneTime(Some(row)), Some(signed), None, None, None)]
  {
    var e := StepFetch(pid);
    var u := Step(s, StartFetch(pid, device));
    RunConcat(s, [StartFetch(pid, device)], [e, e]);
    RunOne(s, StartFetch(pid, device));
    Unfold2(u, e, e);
    SignedStep(u, pid, signed);
    LockStep(Step(u, e), pid, row);
  }

  /** The signed key is found, and the first one-time key that is not locked is claimed. */
  lemma StockedPicks(s: System, account: string)
    requires |s.rows| == 3 && (forall i :: 0 <= i < 3 ==> s.rows[i].account == account && !s.rows[i].consumed)
    requires Has(s.rows[0], OneTime) && Has(s.rows[1], OneTime) && Has(s.rows[2], SignedKey)
    requires s.rows[0].keyId < s.rows[1].keyId && 1 !in s.locks
    ensures Newest(s, account, SignedKey) == Some(2)
    ensures Claimable(s, account, OneTime) == Some(if 0 in s.locks then 1 else 0)
  {
    PickSpec(s.rows, map[], account, SignedKey, true, 3);
    PickSpec(s.rows, s.locks, account, OneTime, false, 3);
    assert Matches(s.rows, map[], account, SignedKey, 2);
    assert Matches(s.rows, s.locks, account, OneTime, 1);
    assert 0 !in s.locks ==> Matches(s.rows, s.locks, account, OneTime, 0);
  }

  lemma CommitStep(s: System, pid: nat, row: nat)
    requires pid in s.fetches && s.fetches[pid].stage == LockedOneTime(Some(row)) && row < |s.rows|
    ensures var t := Step(s, StepFetch(pid));
      t.rows == s.rows[row := s.rows[row].(consumed := true)] && t.locks == s.locks - {row} &&
      t.claimant == s.claimant[row := pid] &&
      t.fetches == s.fetches[pid := s.fetches[pid].(oneTime := Some(row), stage := ClaimingKyber)]
  {}

  lemma FailStep(s: System, pid: nat)
    requires Enabled(s, FailFetch(pid))
    ensures var t, held := Step(s, FailFetch(pid)), Held(s.fetches[pid].stage);
      t.rows == s.rows && t.claimant == s.claimant &&
      t.locks == (if held.Some? then s.locks - {held.value} else s.locks) &&
      t.fetches == s.fetches[pid := s.fetches[pid].(stage := Failed)]
  {}

  // --- A key that reaches nobody ---

  function Losing(device: string, account: string, p: Payload): seq<Event> {
    Uploading(account, p) + UpToLock(1, device) + [StepFetch(1), FailFetch(1)]
  }

  lemma LostRun(device: string, account: string, p: Payload)
    requires TwoKeys(p)
    ensures var t := Run(Initial(map[device := account]), Losing(device, account, p));
      0 < |t.rows| && t.rows[0].consumed && t.claimant == map[0 := 1] &&
      forall q :: q in t.fetches && Holds(t.fetches[q], 0) ==> Response(t, t.fetches[q]).None?
  {
    var i, s := Initial(map[device := account]), Run(Initial(map[device := account]), Uploading(account, p));
    UploadStocks(device, account, p);
    StockedPicks(s, account);
    ReachLock(s, 1, device, 2, 0);
    var u := Run(s, UpToLock(1, device));
    Unfold2(u, StepFetch(1), FailFetch(1));
    CommitStep(u, 1, 0);
    FailStep(Step(u, StepFetch(1)), 1);
    RunConcat(i, Uploading(account, p) + UpToLock(1, device), [StepFetch(1), FailFetch(1)]);
    RunConcat(i, Uploading(account, p), UpToLock(1, device));
  }

  /** After an upload the service accepts, a request that fails once its claim is committed: nobody is shown the key. */
  lemma KeyLost()
    ensures Accepted(Sample())
    ensures var t := Run(Initial(map[DEVICE := "account"]), Losing(DEVICE, "account", Sample()));
      0 < |t.rows| && t.rows[0].consumed &&
      forall q :: q in t.fetches && Holds(t.fetches[q], 0) ==> Response(t, t.fetches[q]).None?
  {
    SampleShape();
    LostRun(DEVICE, "account", Sample());
  }

  // --- A gap in what was taken ---

  /** Request 2 takes the second key while request 1, which then fails, has the first one locked. */
  function Gapping(device: string): seq<Event> {
    UpToLock(1, device) + UpToLock(2, device) + [StepFetch(2), FailFetch(1)]
  }

  lemma CommitSecond(s: System, a: Fetch, b: Fetch)
    requires s.fetches == map[1 := a, 2 := b] && s.locks == map[0 := 1, 1 := 2] && |s.rows| == 3
    requires a.stage == LockedOneTime(Some(0)) && b.stage == LockedOneTime(Some(1))
    ensures var t := Run(s, [StepFetch(2), FailFetch(1)]);
      t.rows == s.rows[1 := s.rows[1].(consumed := true)] && t.locks == map[]
  {
    Unfold2(s, StepFetch(2), FailFetch(1));
    CommitStep(s, 2, 1);
    FailStep(Step(s, StepFetch(2)), 1);
  }

  lemma GapState(s: System, device: string, account: string)
    requires Stocked(s, device, account)
    ensures var t := Run(s, Gapping(device));
      t.rows == s.rows[1 := s.rows[1].(consumed := true)] && t.locks == map[]
  {
    StockedPicks(s, account);
    ReachLock(s, 1, device, 2, 0);
    var u := Run(s, UpToLock(1, device));
    StockedPicks(u, account);
    ReachLock(u, 2, device, 2, 1);
    var v := Run(u, UpToLock(2, device));
    CommitSecond(v, v.fetches[1], v.fetches[2]);
    RunConcat(s, UpToLock(1, device) + UpToLock(2, device), [StepFetch(2), FailFetch(1)]);
    RunConcat(s, UpToLock(1, device), UpToLock(2, device));
  }

  lemma GapFrom(s: System, device: string, account: string)
    requires Stocked(s, device, account)
    ensures var t := Run(s, Gapping(device));
      |t.rows| == |s.rows| && NoneInProgress(s, account, OneTime) && NoneInProgress(t, account, OneTime) &&
      !AreLeast(s.rows, Taken(s, t, account, OneTime), AvailableRows(s, account, OneTime))
  {
    GapState(s, device, account);
    var t := Run(s, Gapping(device));
    var some, all := Taken(s, t, account, OneTime), AvailableRows(s, account, OneTime);
    assert 1 in some && 0 in all - some && s.rows[0].keyId < s.rows[1].keyId;
  }

  /**
   * After an upload that the service accepts, a run with a failure in which what was
   * taken is not the least: the first key is free and the second one gone.
   */
  lemma FailureLeavesGap()
    ensures Accepted(Sample())
    ensures var s := Run(Initial(map[DEVICE := "account"]), Uploading("account", Sample()));
      var t := Run(s, Gapping(DEVICE));
      |t.rows| == |s.rows| && NoneInProgress(s, "account", OneTime) && NoneInProgress(t, "account", OneTime) &&
      !AreLeast(s.rows, Taken(s, t, "account", OneTime), AvailableRows(s, "account", OneTime))
  {
    SampleShape();
    UploadStocks(DEVICE, "account", Sample());
    GapFrom(Run(Initial(map[DEVICE := "account"]), Uploading("account", Sample())), DEVICE, "account");
  }
}
