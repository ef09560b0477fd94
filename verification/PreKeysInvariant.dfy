/** What every interleaving of uploads and fetches keeps. */
module PreKeysInvariant {
  import opened Common
  import opened PreKeys

  ghost predicate RowIs(s: System, row: nat, account: string, kind: Kind, consumed: bool) {
    row < |s.rows| && s.rows[row].account == account && Has(s.rows[row], kind) && s.rows[row].consumed == consumed
  }

  ghost predicate ClaimIs(s: System, pid: nat, row: nat, account: string, kind: Kind) {
    RowIs(s, row, account, kind, true) && row in s.claimant && s.claimant[row] == pid
  }

  ghost predicate LockIs(s: System, pid: nat, row: nat, account: string, kind: Kind) {
    RowIs(s, row, account, kind, false) && row in s.locks && s.locks[row] == pid
  }

  /** The rows a request holds are of its account, of the right pool, and its own. */
  ghost predicate HoldsOk(s: System, pid: nat, f: Fetch) {
    (f.signed.Some? ==> RowIs(s, f.signed.value, f.account, SignedKey, false)) &&
    (f.oneTime.Some? ==> ClaimIs(s, pid, f.oneTime.value, f.account, OneTime)) &&
    (f.kyber.Some? ==> ClaimIs(s, pid, f.kyber.value, f.account, KyberOneTime)) &&
    (f.lastResort.Some? ==> RowIs(s, f.lastResort.value, f.account, LastResort, false)) &&
    (Held(f.stage).Some? ==>
      LockIs(s, pid, Held(f.stage).value, f.account, if f.stage.LockedOneTime? then OneTime else KyberOneTime))
  }

  /** How far a request got says what it can hold. */
  predicate StageOk(f: Fetch) {
    (f.signed.None? ==> f.oneTime.None? && f.kyber.None? && f.lastResort.None?) &&
    !(f.kyber.Some? && f.lastResort.Some?) &&
    match f.stage
    case ReadingSigned => f.signed.None?
    case NotFound => f.signed.None?
    case ClaimingOneTime => f.signed.Some? && f.oneTime.None? && f.kyber.None? && f.lastResort.None?
    case LockedOneTime(_) => f.signed.Some? && f.oneTime.None? && f.kyber.None? && f.lastResort.None?
    case ClaimingKyber => f.signed.Some? && f.kyber.None? && f.lastResort.None?
    case LockedKyber(_) => f.signed.Some? && f.kyber.None? && f.lastResort.None?
    case ReadingLastResort => f.signed.Some? && f.kyber.None? && f.lastResort.None?
    case Answered => f.signed.Some?
    case Failed => true
  }

  ghost predicate FetchOk(s: System, pid: nat) {
    pid in s.fetches ==> HoldsOk(s, pid, s.fetches[pid]) && StageOk(s.fetches[pid])
  }

  ghost predicate FetchesOk(s: System) {
    forall pid :: FetchOk(s, pid)
  }

  ghost predicate LocksOk(s: System) {
    forall i :: i in s.locks ==> s.locks[i] in s.fetches && Held(s.fetches[s.locks[i]].stage) == Some(i)
  }

  /** A row is consumed exactly when some request has it, and then `claimant` names that request. */
  ghost predicate ClaimsOk(s: System) {
    (forall i: nat :: i < |s.rows| && s.rows[i].consumed ==> i in s.claimant) &&
    forall i :: i in s.claimant ==>
      i < |s.rows| && s.rows[i].consumed && s.claimant[i] in s.fetches &&
      (s.fetches[s.claimant[i]].oneTime == Some(i) || s.fetches[s.claimant[i]].kyber == Some(i))
  }

  ghost predicate Inv(s: System) {
    Unique(s.rows) && LocksOk(s) && ClaimsOk(s) && FetchesOk(s)
  }

  /** Rows are never removed or rewritten; only their consumed flag goes up. */
  predicate RowLater(a: Row, b: Row) {
    b.account == a.account && b.keyId == a.keyId && b.publicKey == a.publicKey && b.signature == a.signature &&
    b.isSigned == a.isSigned && b.isKyber == a.isKyber && b.isLastResort == a.isLastResort &&
    (a.consumed ==> b.consumed)
  }

  ghost predicate RowsLater(a: seq<Row>, b: seq<Row>) {
    |a| <= |b| && forall i :: 0 <= i < |a| ==> RowLater(a[i], b[i])
  }

  /** A request keeps its account and what it has claimed, and nothing of it changes once it is over. */
  predicate FetchLater(f: Fetch, g: Fetch) {
    g.account == f.account && (f.signed.Some? ==> g.signed == f.signed) &&
    (f.oneTime.Some? ==> g.oneTime == f.oneTime) && (f.kyber.Some? ==> g.kyber == f.kyber) &&
    (Final(f.stage) ==> g == f)
  }

  ghost predicate Later(s: System, t: System) {
    RowsLater(s.rows, t.rows) &&
    forall pid :: pid in s.fetches ==> pid in t.fetches && FetchLater(s.fetches[pid], t.fetches[pid])
  }

  /** Only row `row` may differ, by becoming consumed; locks and claims of others are untouched. */
  ghost predicate OnlyRow(s: System, t: System, row: Option<nat>) {
    |s.rows| <= |t.rows| &&
    (forall i: nat :: i < |s.rows| && row != Some(i) ==> t.rows[i] == s.rows[i]) &&
    (forall i :: i in s.locks && row != Some(i) ==> i in t.locks && t.locks[i] == s.locks[i]) &&
    (forall i :: i in s.claimant && row != Some(i) ==> i in t.claimant && t.claimant[i] == s.claimant[i]) &&
    (row.Some? ==> row.value < |s.rows| && !s.rows[row.value].consumed &&
                   (t.rows[row.value] == s.rows[row.value] ||
                    (!Has(s.rows[row.value], SignedKey) && !Has(s.rows[row.value], LastResort))))
  }

  lemma OtherHolds(s: System, t: System, pid: nat, f: Fetch, row: Option<nat>)
    requires HoldsOk(s, pid, f) && OnlyRow(s, t, row) && (row.Some? ==> Held(f.stage) != row)
    ensures HoldsOk(t, pid, f)
  {}

  /** Every request but `pid` is as it was, and so are their holdings. */
  lemma OthersKept(s: System, t: System, pid: nat, row: Option<nat>)
    requires FetchesOk(s) && OnlyRow(s, t, row)
    requires OnlyFetch(s, t, pid)
    requires row.Some? && row.value in s.locks ==> s.locks[row.value] == pid
    requires HoldsOk(t, pid, t.fetches[pid]) && StageOk(t.fetches[pid])
    ensures FetchesOk(t)
  {
    forall q: nat ensures FetchOk(t, q) {
      assert FetchOk(s, q);
      if q in s.fetches && q != pid { OtherHolds(s, t, q, s.fetches[q], row); }
    }
  }

  /** No claim is lost while requests keep what they claimed. */
  lemma ClaimsKept(s: System, t: System)
    requires ClaimsOk(s) && t.rows == s.rows && t.claimant == s.claimant
    requires forall q :: q in s.fetches ==> q in t.fetches && FetchLater(s.fetches[q], t.fetches[q])
    ensures ClaimsOk(t)
  {}

  lemma ClaimAdded(s: System, t: System, pid: nat, row: nat)
    requires ClaimsOk(s) && row < |s.rows| && !s.rows[row].consumed
    requires t.rows == s.rows[row := s.rows[row].(consumed := true)] && t.claimant == s.claimant[row := pid]
    requires forall q :: q in s.fetches ==> q in t.fetches && FetchLater(s.fetches[q], t.fetches[q])
    requires pid in t.fetches && (t.fetches[pid].oneTime == Some(row) || t.fetches[pid].kyber == Some(row))
    ensures ClaimsOk(t)
  {}

  lemma UniqueKept(a: seq<Row>, b: seq<Row>)
    requires Unique(a) && |a| == |b| && RowsLater(a, b)
    ensures Unique(b)
  {
    forall i, j | 0 <= i < j < |b| ensures b[i].account != b[j].account || b[i].keyId != b[j].keyId {
      assert b[i].keyId == a[i].keyId && b[j].keyId == a[j].keyId;
    }
  }

  ghost predicate OnlyFetch(s: System, t: System, pid: nat) {
    pid in t.fetches && t.fetches == s.fetches[pid := t.fetches[pid]]
  }

  lemma LocksKept(s: System, t: System, pid: nat)
    requires LocksOk(s) && OnlyFetch(s, t, pid) && t.locks == s.locks
    requires pid in s.fetches ==> Held(s.fetches[pid].stage).None?
    ensures LocksOk(t)
  {}

  lemma LockAdded(s: System, t: System, pid: nat, row: nat)
    requires LocksOk(s) && OnlyFetch(s, t, pid) && t.locks == s.locks[row := pid] && row !in s.locks
    requires pid in s.fetches && Held(s.fetches[pid].stage).None? && Held(t.fetches[pid].stage) == Some(row)
    ensures LocksOk(t)
  {}

  lemma LockDropped(s: System, t: System, pid: nat, row: nat)
    requires LocksOk(s) && OnlyFetch(s, t, pid) && t.locks == s.locks - {row}
    requires pid in s.fetches && Held(s.fetches[pid].stage) == Some(row)
    ensures LocksOk(t)
  {}

  /** A plain read, and the start of a request. */
  lemma KeepRead(s: System, pid: nat, f: Fetch)
    requires Inv(s) && HoldsOk(s, pid, f) && StageOk(f) && Held(f.stage).None?
    requires pid in s.fetches ==> FetchLater(s.fetches[pid], f) && Held(s.fetches[pid].stage).None?
    ensures Inv(Put(s, pid, f))
  {
    OthersKept(s, Put(s, pid, f), pid, None);
    ClaimsKept(s, Put(s, pid, f));
    LocksKept(s, Put(s, pid, f), pid);
  }

  lemma KeepLock(s: System, pid: nat, row: nat, g: Fetch)
    requires Inv(s) && pid in s.fetches && Held(s.fetches[pid].stage).None?
    requires row !in s.locks && row < |s.rows| && !s.rows[row].consumed
    requires FetchLater(s.fetches[pid], g) && Held(g.stage) == Some(row) && StageOk(g)
    requires HoldsOk(Lock(s, Some(row), pid), pid, g)
    ensures Inv(Put(Lock(s, Some(row), pid), pid, g))
  {
    var t := Put(Lock(s, Some(row), pid), pid, g);
    assert t.locks == s.locks[row := pid] && t.rows == s.rows && t.claimant == s.claimant;
    OthersKept(s, t, pid, Some(row));
    ClaimsKept(s, t);
    LockAdded(s, t, pid, row);
  }

  lemma CommitRows(s: System, row: Option<nat>, pid: nat)
    ensures RowsLater(s.rows, Commit(s, row, pid).rows)
  {}

  lemma CommitOnlyRow(s: System, pid: nat, row: nat, account: string)
    requires LockIs(s, pid, row, account, OneTime) || LockIs(s, pid, row, account, KyberOneTime)
    ensures OnlyRow(s, Commit(s, Some(row), pid), Some(row))
  {}

  lemma PutOnlyRow(s: System, t: System, row: Option<nat>, pid: nat, f: Fetch)
    requires OnlyRow(s, t, row)
    ensures OnlyRow(s, Put(t, pid, f), row)
    ensures HoldsOk(t, pid, f) <==> HoldsOk(Put(t, pid, f), pid, f)
  {}

  lemma KeepCommit(s: System, pid: nat, row: nat, g: Fetch)
    requires Inv(s) && pid in s.fetches && Held(s.fetches[pid].stage) == Some(row)
    requires FetchLater(s.fetches[pid], g) && Held(g.stage).None? && StageOk(g)
    requires LockIs(s, pid, row, g.account, OneTime) || LockIs(s, pid, row, g.account, KyberOneTime)
    requires g.oneTime == Some(row) || g.kyber == Some(row)
    requires HoldsOk(Commit(s, Some(row), pid), pid, g)
    ensures Inv(Put(Commit(s, Some(row), pid), pid, g))
  {
    var t := Put(Commit(s, Some(row), pid), pid, g);
    CommitOnlyRow(s, pid, row, g.account);
    PutOnlyRow(s, Commit(s, Some(row), pid), Some(row), pid, g);
    OthersKept(s, t, pid, Some(row));
    CommitRows(s, Some(row), pid);
    UniqueKept(s.rows, t.rows);
    ClaimAdded(s, t, pid, row);
    LockDropped(s, t, pid, row);
  }

  lemma ClaimKeeps(s: System, pid: nat)
    requires Inv(s) && pid in s.fetches
    requires s.fetches[pid].stage.ClaimingOneTime? || s.fetches[pid].stage.ClaimingKyber?
    ensures Inv(AdvanceFetch(s, pid))
  {
    var f := s.fetches[pid];
    var kind := if f.stage == ClaimingOneTime then OneTime else KyberOneTime;
    assert FetchOk(s, pid);
    PickSpec(s.rows, s.locks, f.account, kind, false, |s.rows|);
    var row := Claimable(s, f.account, kind);
    var g := f.(stage := if kind == OneTime then LockedOneTime(row) else LockedKyber(row));
    if row.Some? { KeepLock(s, pid, row.value, g); } else { KeepRead(s, pid, g); }
  }

  lemma CommitKeeps(s: System, pid: nat)
    requires Inv(s) && pid in s.fetches && (s.fetches[pid].stage.LockedOneTime? || s.fetches[pid].stage.LockedKyber?)
    ensures Inv(AdvanceFetch(s, pid))
  {
    var f := s.fetches[pid];
    var row := f.stage.row;
    assert FetchOk(s, pid);
    var g := if f.stage.LockedOneTime? then f.(oneTime := row, stage := ClaimingKyber)
             else f.(kyber := row, stage := if row.None? then ReadingLastResort else Answered);
    if row.Some? { KeepCommit(s, pid, row.value, g); } else { KeepRead(s, pid, g); }
  }

  lemma ReadKeeps(s: System, pid: nat)
    requires Inv(s) && pid in s.fetches
    requires s.fetches[pid].stage.ReadingSigned? || s.fetches[pid].stage.ReadingLastResort?
    ensures Inv(AdvanceFetch(s, pid))
  {
    var f := s.fetches[pid];
    assert FetchOk(s, pid);
    PickSpec(s.rows, map[], f.account, if f.stage == ReadingSigned then SignedKey else LastResort, true, |s.rows|);
    KeepRead(s, pid, AdvanceFetch(s, pid).fetches[pid]);
  }

  lemma StepFetchKeeps(s: System, pid: nat)
    requires Inv(s) && Enabled(s, StepFetch(pid))
    ensures Inv(AdvanceFetch(s, pid))
  {
    match s.fetches[pid].stage
    case ClaimingOneTime => ClaimKeeps(s, pid);
    case ClaimingKyber => ClaimKeeps(s, pid);
    case LockedOneTime(_) => CommitKeeps(s, pid);
    case LockedKyber(_) => CommitKeeps(s, pid);
    case _ => ReadKeeps(s, pid);
  }

  lemma EffectRows(s: System, pid: nat, f: Fetch)
    ensures RowsLater(s.rows, Effect(s, pid, f).rows)
  {
    if f.stage.LockedOneTime? || f.stage.LockedKyber? { CommitRows(s, f.stage.row, pid); }
  }

  lemma EffectFetches(s: System, pid: nat, f: Fetch)
    ensures var t := Effect(s, pid, f);
      t.fetches == s.fetches && t.uploads == s.uploads && t.accounts == s.accounts
  {}

  lemma NextLater(s: System, f: Fetch)
    requires StageOk(f)
    ensures FetchLater(f, NextFetch(s, f))
  {}

  lemma UploadOnly(s: System, pid: nat)
    requires pid in s.uploads
    ensures AdvanceUpload(s, pid).fetches == s.fetches
  {}

  lemma FailedHolds(s: System, row: Option<nat>, pid: nat, f: Fetch)
    requires HoldsOk(s, pid, f) && StageOk(f)
    ensures HoldsOk(Unlock(s, row), pid, f.(stage := Failed)) && StageOk(f.(stage := Failed))
  {}

  lemma KeepUnlock(s: System, pid: nat, row: nat, kind: Kind, g: Fetch)
    requires Inv(s) && pid in s.fetches && Held(s.fetches[pid].stage) == Some(row)
    requires LockIs(s, pid, row, g.account, kind)
    requires FetchLater(s.fetches[pid], g) && Held(g.stage).None? && StageOk(g)
    requires HoldsOk(Unlock(s, Some(row)), pid, g)
    ensures Inv(Put(Unlock(s, Some(row)), pid, g))
  {
    var t := Put(Unlock(s, Some(row)), pid, g);
    assert OnlyRow(s, Unlock(s, Some(row)), Some(row));
    PutOnlyRow(s, Unlock(s, Some(row)), Some(row), pid, g);
    OthersKept(s, t, pid, Some(row));
    ClaimsKept(s, t);
    LockDropped(s, t, pid, row);
  }

  lemma FailFetchKeeps(s: System, pid: nat)
    requires Inv(s) && Enabled(s, FailFetch(pid))
    ensures Inv(Step(s, FailFetch(pid)))
  {
    var f := s.fetches[pid];
    assert FetchOk(s, pid);
    FailedHolds(s, Held(f.stage), pid, f);
    if Held(f.stage).Some? {
      var kind := if f.stage.LockedOneTime? then OneTime else KyberOneTime;
      KeepUnlock(s, pid, Held(f.stage).value, kind, f.(stage := Failed));
    } else {
      KeepRead(s, pid, f.(stage := Failed));
    }
  }

  /** What an upload's step does to the table: it appends unconsumed rows, or nothing. */
  ghost predicate Appends(s: System, t: System) {
    t.fetches == s.fetches && t.locks == s.locks && t.claimant == s.claimant &&
    |s.rows| <= |t.rows| && t.rows[..|s.rows|] == s.rows && (Unique(s.rows) ==> Unique(t.rows)) &&
    forall i :: |s.rows| <= i < |t.rows| ==> !t.rows[i].consumed
  }

  lemma PhaseUnconsumed(account: string, p: Payload, k: nat, i: nat)
    requires i < |Phase(account, p, k)|
    ensures !Phase(account, p, k)[i].consumed && Phase(account, p, k)[i].account == account
  {}

  lemma UploadAppends(s: System, pid: nat)
    requires pid in s.uploads
    ensures Appends(s, AdvanceUpload(s, pid))
  {
    var u, t := s.uploads[pid], AdvanceUpload(s, pid);
    if t.rows != s.rows {
      var batch := Phase(u.account, u.payload, u.done);
      forall i | |s.rows| <= i < |t.rows| ensures !t.rows[i].consumed {
        PhaseUnconsumed(u.account, u.payload, u.done, i - |s.rows|);
        assert t.rows[i] == batch[i - |s.rows|];
      }
    }
  }

  lemma AppendsKeeps(s: System, t: System)
    requires Inv(s) && Appends(s, t)
    ensures Inv(t)
  {
    assert forall i: nat :: i < |s.rows| ==> t.rows[i] == t.rows[..|s.rows|][i];
    forall q: nat ensures FetchOk(t, q) {
      assert FetchOk(s, q);
      if q in s.fetches { OtherHolds(s, t, q, s.fetches[q], None); }
    }
  }

  lemma AppendsLater(s: System, t: System)
    requires Appends(s, t)
    ensures Later(s, t)
  {
    assert forall i: nat :: i < |s.rows| ==> t.rows[i] == t.rows[..|s.rows|][i];
  }

  lemma StartFetchKeeps(s: System, pid: nat, device: string)
    requires Inv(s) && pid !in s.fetches
    ensures Inv(Step(s, StartFetch(pid, device)))
  {
    KeepRead(s, pid, Step(s, StartFetch(pid, device)).fetches[pid]);
  }

  lemma StepKeepsInv(s: System, e: Event)
    requires Inv(s)
    ensures Inv(Step(s, e))
  {
    if Enabled(s, e) {
      match e
      case StartFetch(pid, device) => StartFetchKeeps(s, pid, device);
      case StepFetch(pid) => StepFetchKeeps(s, pid);
      case FailFetch(pid) => FailFetchKeeps(s, pid);
      case StartUpload(_, _, _) => AppendsKeeps(s, Step(s, e));
      case StepUpload(pid) =>
        UploadAppends(s, pid);
        AppendsKeeps(s, Step(s, e));
    }
  }

  lemma StepFetchLater(s: System, pid: nat)
    requires FetchesOk(s) && pid in s.fetches
    ensures Later(s, AdvanceFetch(s, pid))
  {
    EffectRows(s, pid, s.fetches[pid]);
    EffectFetches(s, pid, s.fetches[pid]);
    assert FetchOk(s, pid);
    NextLater(s, s.fetches[pid]);
  }

  lemma StepKeepsLater(s: System, e: Event)
    requires FetchesOk(s)
    ensures Later(s, Step(s, e))
  {
    if Enabled(s, e) {
      match e
      case StepFetch(pid) => StepFetchLater(s, pid);
      case StepUpload(pid) =>
        UploadAppends(s, pid);
        AppendsLater(s, Step(s, e));
      case _ =>
    }
  }

  lemma LaterTransitive(s: System, t: System, u: System)
    requires Later(s, t) && Later(t, u)
    ensures Later(s, u)
  {}

  /** Over every interleaving of uploads, fetches and failures. */
  lemma {:induction false} RunKeepsInv(s: System, es: seq<Event>)
    requires Inv(s)
    ensures Inv(Run(s, es)) && Later(s, Run(s, es))
    decreases es
  {
    if es != [] {
      StepKeepsInv(s, es[0]);
      StepKeepsLater(s, es[0]);
      RunKeepsInv(Step(s, es[0]), es[1..]);
      LaterTransitive(s, Step(s, es[0]), Run(s, es));
    }
  }
}
