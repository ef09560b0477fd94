/** What each claim step took, and why it took nothing, over whole runs. */
module PreKeysClaims {
  import opened Common
  import opened PreKeys
  import opened PreKeysInvariant
  import opened PreKeysRuns

  /** The pool's rows of the account that a claim may take. */
  predicate Free(s: System, account: string, kind: Kind, i: nat) {
    i < |s.rows| && InPool(s.rows[i], account, kind) && !s.rows[i].consumed && i !in s.locks
  }

  /** Every row of the account's pool is consumed or locked by a request. */
  ghost predicate Exhausted(s: System, account: string, kind: Kind) {
    forall i: nat :: i < |s.rows| && InPool(s.rows[i], account, kind) ==> s.rows[i].consumed || i in s.locks
  }

  ghost predicate IsLeastFree(s: System, account: string, kind: Kind, row: nat) {
    Free(s, account, kind, row) &&
    forall i: nat :: Free(s, account, kind, i) ==> s.rows[row].keyId <= s.rows[i].keyId
  }

  predicate Claiming(f: Fetch, kind: Kind) {
    if kind == OneTime then f.stage.ClaimingOneTime? else f.stage.ClaimingKyber?
  }

  /** The request has made its claim on the pool, and it took `row`. */
  predicate Claimed(f: Fetch, kind: Kind, row: Option<nat>) {
    if kind == OneTime then
      f.stage == LockedOneTime(row) ||
      (f.oneTime == row && (row.Some? || f.stage.ClaimingKyber? || f.stage.LockedKyber? ||
                            f.stage.ReadingLastResort? || f.stage.Answered?))
    else
      f.stage == LockedKyber(row) ||
      (row.Some? && f.kyber == row) ||
      (row.None? && (f.stage.ReadingLastResort? || f.lastResort.Some? || (f.stage.Answered? && f.kyber.None?)))
  }

  /** Event `i` is the claim of request `pid` on the pool of `account`, and it takes `row`. */
  ghost predicate ClaimsAt(s: System, es: seq<Event>, pid: nat, account: string, kind: Kind, row: Option<nat>, i: nat) {
    i < |es| && es[i] == StepFetch(pid) && pid in At(s, es, i).fetches &&
    At(s, es, i).fetches[pid].account == account && Claiming(At(s, es, i).fetches[pid], kind) &&
    Claimable(At(s, es, i), account, kind) == row
  }

  lemma OwnStep(s: System, pid: nat, kind: Kind, row: Option<nat>)
    requires kind == OneTime || kind == KyberOneTime
    requires pid in s.fetches && Claimed(NextFetch(s, s.fetches[pid]), kind, row)
    ensures Claimed(s.fetches[pid], kind, row) ||
            (Claiming(s.fetches[pid], kind) && Claimable(s, s.fetches[pid].account, kind) == row)
  {}

  lemma OtherStep(s: System, e: Event, pid: nat, kind: Kind, row: Option<nat>)
    requires e != StepFetch(pid) && pid in Step(s, e).fetches && Claimed(Step(s, e).fetches[pid], kind, row)
    ensures pid in s.fetches && Claimed(s.fetches[pid], kind, row)
    ensures Step(s, e).fetches[pid].account == s.fetches[pid].account
  {
    match e
    case StepFetch(q) => if q in s.fetches { EffectFetches(s, q, s.fetches[q]); }
    case StepUpload(u) => if u in s.uploads { UploadOnly(s, u); }
    case _ =>
  }

  lemma ClaimStep(s: System, e: Event, pid: nat, kind: Kind, row: Option<nat>)
    requires kind == OneTime || kind == KyberOneTime
    requires pid in Step(s, e).fetches && Claimed(Step(s, e).fetches[pid], kind, row)
    ensures pid in s.fetches && Step(s, e).fetches[pid].account == s.fetches[pid].account
    ensures Claimed(s.fetches[pid], kind, row) ||
            (e == StepFetch(pid) && Claiming(s.fetches[pid], kind) &&
             Claimable(s, s.fetches[pid].account, kind) == row)
  {
    if e != StepFetch(pid) {
      OtherStep(s, e, pid, kind, row);
    } else if Enabled(s, e) {
      OwnStep(s, pid, kind, row);
    }
  }

  lemma {:induction false} ClaimFrom(s: System, es: seq<Event>, pid: nat, kind: Kind, row: Option<nat>, n: nat)
    requires kind == OneTime || kind == KyberOneTime
    requires pid !in s.fetches && n <= |es|
    requires pid in At(s, es, n).fetches && Claimed(At(s, es, n).fetches[pid], kind, row)
    ensures exists i: nat :: i < n && ClaimsAt(s, es, pid, At(s, es, n).fetches[pid].account, kind, row, i)
    decreases n
  {
    assert n > 0;
    AtNext(s, es, n - 1);
    ClaimStep(At(s, es, n - 1), es[n - 1], pid, kind, row);
    if Claimed(At(s, es, n - 1).fetches[pid], kind, row) {
      ClaimFrom(s, es, pid, kind, row, n - 1);
    } else {
      assert ClaimsAt(s, es, pid, At(s, es, n).fetches[pid].account, kind, row, n - 1);
    }
  }

  lemma ClaimIsLeast(s: System, account: string, kind: Kind)
    ensures match Claimable(s, account, kind)
            case None => Exhausted(s, account, kind)
            case Some(row) => IsLeastFree(s, account, kind, row)
  {
    PickSpec(s.rows, s.locks, account, kind, false, |s.rows|);
    forall i: nat | i < |s.rows|
      ensures Matches(s.rows, s.locks, account, kind, i) <==> Free(s, account, kind, i)
    {}
    if Claimable(s, account, kind).None? {
      forall i: nat | i < |s.rows| && InPool(s.rows[i], account, kind) ensures s.rows[i].consumed || i in s.locks {
        assert !Matches(s.rows, s.locks, account, kind, i);
      }
    }
  }

  /** The claim step of request `pid` found every row of its pool consumed or locked. */
  ghost predicate FoundNone(s: System, es: seq<Event>, pid: nat, account: string, kind: Kind, i: nat) {
    ClaimsAt(s, es, pid, account, kind, None, i) && Exhausted(At(s, es, i), account, kind)
  }

  /** The claim step of request `pid` took the least key id that was neither consumed nor locked. */
  ghost predicate TookLeast(s: System, es: seq<Event>, pid: nat, account: string, kind: Kind, row: nat, i: nat) {
    ClaimsAt(s, es, pid, account, kind, Some(row), i) && IsLeastFree(At(s, es, i), account, kind, row)
  }

  /** Whatever runs beside it, a request past its claim took the least free key, or nothing as none was free. */
  lemma ClaimJustified(s: System, es: seq<Event>, pid: nat, kind: Kind, row: Option<nat>)
    requires kind == OneTime || kind == KyberOneTime
    requires pid !in s.fetches && pid in Run(s, es).fetches && Claimed(Run(s, es).fetches[pid], kind, row)
    ensures var account := Run(s, es).fetches[pid].account;
      match row
      case None => exists i: nat :: FoundNone(s, es, pid, account, kind, i)
      case Some(k) => exists i: nat :: TookLeast(s, es, pid, account, kind, k, i)
  {
    var account := Run(s, es).fetches[pid].account;
    assert es[..|es|] == es;
    ClaimFrom(s, es, pid, kind, row, |es|);
    var i: nat :| i < |es| && ClaimsAt(s, es, pid, account, kind, row, i);
    ClaimIsLeast(At(s, es, i), account, kind);
    match row
    case None => assert FoundNone(s, es, pid, account, kind, i);
    case Some(k) => assert TookLeast(s, es, pid, account, kind, k, i);
  }

  /** A bundle lacks a one-time key only if, at its claim step, every one-time row was consumed or locked. */
  lemma NullJustified(s: System, es: seq<Event>, pid: nat)
    requires Inv(s) && pid !in s.fetches && pid in Run(s, es).fetches
    requires Response(Run(s, es), Run(s, es).fetches[pid]).Some?
    ensures var t := Run(s, es); var f := t.fetches[pid]; var b := Response(t, f).value;
      (b.preKey.None? ==> exists i: nat :: FoundNone(s, es, pid, f.account, OneTime, i)) &&
      (b.kyberPreKey.None? ==> exists i: nat :: FoundNone(s, es, pid, f.account, KyberOneTime, i))
  {
    var f := Run(s, es).fetches[pid];
    if f.oneTime.None? { ClaimJustified(s, es, pid, OneTime, None); }
    if f.kyber.None? { ClaimJustified(s, es, pid, KyberOneTime, None); }
  }

  /** A one-time key in a bundle is the least that was neither consumed nor locked when its request claimed it. */
  lemma ShownIsLeast(s: System, es: seq<Event>, pid: nat)
    requires pid !in s.fetches && pid in Run(s, es).fetches
    ensures var f := Run(s, es).fetches[pid];
      (f.oneTime.Some? ==> exists i: nat :: TookLeast(s, es, pid, f.account, OneTime, f.oneTime.value, i)) &&
      (f.kyber.Some? ==> exists i: nat :: TookLeast(s, es, pid, f.account, KyberOneTime, f.kyber.value, i))
  {
    var f := Run(s, es).fetches[pid];
    if f.oneTime.Some? { ClaimJustified(s, es, pid, OneTime, f.oneTime); }
    if f.kyber.Some? { ClaimJustified(s, es, pid, KyberOneTime, f.kyber); }
  }

  /**
   * A bundle carries a last-resort Kyber key only if, when its request tried to
   * claim a one-time one, every one-time Kyber row of the account was consumed or locked.
   */
  lemma FallbackJustified(s: System, es: seq<Event>, pid: nat)
    requires pid !in s.fetches && pid in Run(s, es).fetches && Run(s, es).fetches[pid].lastResort.Some?
    ensures exists i: nat :: FoundNone(s, es, pid, Run(s, es).fetches[pid].account, KyberOneTime, i)
  {
    ClaimJustified(s, es, pid, KyberOneTime, None);
  }

  // --- What concurrent claims take together ---

  /** No keys are added and no request fails. */
  predicate Undisturbed(es: seq<Event>) {
    forall e | e in es :: !e.StepUpload? && !e.FailFetch?
  }

  ghost predicate SameRows(s: System, t: System) {
    |t.rows| == |s.rows| && RowsLater(s.rows, t.rows)
  }

  /** What is taken, by a lock or for good, has lesser key ids than what is still free. */
  ghost predicate LeastTaken(s: System, t: System, account: string, kind: Kind) {
    forall i: nat, j: nat ::
      Free(s, account, kind, i) && Free(s, account, kind, j) && s.rows[i].keyId < s.rows[j].keyId ==>
        Free(t, account, kind, i) ==> Free(t, account, kind, j)
  }

  /** What was free may be taken, and nothing taken becomes free. */
  ghost predicate FreeShrinks(s: System, t: System, account: string, kind: Kind) {
    forall i: nat :: Free(t, account, kind, i) ==> Free(s, account, kind, i)
  }

  /** A step of a request takes at most one row of the pool, and then the least free one. */
  ghost predicate TakesOne(s: System, t: System, account: string, kind: Kind) {
    forall i: nat :: Free(s, account, kind, i) && !Free(t, account, kind, i) ==> IsLeastFree(s, account, kind, i)
  }

  lemma LockTakesLeast(s: System, pid: nat, claimed: Kind, account: string, kind: Kind)
    requires pid in s.fetches && (claimed == OneTime || claimed == KyberOneTime)
    requires kind == OneTime || kind == KyberOneTime
    ensures var t := Lock(s, Claimable(s, s.fetches[pid].account, claimed), pid);
      SameRows(s, t) && FreeShrinks(s, t, account, kind) && TakesOne(s, t, account, kind)
  {
    ClaimIsLeast(s, s.fetches[pid].account, claimed);
  }

  lemma CommitTakesNone(s: System, pid: nat, row: Option<nat>, account: string, kind: Kind)
    requires row.Some? ==> row.value in s.locks
    ensures var t := Commit(s, row, pid);
      SameRows(s, t) && forall i: nat :: Free(t, account, kind, i) <==> Free(s, account, kind, i)
  {}

  lemma EffectTakes(s: System, pid: nat, account: string, kind: Kind)
    requires Inv(s) && pid in s.fetches && (kind == OneTime || kind == KyberOneTime)
    ensures var t := Effect(s, pid, s.fetches[pid]);
      SameRows(s, t) && FreeShrinks(s, t, account, kind) && TakesOne(s, t, account, kind)
  {
    assert FetchOk(s, pid);
    match s.fetches[pid].stage
    case ClaimingOneTime => LockTakesLeast(s, pid, OneTime, account, kind);
    case ClaimingKyber => LockTakesLeast(s, pid, KyberOneTime, account, kind);
    case LockedOneTime(row) => CommitTakesNone(s, pid, row, account, kind);
    case LockedKyber(row) => CommitTakesNone(s, pid, row, account, kind);
    case _ =>
  }

  lemma StepTakes(s: System, e: Event, account: string, kind: Kind)
    requires Inv(s) && !e.StepUpload? && !e.FailFetch? && (kind == OneTime || kind == KyberOneTime)
    ensures var t := Step(s, e);
      SameRows(s, t) && FreeShrinks(s, t, account, kind) && TakesOne(s, t, account, kind)
  {
    if e.StepFetch? && Enabled(s, e) {
      EffectTakes(s, e.pid, account, kind);
      var u := Effect(s, e.pid, s.fetches[e.pid]);
      assert forall i: nat :: Free(Step(s, e), account, kind, i) <==> Free(u, account, kind, i);
    }
  }

  lemma TakenNext(s: System, t: System, u: System, account: string, kind: Kind)
    requires SameRows(s, t) && SameRows(t, u)
    requires FreeShrinks(s, t, account, kind) && LeastTaken(s, t, account, kind)
    requires FreeShrinks(t, u, account, kind) && TakesOne(t, u, account, kind)
    ensures SameRows(s, u) && FreeShrinks(s, u, account, kind) && LeastTaken(s, u, account, kind)
  {
    assert forall k: nat :: k < |s.rows| ==> t.rows[k].keyId == s.rows[k].keyId && u.rows[k].keyId == s.rows[k].keyId;
  }

  lemma {:induction false} RunTakes(s: System, t: System, es: seq<Event>, account: string, kind: Kind)
    requires Inv(t) && Undisturbed(es) && (kind == OneTime || kind == KyberOneTime)
    requires SameRows(s, t) && FreeShrinks(s, t, account, kind) && LeastTaken(s, t, account, kind)
    ensures var u := Run(t, es);
      SameRows(s, u) && FreeShrinks(s, u, account, kind) && LeastTaken(s, u, account, kind)
    decreases es
  {
    if es != [] {
      assert es[0] in es && forall e :: e in es[1..] ==> e in es;
      StepKeepsInv(t, es[0]);
      StepTakes(t, es[0], account, kind);
      TakenNext(s, t, Step(t, es[0]), account, kind);
      RunTakes(s, Step(t, es[0]), es[1..], account, kind);
    }
  }

  /** No claim on the pool is between its lock and its commit. */
  ghost predicate NoneInProgress(s: System, account: string, kind: Kind) {
    forall i: nat :: i < |s.rows| && InPool(s.rows[i], account, kind) ==> i !in s.locks
  }

  /** The rows of the pool that were available in the one state and consumed in the other. */
  function Taken(s: System, t: System, account: string, kind: Kind): set<nat>
    requires |s.rows| <= |t.rows|
  {
    set i | i in AvailableRows(s, account, kind) && t.rows[i].consumed
  }

  /** The members of `some` have lesser key ids than the rest of `all`. */
  ghost predicate AreLeast(rows: seq<Row>, some: set<nat>, all: set<nat>) {
    some <= all && (forall i :: i in all ==> i < |rows|) &&
    forall i, j :: i in some && j in all - some ==> rows[i].keyId < rows[j].keyId
  }

  lemma KeysDiffer(rows: seq<Row>, i: nat, j: nat)
    requires Unique(rows) && i < |rows| && j < |rows| && i != j && rows[i].account == rows[j].account
    ensures rows[i].keyId != rows[j].keyId
  {}

  lemma TakenAreLeast(s: System, t: System, account: string, kind: Kind)
    requires Unique(s.rows) && SameRows(s, t) && LeastTaken(s, t, account, kind)
    requires NoneInProgress(s, account, kind) && NoneInProgress(t, account, kind)
    ensures AreLeast(s.rows, Taken(s, t, account, kind), AvailableRows(s, account, kind))
  {
    forall i: nat | i < |s.rows| && InPool(s.rows[i], account, kind)
      ensures Free(s, account, kind, i) <==> !s.rows[i].consumed
      ensures Free(t, account, kind, i) <==> !t.rows[i].consumed
    {
      assert RowLater(s.rows[i], t.rows[i]);
    }
    var some, all := Taken(s, t, account, kind), AvailableRows(s, account, kind);
    forall i: nat, j: nat | i in some && j in all - some ensures s.rows[i].keyId < s.rows[j].keyId {
      assert Free(s, account, kind, i) && Free(s, account, kind, j) && Free(t, account, kind, j);
      KeysDiffer(s.rows, i, j);
    }
  }

  lemma ConsumedSplit(s: System, t: System, account: string, kind: Kind)
    requires SameRows(s, t)
    ensures ConsumedRows(t, account, kind) == ConsumedRows(s, account, kind) + Taken(s, t, account, kind)
    ensures ConsumedRows(s, account, kind) !! Taken(s, t, account, kind)
  {
    forall i: nat | i < |s.rows|
      ensures i in ConsumedRows(t, account, kind) <==>
              i in ConsumedRows(s, account, kind) || i in Taken(s, t, account, kind)
    {
      assert RowLater(s.rows[i], t.rows[i]);
    }
  }

  lemma TakenSize(s: System, t: System, account: string, kind: Kind)
    requires Inv(s) && Inv(t) && SameRows(s, t) && (kind == OneTime || kind == KyberOneTime)
    ensures |Claimants(t, account, kind)| == |Claimants(s, account, kind)| + |Taken(s, t, account, kind)|
  {
    ClaimantsMatch(s, account, kind);
    ClaimantsMatch(t, account, kind);
    ConsumedSplit(s, t, account, kind);
  }

  /**
   * While no keys are uploaded and no request fails, the k requests that took a key of a
   * pool took exactly its k least key ids, however they interleaved.
   */
  lemma ClaimsTakeLeast(s: System, es: seq<Event>, account: string, kind: Kind)
    requires Inv(s) && Undisturbed(es) && (kind == OneTime || kind == KyberOneTime)
    requires NoneInProgress(s, account, kind) && NoneInProgress(Run(s, es), account, kind)
    ensures var t := Run(s, es);
      |t.rows| == |s.rows| && AreLeast(s.rows, Taken(s, t, account, kind), AvailableRows(s, account, kind)) &&
      |Claimants(t, account, kind)| == |Claimants(s, account, kind)| + |Taken(s, t, account, kind)|
  {
    RunKeepsInv(s, es);
    RunTakes(s, s, es, account, kind);
    TakenAreLeast(s, Run(s, es), account, kind);
    TakenSize(s, Run(s, es), account, kind);
  }
}
