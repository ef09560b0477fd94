/**
 * The pre-key table and its two request handlers, one SQL statement at a time.
 *
 * A claiming UPDATE is two steps: its sub-select locks a row, and its commit
 * marks the row consumed and lets the lock go.  Rows are never deleted, so a
 * row is named by its position in the table.
 */
module PreKeys {
  import opened Common

  datatype Row = Row(account: string, keyId: nat, publicKey: string, signature: Option<string>,
                     isSigned: bool, isKyber: bool, isLastResort: bool, consumed: bool)

  datatype Kind = OneTime | SignedKey | KyberOneTime | LastResort

  /** The flag filters of the queries. */
  predicate Has(r: Row, kind: Kind) {
    match kind
    case OneTime => !r.isSigned && !r.isKyber
    case SignedKey => r.isSigned && !r.isKyber
    case KyberOneTime => r.isKyber && !r.isLastResort
    case LastResort => r.isKyber && r.isLastResort
  }

  datatype PlainKey = PlainKey(keyId: nat, publicKey: string)
  datatype SignedUpload = SignedUpload(keyId: nat, publicKey: string, signature: string)
  datatype Payload = Payload(preKeys: seq<PlainKey>, signedPreKey: Option<SignedUpload>,
                             kyberPreKeys: seq<SignedUpload>, lastResort: Option<SignedUpload>)

  function OneTimeRows(account: string, ks: seq<PlainKey>): seq<Row> {
    seq(|ks|, i requires 0 <= i < |ks| => Row(account, ks[i].keyId, ks[i].publicKey, None, false, false, false, false))
  }

  function KyberRows(account: string, ks: seq<SignedUpload>): seq<Row> {
    seq(|ks|, i requires 0 <= i < |ks| =>
      Row(account, ks[i].keyId, ks[i].publicKey, Some(ks[i].signature), false, true, false, false))
  }

  /** The rows that phase `k` of an upload inserts, all together or not at all. */
  function Phase(account: string, p: Payload, k: nat): seq<Row> {
    if k == 0 then OneTimeRows(account, p.preKeys)
    else if k == 1 then
      match p.signedPreKey
      case None => []
      case Some(x) => [Row(account, x.keyId, x.publicKey, Some(x.signature), true, false, false, false)]
    else if k == 2 then KyberRows(account, p.kyberPreKeys)
    else if k == 3 then
      match p.lastResort
      case None => []
      case Some(x) => [Row(account, x.keyId, x.publicKey, Some(x.signature), false, true, true, false)]
    else []
  }

  const PHASES: nat := 4

  /** unique (account_id, key_id) */
  predicate Unique(rows: seq<Row>) {
    forall i, j | 0 <= i < j < |rows| :: rows[i].account != rows[j].account || rows[i].keyId != rows[j].keyId
  }

  predicate Matches(rows: seq<Row>, locks: map<nat, nat>, account: string, kind: Kind, i: nat) {
    i < |rows| && rows[i].account == account && Has(rows[i], kind) && !rows[i].consumed && i !in locks
  }

  predicate Ahead(a: Row, b: Row, desc: bool) {
    if desc then a.keyId > b.keyId else a.keyId < b.keyId
  }

  /** ORDER BY key_id LIMIT 1 over the unconsumed rows that are not locked, among the first `n`. */
  function Pick(rows: seq<Row>, locks: map<nat, nat>, account: string, kind: Kind, desc: bool, n: nat): Option<nat>
    requires n <= |rows|
  {
    if n == 0 then None
    else
      var p := Pick(rows, locks, account, kind, desc, n - 1);
      if !Matches(rows, locks, account, kind, n - 1) then p
      else if p.None? || p.value >= |rows| || Ahead(rows[n - 1], rows[p.value], desc) then Some(n - 1)
      else p
  }

  lemma {:induction false} PickSpec(rows: seq<Row>, locks: map<nat, nat>, account: string, kind: Kind,
                                    desc: bool, n: nat)
    requires n <= |rows|
    ensures var p := Pick(rows, locks, account, kind, desc, n);
      (p.None? ==> forall i: nat :: i < n ==> !Matches(rows, locks, account, kind, i)) &&
      (p.Some? ==> p.value < n && Matches(rows, locks, account, kind, p.value)) &&
      (p.Some? ==> forall i: nat :: i < n && Matches(rows, locks, account, kind, i) ==>
                     !Ahead(rows[i], rows[p.value], desc))
  {
    if n > 0 { PickSpec(rows, locks, account, kind, desc, n - 1); }
  }

  /** SELECT count(*) of the unconsumed one-time rows of an account. */
  function CountAvailable(rows: seq<Row>, account: string): nat {
    if rows == [] then 0
    else
      var r := rows[|rows| - 1];
      CountAvailable(rows[..|rows| - 1], account) +
      if r.account == account && Has(r, OneTime) && !r.consumed then 1 else 0
  }

  // --- Requests in progress ---

  datatype Stage =
    | ReadingSigned
    | ClaimingOneTime
    | LockedOneTime(row: Option<nat>)
    | ClaimingKyber
    | LockedKyber(row: Option<nat>)
    | ReadingLastResort
    | Answered
    | NotFound
    | Failed

  /** One fetchPreKey request and the rows it has read or claimed. */
  datatype Fetch = Fetch(account: string, stage: Stage, signed: Option<nat>,
                         oneTime: Option<nat>, kyber: Option<nat>, lastResort: Option<nat>)

  datatype Outcome = Running | UnknownAccount | Rejected | Created(stored: nat, availablePreKeys: nat)

  /** One uploadPreKeys request; `done` phases have been committed. */
  datatype Upload = Upload(account: string, payload: Payload, done: nat, outcome: Outcome)

  /**
   * `accounts` maps device ids to account ids.  Two histories: `origin` is the
   * upload that inserted each row, `claimant` the fetch that last consumed it.
   */
  datatype System = System(accounts: map<string, string>, rows: seq<Row>, origin: seq<nat>, locks: map<nat, nat>,
                           claimant: map<nat, nat>, fetches: map<nat, Fetch>, uploads: map<nat, Upload>)

  datatype Event =
    | StartFetch(pid: nat, device: string)
    | StepFetch(pid: nat)
    | FailFetch(pid: nat)
    | StartUpload(pid: nat, account: string, payload: Payload)
    | StepUpload(pid: nat)

  predicate Final(g: Stage) {
    g.Answered? || g.NotFound? || g.Failed?
  }

  predicate Enabled(s: System, e: Event) {
    match e
    case StartFetch(pid, _) => pid !in s.fetches
    case StepFetch(pid) => pid in s.fetches && !Final(s.fetches[pid].stage)
    case FailFetch(pid) => pid in s.fetches && !Final(s.fetches[pid].stage)
    case StartUpload(pid, _, _) => pid !in s.uploads
    case StepUpload(pid) => pid in s.uploads && s.uploads[pid].outcome == Running
  }

  /** The unlocked, unconsumed row with the least key id. */
  function Claimable(s: System, account: string, kind: Kind): Option<nat> {
    Pick(s.rows, s.locks, account, kind, false, |s.rows|)
  }

  /** The unconsumed row with the greatest key id; a plain read ignores locks. */
  function Newest(s: System, account: string, kind: Kind): Option<nat> {
    Pick(s.rows, map[], account, kind, true, |s.rows|)
  }

  function Lock(s: System, row: Option<nat>, pid: nat): System {
    if row.None? then s else s.(locks := s.locks[row.value := pid])
  }

  /** ROLLBACK of a claim: its lock is released. */
  function Unlock(s: System, row: Option<nat>): System {
    if row.None? then s else s.(locks := s.locks - {row.value})
  }

  /** COMMIT of a claim: the row becomes consumed and its lock is released. */
  function Commit(s: System, row: Option<nat>, pid: nat): System {
    if row.None? || row.value >= |s.rows| then s
    else s.(rows := s.rows[row.value := s.rows[row.value].(consumed := true)],
            locks := s.locks - {row.value}, claimant := s.claimant[row.value := pid])
  }

  function Held(g: Stage): Option<nat> {
    match g
    case LockedOneTime(row) => row
    case LockedKyber(row) => row
    case _ => None
  }

  function Put(s: System, pid: nat, f: Fetch): System {
    s.(fetches := s.fetches[pid := f])
  }

  /** What the request's next statement does to the table: nothing, lock a row, or commit a claim. */
  function Effect(s: System, pid: nat, f: Fetch): System {
    match f.stage
    case ClaimingOneTime => Lock(s, Claimable(s, f.account, OneTime), pid)
    case LockedOneTime(row) => Commit(s, row, pid)
    case ClaimingKyber => Lock(s, Claimable(s, f.account, KyberOneTime), pid)
    case LockedKyber(row) => Commit(s, row, pid)
    case _ => s
  }

  /** What the request knows after its next statement. */
  function NextFetch(s: System, f: Fetch): Fetch {
    match f.stage
    case ReadingSigned =>
      var row := Newest(s, f.account, SignedKey);
      f.(signed := row, stage := if row.None? then NotFound else ClaimingOneTime)
    case ClaimingOneTime => f.(stage := LockedOneTime(Claimable(s, f.account, OneTime)))
    case LockedOneTime(row) => f.(oneTime := row, stage := ClaimingKyber)
    case ClaimingKyber => f.(stage := LockedKyber(Claimable(s, f.account, KyberOneTime)))
    case LockedKyber(row) => f.(kyber := row, stage := if row.None? then ReadingLastResort else Answered)
    case ReadingLastResort => f.(lastResort := Newest(s, f.account, LastResort), stage := Answered)
    case _ => f
  }

  function AdvanceFetch(s: System, pid: nat): System
    requires pid in s.fetches
  {
    Put(Effect(s, pid, s.fetches[pid]), pid, NextFetch(s, s.fetches[pid]))
  }

  function AdvanceUpload(s: System, pid: nat): System
    requires pid in s.uploads
  {
    var u := s.uploads[pid];
    if u.done < PHASES then
      var batch := Phase(u.account, u.payload, u.done);
      if Unique(s.rows + batch)
      then s.(rows := s.rows + batch, origin := s.origin + Fill(pid, |batch|),
              uploads := s.uploads[pid := u.(done := u.done + 1)])
      else s.(uploads := s.uploads[pid := u.(outcome := Rejected)])
    else
      s.(uploads := s.uploads[pid :=
           u.(outcome := Created(|u.payload.preKeys|, CountAvailable(s.rows, u.account)))])
  }

  /** One atomic step; an event that is not enabled changes nothing. */
  function Step(s: System, e: Event): System {
    if !Enabled(s, e) then s else
    match e
    case StartFetch(pid, device) =>
      Put(s, pid, if device in s.accounts
                  then Fetch(s.accounts[device], ReadingSigned, None, None, None, None)
                  else Fetch("", NotFound, None, None, None, None))
    case StepFetch(pid) => AdvanceFetch(s, pid)
    case FailFetch(pid) =>
      Put(Unlock(s, Held(s.fetches[pid].stage)), pid, s.fetches[pid].(stage := Failed))
    case StartUpload(pid, account, payload) =>
      s.(uploads := s.uploads[pid := Upload(account, payload, 0,
           if account in s.accounts.Values then Running else UnknownAccount)])
    case StepUpload(pid) => AdvanceUpload(s, pid)
  }

  function Run(s: System, es: seq<Event>): System
    decreases es
  {
    if es == [] then s else Run(Step(s, es[0]), es[1..])
  }

  function Initial(accounts: map<string, string>): System {
    System(accounts, [], [], map[], map[], map[], map[])
  }

  // --- What a finished request answers ---

  datatype KeyOut = KeyOut(keyId: nat, publicKey: string, signature: Option<string>)
  datatype Bundle = Bundle(signed: KeyOut, preKey: Option<KeyOut>, kyberPreKey: Option<KeyOut>)

  function ToKey(s: System, row: nat): KeyOut {
    if row < |s.rows| then KeyOut(s.rows[row].keyId, s.rows[row].publicKey, s.rows[row].signature)
    else KeyOut(0, "", None)
  }

  function ToKeyOption(s: System, row: Option<nat>): Option<KeyOut> {
    if row.Some? then Some(ToKey(s, row.value)) else None
  }

  /** The bundle of a request that was answered, or None for 404 and for failures. */
  function Response(s: System, f: Fetch): Option<Bundle> {
    if f.stage == Answered && f.signed.Some?
    then Some(Bundle(ToKey(s, f.signed.value), ToKeyOption(s, f.oneTime),
                     ToKeyOption(s, if f.kyber.Some? then f.kyber else f.lastResort)))
    else None
  }

  lemma {:induction false} RunConcat(s: System, a: seq<Event>, b: seq<Event>)
    ensures Run(s, a + b) == Run(Run(s, a), b)
    decreases a
  {
    if a == [] {
      assert a + b == b;
    } else {
      assert (a + b)[1..] == a[1..] + b && (a + b)[0] == a[0];
      RunConcat(Step(s, a[0]), a[1..], b);
    }
  }

  lemma RunOne(s: System, e: Event)
    ensures Run(s, [e]) == Step(s, e)
  {
    assert [e][1..] == [];
    assert Run(Step(s, e), []) == Step(s, e);
  }

  lemma RunNext(s: System, trace: seq<Event>, e: Event)
    ensures Run(s, trace + [e]) == Step(Run(s, trace), e)
  {
    RunConcat(s, trace, [e]);
    RunOne(Run(s, trace), e);
  }

  /** The state when the first `i` events have happened. */
  function At(s: System, es: seq<Event>, i: nat): System
    requires i <= |es|
  {
    Run(s, es[..i])
  }

  lemma AtNext(s: System, es: seq<Event>, i: nat)
    requires i < |es|
    ensures At(s, es, i + 1) == Step(At(s, es, i), es[i])
  {
    assert es[..i + 1] == es[..i] + [es[i]];
    RunNext(s, es[..i], es[i]);
  }
}
