/**
 * The pools the table is meant to be: per account, a priority queue of one-time
 * keys, one of one-time Kyber keys, and the long-lived signed and last-resort
 * keys.  Run one request at a time, fetches and uploads act exactly on these.
 */
module PreKeyPools {
  import opened Common
  import opened PreKeys
  import opened PreKeysInvariant
  import opened PreKeysRuns

  datatype Pools = Pools(used: set<nat>, oneTime: set<nat>, kyber: set<nat>, signed: set<nat>, lastResort: set<nat>)

  /** The key ids of an account with an unconsumed row of the given kind. */
  function Ids(rows: seq<Row>, account: string, kind: Kind): set<nat> {
    set i: nat | i < |rows| && InPool(rows[i], account, kind) && !rows[i].consumed :: rows[i].keyId
  }

  function UsedIds(rows: seq<Row>, account: string): set<nat> {
    set i: nat | i < |rows| && rows[i].account == account :: rows[i].keyId
  }

  function Abstract(rows: seq<Row>, account: string): Pools {
    Pools(UsedIds(rows, account), Ids(rows, account, OneTime), Ids(rows, account, KyberOneTime),
          Ids(rows, account, SignedKey), Ids(rows, account, LastResort))
  }

  predicate IsLeast(x: nat, ids: set<nat>) {
    x in ids && forall y | y in ids :: x <= y
  }

  predicate IsGreatest(x: nat, ids: set<nat>) {
    x in ids && forall y | y in ids :: y <= x
  }

  /** The key ids of an answer; `fallback` says that the Kyber key is a last-resort one. */
  datatype Answer = NoBundle | Answer(signed: nat, preKey: Option<nat>, kyber: Option<nat>, fallback: bool)

  /** The answer a fetch must give: the newest signed key, the least key of each pool, and the fallback. */
  ghost predicate Allows(p: Pools, a: Answer) {
    if p.signed == {} then a.NoBundle?
    else
      a.Answer? && IsGreatest(a.signed, p.signed) &&
      (if p.oneTime == {} then a.preKey.None? else a.preKey.Some? && IsLeast(a.preKey.value, p.oneTime)) &&
      (if p.kyber != {} then !a.fallback && a.kyber.Some? && IsLeast(a.kyber.value, p.kyber)
       else if p.lastResort != {} then a.fallback && a.kyber.Some? && IsGreatest(a.kyber.value, p.lastResort)
       else !a.fallback && a.kyber.None?)
  }

  function Without(ids: set<nat>, x: Option<nat>): set<nat> {
    if x.Some? then ids - {x.value} else ids
  }

  /** What a fetch takes out of the pools. */
  function AfterFetch(p: Pools, a: Answer): Pools {
    if a.NoBundle? then p
    else p.(oneTime := Without(p.oneTime, a.preKey),
            kyber := if a.fallback then p.kyber else Without(p.kyber, a.kyber))
  }

  function KeyIds(batch: seq<Row>): set<nat> {
    set i: nat | i < |batch| :: batch[i].keyId
  }

  predicate DistinctIds(batch: seq<Row>) {
    forall i, j | 0 <= i < j < |batch| :: batch[i].keyId != batch[j].keyId
  }

  /** The pool that phase `k` of an upload fills. */
  function AddPhase(p: Pools, ids: set<nat>, k: nat): Pools {
    var q := p.(used := p.used + ids);
    if k == 0 then q.(oneTime := q.oneTime + ids)
    else if k == 1 then q.(signed := q.signed + ids)
    else if k == 2 then q.(kyber := q.kyber + ids)
    else q.(lastResort := q.lastResort + ids)
  }

  /** Phase `k` can be stored. */
  predicate FitsAt(p: Pools, account: string, payload: Payload, k: nat) {
    DistinctIds(Phase(account, payload, k)) && KeyIds(Phase(account, payload, k)) !! p.used
  }

  /** The phases of an upload in turn, up to the first with an id that is already used. */
  function AfterUpload(p: Pools, account: string, payload: Payload, k: nat): Pools
    decreases PHASES - k
  {
    if k >= PHASES then p
    else if FitsAt(p, account, payload, k)
    then AfterUpload(AddPhase(p, KeyIds(Phase(account, payload, k)), k), account, payload, k + 1)
    else p
  }

  // --- Whole requests ---

  /** A bundle's key ids, read off the request's record. */
  function AnswerOf(s: System, pid: nat): Answer {
    if pid !in s.fetches then NoBundle
    else
      var f := s.fetches[pid];
      if f.stage.Answered? && f.signed.Some?
      then Answer(ToKey(s, f.signed.value).keyId,
                  if f.oneTime.Some? then Some(ToKey(s, f.oneTime.value).keyId) else None,
                  if f.kyber.Some? then Some(ToKey(s, f.kyber.value).keyId)
                  else if f.lastResort.Some? then Some(ToKey(s, f.lastResort.value).keyId) else None,
                  f.kyber.None? && f.lastResort.Some?)
      else NoBundle
  }

  function Steps(e: Event, n: nat): seq<Event> {
    if n == 0 then [] else [e] + Steps(e, n - 1)
  }

  function WholeFetch(pid: nat, device: string): seq<Event> {
    [StartFetch(pid, device)] + Steps(StepFetch(pid), 6)
  }

  function WholeUpload(pid: nat, account: string, payload: Payload): seq<Event> {
    [StartUpload(pid, account, payload)] + Steps(StepUpload(pid), PHASES + 1)
  }

  // --- One pick, one consumed row ---

  function Consume(rows: seq<Row>, k: Option<nat>): seq<Row> {
    if k.Some? && k.value < |rows| then rows[k.value := rows[k.value].(consumed := true)] else rows
  }

  function PickOf(rows: seq<Row>, account: string, kind: Kind): Option<nat> {
    Pick(rows, map[], account, kind, kind == SignedKey || kind == LastResort, |rows|)
  }

  /** A query finds nothing exactly when the pool is empty, and else the end of the queue it asks for. */
  lemma PickIds(rows: seq<Row>, account: string, kind: Kind)
    ensures var k, ids := PickOf(rows, account, kind), Ids(rows, account, kind);
      (k.None? <==> ids == {}) &&
      (k.Some? ==> k.value < |rows| && InPool(rows[k.value], account, kind) && !rows[k.value].consumed) &&
      (k.Some? ==> if kind == SignedKey || kind == LastResort then IsGreatest(rows[k.value].keyId, ids)
                   else IsLeast(rows[k.value].keyId, ids))
  {
    PickSpec(rows, map[], account, kind, kind == SignedKey || kind == LastResort, |rows|);
    var k, ids := PickOf(rows, account, kind), Ids(rows, account, kind);
    if k.Some? {
      assert Matches(rows, map[], account, kind, k.value);
      assert rows[k.value].keyId in ids;
    }
    forall x | x in ids
      ensures exists i: nat :: i < |rows| && Matches(rows, map[], account, kind, i) && rows[i].keyId == x
    {
      var i: nat :| i < |rows| && InPool(rows[i], account, kind) && !rows[i].consumed && rows[i].keyId == x;
      assert Matches(rows, map[], account, kind, i);
    }
  }

  lemma ConsumeIds(rows: seq<Row>, k: nat, account: string, kind: Kind)
    requires Unique(rows) && k < |rows| && !rows[k].consumed
    ensures Ids(Consume(rows, Some(k)), account, kind) ==
            if InPool(rows[k], account, kind) then Ids(rows, account, kind) - {rows[k].keyId}
            else Ids(rows, account, kind)
    ensures UsedIds(Consume(rows, Some(k)), account) == UsedIds(rows, account)
    ensures Unique(Consume(rows, Some(k)))
  {
    var after := Consume(rows, Some(k));
    var x, y := Ids(after, account, kind), Ids(rows, account, kind);
    forall v | v in x ensures v in y && (InPool(rows[k], account, kind) ==> v != rows[k].keyId) {
      var i: nat :| i < |after| && InPool(after[i], account, kind) && !after[i].consumed && after[i].keyId == v;
      assert rows[i].keyId == v;
      if InPool(rows[k], account, kind) && v == rows[k].keyId { UniqueRow(rows, i, k); }
    }
    forall v | v in y && (InPool(rows[k], account, kind) ==> v != rows[k].keyId) ensures v in x {
      var i: nat :| i < |rows| && InPool(rows[i], account, kind) && !rows[i].consumed && rows[i].keyId == v;
      assert after[i].keyId == v;
    }
    forall v ensures v in UsedIds(after, account) <==> v in UsedIds(rows, account) {
      if v in UsedIds(rows, account) {
        var i: nat :| i < |rows| && rows[i].account == account && rows[i].keyId == v;
        assert after[i].account == account && after[i].keyId == v;
      }
    }
    forall i, j | 0 <= i < j < |after|
      ensures after[i].account != after[j].account || after[i].keyId != after[j].keyId
    {
      assert rows[i].account != rows[j].account || rows[i].keyId != rows[j].keyId;
    }
  }

  /** Consuming the row a claim picks takes the least id out of that pool and changes nothing else. */
  lemma ConsumePick(rows: seq<Row>, account: string, kind: Kind, a: string)
    requires Unique(rows) && (kind == OneTime || kind == KyberOneTime)
    ensures var k := PickOf(rows, account, kind);
      var x := if k.Some? && k.value < |rows| then Some(rows[k.value].keyId) else None;
      var p := Abstract(rows, a);
      Unique(Consume(rows, k)) &&
      Abstract(Consume(rows, k), a) ==
        if a != account then p
        else if kind == OneTime then p.(oneTime := Without(p.oneTime, x))
        else p.(kyber := Without(p.kyber, x))
  {
    PickIds(rows, account, kind);
    var k := PickOf(rows, account, kind);
    if k.Some? {
      ConsumeIds(rows, k.value, a, OneTime);
      ConsumeIds(rows, k.value, a, KyberOneTime);
      ConsumeIds(rows, k.value, a, SignedKey);
      ConsumeIds(rows, k.value, a, LastResort);
    }
  }

  // --- A whole fetch ---

  lemma RunStep(s: System, e: Event, n: nat)
    requires n > 0
    ensures Run(s, Steps(e, n)) == Run(Step(s, e), Steps(e, n - 1))
  {
    assert Steps(e, n)[1..] == Steps(e, n - 1);
  }

  lemma RunSteps6(s: System, e: Event)
    ensures Run(s, Steps(e, 6)) == Step(Step(Step(Step(Step(Step(s, e), e), e), e), e), e)
  {
    var s1 := Step(s, e);
    var s2 := Step(s1, e);
    var s3 := Step(s2, e);
    var s4 := Step(s3, e);
    var s5 := Step(s4, e);
    RunStep(s, e, 6);
    RunStep(s1, e, 5);
    RunStep(s2, e, 4);
    RunStep(s3, e, 3);
    RunStep(s4, e, 2);
    RunStep(s5, e, 1);
  }

  function Locked(kind: Kind, k: Option<nat>): Stage {
    if kind == OneTime then LockedOneTime(k) else LockedKyber(k)
  }

  lemma LockAlone(s: System, pid: nat, kind: Kind)
    requires s.locks == map[] && pid in s.fetches && (kind == OneTime || kind == KyberOneTime)
    requires if kind == OneTime then s.fetches[pid].stage.ClaimingOneTime? else s.fetches[pid].stage.ClaimingKyber?
    ensures var f := s.fetches[pid]; var k := PickOf(s.rows, f.account, kind); var t := Step(s, StepFetch(pid));
      t.rows == s.rows && t.accounts == s.accounts && t.locks == (if k.Some? then map[k.value := pid] else map[]) &&
      t.fetches == s.fetches[pid := f.(stage := Locked(kind, k))]
  {}

  lemma CommitAlone(s: System, pid: nat, kind: Kind, k: Option<nat>)
    requires pid in s.fetches && (kind == OneTime || kind == KyberOneTime)
    requires s.fetches[pid].stage == Locked(kind, k) && (k.Some? ==> k.value < |s.rows|)
    requires s.locks == if k.Some? then map[k.value := pid] else map[]
    ensures var f := s.fetches[pid]; var t := Step(s, StepFetch(pid));
      t.rows == Consume(s.rows, k) && t.locks == map[] && t.accounts == s.accounts &&
      t.fetches == s.fetches[pid :=
        if kind == OneTime then f.(oneTime := k, stage := ClaimingKyber)
        else f.(kyber := k, stage := if k.None? then ReadingLastResort else Answered)]
  {
    var t := Step(s, StepFetch(pid));
    assert t.locks == map[];
  }

  /** A claim with nothing else running: its two steps consume the picked row. */
  lemma ClaimAlone(s: System, pid: nat, kind: Kind)
    requires s.locks == map[] && pid in s.fetches && (kind == OneTime || kind == KyberOneTime)
    requires if kind == OneTime then s.fetches[pid].stage.ClaimingOneTime? else s.fetches[pid].stage.ClaimingKyber?
    ensures var f := s.fetches[pid]; var k := PickOf(s.rows, f.account, kind);
      var t := Step(Step(s, StepFetch(pid)), StepFetch(pid));
      t.rows == Consume(s.rows, k) && t.locks == map[] && t.accounts == s.accounts &&
      t.fetches == s.fetches[pid :=
        if kind == OneTime then f.(oneTime := k, stage := ClaimingKyber)
        else f.(kyber := k, stage := if k.None? then ReadingLastResort else Answered)]
  {
    LockAlone(s, pid, kind);
    PickIds(s.rows, s.fetches[pid].account, kind);
    CommitAlone(Step(s, StepFetch(pid)), pid, kind, PickOf(s.rows, s.fetches[pid].account, kind));
  }

  lemma ReadLastAlone(s: System, pid: nat)
    requires pid in s.fetches && (s.fetches[pid].stage.ReadingLastResort? || s.fetches[pid].stage.Answered?)
    ensures var f := s.fetches[pid]; var t := Step(s, StepFetch(pid));
      t.rows == s.rows && t.locks == s.locks && t.accounts == s.accounts && t.fetches.Keys == s.fetches.Keys &&
      t.fetches[pid] ==
        if f.stage.Answered? then f else f.(lastResort := PickOf(s.rows, f.account, LastResort), stage := Answered)
  {}

  /** The table after a whole fetch by an account with a signed key, one pool at a time. */
  function AfterOne(rows: seq<Row>, a: string): seq<Row> {
    Consume(rows, PickOf(rows, a, OneTime))
  }

  function AfterBoth(rows: seq<Row>, a: string): seq<Row> {
    Consume(AfterOne(rows, a), PickOf(AfterOne(rows, a), a, KyberOneTime))
  }

  /** The record of a whole fetch. */
  function Record(rows: seq<Row>, a: string): Fetch {
    var signed := PickOf(rows, a, SignedKey);
    if signed.None? then Fetch(a, NotFound, None, None, None, None)
    else
      var kyber := PickOf(AfterOne(rows, a), a, KyberOneTime);
      Fetch(a, Answered, signed, PickOf(rows, a, OneTime), kyber,
            if kyber.None? then PickOf(AfterBoth(rows, a), a, LastResort) else None)
  }

  /** The state after a whole fetch. */
  lemma FetchAlone(s: System, pid: nat, device: string)
    requires s.locks == map[] && pid !in s.fetches && device in s.accounts
    ensures var a := s.accounts[device]; var t := Run(s, WholeFetch(pid, device));
      t.locks == map[] && t.accounts == s.accounts && t.fetches.Keys == s.fetches.Keys + {pid} &&
      t.fetches[pid] == Record(s.rows, a) &&
      t.rows == if PickOf(s.rows, a, SignedKey).None? then s.rows else AfterBoth(s.rows, a)
  {
    var e := StepFetch(pid);
    var s0 := Step(s, StartFetch(pid, device));
    assert WholeFetch(pid, device)[1..] == Steps(e, 6);
    RunSteps6(s0, e);
    StartAlone(s, pid, device);
    var s1 := Step(s0, e);
    if s1.fetches[pid].stage.NotFound? {
      assert Step(s1, e) == s1;
    } else {
      ClaimsAlone(s1, pid);
    }
  }

  lemma StartAlone(s: System, pid: nat, device: string)
    requires pid !in s.fetches && device in s.accounts
    ensures var a := s.accounts[device]; var t := Step(Step(s, StartFetch(pid, device)), StepFetch(pid));
      var signed := PickOf(s.rows, a, SignedKey);
      t.rows == s.rows && t.locks == s.locks && t.accounts == s.accounts && t.fetches.Keys == s.fetches.Keys + {pid} &&
      t.fetches[pid] == Fetch(a, if signed.None? then NotFound else ClaimingOneTime, signed, None, None, None)
  {}

  lemma ClaimsAlone(s: System, pid: nat)
    requires s.locks == map[] && pid in s.fetches
    requires s.fetches[pid].stage.ClaimingOneTime? && s.fetches[pid].lastResort.None?
    ensures var f := s.fetches[pid]; var e := StepFetch(pid);
      var t := Step(Step(Step(Step(Step(s, e), e), e), e), e);
      var kyber := PickOf(AfterOne(s.rows, f.account), f.account, KyberOneTime);
      t.rows == AfterBoth(s.rows, f.account) && t.locks == map[] && t.accounts == s.accounts &&
      t.fetches.Keys == s.fetches.Keys &&
      t.fetches[pid] == Fetch(f.account, Answered, f.signed, PickOf(s.rows, f.account, OneTime), kyber,
        if kyber.None? then PickOf(AfterBoth(s.rows, f.account), f.account, LastResort) else None)
  {
    var e := StepFetch(pid);
    ClaimAlone(s, pid, OneTime);
    var s2 := Step(Step(s, e), e);
    ClaimAlone(s2, pid, KyberOneTime);
    ReadLastAlone(Step(Step(s2, e), e), pid);
  }

  function KeyIdOf(rows: seq<Row>, k: Option<nat>): Option<nat> {
    if k.Some? && k.value < |rows| then Some(rows[k.value].keyId) else None
  }

  /** The answer of a whole fetch, read off the table it started from. */
  function AnswerFrom(rows: seq<Row>, a: string): Answer {
    var f := Record(rows, a);
    match KeyIdOf(rows, f.signed)
    case None => NoBundle
    case Some(id) =>
      Answer(id, KeyIdOf(rows, f.oneTime), KeyIdOf(rows, if f.kyber.Some? then f.kyber else f.lastResort),
             f.kyber.None? && f.lastResort.Some?)
  }

  lemma SameKeyIds(rows: seq<Row>, k: Option<nat>)
    ensures |Consume(rows, k)| == |rows| && forall i: nat :: i < |rows| ==> Consume(rows, k)[i].keyId == rows[i].keyId
  {}

  lemma RecordInTable(rows: seq<Row>, a: string)
    ensures var f := Record(rows, a);
      |AfterBoth(rows, a)| == |rows| &&
      (forall i: nat :: i < |rows| ==> AfterBoth(rows, a)[i].keyId == rows[i].keyId) &&
      (f.signed.Some? ==> f.signed.value < |rows|) && (f.oneTime.Some? ==> f.oneTime.value < |rows|) &&
      (f.kyber.Some? ==> f.kyber.value < |rows|) && (f.lastResort.Some? ==> f.lastResort.value < |rows|)
  {
    SameKeyIds(rows, PickOf(rows, a, OneTime));
    SameKeyIds(AfterOne(rows, a), PickOf(AfterOne(rows, a), a, KyberOneTime));
    PickIds(rows, a, SignedKey);
    PickIds(rows, a, OneTime);
    PickIds(AfterOne(rows, a), a, KyberOneTime);
    PickIds(AfterBoth(rows, a), a, LastResort);
  }

  lemma AnswerRead(t: System, pid: nat, rows: seq<Row>, a: string)
    requires pid in t.fetches && t.fetches[pid] == Record(rows, a)
    requires t.rows == if PickOf(rows, a, SignedKey).None? then rows else AfterBoth(rows, a)
    ensures AnswerOf(t, pid) == AnswerFrom(rows, a)
  {
    RecordInTable(rows, a);
  }

  lemma PoolsAfterOne(rows: seq<Row>, a: string)
    requires Unique(rows)
    ensures Unique(AfterOne(rows, a))
    ensures var p := Abstract(rows, a);
      Abstract(AfterOne(rows, a), a) == p.(oneTime := Without(p.oneTime, KeyIdOf(rows, PickOf(rows, a, OneTime))))
  {
    ConsumePick(rows, a, OneTime, a);
    PickIds(rows, a, OneTime);
  }

  lemma PoolsAfterBoth(rows: seq<Row>, a: string)
    requires Unique(rows)
    ensures var p := Abstract(rows, a); var kyber := PickOf(AfterOne(rows, a), a, KyberOneTime);
      Abstract(AfterBoth(rows, a), a) ==
        p.(oneTime := Without(p.oneTime, KeyIdOf(rows, PickOf(rows, a, OneTime))),
           kyber := Without(p.kyber, KeyIdOf(rows, kyber)))
  {
    PoolsAfterOne(rows, a);
    ConsumePick(AfterOne(rows, a), a, KyberOneTime, a);
    PickIds(AfterOne(rows, a), a, KyberOneTime);
    SameKeyIds(rows, PickOf(rows, a, OneTime));
  }

  /** The signed and one-time parts of the answer are the ends of their queues. */
  lemma AnswerAllowed(rows: seq<Row>, a: string)
    requires Unique(rows)
    ensures Allows(Abstract(rows, a), AnswerFrom(rows, a))
  {
    PickIds(rows, a, SignedKey);
    PickIds(rows, a, OneTime);
    PickIds(AfterOne(rows, a), a, KyberOneTime);
    PickIds(AfterBoth(rows, a), a, LastResort);
    RecordInTable(rows, a);
    PoolsAfterOne(rows, a);
    PoolsAfterBoth(rows, a);
    SameKeyIds(rows, PickOf(rows, a, OneTime));
  }

  lemma AnswerTakes(rows: seq<Row>, a: string)
    requires Unique(rows) && PickOf(rows, a, SignedKey).Some?
    ensures Abstract(AfterBoth(rows, a), a) == AfterFetch(Abstract(rows, a), AnswerFrom(rows, a))
  {
    RecordInTable(rows, a);
    PoolsAfterBoth(rows, a);
  }

  lemma OtherPools(rows: seq<Row>, a: string, other: string)
    requires Unique(rows) && other != a
    ensures Abstract(AfterBoth(rows, a), other) == Abstract(rows, other)
  {
    ConsumePick(rows, a, OneTime, other);
    ConsumePick(AfterOne(rows, a), a, KyberOneTime, other);
  }

  /** A whole fetch answers from the pools of its account, takes what it answers out, and touches no other account. */
  lemma FetchRefines(s: System, pid: nat, device: string, a: string)
    requires Inv(s) && s.locks == map[] && pid !in s.fetches && device in s.accounts
    ensures var t := Run(s, WholeFetch(pid, device)); var p := Abstract(s.rows, a);
      t.locks == map[] && t.accounts == s.accounts &&
      if s.accounts[device] == a
      then Allows(p, AnswerOf(t, pid)) && Abstract(t.rows, a) == AfterFetch(p, AnswerOf(t, pid))
      else Abstract(t.rows, a) == p
  {
    var owner := s.accounts[device];
    FetchAlone(s, pid, device);
    AnswerRead(Run(s, WholeFetch(pid, device)), pid, s.rows, owner);
    if a != owner {
      OtherPools(s.rows, owner, a);
    } else {
      AnswerAllowed(s.rows, a);
      if PickOf(s.rows, a, SignedKey).Some? { AnswerTakes(s.rows, a); }
    }
  }

  // --- A whole upload ---

  lemma FitsTable(rows: seq<Row>, batch: seq<Row>, account: string)
    requires Unique(rows) && forall i :: 0 <= i < |batch| ==> batch[i].account == account
    ensures Unique(rows + batch) <==> DistinctIds(batch) && KeyIds(batch) !! UsedIds(rows, account)
  {
    var all := rows + batch;
    if Unique(all) {
      forall i, j | 0 <= i < j < |batch| ensures batch[i].keyId != batch[j].keyId {
        assert all[|rows| + i] == batch[i] && all[|rows| + j] == batch[j];
      }
      forall x | x in KeyIds(batch) && x in UsedIds(rows, account) ensures false {
        var k: nat :| k < |batch| && batch[k].keyId == x;
        var i: nat :| i < |rows| && rows[i].account == account && rows[i].keyId == x;
        Clash(rows, batch, i, k);
      }
    } else if DistinctIds(batch) {
      var i, j :| 0 <= i < j < |all| && all[i].account == all[j].account && all[i].keyId == all[j].keyId;
      assert i < |rows| <= j;
      assert all[i].keyId in UsedIds(rows, account) && batch[j - |rows|].keyId in KeyIds(batch);
    }
  }

  lemma AppendIds(rows: seq<Row>, batch: seq<Row>, account: string, kind: Kind, all: bool)
    requires forall i :: 0 <= i < |batch| ==> !batch[i].consumed
    requires forall i :: 0 <= i < |batch| ==> (InPool(batch[i], account, kind) <==> all)
    ensures Ids(rows + batch, account, kind) == Ids(rows, account, kind) + if all then KeyIds(batch) else {}
  {
    var whole := rows + batch;
    forall x | x in Ids(rows, account, kind) ensures x in Ids(whole, account, kind) {
      var i: nat :| i < |rows| && InPool(rows[i], account, kind) && !rows[i].consumed && rows[i].keyId == x;
      assert whole[i] == rows[i];
    }
    if all {
      forall x | x in KeyIds(batch) ensures x in Ids(whole, account, kind) {
        var i: nat :| i < |batch| && batch[i].keyId == x;
        assert whole[|rows| + i] == batch[i];
      }
    }
  }

  lemma AppendUsed(rows: seq<Row>, batch: seq<Row>, account: string, all: bool)
    requires forall i :: 0 <= i < |batch| ==> (batch[i].account == account <==> all)
    ensures UsedIds(rows + batch, account) == UsedIds(rows, account) + if all then KeyIds(batch) else {}
  {
    var whole := rows + batch;
    forall x | x in UsedIds(rows, account) ensures x in UsedIds(whole, account) {
      var i: nat :| i < |rows| && rows[i].account == account && rows[i].keyId == x;
      assert whole[i] == rows[i];
    }
    if all {
      forall x | x in KeyIds(batch) ensures x in UsedIds(whole, account) {
        var i: nat :| i < |batch| && batch[i].keyId == x;
        assert whole[|rows| + i] == batch[i];
      }
    }
  }

  function PhaseKind(k: nat): Kind {
    if k == 0 then OneTime else if k == 1 then SignedKey else if k == 2 then KyberOneTime else LastResort
  }

  lemma PhaseIs(account: string, p: Payload, k: nat, i: nat)
    requires k < PHASES && i < |Phase(account, p, k)|
    ensures var r := Phase(account, p, k)[i]; !r.consumed && r.account == account && Has(r, PhaseKind(k))
  {}

  lemma PhasePools(rows: seq<Row>, account: string, p: Payload, k: nat, a: string)
    requires k < PHASES
    ensures var batch := Phase(account, p, k);
      Abstract(rows + batch, a) ==
        if a == account then AddPhase(Abstract(rows, a), KeyIds(batch), k) else Abstract(rows, a)
  {
    var batch, kind := Phase(account, p, k), PhaseKind(k);
    forall i: nat | i < |batch| ensures !batch[i].consumed && batch[i].account == account && Has(batch[i], kind) {
      PhaseIs(account, p, k, i);
    }
    AppendUsed(rows, batch, a, a == account);
    AppendIds(rows, batch, a, OneTime, a == account && kind == OneTime);
    AppendIds(rows, batch, a, SignedKey, a == account && kind == SignedKey);
    AppendIds(rows, batch, a, KyberOneTime, a == account && kind == KyberOneTime);
    AppendIds(rows, batch, a, LastResort, a == account && kind == LastResort);
  }

  lemma PhaseFits(rows: seq<Row>, account: string, p: Payload, k: nat)
    requires Unique(rows) && k < PHASES
    ensures Unique(rows + Phase(account, p, k)) <==> FitsAt(Abstract(rows, account), account, p, k)
  {
    var batch := Phase(account, p, k);
    forall i: nat | i < |batch| ensures batch[i].account == account { PhaseIs(account, p, k, i); }
    FitsTable(rows, batch, account);
  }

  /** Whether all phases from `k` on can be stored. */
  predicate Fits(p: Pools, account: string, payload: Payload, k: nat)
    decreases PHASES - k
  {
    k >= PHASES ||
    (FitsAt(p, account, payload, k) &&
     Fits(AddPhase(p, KeyIds(Phase(account, payload, k)), k), account, payload, k + 1))
  }

  /** The report an upload must give. */
  function Report(known: bool, p: Pools, account: string, payload: Payload): Outcome {
    if !known then UnknownAccount
    else if Fits(p, account, payload, 0)
    then Created(|payload.preKeys|, |AfterUpload(p, account, payload, 0).oneTime|)
    else Rejected
  }

  lemma CountIsPool(s: System, account: string)
    requires Unique(s.rows)
    ensures CountAvailable(s.rows, account) == |Ids(s.rows, account, OneTime)|
  {
    CountIsSize(s.rows, account);
    var rows := AvailableRows(s, account, OneTime);
    var m := map i | i in rows :: s.rows[i].keyId;
    forall x, y | x in m && y in m && m[x] == m[y] ensures x == y { UniqueRow(s.rows, x, y); }
    InjectiveSize(m);
    assert m.Keys == rows;
    forall x | x in Ids(s.rows, account, OneTime) ensures x in m.Values {
      var i: nat :| i < |s.rows| && InPool(s.rows[i], account, OneTime) && !s.rows[i].consumed && s.rows[i].keyId == x;
      assert i in m;
    }
    assert m.Values == Ids(s.rows, account, OneTime);
  }

  /** What stays and what comes of the rest of an upload, from its phase `k` on. */
  ghost predicate UploadDone(s: System, t: System, pid: nat, k: nat, a: string)
    requires pid in s.uploads
  {
    var u := s.uploads[pid];
    var p := Abstract(s.rows, u.account);
    t.locks == s.locks && t.fetches == s.fetches && t.accounts == s.accounts && pid in t.uploads &&
    Abstract(t.rows, a) == (if a == u.account then AfterUpload(p, u.account, u.payload, k) else Abstract(s.rows, a)) &&
    t.uploads[pid].outcome ==
      if Fits(p, u.account, u.payload, k)
      then Created(|u.payload.preKeys|, |AfterUpload(p, u.account, u.payload, k).oneTime|)
      else Rejected
  }

  lemma {:induction false} Idle(s: System, pid: nat, n: nat)
    requires pid in s.uploads && s.uploads[pid].outcome != Running
    ensures Run(s, Steps(StepUpload(pid), n)) == s
    decreases n
  {
    if n > 0 {
      RunStep(s, StepUpload(pid), n);
      Idle(s, pid, n - 1);
    }
  }

  ghost predicate AtPhase(s: System, pid: nat, k: nat) {
    Unique(s.rows) && pid in s.uploads && s.uploads[pid].outcome == Running && s.uploads[pid].done == k <= PHASES
  }

  lemma AllStored(s: System, pid: nat, a: string)
    requires AtPhase(s, pid, PHASES)
    ensures UploadDone(s, Step(s, StepUpload(pid)), pid, PHASES, a)
  {
    CountIsPool(s, s.uploads[pid].account);
  }

  lemma PhaseRejected(s: System, pid: nat, k: nat, a: string)
    requires AtPhase(s, pid, k) && k < PHASES
    requires !Unique(s.rows + Phase(s.uploads[pid].account, s.uploads[pid].payload, k))
    ensures UploadDone(s, Step(s, StepUpload(pid)), pid, k, a)
  {
    PhaseFits(s.rows, s.uploads[pid].account, s.uploads[pid].payload, k);
  }

  lemma FitsNext(p: Pools, account: string, payload: Payload, k: nat)
    requires k < PHASES && FitsAt(p, account, payload, k)
    ensures var q := AddPhase(p, KeyIds(Phase(account, payload, k)), k);
      AfterUpload(p, account, payload, k) == AfterUpload(q, account, payload, k + 1) &&
      (Fits(p, account, payload, k) <==> Fits(q, account, payload, k + 1))
  {}

  lemma StoredStep(s: System, pid: nat, k: nat)
    requires AtPhase(s, pid, k) && k < PHASES
    requires Unique(s.rows + Phase(s.uploads[pid].account, s.uploads[pid].payload, k))
    ensures var t, u := Step(s, StepUpload(pid)), s.uploads[pid];
      t.rows == s.rows + Phase(u.account, u.payload, k) && t.locks == s.locks && t.fetches == s.fetches &&
      t.accounts == s.accounts && pid in t.uploads && t.uploads[pid] == u.(done := k + 1) && AtPhase(t, pid, k + 1)
  {}

  lemma PhaseStored(s: System, pid: nat, k: nat, a: string, t: System)
    requires AtPhase(s, pid, k) && k < PHASES
    requires Unique(s.rows + Phase(s.uploads[pid].account, s.uploads[pid].payload, k))
    requires UploadDone(Step(s, StepUpload(pid)), t, pid, k + 1, a)
    ensures UploadDone(s, t, pid, k, a)
  {
    var u, p := s.uploads[pid], Abstract(s.rows, s.uploads[pid].account);
    StoredStep(s, pid, k);
    PhaseFits(s.rows, u.account, u.payload, k);
    PhasePools(s.rows, u.account, u.payload, k, u.account);
    PhasePools(s.rows, u.account, u.payload, k, a);
    FitsNext(p, u.account, u.payload, k);
  }

  lemma {:induction false} UploadAlone(s: System, pid: nat, k: nat, a: string)
    requires AtPhase(s, pid, k)
    ensures UploadDone(s, Run(s, Steps(StepUpload(pid), PHASES + 1 - k)), pid, k, a)
    decreases PHASES - k
  {
    var e := StepUpload(pid);
    RunStep(s, e, PHASES + 1 - k);
    if k == PHASES {
      AllStored(s, pid, a);
      Idle(Step(s, e), pid, 0);
    } else if Unique(s.rows + Phase(s.uploads[pid].account, s.uploads[pid].payload, k)) {
      UploadAlone(Step(s, e), pid, k + 1, a);
      PhaseStored(s, pid, k, a, Run(Step(s, e), Steps(e, PHASES - k)));
    } else {
      PhaseRejected(s, pid, k, a);
      Idle(Step(s, e), pid, PHASES - k);
    }
  }

  /** A whole upload fills the pools of its account phase by phase, and touches no other account. */
  lemma UploadRefines(s: System, pid: nat, account: string, payload: Payload, a: string)
    requires Inv(s) && pid !in s.uploads
    ensures var t := Run(s, WholeUpload(pid, account, payload)); var p := Abstract(s.rows, a);
      var known := account in s.accounts.Values;
      Inv(t) && t.locks == s.locks && t.fetches == s.fetches && t.accounts == s.accounts && pid in t.uploads &&
      Abstract(t.rows, a) == (if known && a == account then AfterUpload(p, account, payload, 0) else p) &&
      (a == account ==> t.uploads[pid].outcome == Report(known, p, account, payload))
  {
    var s0 := Step(s, StartUpload(pid, account, payload));
    assert WholeUpload(pid, account, payload)[1..] == Steps(StepUpload(pid), PHASES + 1);
    RunKeepsInv(s, WholeUpload(pid, account, payload));
    if account in s.accounts.Values {
      UploadAlone(s0, pid, 0, a);
    } else {
      Idle(s0, pid, PHASES + 1);
    }
  }

  // --- Whole runs, one request at a time ---

  datatype Op = FetchOp(device: string) | UploadOp(account: string, payload: Payload)
  datatype Reply = Gave(answer: Answer) | Reported(outcome: Outcome)

  function Events(pid: nat, op: Op): seq<Event> {
    match op
    case FetchOp(device) => WholeFetch(pid, device)
    case UploadOp(account, payload) => WholeUpload(pid, account, payload)
  }

  function ReplyOf(t: System, pid: nat, op: Op): Reply {
    match op
    case FetchOp(_) => Gave(AnswerOf(t, pid))
    case UploadOp(_, _) => Reported(if pid in t.uploads then t.uploads[pid].outcome else Running)
  }

  /** The replies of a sequence of whole requests, the n-th of them as request `pid + n`. */
  function Replies(s: System, pid: nat, ops: seq<Op>): (r: seq<Reply>)
    ensures |r| == |ops|
    decreases ops
  {
    if ops == [] then []
    else
      var t := Run(s, Events(pid, ops[0]));
      [ReplyOf(t, pid, ops[0])] + Replies(t, pid + 1, ops[1..])
  }

  /** What the pools of account `a` say of one request and its reply. */
  ghost predicate AllowsOp(accounts: map<string, string>, a: string, p: Pools, op: Op, r: Reply) {
    match op
    case FetchOp(device) =>
      r.Gave? &&
      (device !in accounts ==> r.answer.NoBundle?) &&
      (device in accounts && accounts[device] == a ==> Allows(p, r.answer))
    case UploadOp(account, payload) =>
      r.Reported? && (account == a ==> r.outcome == Report(a in accounts.Values, p, a, payload))
  }

  function NextPools(accounts: map<string, string>, a: string, p: Pools, op: Op, r: Reply): Pools {
    match op
    case FetchOp(device) =>
      if device in accounts && accounts[device] == a && r.Gave? then AfterFetch(p, r.answer) else p
    case UploadOp(account, payload) =>
      if account == a && a in accounts.Values then AfterUpload(p, a, payload, 0) else p
  }

  ghost predicate Agrees(accounts: map<string, string>, a: string, p: Pools, ops: seq<Op>, rs: seq<Reply>)
    requires |ops| == |rs|
    decreases ops
  {
    ops == [] ||
    (AllowsOp(accounts, a, p, ops[0], rs[0]) &&
     Agrees(accounts, a, NextPools(accounts, a, p, ops[0], rs[0]), ops[1..], rs[1..]))
  }

  ghost predicate PidsBelow(s: System, pid: nat) {
    (forall q :: q in s.fetches ==> q < pid) && (forall q :: q in s.uploads ==> q < pid)
  }

  lemma {:induction false} RunPids(s: System, es: seq<Event>, pid: nat)
    requires PidsBelow(s, pid)
    requires forall i :: 0 <= i < |es| ==> es[i].pid < pid
    ensures PidsBelow(Run(s, es), pid)
    decreases es
  {
    if es != [] {
      if es[0].StepFetch? && es[0].pid in s.fetches { EffectFetches(s, es[0].pid, s.fetches[es[0].pid]); }
      RunPids(Step(s, es[0]), es[1..], pid);
    }
  }

  lemma {:induction false} StepsPid(e: Event, n: nat)
    ensures forall i :: 0 <= i < |Steps(e, n)| ==> Steps(e, n)[i] == e
    decreases n
  {
    if n > 0 { StepsPid(e, n - 1); }
  }

  lemma EventsPids(s: System, pid: nat, op: Op)
    requires PidsBelow(s, pid)
    ensures PidsBelow(Run(s, Events(pid, op)), pid + 1)
  {
    StepsPid(StepFetch(pid), 6);
    StepsPid(StepUpload(pid), PHASES + 1);
    RunPids(s, Events(pid, op), pid + 1);
  }

  lemma UnknownDevice(s: System, pid: nat, device: string)
    requires Inv(s) && pid !in s.fetches && device !in s.accounts
    ensures var t := Run(s, WholeFetch(pid, device));
      t == Step(s, StartFetch(pid, device)) && AnswerOf(t, pid).NoBundle?
  {
    assert WholeFetch(pid, device)[1..] == Steps(StepFetch(pid), 6);
    RunSteps6(Step(s, StartFetch(pid, device)), StepFetch(pid));
  }

  lemma OpRefines(s: System, pid: nat, op: Op, a: string)
    requires Inv(s) && s.locks == map[] && PidsBelow(s, pid)
    ensures var t := Run(s, Events(pid, op)); var p := Abstract(s.rows, a); var r := ReplyOf(t, pid, op);
      Inv(t) && t.locks == map[] && t.accounts == s.accounts && PidsBelow(t, pid + 1) &&
      AllowsOp(s.accounts, a, p, op, r) && Abstract(t.rows, a) == NextPools(s.accounts, a, p, op, r)
  {
    EventsPids(s, pid, op);
    RunKeepsInv(s, Events(pid, op));
    match op
    case FetchOp(device) =>
      if device in s.accounts { FetchRefines(s, pid, device, a); } else { UnknownDevice(s, pid, device); }
    case UploadOp(account, payload) => UploadRefines(s, pid, account, payload, a);
  }

  /** Over every sequence of whole requests, each account is served exactly from its own pools. */
  lemma {:induction false} TableRefinesPools(s: System, pid: nat, ops: seq<Op>, a: string)
    requires Inv(s) && s.locks == map[] && PidsBelow(s, pid)
    ensures Agrees(s.accounts, a, Abstract(s.rows, a), ops, Replies(s, pid, ops))
    decreases ops
  {
    if ops != [] {
      OpRefines(s, pid, ops[0], a);
      var t := Run(s, Events(pid, ops[0]));
      TableRefinesPools(t, pid + 1, ops[1..], a);
      assert Replies(s, pid, ops)[1..] == Replies(t, pid + 1, ops[1..]);
    }
  }

  /** The signed key a fetch would read never goes back to an older one, whatever runs in between. */
  lemma SignedNeverOlder(s: System, es: seq<Event>, account: string)
    requires Inv(s) && Newest(s, account, SignedKey).Some?
    ensures var t := Run(s, es); var i, j := Newest(s, account, SignedKey), Newest(t, account, SignedKey);
      j.Some? && i.value < |s.rows| && j.value < |t.rows| && s.rows[i.value].keyId <= t.rows[j.value].keyId &&
      forall k: nat :: k < |t.rows| && InPool(t.rows[k], account, SignedKey) ==>
        t.rows[k].keyId <= t.rows[j.value].keyId
  {
    var t := Run(s, es);
    RunKeepsInv(s, es);
    PickSpec(s.rows, map[], account, SignedKey, true, |s.rows|);
    PickSpec(t.rows, map[], account, SignedKey, true, |t.rows|);
    forall k: nat | k < |t.rows| && InPool(t.rows[k], account, SignedKey)
      ensures Matches(t.rows, map[], account, SignedKey, k)
    {
      LongLivedKept(s, es, k, 0);
    }
    var i := Newest(s, account, SignedKey).value;
    assert RowLater(s.rows[i], t.rows[i]);
    assert Matches(t.rows, map[], account, SignedKey, i);
  }
}
