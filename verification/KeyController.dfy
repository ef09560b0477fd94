/**
 * The two key handlers, statement by statement, on the table they change.
 * `Await` is a point where a handler waits for the database and other requests
 * run; `env` says what they do there.
 */
module KeyController {
  import opened Common
  import opened PreKeys
  import opened PreKeysInvariant

  /** Steps of request `pid` itself. */
  predicate Own(pid: nat, e: Event) {
    e.pid == pid
  }

  /** Events of other requests. */
  predicate Others(pid: nat, es: seq<Event>) {
    forall e | e in es :: !Own(pid, e)
  }

  lemma UploadElsewhere(s: System, pid: nat)
    requires pid in s.uploads
    ensures var t := AdvanceUpload(s, pid);
      t.accounts == s.accounts && t.fetches == s.fetches && t.uploads == s.uploads[pid := t.uploads[pid]]
  {}

  lemma OtherStep(s: System, e: Event, pid: nat)
    requires !Own(pid, e)
    ensures var t := Step(s, e);
      t.accounts == s.accounts &&
      (pid in t.fetches <==> pid in s.fetches) && (pid in s.fetches ==> t.fetches[pid] == s.fetches[pid]) &&
      (pid in t.uploads <==> pid in s.uploads) && (pid in s.uploads ==> t.uploads[pid] == s.uploads[pid])
  {
    match e
    case StepFetch(q) => if q in s.fetches { EffectFetches(s, q, s.fetches[q]); }
    case StepUpload(q) => if q in s.uploads { UploadElsewhere(s, q); }
    case _ =>
  }

  /** What others do leaves the record of request `pid` alone. */
  lemma {:induction false} OthersElsewhere(s: System, pid: nat, es: seq<Event>)
    requires Others(pid, es)
    ensures var t := Run(s, es);
      t.accounts == s.accounts &&
      (pid in t.fetches <==> pid in s.fetches) && (pid in s.fetches ==> t.fetches[pid] == s.fetches[pid]) &&
      (pid in t.uploads <==> pid in s.uploads) && (pid in s.uploads ==> t.uploads[pid] == s.uploads[pid])
    decreases es
  {
    if es != [] {
      assert es[0] in es && forall e :: e in es[1..] ==> e in es;
      OtherStep(s, es[0], pid);
      OthersElsewhere(Step(s, es[0]), pid, es[1..]);
    }
  }

  class KeyController {
    var sys: System

    constructor (accounts: map<string, string>)
      ensures sys == Initial(accounts)
    {
      sys := Initial(accounts);
    }

    /** Others run; `trace`, the history since `start`, is extended by what they did. */
    method Await(pid: nat, es: seq<Event>, ghost start: System, ghost trace: seq<Event>)
      returns (ghost longer: seq<Event>)
      requires sys == Run(start, trace) && Others(pid, es)
      modifies this
      ensures longer == trace + es && sys == Run(start, longer)
      ensures sys.accounts == old(sys.accounts)
      ensures pid in sys.fetches <==> pid in old(sys.fetches)
      ensures pid in sys.fetches ==> sys.fetches[pid] == old(sys.fetches)[pid]
      ensures pid in sys.uploads <==> pid in old(sys.uploads)
      ensures pid in sys.uploads ==> sys.uploads[pid] == old(sys.uploads)[pid]
    {
      longer := trace + es;
      RunConcat(start, trace, es);
      OthersElsewhere(sys, pid, es);
      sys := Run(sys, es);
    }

    /** The bundle is that of one interleaved request. */
    method FetchPreKey(pid: nat, deviceId: string, env: nat -> seq<Event>)
      returns (bundle: Option<Bundle>, ghost trace: seq<Event>)
      requires pid !in sys.fetches && forall k :: Others(pid, env(k))
      modifies this
      ensures sys == Run(old(sys), trace)
      ensures pid in sys.fetches && Final(sys.fetches[pid].stage) && !sys.fetches[pid].stage.Failed?
      ensures deviceId in old(sys).accounts ==> sys.fetches[pid].account == old(sys).accounts[deviceId]
      ensures deviceId !in old(sys).accounts ==> bundle.None?
      ensures bundle == Response(sys, sys.fetches[pid])
    {
      ghost var start := sys;
      var found: bool;
      found, trace := FindAccount(pid, deviceId, env(0), start, []);
      if !found {
        return None, trace;
      }
      var signed: Option<nat>;
      signed, trace := ReadSigned(pid, env(1), start, trace);
      if signed.None? {
        return None, trace;
      }
      var oneTime, kyber, lastResort: Option<nat>;
      oneTime, trace := Claim(pid, OneTime, env(2), env(3), start, trace);
      kyber, trace := Claim(pid, KyberOneTime, env(4), env(5), start, trace);
      lastResort := None;
      if kyber.None? {
        lastResort, trace := ReadLastResort(pid, env(6), start, trace);
      }
      bundle := Some(Bundle(ToKey(sys, signed.value), ToKeyOption(sys, oneTime),
                            ToKeyOption(sys, if kyber.Some? then kyber else lastResort)));
    }

    /** Account.findBy('deviceId', ...) */
    method FindAccount(pid: nat, deviceId: string, env: seq<Event>, ghost start: System, ghost trace: seq<Event>)
      returns (found: bool, ghost longer: seq<Event>)
      requires sys == Run(start, trace) && pid !in sys.fetches && Others(pid, env)
      modifies this
      ensures sys == Run(start, longer) && pid in sys.fetches
      ensures found <==> deviceId in old(sys).accounts
      ensures sys.fetches[pid] ==
                if found then Fetch(old(sys).accounts[deviceId], ReadingSigned, None, None, None, None)
                else Fetch("", NotFound, None, None, None, None)
    {
      longer := Await(pid, env, start, trace);
      RunNext(start, longer, StartFetch(pid, deviceId));
      longer := longer + [StartFetch(pid, deviceId)];
      found := deviceId in sys.accounts;
      sys := Put(sys, pid, if found then Fetch(sys.accounts[deviceId], ReadingSigned, None, None, None, None)
                           else Fetch("", NotFound, None, None, None, None));
    }

    method ReadSigned(pid: nat, env: seq<Event>, ghost start: System, ghost trace: seq<Event>)
      returns (row: Option<nat>, ghost longer: seq<Event>)
      requires sys == Run(start, trace) && pid in sys.fetches && sys.fetches[pid].stage.ReadingSigned?
      requires Others(pid, env)
      modifies this
      ensures sys == Run(start, longer) && pid in sys.fetches
      ensures sys.fetches[pid] ==
                old(sys.fetches)[pid].(signed := row, stage := if row.None? then NotFound else ClaimingOneTime)
      ensures row == Newest(sys, sys.fetches[pid].account, SignedKey)
    {
      longer := Await(pid, env, start, trace);
      RunNext(start, longer, StepFetch(pid));
      longer := longer + [StepFetch(pid)];
      row := Newest(sys, sys.fetches[pid].account, SignedKey);
      sys := Put(sys, pid, sys.fetches[pid].(signed := row, stage := if row.None? then NotFound else ClaimingOneTime));
    }

    method ReadLastResort(pid: nat, env: seq<Event>, ghost start: System, ghost trace: seq<Event>)
      returns (row: Option<nat>, ghost longer: seq<Event>)
      requires sys == Run(start, trace) && pid in sys.fetches && sys.fetches[pid].stage.ReadingLastResort?
      requires Others(pid, env)
      modifies this
      ensures sys == Run(start, longer) && pid in sys.fetches
      ensures sys.fetches[pid] == old(sys.fetches)[pid].(lastResort := row, stage := Answered)
      ensures row == Newest(sys, sys.fetches[pid].account, LastResort)
    {
      longer := Await(pid, env, start, trace);
      RunNext(start, longer, StepFetch(pid));
      longer := longer + [StepFetch(pid)];
      row := Newest(sys, sys.fetches[pid].account, LastResort);
      sys := Put(sys, pid, sys.fetches[pid].(lastResort := row, stage := Answered));
    }

    /** UPDATE ... SET consumed = true WHERE id = (SELECT ... FOR UPDATE SKIP LOCKED) RETURNING */
    method Claim(pid: nat, kind: Kind, before: seq<Event>, during: seq<Event>,
                 ghost start: System, ghost trace: seq<Event>)
      returns (row: Option<nat>, ghost longer: seq<Event>)
      requires sys == Run(start, trace) && pid in sys.fetches && (kind == OneTime || kind == KyberOneTime)
      requires Others(pid, before) && Others(pid, during)
      requires sys.fetches[pid].stage == if kind == OneTime then ClaimingOneTime else ClaimingKyber
      modifies this
      ensures sys == Run(start, longer) && sys.accounts == old(sys.accounts)
      ensures pid in sys.fetches && sys.fetches[pid] ==
                if kind == OneTime then old(sys.fetches)[pid].(oneTime := row, stage := ClaimingKyber)
                else old(sys.fetches)[pid].(kyber := row, stage := if row.None? then ReadingLastResort else Answered)
    {
      longer := Await(pid, before, start, trace);
      RunNext(start, longer, StepFetch(pid));
      longer := longer + [StepFetch(pid)];
      var f := sys.fetches[pid];
      row := Claimable(sys, f.account, kind);
      sys := Put(Lock(sys, row, pid), pid,
                 f.(stage := if kind == OneTime then LockedOneTime(row) else LockedKyber(row)));

      longer := Await(pid, during, start, longer);
      RunNext(start, longer, StepFetch(pid));
      longer := longer + [StepFetch(pid)];
      EffectFetches(sys, pid, sys.fetches[pid]);
      sys := Put(Commit(sys, row, pid), pid,
                 if kind == OneTime then f.(oneTime := row, stage := ClaimingKyber)
                 else f.(kyber := row, stage := if row.None? then ReadingLastResort else Answered));
    }

    /** The report is that of one interleaved request. */
    method UploadPreKeys(pid: nat, accountId: string, payload: Payload, env: nat -> seq<Event>)
      returns (outcome: Outcome, ghost trace: seq<Event>)
      requires pid !in sys.uploads && forall k :: Others(pid, env(k))
      modifies this
      ensures sys == Run(old(sys), trace)
      ensures pid in sys.uploads && sys.uploads[pid].account == accountId && sys.uploads[pid].payload == payload
      ensures outcome == sys.uploads[pid].outcome && outcome != Running
      ensures outcome == UnknownAccount <==> accountId !in old(sys).accounts.Values
    {
      ghost var start := sys;
      var found, ok: bool;
      found, trace := OpenUpload(pid, accountId, payload, env(0), start, []);
      if !found {
        return UnknownAccount, trace;
      }
      ok, trace := Create(pid, OneTimeRows(accountId, payload.preKeys), env(1), start, trace);
      if !ok { return Rejected, trace; }
      ok, trace := Create(pid, Phase(accountId, payload, 1),
                          if payload.signedPreKey.Some? then env(2) else [], start, trace);
      if !ok { return Rejected, trace; }
      ok, trace := Create(pid, KyberRows(accountId, payload.kyberPreKeys),
                          if |payload.kyberPreKeys| > 0 then env(3) else [], start, trace);
      if !ok { return Rejected, trace; }
      ok, trace := Create(pid, Phase(accountId, payload, 3),
                          if payload.lastResort.Some? then env(4) else [], start, trace);
      if !ok { return Rejected, trace; }
      outcome, trace := Report(pid, env(5), start, trace);
    }

    /** Account.find(accountId) */
    method OpenUpload(pid: nat, accountId: string, payload: Payload, env: seq<Event>,
                      ghost start: System, ghost trace: seq<Event>)
      returns (found: bool, ghost longer: seq<Event>)
      requires sys == Run(start, trace) && pid !in sys.uploads && Others(pid, env)
      modifies this
      ensures sys == Run(start, longer) && pid in sys.uploads
      ensures found <==> accountId in old(sys).accounts.Values
      ensures sys.uploads[pid] == Upload(accountId, payload, 0, if found then Running else UnknownAccount)
    {
      longer := Await(pid, env, start, trace);
      RunNext(start, longer, StartUpload(pid, accountId, payload));
      longer := longer + [StartUpload(pid, accountId, payload)];
      found := accountId in sys.accounts.Values;
      sys := sys.(uploads := sys.uploads[pid :=
                    Upload(accountId, payload, 0, if found then Running else UnknownAccount)]);
    }

    /** SELECT count(*) and the 201 response. */
    method Report(pid: nat, env: seq<Event>, ghost start: System, ghost trace: seq<Event>)
      returns (outcome: Outcome, ghost longer: seq<Event>)
      requires sys == Run(start, trace) && pid in sys.uploads
      requires sys.uploads[pid].outcome == Running && sys.uploads[pid].done == PHASES && Others(pid, env)
      modifies this
      ensures sys == Run(start, longer) && pid in sys.uploads
      ensures outcome.Created? && sys.uploads[pid] == old(sys.uploads)[pid].(outcome := outcome)
      ensures outcome.availablePreKeys == CountAvailable(sys.rows, sys.uploads[pid].account)
    {
      longer := Await(pid, env, start, trace);
      RunNext(start, longer, StepUpload(pid));
      longer := longer + [StepUpload(pid)];
      var u := sys.uploads[pid];
      outcome := Created(|u.payload.preKeys|, CountAvailable(sys.rows, u.account));
      sys := sys.(uploads := sys.uploads[pid := u.(outcome := outcome)]);
    }

    /** createMany: all rows of a phase go in, or the unique constraint rejects them all. */
    method Create(pid: nat, batch: seq<Row>, env: seq<Event>, ghost start: System, ghost trace: seq<Event>)
      returns (ok: bool, ghost longer: seq<Event>)
      requires sys == Run(start, trace) && pid in sys.uploads && sys.uploads[pid].outcome == Running
      requires sys.uploads[pid].done < PHASES && Others(pid, env)
      requires batch == Phase(sys.uploads[pid].account, sys.uploads[pid].payload, sys.uploads[pid].done)
      modifies this
      ensures sys == Run(start, longer) && sys.accounts == old(sys.accounts)
      ensures pid in sys.uploads && sys.uploads[pid] ==
                var u := old(sys.uploads)[pid]; if ok then u.(done := u.done + 1) else u.(outcome := Rejected)
    {
      longer := Await(pid, env, start, trace);
      RunNext(start, longer, StepUpload(pid));
      longer := longer + [StepUpload(pid)];
      var u := sys.uploads[pid];
      ok := Unique(sys.rows + batch);
      if ok {
        sys := sys.(rows := sys.rows + batch, origin := sys.origin + Fill(pid, |batch|),
                    uploads := sys.uploads[pid := u.(done := u.done + 1)]);
      } else {
        sys := sys.(uploads := sys.uploads[pid := u.(outcome := Rejected)]);
      }
    }
  }
}
