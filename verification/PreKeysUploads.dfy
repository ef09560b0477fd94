/** What an upload leaves in the table, whatever runs beside it. */
module PreKeysUploads {
  import opened Common
  import opened PreKeys
  import opened PreKeysInvariant
  import opened PreKeysRuns

  function Fresh(r: Row): Row {
    r.(consumed := false)
  }

  /** The rows that upload `pid` inserted, in order, as they were inserted. */
  function Left(rows: seq<Row>, origin: seq<nat>, pid: nat): seq<Row>
    requires |rows| == |origin|
  {
    if rows == [] then []
    else
      var n := |rows| - 1;
      Left(rows[..n], origin[..n], pid) + if origin[n] == pid then [Fresh(rows[n])] else []
  }

  /** The rows of the first `k` phases of an upload. */
  function Planned(account: string, p: Payload, k: nat): seq<Row> {
    if k == 0 then [] else Planned(account, p, k - 1) + Phase(account, p, k - 1)
  }

  ghost predicate UploadOk(s: System, pid: nat)
    requires |s.rows| == |s.origin|
  {
    pid in s.uploads ==>
      var u := s.uploads[pid];
      u.done <= PHASES && Left(s.rows, s.origin, pid) == Planned(u.account, u.payload, u.done) &&
      match u.outcome
      case Running => true
      case UnknownAccount => u.done == 0
      case Rejected => u.done < PHASES && !Unique(s.rows + Phase(u.account, u.payload, u.done))
      case Created(_, _) => u.done == PHASES
  }

  ghost predicate UploadsOk(s: System) {
    |s.rows| == |s.origin| && (forall i :: 0 <= i < |s.origin| ==> s.origin[i] in s.uploads) &&
    forall pid :: UploadOk(s, pid)
  }

  lemma {:induction false} LeftLater(a: seq<Row>, b: seq<Row>, origin: seq<nat>, pid: nat)
    requires |a| == |b| == |origin| && RowsLater(a, b)
    ensures Left(a, origin, pid) == Left(b, origin, pid)
  {
    if a != [] {
      var n := |a| - 1;
      assert RowsLater(a[..n], b[..n]);
      LeftLater(a[..n], b[..n], origin[..n], pid);
      assert RowLater(a[n], b[n]);
    }
  }

  lemma {:induction false} LeftNobody(rows: seq<Row>, origin: seq<nat>, pid: nat)
    requires |rows| == |origin| && pid !in origin
    ensures Left(rows, origin, pid) == []
  {
    if rows != [] {
      var n := |rows| - 1;
      LeftNobody(rows[..n], origin[..n], pid);
    }
  }

  lemma {:induction false} LeftAppend(rows: seq<Row>, origin: seq<nat>, batch: seq<Row>, who: nat, pid: nat)
    requires |rows| == |origin| && forall i :: 0 <= i < |batch| ==> !batch[i].consumed
    ensures Left(rows + batch, origin + Fill(who, |batch|), pid) ==
            Left(rows, origin, pid) + if who == pid then batch else []
    decreases |batch|
  {
    if batch == [] {
      assert rows + batch == rows && origin + Fill(who, 0) == origin;
    } else {
      var n := |batch| - 1;
      var all, whose := rows + batch, origin + Fill(who, |batch|);
      LeftAppend(rows, origin, batch[..n], who, pid);
      assert all[..|all| - 1] == rows + batch[..n];
      assert whose[..|all| - 1] == origin + Fill(who, n);
      assert Fresh(all[|all| - 1]) == batch[n];
      assert batch == batch[..n] + [batch[n]];
    }
  }

  lemma ClashStays(rows: seq<Row>, longer: seq<Row>, batch: seq<Row>)
    requires !Unique(rows + batch) && RowsLater(rows, longer)
    ensures !Unique(longer + batch)
  {
    var a, b := rows + batch, longer + batch;
    var i, j :| 0 <= i < j < |a| && a[i].account == a[j].account && a[i].keyId == a[j].keyId;
    var shift := |longer| - |rows|;
    var i', j' := if i < |rows| then i else i + shift, if j < |rows| then j else j + shift;
    assert i < |rows| ==> RowLater(rows[i], longer[i]);
    assert j < |rows| ==> RowLater(rows[j], longer[j]);
    assert b[i'].account == a[i].account && b[i'].keyId == a[i].keyId;
    assert b[j'].account == a[j].account && b[j'].keyId == a[j].keyId;
  }

  /** A step of a fetch leaves every upload as it was. */
  lemma FetchKeepsUploads(s: System, t: System)
    requires UploadsOk(s) && RowsLater(s.rows, t.rows) && |t.rows| == |s.rows|
    requires t.origin == s.origin && t.uploads == s.uploads
    ensures UploadsOk(t)
  {
    forall pid: nat ensures UploadOk(t, pid) {
      assert UploadOk(s, pid);
      LeftLater(s.rows, t.rows, s.origin, pid);
      if pid in s.uploads && s.uploads[pid].outcome == Rejected {
        ClashStays(s.rows, t.rows, Phase(s.uploads[pid].account, s.uploads[pid].payload, s.uploads[pid].done));
      }
    }
  }

  lemma PhaseRows(u: Upload, i: nat)
    requires i < |Phase(u.account, u.payload, u.done)|
    ensures !Phase(u.account, u.payload, u.done)[i].consumed
  {
    PhaseUnconsumed(u.account, u.payload, u.done, i);
  }

  lemma PhaseKeepsUploads(s: System, who: nat)
    requires UploadsOk(s) && who in s.uploads && s.uploads[who].outcome == Running && s.uploads[who].done < PHASES
    requires Unique(s.rows + Phase(s.uploads[who].account, s.uploads[who].payload, s.uploads[who].done))
    ensures UploadsOk(AdvanceUpload(s, who))
  {
    var u, t := s.uploads[who], AdvanceUpload(s, who);
    var batch := Phase(u.account, u.payload, u.done);
    forall i: nat | i < |batch| ensures !batch[i].consumed { PhaseRows(u, i); }
    assert RowsLater(s.rows, t.rows);
    forall pid: nat ensures UploadOk(t, pid) {
      assert UploadOk(s, pid);
      LeftAppend(s.rows, s.origin, batch, who, pid);
      if pid in s.uploads && s.uploads[pid].outcome == Rejected {
        ClashStays(s.rows, t.rows, Phase(s.uploads[pid].account, s.uploads[pid].payload, s.uploads[pid].done));
      }
    }
  }

  lemma OutcomeKeepsUploads(s: System, t: System, who: nat)
    requires UploadsOk(s) && t.rows == s.rows && t.origin == s.origin
    requires who in t.uploads && t.uploads == s.uploads[who := t.uploads[who]] && UploadOk(t, who)
    ensures UploadsOk(t)
  {
    forall pid: nat ensures UploadOk(t, pid) {
      assert UploadOk(s, pid);
    }
  }

  lemma UploadStepKeeps(s: System, who: nat)
    requires UploadsOk(s) && who in s.uploads && s.uploads[who].outcome == Running
    ensures UploadsOk(AdvanceUpload(s, who))
  {
    var u := s.uploads[who];
    assert UploadOk(s, who);
    if u.done < PHASES && Unique(s.rows + Phase(u.account, u.payload, u.done)) {
      PhaseKeepsUploads(s, who);
    } else {
      OutcomeKeepsUploads(s, AdvanceUpload(s, who), who);
    }
  }

  lemma EffectKeepsTable(s: System, pid: nat, f: Fetch)
    ensures var t := Effect(s, pid, f);
      |t.rows| == |s.rows| && t.origin == s.origin && t.uploads == s.uploads && RowsLater(s.rows, t.rows)
  {
    EffectRows(s, pid, f);
  }

  lemma StepKeepsUploads(s: System, e: Event)
    requires UploadsOk(s)
    ensures UploadsOk(Step(s, e))
  {
    if Enabled(s, e) {
      match e
      case StepFetch(pid) =>
        EffectKeepsTable(s, pid, s.fetches[pid]);
        FetchKeepsUploads(s, Step(s, e));
      case StartUpload(pid, _, _) =>
        LeftNobody(s.rows, s.origin, pid);
        OutcomeKeepsUploads(s, Step(s, e), pid);
      case StepUpload(pid) => UploadStepKeeps(s, pid);
      case _ => FetchKeepsUploads(s, Step(s, e));
    }
  }

  lemma {:induction false} RunKeepsUploads(s: System, es: seq<Event>)
    requires UploadsOk(s)
    ensures UploadsOk(Run(s, es))
    decreases es
  {
    if es != [] {
      StepKeepsUploads(s, es[0]);
      RunKeepsUploads(Step(s, es[0]), es[1..]);
    }
  }

  /** Of the first `k` phases all rows went in; of the others, none. */
  ghost predicate LeavesPhases(s: System, pid: nat, k: nat)
    requires |s.rows| == |s.origin| && pid in s.uploads
  {
    Left(s.rows, s.origin, pid) == Planned(s.uploads[pid].account, s.uploads[pid].payload, k)
  }

  /**
   * Key ids stay unique per account across all four kinds of row.  At any moment an
   * upload has left exactly the rows of the phases it got through: all of them if it
   * succeeded, and those before the first that clashes with the table if it was rejected.
   */
  lemma UploadLeavesPrefix(accounts: map<string, string>, es: seq<Event>, pid: nat)
    requires pid in Run(Initial(accounts), es).uploads
    ensures var t := Run(Initial(accounts), es); var u := t.uploads[pid];
      Unique(t.rows) && |t.rows| == |t.origin| && u.done <= PHASES && LeavesPhases(t, pid, u.done) &&
      (u.outcome.Created? ==> u.done == PHASES) && (u.outcome.UnknownAccount? ==> u.done == 0) &&
      (u.outcome.Rejected? ==> u.done < PHASES && !Unique(t.rows + Phase(u.account, u.payload, u.done)))
  {
    InitialHolds(accounts);
    RunKeepsInv(Initial(accounts), es);
    RunKeepsUploads(Initial(accounts), es);
    assert UploadOk(Run(Initial(accounts), es), pid);
  }
}
