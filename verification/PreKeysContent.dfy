/** What is stored and what is answered, in terms of the keys that clients uploaded. */
module PreKeysContent {
  import opened Common
  import opened PreKeys
  import opened PreKeysInvariant
  import opened PreKeysRuns
  import opened PreKeysUploads

  // --- The four fields of an upload ---

  predicate OffersOneTime(p: Payload, k: KeyOut) {
    PlainKey(k.keyId, k.publicKey) in p.preKeys && k.signature.None?
  }

  predicate OffersSigned(p: Payload, k: KeyOut) {
    k.signature.Some? && p.signedPreKey == Some(SignedUpload(k.keyId, k.publicKey, k.signature.value))
  }

  predicate OffersKyber(p: Payload, k: KeyOut) {
    k.signature.Some? && SignedUpload(k.keyId, k.publicKey, k.signature.value) in p.kyberPreKeys
  }

  predicate OffersLastResort(p: Payload, k: KeyOut) {
    k.signature.Some? && p.lastResort == Some(SignedUpload(k.keyId, k.publicKey, k.signature.value))
  }

  function KeyOf(r: Row): KeyOut {
    KeyOut(r.keyId, r.publicKey, r.signature)
  }

  predicate Flags(r: Row, isSigned: bool, isKyber: bool, isLastResort: bool) {
    r.isSigned == isSigned && r.isKyber == isKyber && r.isLastResort == isLastResort
  }

  /** The row is of the payload's field that its flags call for. */
  predicate FromPayload(r: Row, p: Payload) {
    (Flags(r, false, false, false) && OffersOneTime(p, KeyOf(r))) ||
    (Flags(r, true, false, false) && OffersSigned(p, KeyOf(r))) ||
    (Flags(r, false, true, false) && OffersKyber(p, KeyOf(r))) ||
    (Flags(r, false, true, true) && OffersLastResort(p, KeyOf(r)))
  }

  // --- Every row is an uploaded key ---

  ghost predicate RowOk(s: System, i: nat)
    requires i < |s.rows|
  {
    i < |s.origin| && s.origin[i] in s.uploads &&
    s.rows[i].account == s.uploads[s.origin[i]].account && FromPayload(s.rows[i], s.uploads[s.origin[i]].payload)
  }

  ghost predicate ContentOk(s: System) {
    |s.rows| == |s.origin| && forall i: nat :: i < |s.rows| ==> RowOk(s, i)
  }

  lemma PhaseFromPayload(account: string, p: Payload, k: nat, i: nat)
    requires i < |Phase(account, p, k)|
    ensures Phase(account, p, k)[i].account == account && FromPayload(Phase(account, p, k)[i], p)
  {}

  /** Uploads keep their account and payload, and rows all but their consumed flag. */
  lemma ContentKept(s: System, t: System, i: nat)
    requires ContentOk(s) && i < |s.rows| <= |t.rows| && RowLater(s.rows[i], t.rows[i])
    requires i < |t.origin| && t.origin[i] == s.origin[i]
    requires forall u :: u in s.uploads ==>
      u in t.uploads && t.uploads[u].account == s.uploads[u].account && t.uploads[u].payload == s.uploads[u].payload
    ensures RowOk(t, i)
  {
    assert RowOk(s, i);
  }

  lemma UploadOne(s: System, v: nat)
    requires v in s.uploads
    ensures var t := AdvanceUpload(s, v);
      v in t.uploads && t.uploads == s.uploads[v := t.uploads[v]] &&
      t.uploads[v].account == s.uploads[v].account && t.uploads[v].payload == s.uploads[v].payload
  {}

  lemma UploadStays(s: System, v: nat)
    requires v in s.uploads
    ensures var t := AdvanceUpload(s, v);
      t.uploads.Keys == s.uploads.Keys && forall u :: u in s.uploads ==>
        t.uploads[u].account == s.uploads[u].account && t.uploads[u].payload == s.uploads[u].payload
  {
    UploadOne(s, v);
  }

  lemma UploadOrigins(s: System, u: nat)
    requires |s.rows| == |s.origin| && u in s.uploads
    ensures var t := AdvanceUpload(s, u); |t.rows| == |t.origin| && s.origin <= t.origin
  {}

  lemma UploadRows(s: System, u: nat)
    requires |s.rows| == |s.origin| && u in s.uploads
    ensures var t := AdvanceUpload(s, u);
      |t.rows| == |t.origin| && |s.rows| <= |t.rows| && RowsLater(s.rows, t.rows) && s.origin <= t.origin
  {
    UploadAppends(s, u);
    AppendsLater(s, AdvanceUpload(s, u));
    UploadOrigins(s, u);
  }

  lemma AppendedRow(s: System, u: nat, i: nat)
    requires |s.rows| == |s.origin| && u in s.uploads && |s.rows| <= i < |AdvanceUpload(s, u).rows|
    ensures RowOk(AdvanceUpload(s, u), i)
  {
    var t, up := AdvanceUpload(s, u), s.uploads[u];
    PhaseFromPayload(up.account, up.payload, up.done, i - |s.rows|);
    assert t.rows[i] == Phase(up.account, up.payload, up.done)[i - |s.rows|] && t.origin[i] == u;
  }

  lemma UploadKeepsContent(s: System, u: nat)
    requires ContentOk(s) && u in s.uploads && s.uploads[u].outcome == Running
    ensures ContentOk(AdvanceUpload(s, u))
  {
    var t := AdvanceUpload(s, u);
    UploadRows(s, u);
    UploadStays(s, u);
    forall i: nat | i < |t.rows| ensures RowOk(t, i) {
      if i < |s.rows| { ContentKept(s, t, i); } else { AppendedRow(s, u, i); }
    }
  }

  lemma FetchKeepsContent(s: System, t: System)
    requires ContentOk(s) && |t.rows| == |s.rows| && RowsLater(s.rows, t.rows) && t.origin == s.origin
    requires forall u :: u in s.uploads ==> u in t.uploads && t.uploads[u] == s.uploads[u]
    ensures ContentOk(t)
  {
    forall i: nat | i < |t.rows| ensures RowOk(t, i) { ContentKept(s, t, i); }
  }

  lemma StepKeepsContent(s: System, e: Event)
    requires ContentOk(s)
    ensures ContentOk(Step(s, e))
  {
    if Enabled(s, e) {
      match e
      case StepUpload(u) => UploadKeepsContent(s, u);
      case StepFetch(pid) =>
        EffectKeepsTable(s, pid, s.fetches[pid]);
        FetchKeepsContent(s, Step(s, e));
      case _ => FetchKeepsContent(s, Step(s, e));
    }
  }

  lemma {:induction false} RunKeepsContent(s: System, es: seq<Event>)
    requires ContentOk(s)
    ensures ContentOk(Run(s, es))
    decreases es
  {
    if es != [] {
      StepKeepsContent(s, es[0]);
      RunKeepsContent(Step(s, es[0]), es[1..]);
    }
  }

  /**
   * Over every run, each stored row is a key of its upload, for that upload's account,
   * out of the field that the row's flags call for.
   */
  lemma RowsAreUploaded(accounts: map<string, string>, es: seq<Event>, i: nat)
    requires i < |Run(Initial(accounts), es).rows|
    ensures var t := Run(Initial(accounts), es);
      i < |t.origin| && t.origin[i] in t.uploads && t.rows[i].account == t.uploads[t.origin[i]].account &&
      FromPayload(t.rows[i], t.uploads[t.origin[i]].payload)
  {
    RunKeepsContent(Initial(accounts), es);
    assert RowOk(Run(Initial(accounts), es), i);
  }

  // --- Every key of a successful upload is stored ---

  /** Upload `u` stored a row for the account with this key and these flags. */
  ghost predicate Stores(t: System, u: nat, account: string, k: KeyOut, isSigned: bool, isKyber: bool, isLast: bool) {
    exists i: nat :: i < |t.rows| && i < |t.origin| && t.origin[i] == u &&
      t.rows[i].account == account && KeyOf(t.rows[i]) == k && Flags(t.rows[i], isSigned, isKyber, isLast)
  }

  lemma {:induction false} LeftIn(rows: seq<Row>, origin: seq<nat>, u: nat, r: Row)
    requires |rows| == |origin| && r in Left(rows, origin, u)
    ensures exists i: nat :: i < |rows| && origin[i] == u && r == rows[i].(consumed := false)
  {
    if rows != [] {
      var n := |rows| - 1;
      if r in Left(rows[..n], origin[..n], u) {
        LeftIn(rows[..n], origin[..n], u, r);
        var i: nat :| i < n && origin[..n][i] == u && r == rows[..n][i].(consumed := false);
        assert origin[i] == u && r == rows[i].(consumed := false);
      }
    }
  }

  lemma PlannedHas(account: string, p: Payload, k: nat, r: Row)
    requires k < PHASES && r in Phase(account, p, k)
    ensures r in Planned(account, p, PHASES)
  {
    assert Planned(account, p, 4) == Planned(account, p, 3) + Phase(account, p, 3);
    assert Planned(account, p, 3) == Planned(account, p, 2) + Phase(account, p, 2);
    assert Planned(account, p, 2) == Planned(account, p, 1) + Phase(account, p, 1);
    assert Planned(account, p, 1) == Planned(account, p, 0) + Phase(account, p, 0);
  }

  lemma StoredRow(t: System, u: nat, k: nat, r: Row)
    requires UploadsOk(t) && u in t.uploads && t.uploads[u].done == PHASES
    requires k < PHASES && r in Phase(t.uploads[u].account, t.uploads[u].payload, k)
    ensures Stores(t, u, r.account, KeyOf(r), r.isSigned, r.isKyber, r.isLastResort)
  {
    assert UploadOk(t, u);
    PlannedHas(t.uploads[u].account, t.uploads[u].payload, k, r);
    LeftIn(t.rows, t.origin, u, r);
  }

  lemma PlainStored(t: System, u: nat, x: PlainKey)
    requires UploadsOk(t) && u in t.uploads && t.uploads[u].done == PHASES && x in t.uploads[u].payload.preKeys
    ensures Stores(t, u, t.uploads[u].account, KeyOut(x.keyId, x.publicKey, None), false, false, false)
  {
    var p := t.uploads[u].payload;
    var i :| 0 <= i < |p.preKeys| && p.preKeys[i] == x;
    StoredRow(t, u, 0, Phase(t.uploads[u].account, p, 0)[i]);
  }

  lemma KyberStored(t: System, u: nat, x: SignedUpload)
    requires UploadsOk(t) && u in t.uploads && t.uploads[u].done == PHASES && x in t.uploads[u].payload.kyberPreKeys
    ensures Stores(t, u, t.uploads[u].account, KeyOut(x.keyId, x.publicKey, Some(x.signature)), false, true, false)
  {
    var p := t.uploads[u].payload;
    var i :| 0 <= i < |p.kyberPreKeys| && p.kyberPreKeys[i] == x;
    StoredRow(t, u, 2, Phase(t.uploads[u].account, p, 2)[i]);
  }

  /** Over every run, each key in each of the four fields of a successful upload has its row, with the field's flags. */
  lemma UploadedIsStored(accounts: map<string, string>, es: seq<Event>, u: nat)
    requires u in Run(Initial(accounts), es).uploads && Run(Initial(accounts), es).uploads[u].outcome.Created?
    ensures var t := Run(Initial(accounts), es); var a, p := t.uploads[u].account, t.uploads[u].payload;
      (forall x :: x in p.preKeys ==> Stores(t, u, a, KeyOut(x.keyId, x.publicKey, None), false, false, false)) &&
      (p.signedPreKey.Some? ==>
        var x := p.signedPreKey.value;
        Stores(t, u, a, KeyOut(x.keyId, x.publicKey, Some(x.signature)), true, false, false)) &&
      (forall x :: x in p.kyberPreKeys ==>
        Stores(t, u, a, KeyOut(x.keyId, x.publicKey, Some(x.signature)), false, true, false)) &&
      (p.lastResort.Some? ==>
        var x := p.lastResort.value;
        Stores(t, u, a, KeyOut(x.keyId, x.publicKey, Some(x.signature)), false, true, true))
  {
    var t := Run(Initial(accounts), es);
    RunKeepsUploads(Initial(accounts), es);
    assert UploadOk(t, u);
    var a, p := t.uploads[u].account, t.uploads[u].payload;
    forall x | x in p.preKeys ensures Stores(t, u, a, KeyOut(x.keyId, x.publicKey, None), false, false, false) {
      PlainStored(t, u, x);
    }
    forall x | x in p.kyberPreKeys
      ensures Stores(t, u, a, KeyOut(x.keyId, x.publicKey, Some(x.signature)), false, true, false)
    {
      KyberStored(t, u, x);
    }
    if p.signedPreKey.Some? { StoredRow(t, u, 1, Phase(a, p, 1)[0]); }
    if p.lastResort.Some? { StoredRow(t, u, 3, Phase(a, p, 3)[0]); }
  }

  // --- From the requests that were made ---

  /** Event `i` starts request `u`, which uploads `p` for the account. */
  ghost predicate UploadedAt(s: System, es: seq<Event>, u: nat, account: string, p: Payload, i: nat) {
    i < |es| && es[i] == StartUpload(u, account, p) && u !in At(s, es, i).uploads
  }

  lemma UploadStep(s: System, e: Event, u: nat)
    requires u in Step(s, e).uploads
    ensures var up := Step(s, e).uploads[u];
      if u in s.uploads then up.account == s.uploads[u].account && up.payload == s.uploads[u].payload
      else e == StartUpload(u, up.account, up.payload)
  {
    if Enabled(s, e) {
      match e
      case StepFetch(pid) => EffectFetches(s, pid, s.fetches[pid]);
      case StepUpload(v) => UploadStays(s, v);
      case _ =>
    }
  }

  lemma {:induction false} UploadFrom(s: System, es: seq<Event>, u: nat, n: nat)
    requires u !in s.uploads && n <= |es| && u in At(s, es, n).uploads
    ensures var up := At(s, es, n).uploads[u];
      exists i: nat :: i < n && UploadedAt(s, es, u, up.account, up.payload, i)
    decreases n
  {
    assert n > 0;
    AtNext(s, es, n - 1);
    UploadStep(At(s, es, n - 1), es[n - 1], u);
    if u in At(s, es, n - 1).uploads {
      UploadFrom(s, es, u, n - 1);
    } else {
      assert UploadedAt(s, es, u, At(s, es, n).uploads[u].account, At(s, es, n).uploads[u].payload, n - 1);
    }
  }

  /** Event `i` starts request `pid`, which asks for the keys of the device. */
  ghost predicate AskedAt(s: System, es: seq<Event>, pid: nat, device: string, i: nat) {
    i < |es| && es[i] == StartFetch(pid, device) && pid !in At(s, es, i).fetches
  }

  lemma AskStep(s: System, e: Event, pid: nat)
    requires pid in Step(s, e).fetches
    ensures Step(s, e).accounts == s.accounts
    ensures var f := Step(s, e).fetches[pid];
      if pid in s.fetches then
        f.account == s.fetches[pid].account && (s.fetches[pid].stage.NotFound? ==> f.stage.NotFound?)
      else e.StartFetch? && e.pid == pid &&
           if e.device in s.accounts then f.account == s.accounts[e.device] else f.stage.NotFound?
  {
    if e.StepFetch? && Enabled(s, e) { EffectFetches(s, e.pid, s.fetches[e.pid]); }
  }

  lemma {:induction false} AccountsStay(s: System, es: seq<Event>)
    ensures Run(s, es).accounts == s.accounts
    decreases es
  {
    if es != [] {
      if es[0].StepFetch? && Enabled(s, es[0]) { EffectFetches(s, es[0].pid, s.fetches[es[0].pid]); }
      AccountsStay(Step(s, es[0]), es[1..]);
    }
  }

  /** The request is for the device's account, or the device has none. */
  predicate ForDevice(accounts: map<string, string>, device: string, f: Fetch) {
    if device in accounts then f.account == accounts[device] else f.stage.NotFound?
  }

  lemma StartAsks(s: System, es: seq<Event>, pid: nat, n: nat) returns (device: string)
    requires n < |es| && pid in At(s, es, n + 1).fetches && pid !in At(s, es, n).fetches
    ensures AskedAt(s, es, pid, device, n) && ForDevice(s.accounts, device, At(s, es, n + 1).fetches[pid])
  {
    AtNext(s, es, n);
    AccountsStay(s, es[..n]);
    AskStep(At(s, es, n), es[n], pid);
    device := es[n].device;
  }

  lemma StaysAsked(s: System, es: seq<Event>, pid: nat, device: string, n: nat)
    requires n < |es| && pid in At(s, es, n + 1).fetches && pid in At(s, es, n).fetches
    requires ForDevice(s.accounts, device, At(s, es, n).fetches[pid])
    ensures ForDevice(s.accounts, device, At(s, es, n + 1).fetches[pid])
  {
    AtNext(s, es, n);
    AskStep(At(s, es, n), es[n], pid);
  }

  lemma {:induction false} FetchFrom(s: System, es: seq<Event>, pid: nat, n: nat)
    requires pid !in s.fetches && n <= |es| && pid in At(s, es, n).fetches
    ensures exists i: nat, device :: i < n && AskedAt(s, es, pid, device, i) &&
              ForDevice(s.accounts, device, At(s, es, n).fetches[pid])
    decreases n
  {
    assert n > 0;
    if pid in At(s, es, n - 1).fetches {
      FetchFrom(s, es, pid, n - 1);
      var i: nat, device :| i < n - 1 && AskedAt(s, es, pid, device, i) &&
                            ForDevice(s.accounts, device, At(s, es, n - 1).fetches[pid]);
      StaysAsked(s, es, pid, device, n - 1);
    } else {
      var device := StartAsks(s, es, pid, n - 1);
    }
  }

  // --- What a bundle shows ---

  /** Some upload request for the account had the key in its field for one-time keys; and so on. */
  ghost predicate UploadedOneTime(s: System, es: seq<Event>, account: string, k: KeyOut) {
    exists i: nat, u, p :: UploadedAt(s, es, u, account, p, i) && OffersOneTime(p, k)
  }

  ghost predicate UploadedSigned(s: System, es: seq<Event>, account: string, k: KeyOut) {
    exists i: nat, u, p :: UploadedAt(s, es, u, account, p, i) && OffersSigned(p, k)
  }

  ghost predicate UploadedKyber(s: System, es: seq<Event>, account: string, k: KeyOut) {
    exists i: nat, u, p :: UploadedAt(s, es, u, account, p, i) && OffersKyber(p, k)
  }

  ghost predicate UploadedLastResort(s: System, es: seq<Event>, account: string, k: KeyOut) {
    exists i: nat, u, p :: UploadedAt(s, es, u, account, p, i) && OffersLastResort(p, k)
  }

  lemma RowUploaded(accounts: map<string, string>, es: seq<Event>, row: nat) returns (i: nat, u: nat, p: Payload)
    requires row < |Run(Initial(accounts), es).rows|
    ensures var r := Run(Initial(accounts), es).rows[row];
      UploadedAt(Initial(accounts), es, u, r.account, p, i) && FromPayload(r, p)
  {
    var s, t := Initial(accounts), Run(Initial(accounts), es);
    RowsAreUploaded(accounts, es, row);
    u := t.origin[row];
    assert es[..|es|] == es;
    UploadFrom(s, es, u, |es|);
    p := t.uploads[u].payload;
    i :| i < |es| && UploadedAt(s, es, u, t.uploads[u].account, p, i);
  }

  lemma KeyUploaded(accounts: map<string, string>, es: seq<Event>, row: nat)
    requires row < |Run(Initial(accounts), es).rows|
    ensures var s, r := Initial(accounts), Run(Initial(accounts), es).rows[row];
      (Has(r, OneTime) ==> UploadedOneTime(s, es, r.account, KeyOf(r))) &&
      (Has(r, SignedKey) ==> UploadedSigned(s, es, r.account, KeyOf(r))) &&
      (Has(r, KyberOneTime) ==> UploadedKyber(s, es, r.account, KeyOf(r))) &&
      (Has(r, LastResort) ==> UploadedLastResort(s, es, r.account, KeyOf(r)))
  {
    var i, u, p := RowUploaded(accounts, es, row);
  }

  /** The bundle answers a request for a device of the account with keys uploaded for that account. */
  ghost predicate Genuine(accounts: map<string, string>, es: seq<Event>, pid: nat, b: Bundle, lastResort: bool) {
    exists i: nat, device :: AskedAt(Initial(accounts), es, pid, device, i) && device in accounts &&
      var s, a := Initial(accounts), accounts[device];
      UploadedSigned(s, es, a, b.signed) &&
      (b.preKey.Some? ==> UploadedOneTime(s, es, a, b.preKey.value)) &&
      (b.kyberPreKey.Some? ==>
        if lastResort then UploadedLastResort(s, es, a, b.kyberPreKey.value)
        else UploadedKyber(s, es, a, b.kyberPreKey.value))
  }

  /**
   * Over every run, each key in a bundle is, with its id, public key and signature, one
   * that some client uploaded for the account of the device asked for, in the matching
   * field; the Kyber key is a last-resort one exactly if no one-time one was consumed.
   */
  lemma BundleGenuine(accounts: map<string, string>, es: seq<Event>, pid: nat)
    requires pid in Run(Initial(accounts), es).fetches
    requires Response(Run(Initial(accounts), es), Run(Initial(accounts), es).fetches[pid]).Some?
    ensures var t := Run(Initial(accounts), es); var f := t.fetches[pid];
      Genuine(accounts, es, pid, Response(t, f).value, f.kyber.None?)
  {
    var s, t := Initial(accounts), Run(Initial(accounts), es);
    var f := t.fetches[pid];
    InitialHolds(accounts);
    RunKeepsInv(s, es);
    BundleShowsClaims(s, es, pid);
    assert es[..|es|] == es;
    FetchFrom(s, es, pid, |es|);
    assert FetchOk(t, pid);
    KeyUploaded(accounts, es, f.signed.value);
    if f.oneTime.Some? { KeyUploaded(accounts, es, f.oneTime.value); }
    if f.kyber.Some? { KeyUploaded(accounts, es, f.kyber.value); }
    if f.lastResort.Some? { KeyUploaded(accounts, es, f.lastResort.value); }
  }
}
