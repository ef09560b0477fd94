/** Claims about whole runs of interleaved uploads, fetches and failures. */
module PreKeysRuns {
  import opened Common
  import opened PreKeys
  import opened PreKeysInvariant

  lemma InitialHolds(accounts: map<string, string>)
    ensures Inv(Initial(accounts))
  {}

  // --- At most once ---

  /** The one-time keys a request consumed, X3DH and Kyber, by account and key id. */
  function GivenOut(s: System, pid: nat): set<(string, nat)>
    requires pid in s.fetches
  {
    var f := s.fetches[pid];
    (if f.oneTime.Some? then {(f.account, ToKey(s, f.oneTime.value).keyId)} else {}) +
    (if f.kyber.Some? then {(f.account, ToKey(s, f.kyber.value).keyId)} else {})
  }

  lemma GivenRow(s: System, pid: nat, x: (string, nat)) returns (row: nat)
    requires Inv(s) && pid in s.fetches && x in GivenOut(s, pid)
    ensures row < |s.rows| && s.rows[row].account == x.0 && s.rows[row].keyId == x.1
    ensures row in s.claimant && s.claimant[row] == pid && s.rows[row].consumed
    ensures Has(s.rows[row], OneTime) || Has(s.rows[row], KyberOneTime)
  {
    var f := s.fetches[pid];
    assert FetchOk(s, pid);
    var first := f.oneTime.Some? && x == (f.account, ToKey(s, f.oneTime.value).keyId);
    row := if first then f.oneTime.value else f.kyber.value;
  }

  lemma UniqueRow(rows: seq<Row>, i: nat, j: nat)
    requires Unique(rows) && i < |rows| && j < |rows|
    requires rows[i].account == rows[j].account && rows[i].keyId == rows[j].keyId
    ensures i == j
  {}

  /** No one-time key is consumed for two requests, whatever the interleaving. */
  lemma AtMostOnce(s: System, es: seq<Event>, p: nat, q: nat, x: (string, nat))
    requires Inv(s)
    requires p in Run(s, es).fetches && q in Run(s, es).fetches
    requires x in GivenOut(Run(s, es), p) && x in GivenOut(Run(s, es), q)
    ensures p == q
  {
    RunKeepsInv(s, es);
    var t := Run(s, es);
    var i := GivenRow(t, p, x);
    var j := GivenRow(t, q, x);
    UniqueRow(t.rows, i, j);
  }

  /** The key shown is that row's: its id, its public key and its signature. */
  predicate Shows(t: System, row: Option<nat>, k: KeyOut) {
    row.Some? && row.value < |t.rows| &&
    k == KeyOut(t.rows[row.value].keyId, t.rows[row.value].publicKey, t.rows[row.value].signature)
  }

  /** The one-time keys a bundle shows are keys its own request consumed; any other Kyber key is a last-resort one. */
  lemma BundleShowsClaims(s: System, es: seq<Event>, pid: nat)
    requires Inv(s) && pid in Run(s, es).fetches && Response(Run(s, es), Run(s, es).fetches[pid]).Some?
    ensures var t := Run(s, es); var f := t.fetches[pid]; var b := Response(t, f).value;
      (b.preKey.Some? <==> f.oneTime.Some?) && (b.kyberPreKey.Some? <==> f.kyber.Some? || f.lastResort.Some?) &&
      (b.preKey.Some? ==>
        (f.account, b.preKey.value.keyId) in GivenOut(t, pid) && Shows(t, f.oneTime, b.preKey.value)) &&
      (f.kyber.Some? ==>
        (f.account, b.kyberPreKey.value.keyId) in GivenOut(t, pid) && Shows(t, f.kyber, b.kyberPreKey.value)) &&
      (f.lastResort.Some? ==>
        f.kyber.None? && RowIs(t, f.lastResort.value, f.account, LastResort, false) &&
        Shows(t, f.lastResort, b.kyberPreKey.value)) &&
      f.signed.Some? && RowIs(t, f.signed.value, f.account, SignedKey, false) && Shows(t, f.signed, b.signed)
  {
    RunKeepsInv(s, es);
    assert FetchOk(Run(s, es), pid);
  }

  /**
   * Over any run, two answered requests for one account never show the same X3DH
   * one-time key, and show the same Kyber key only if it is a last-resort one in both:
   * the rows whose keys they show differ, and so do the key ids.
   */
  lemma OneBundlePerKey(s: System, es: seq<Event>, p: nat, q: nat)
    requires Inv(s) && p != q && p in Run(s, es).fetches && q in Run(s, es).fetches
    requires Run(s, es).fetches[p].account == Run(s, es).fetches[q].account
    requires Response(Run(s, es), Run(s, es).fetches[p]).Some? && Response(Run(s, es), Run(s, es).fetches[q]).Some?
    ensures var t := Run(s, es);
      var b, c := Response(t, t.fetches[p]).value, Response(t, t.fetches[q]).value;
      var f, g := t.fetches[p], t.fetches[q];
      (b.preKey.Some? && c.preKey.Some? ==>
        b.preKey.value.keyId != c.preKey.value.keyId && f.oneTime != g.oneTime &&
        Shows(t, f.oneTime, b.preKey.value) && Shows(t, g.oneTime, c.preKey.value)) &&
      (f.kyber.Some? && g.kyber.Some? ==>
        f.kyber != g.kyber && Shows(t, f.kyber, b.kyberPreKey.value) && Shows(t, g.kyber, c.kyberPreKey.value)) &&
      (b.kyberPreKey.Some? && c.kyberPreKey.Some? && b.kyberPreKey.value.keyId == c.kyberPreKey.value.keyId ==>
        t.fetches[p].lastResort.Some? && t.fetches[q].lastResort.Some?)
  {
    RunKeepsInv(s, es);
    BundleShowsClaims(s, es, p);
    BundleShowsClaims(s, es, q);
    var t := Run(s, es);
    forall x | x in GivenOut(t, p) && x in GivenOut(t, q) ensures false { AtMostOnce(s, es, p, q, x); }
    var f, g := t.fetches[p], t.fetches[q];
    if f.kyber.Some? && g.kyber.None? && g.lastResort.Some? { ClaimApart(t, p, q); }
    if g.kyber.Some? && f.kyber.None? && f.lastResort.Some? { ClaimApart(t, q, p); }
  }

  /** A consumed Kyber key and a last-resort one of the same account have different ids. */
  lemma ClaimApart(t: System, p: nat, q: nat)
    requires Inv(t) && p in t.fetches && q in t.fetches && t.fetches[p].account == t.fetches[q].account
    requires t.fetches[p].kyber.Some? && t.fetches[q].lastResort.Some?
    ensures ToKey(t, t.fetches[p].kyber.value).keyId != ToKey(t, t.fetches[q].lastResort.value).keyId
  {
    assert FetchOk(t, p) && FetchOk(t, q);
    var i, j := t.fetches[p].kyber.value, t.fetches[q].lastResort.value;
    if t.rows[i].keyId == t.rows[j].keyId { UniqueRow(t.rows, i, j); }
  }

  lemma KeyStays(s: System, t: System, row: Option<nat>)
    requires RowsLater(s.rows, t.rows) && (row.Some? ==> row.value < |s.rows|)
    ensures ToKeyOption(t, row) == ToKeyOption(s, row)
    ensures row.Some? ==> ToKey(t, row.value) == ToKey(s, row.value)
  {
    if row.Some? { assert RowLater(s.rows[row.value], t.rows[row.value]); }
  }

  /** What was answered once stays the record of that request, so the above speaks of the whole run. */
  lemma ResponseStays(s: System, es: seq<Event>, pid: nat)
    requires Inv(s) && pid in s.fetches && Final(s.fetches[pid].stage)
    ensures pid in Run(s, es).fetches &&
            Response(Run(s, es), Run(s, es).fetches[pid]) == Response(s, s.fetches[pid]) &&
            GivenOut(Run(s, es), pid) == GivenOut(s, pid)
  {
    RunKeepsInv(s, es);
    var t, f := Run(s, es), s.fetches[pid];
    assert FetchOk(s, pid) && FetchLater(f, t.fetches[pid]);
    KeyStays(s, t, f.signed);
    KeyStays(s, t, f.oneTime);
    KeyStays(s, t, f.kyber);
    KeyStays(s, t, f.lastResort);
  }

  /** An upload that offers a key id consumed before is rejected, so no such id comes back. */
  lemma ConsumedIdRejected(s: System, es: seq<Event>, p: nat, x: (string, nat), u: nat, k: nat)
    requires Inv(s) && p in Run(s, es).fetches && x in GivenOut(Run(s, es), p)
    requires u in Run(s, es).uploads && Enabled(Run(s, es), StepUpload(u)) && Run(s, es).uploads[u].done < PHASES
    requires var up := Run(s, es).uploads[u]; var batch := Phase(up.account, up.payload, up.done);
      k < |batch| && (batch[k].account, batch[k].keyId) == x
    ensures var t := Run(s, es); var n := Step(t, StepUpload(u));
      n.uploads[u].outcome == Rejected && n.rows == t.rows
  {
    RunKeepsInv(s, es);
    var t := Run(s, es);
    var i := GivenRow(t, p, x);
    var batch := Phase(t.uploads[u].account, t.uploads[u].payload, t.uploads[u].done);
    Clash(t.rows, batch, i, k);
  }

  lemma Clash(rows: seq<Row>, batch: seq<Row>, i: nat, k: nat)
    requires i < |rows| && k < |batch| && rows[i].account == batch[k].account && rows[i].keyId == batch[k].keyId
    ensures !Unique(rows + batch)
  {
    var all := rows + batch;
    assert all[i] == rows[i] && all[|rows| + k] == batch[k];
  }

  // --- Every consumed key is accounted for ---

  /** The request consumed this row. */
  predicate Holds(f: Fetch, row: nat) {
    f.oneTime == Some(row) || f.kyber == Some(row)
  }

  /** The request that consumed row `row` goes on, failed, or was answered with a bundle showing it. */
  ghost predicate Accounted(t: System, row: nat, f: Fetch)
    requires row < |t.rows|
  {
    f.account == t.rows[row].account &&
    (f.stage.Failed? || !Final(f.stage) ||
     (f.stage.Answered? && Response(t, f).Some? &&
      if Has(t.rows[row], OneTime) then Response(t, f).value.preKey == Some(ToKey(t, row))
      else Response(t, f).value.kyberPreKey == Some(ToKey(t, row))))
  }

  lemma ClaimantAccounted(t: System, row: nat)
    requires Inv(t) && row < |t.rows| && t.rows[row].consumed
    ensures row in t.claimant && t.claimant[row] in t.fetches && Accounted(t, row, t.fetches[t.claimant[row]])
  {
    assert FetchOk(t, t.claimant[row]);
  }

  lemma HolderIsClaimant(t: System, row: nat, q: nat)
    requires Inv(t) && q in t.fetches && Holds(t.fetches[q], row)
    ensures row in t.claimant && t.claimant[row] == q
  {
    assert FetchOk(t, q);
  }

  /**
   * Over any run, a consumed row was consumed for one request, which is still in
   * progress, failed, or was answered with a bundle that shows exactly that key;
   * and every one-time key shown in a bundle is a consumed row of its request.
   */
  lemma ConsumedAccounted(s: System, es: seq<Event>, row: nat)
    requires Inv(s) && row < |Run(s, es).rows| && Run(s, es).rows[row].consumed
    ensures var t := Run(s, es);
      row in t.claimant && t.claimant[row] in t.fetches && Accounted(t, row, t.fetches[t.claimant[row]])
    ensures var t := Run(s, es);
      forall q :: q in t.fetches && Holds(t.fetches[q], row) ==> row in t.claimant && q == t.claimant[row]
  {
    RunKeepsInv(s, es);
    ClaimantAccounted(Run(s, es), row);
    forall q | q in Run(s, es).fetches && Holds(Run(s, es).fetches[q], row)
      ensures row in Run(s, es).claimant && q == Run(s, es).claimant[row]
    {
      HolderIsClaimant(Run(s, es), row, q);
    }
  }

  /** A consumed key reaches a client if and only if the request that consumed it was answered. */
  lemma DeliveredExact(s: System, es: seq<Event>, row: nat)
    requires Inv(s) && row < |Run(s, es).rows| && Run(s, es).rows[row].consumed
    ensures var t := Run(s, es);
      row in t.claimant && t.claimant[row] in t.fetches &&
      ((exists q :: q in t.fetches && Holds(t.fetches[q], row) && Response(t, t.fetches[q]).Some?) <==>
       t.fetches[t.claimant[row]].stage.Answered?)
  {
    RunKeepsInv(s, es);
    ConsumedAccounted(s, es, row);
    var t := Run(s, es);
    var q := t.claimant[row];
    assert FetchOk(t, q);
    assert Holds(t.fetches[q], row);
  }

  // --- What is never consumed ---

  lemma ConsumedOneTime(t: System, row: nat)
    requires Inv(t) && row < |t.rows| && t.rows[row].consumed
    ensures Has(t.rows[row], OneTime) || Has(t.rows[row], KyberOneTime)
  {
    assert row in t.claimant;
    assert FetchOk(t, t.claimant[row]);
  }

  lemma NotFoundClaimsNothing(t: System, row: nat, pid: nat)
    requires Inv(t) && row in t.claimant && pid in t.fetches && t.fetches[pid].stage.NotFound?
    ensures t.claimant[row] != pid
  {
    assert FetchOk(t, pid);
  }

  /** Signed and last-resort rows are never consumed, and a request that ends in 404 consumes nothing. */
  lemma LongLivedKept(s: System, es: seq<Event>, row: nat, pid: nat)
    requires Inv(s) && row < |Run(s, es).rows|
    ensures Has(Run(s, es).rows[row], SignedKey) || Has(Run(s, es).rows[row], LastResort) ==>
              !Run(s, es).rows[row].consumed
    ensures row in Run(s, es).claimant && pid in Run(s, es).fetches && Run(s, es).fetches[pid].stage.NotFound? ==>
              Run(s, es).claimant[row] != pid
  {
    RunKeepsInv(s, es);
    var t := Run(s, es);
    if t.rows[row].consumed { ConsumedOneTime(t, row); }
    if row in t.claimant && pid in t.fetches && t.fetches[pid].stage.NotFound? { NotFoundClaimsNothing(t, row, pid); }
  }

  // --- Conservation ---

  predicate InPool(r: Row, account: string, kind: Kind) {
    r.account == account && Has(r, kind)
  }

  function StoredRows(s: System, account: string, kind: Kind): set<nat> {
    set i: nat | i < |s.rows| && InPool(s.rows[i], account, kind)
  }

  function AvailableRows(s: System, account: string, kind: Kind): set<nat> {
    set i: nat | i < |s.rows| && InPool(s.rows[i], account, kind) && !s.rows[i].consumed
  }

  function ConsumedRows(s: System, account: string, kind: Kind): set<nat> {
    set i: nat | i < |s.rows| && InPool(s.rows[i], account, kind) && s.rows[i].consumed
  }

  predicate HasClaim(f: Fetch, account: string, kind: Kind) {
    f.account == account && if kind == OneTime then f.oneTime.Some? else f.kyber.Some?
  }

  /** The requests that took a key of the pool. */
  function Claimants(s: System, account: string, kind: Kind): set<nat> {
    set pid | pid in s.fetches && HasClaim(s.fetches[pid], account, kind)
  }

  lemma {:induction false} InjectiveSize(m: map<nat, nat>)
    requires forall x, y :: x in m && y in m && m[x] == m[y] ==> x == y
    ensures |m.Keys| == |m.Values|
    decreases |m.Keys|
  {
    if m.Keys == {} {
      assert m.Values == {};
    } else {
      var x :| x in m;
      var n := m - {x};
      assert n.Keys == m.Keys - {x};
      assert n.Values == m.Values - {m[x]} by {
        forall v | v in m.Values - {m[x]} ensures v in n.Values {
          var y :| y in m && m[y] == v;
          assert y in n;
        }
      }
      InjectiveSize(n);
    }
  }

  lemma ClaimantsMatch(s: System, account: string, kind: Kind)
    requires Inv(s) && (kind == OneTime || kind == KyberOneTime)
    ensures |Claimants(s, account, kind)| == |ConsumedRows(s, account, kind)|
  {
    var rows := ConsumedRows(s, account, kind);
    var m := map i | i in rows :: s.claimant[i];
    forall i | i in rows
      ensures m[i] in Claimants(s, account, kind)
      ensures (if kind == OneTime then s.fetches[m[i]].oneTime else s.fetches[m[i]].kyber) == Some(i)
    {
      assert FetchOk(s, m[i]);
    }
    forall pid | pid in Claimants(s, account, kind) ensures pid in m.Values {
      var f := s.fetches[pid];
      assert FetchOk(s, pid);
      var i := if kind == OneTime then f.oneTime.value else f.kyber.value;
      assert i in m && m[i] == pid;
    }
    assert m.Keys == rows && m.Values == Claimants(s, account, kind);
    InjectiveSize(m);
  }

  /** Rows ever stored in a one-time pool = rows still available + requests that took one. */
  lemma Conservation(s: System, es: seq<Event>, account: string, kind: Kind)
    requires Inv(s) && (kind == OneTime || kind == KyberOneTime)
    ensures var t := Run(s, es);
      |StoredRows(t, account, kind)| == |AvailableRows(t, account, kind)| + |Claimants(t, account, kind)|
  {
    RunKeepsInv(s, es);
    var t := Run(s, es);
    ClaimantsMatch(t, account, kind);
    assert StoredRows(t, account, kind) == AvailableRows(t, account, kind) + ConsumedRows(t, account, kind);
  }

  function Available(rows: seq<Row>, account: string): set<nat> {
    set i: nat | i < |rows| && InPool(rows[i], account, OneTime) && !rows[i].consumed
  }

  lemma AvailableLast(rows: seq<Row>, account: string)
    requires rows != []
    ensures var n := |rows| - 1; var last := InPool(rows[n], account, OneTime) && !rows[n].consumed;
      n !in Available(rows[..n], account) &&
      Available(rows, account) == Available(rows[..n], account) + if last then {n} else {}
  {
    var n := |rows| - 1;
    forall i: nat | i < n ensures rows[..n][i] == rows[i] {}
  }

  lemma {:induction false} CountIsSize(rows: seq<Row>, account: string)
    ensures CountAvailable(rows, account) == |Available(rows, account)|
  {
    if rows != [] {
      CountIsSize(rows[..|rows| - 1], account);
      AvailableLast(rows, account);
    }
  }

  /**
   * The count an upload reports is the number of X3DH one-time rows stored less
   * those consumed by requests; signed and Kyber rows have no part in it.
   */
  lemma ReportedCount(s: System, es: seq<Event>, u: nat)
    requires Inv(s) && u in Run(s, es).uploads
    requires Enabled(Run(s, es), StepUpload(u)) && Run(s, es).uploads[u].done == PHASES
    ensures var t := Run(s, es);
      var up, outcome := t.uploads[u], Step(t, StepUpload(u)).uploads[u].outcome;
      outcome.Created? && outcome.stored == |up.payload.preKeys| &&
      outcome.availablePreKeys + |Claimants(t, up.account, OneTime)| == |StoredRows(t, up.account, OneTime)|
  {
    var t := Run(s, es);
    Conservation(s, es, t.uploads[u].account, OneTime);
    CountIsSize(t.rows, t.uploads[u].account);
    assert AvailableRows(t, t.uploads[u].account, OneTime) == Available(t.rows, t.uploads[u].account);
  }
}
