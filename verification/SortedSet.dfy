/** A Redis sorted set: its members in ascending (score, member) order. */
module SortedSet {
  import opened Common

  datatype Ref = Ref(score: nat, id: string)

  predicate Before(a: Ref, b: Ref) {
    a.score < b.score || (a.score == b.score && Less(a.id, b.id))
  }

  ghost predicate Ordered(z: seq<Ref>) {
    forall i, j :: 0 <= i < j < |z| ==> Before(z[i], z[j])
  }

  ghost predicate Distinct(z: seq<Ref>) {
    forall i, j :: 0 <= i < j < |z| ==> z[i].id != z[j].id
  }

  ghost predicate WellFormed(z: seq<Ref>) {
    Ordered(z) && Distinct(z)
  }

  /** ZRANGEBYSCORE key -inf +inf */
  function Members(z: seq<Ref>): (ids: seq<string>)
    ensures |ids| == |z| && forall i :: 0 <= i < |z| ==> ids[i] == z[i].id
  {
    seq(|z|, i requires 0 <= i < |z| => z[i].id)
  }

  /** ZSCORE key id */
  function ScoreOf(z: seq<Ref>, id: string): (score: Option<nat>)
    ensures score.Some? ==> Ref(score.value, id) in z
    ensures score.None? ==> forall r :: r in z ==> r.id != id
  {
    if z == [] then None else if z[0].id == id then Some(z[0].score) else ScoreOf(z[1..], id)
  }

  /** ZREM key ids... */
  function Remove(z: seq<Ref>, ids: seq<string>): (r: seq<Ref>)
    ensures forall x :: x in r <==> x in z && x.id !in ids
  {
    if z == [] then []
    else
      assert z == [z[0]] + z[1..];
      if z[0].id in ids then Remove(z[1..], ids) else [z[0]] + Remove(z[1..], ids)
  }

  /** Places a reference before the first one that sorts after it. */
  function Insert(z: seq<Ref>, x: Ref): (r: seq<Ref>)
    ensures forall y :: y in r <==> y in z || y == x
  {
    if z == [] then [x]
    else if Before(x, z[0]) then [x] + z
    else
      assert z == [z[0]] + z[1..];
      [z[0]] + Insert(z[1..], x)
  }

  /** ZADD key score id: a member already present is moved to its new score. */
  function Add(z: seq<Ref>, score: nat, id: string): (r: seq<Ref>)
    ensures forall y :: y in r <==> (y in z && y.id != id) || y == Ref(score, id)
  {
    Insert(Remove(z, [id]), Ref(score, id))
  }

  lemma BeforeTransitive(a: Ref, b: Ref, c: Ref)
    requires Before(a, b) && Before(b, c)
    ensures Before(a, c)
  {
    if a.score == b.score == c.score { LessTransitive(a.id, b.id, c.id); }
  }

  lemma BeforeIrreflexive(a: Ref)
    ensures !Before(a, a)
  {
    LessIrreflexive(a.id);
  }

  lemma BeforeTotal(a: Ref, b: Ref)
    ensures a == b || Before(a, b) || Before(b, a)
  {
    LessTotal(a.id, b.id);
  }

  lemma {:induction false} RemoveKeepsOrder(z: seq<Ref>, ids: seq<string>)
    requires WellFormed(z)
    ensures WellFormed(Remove(z, ids))
  {
    if z != [] {
      var rest := Remove(z[1..], ids);
      RemoveKeepsOrder(z[1..], ids);
      if z[0].id !in ids {
        assert Remove(z, ids) == [z[0]] + rest;
        forall j | 0 <= j < |rest| ensures Before(z[0], rest[j]) && z[0].id != rest[j].id {
          assert rest[j] in rest && rest[j] in z[1..];
        }
      }
    }
  }

  lemma {:induction false} InsertKeepsOrder(z: seq<Ref>, x: Ref)
    requires WellFormed(z)
    requires forall y :: y in z ==> y.id != x.id
    ensures WellFormed(Insert(z, x))
  {
    if z != [] {
      if Before(x, z[0]) {
        forall y | y in z ensures Before(x, y) {
          if y != z[0] { BeforeTransitive(x, z[0], y); }
        }
      } else {
        BeforeTotal(x, z[0]);
        InsertKeepsOrder(z[1..], x);
        var r := Insert(z[1..], x);
        forall y | y in r ensures Before(z[0], y) && z[0].id != y.id {
          assert y in z[1..] || y == x;
        }
      }
    }
  }

  /** ZADD keeps the set ordered and its members distinct. */
  lemma AddKeepsOrder(z: seq<Ref>, score: nat, id: string)
    requires WellFormed(z)
    ensures WellFormed(Add(z, score, id))
  {
    RemoveKeepsOrder(z, [id]);
    InsertKeepsOrder(Remove(z, [id]), Ref(score, id));
  }

  lemma ScoreIs(z: seq<Ref>, i: nat)
    requires Distinct(z) && i < |z|
    ensures ScoreOf(z, z[i].id) == Some(z[i].score)
  {
    assert z[i] in z;
    var r := Ref(ScoreOf(z, z[i].id).value, z[i].id);
    assert r in z;
    var j :| 0 <= j < |z| && z[j] == r;
    assert i == j;
  }

  /** A listing names each member once, in ascending order of (score, member). */
  lemma ListingSorted(z: seq<Ref>)
    requires WellFormed(z)
    ensures forall id :: id in Members(z) <==> ScoreOf(z, id).Some?
    ensures forall i, j :: 0 <= i < j < |z| ==> Members(z)[i] != Members(z)[j]
    ensures forall i, j :: 0 <= i < j < |z| ==>
              ScoreOf(z, Members(z)[i]).Some? && ScoreOf(z, Members(z)[j]).Some? &&
              Before(Ref(ScoreOf(z, Members(z)[i]).value, Members(z)[i]),
                     Ref(ScoreOf(z, Members(z)[j]).value, Members(z)[j]))
  {
    forall i: nat | i < |z| ensures ScoreOf(z, Members(z)[i]) == Some(z[i].score) {
      ScoreIs(z, i);
    }
    forall id ensures id in Members(z) <==> ScoreOf(z, id).Some? {
      if ScoreOf(z, id).Some? {
        var k :| 0 <= k < |z| && z[k] == Ref(ScoreOf(z, id).value, id);
        assert Members(z)[k] == id;
      }
    }
  }
}
