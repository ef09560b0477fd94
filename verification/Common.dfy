/** Small value types and string helpers shared by every model. */
module Common {
  datatype Option<+T> = None | Some(value: T)

  function Fill<T>(x: T, n: nat): (r: seq<T>)
    ensures |r| == n && forall i :: 0 <= i < n ==> r[i] == x
  {
    seq(n, _ => x)
  }

  /** Byte order of two texts, as Redis orders the members of a sorted set. */
  predicate Less(a: string, b: string) {
    if b == "" then false
    else if a == "" then true
    else a[0] < b[0] || (a[0] == b[0] && Less(a[1..], b[1..]))
  }

  /** The texts first differ at `i`, where `a` has the lesser character. */
  predicate FirstLess(a: string, b: string, i: nat) {
    i < |a| && i < |b| && a[..i] == b[..i] && a[i] < b[i]
  }

  lemma FirstLessTail(a: string, b: string, i: nat)
    requires a != "" && b != "" && a[0] == b[0]
    ensures FirstLess(a[1..], b[1..], i) <==> FirstLess(a, b, i + 1)
  {
    if i < |a| - 1 && i < |b| - 1 {
      assert a[..i + 1] == [a[0]] + a[1..][..i] && b[..i + 1] == [b[0]] + b[1..][..i];
      assert a[..i + 1][1..] == a[1..][..i] && b[..i + 1][1..] == b[1..][..i];
    }
  }

  lemma FirstLessHead(a: string, b: string, i: nat)
    requires a != "" && b != "" && a[0] != b[0]
    ensures FirstLess(a, b, i) <==> i == 0 && a[0] < b[0]
  {
    if 0 < i < |a| && i < |b| { assert a[..i][0] == a[0] && b[..i][0] == b[0]; }
  }

  /** A text is less than another if it is a proper beginning of it, or has the lesser character where they differ. */
  lemma {:induction false} LessExact(a: string, b: string)
    ensures Less(a, b) <==> (a <= b && a != b) || exists i: nat :: FirstLess(a, b, i)
  {
    if a != "" && b != "" {
      if a[0] == b[0] {
        LessExact(a[1..], b[1..]);
        assert a == [a[0]] + a[1..] && b == [b[0]] + b[1..];
        forall i: nat ensures FirstLess(a[1..], b[1..], i) <==> FirstLess(a, b, i + 1) { FirstLessTail(a, b, i); }
        assert (exists i: nat :: FirstLess(a, b, i)) <==> exists i: nat :: FirstLess(a[1..], b[1..], i) by {
          if i: nat :| FirstLess(a, b, i) { assert FirstLess(a[1..], b[1..], i - 1); }
        }
      } else {
        forall i: nat ensures FirstLess(a, b, i) <==> i == 0 && a[0] < b[0] { FirstLessHead(a, b, i); }
        assert FirstLess(a, b, 0) <==> a[0] < b[0];
      }
    }
  }

  lemma {:induction false} LessIrreflexive(a: string)
    ensures !Less(a, a)
  {
    if a != "" { LessIrreflexive(a[1..]); }
  }

  lemma {:induction false} LessTransitive(a: string, b: string, c: string)
    requires Less(a, b) && Less(b, c)
    ensures Less(a, c)
  {
    if a != "" && a[0] == b[0] && b[0] == c[0] { LessTransitive(a[1..], b[1..], c[1..]); }
  }

  lemma {:induction false} LessTotal(a: string, b: string)
    ensures a == b || Less(a, b) || Less(b, a)
  {
    if a != "" && b != "" && a[0] == b[0] {
      LessTotal(a[1..], b[1..]);
      assert a == [a[0]] + a[1..] && b == [b[0]] + b[1..];
    }
  }
}
