/** The order in which Python sorts strings: lexicographic, by code point. */
module Names {

  predicate Before(a: string, b: string) {
    b != "" && (a == "" || a[0] < b[0] || (a[0] == b[0] && Before(a[1..], b[1..])))
  }

  lemma {:induction false} BeforeIrreflexive(a: string)
    ensures !Before(a, a)
  {
    if a != "" {
      BeforeIrreflexive(a[1..]);
    }
  }

  lemma {:induction false} BeforeTotal(a: string, b: string)
    requires a != b
    ensures Before(a, b) || Before(b, a)
  {
    if a != "" && b != "" && a[0] == b[0] {
      assert a == [a[0]] + a[1..] && b == [b[0]] + b[1..];
      BeforeTotal(a[1..], b[1..]);
    }
  }

  lemma {:induction false} BeforeTransitive(a: string, b: string, c: string)
    requires Before(a, b) && Before(b, c)
    ensures Before(a, c)
  {
    if a != "" && a[0] == b[0] && b[0] == c[0] {
      BeforeTransitive(a[1..], b[1..], c[1..]);
    }
  }

  lemma {:induction false} BeforeAsymmetric(a: string, b: string)
    requires Before(a, b)
    ensures !Before(b, a)
  {
    if Before(b, a) {
      BeforeTransitive(a, b, a);
      BeforeIrreflexive(a);
    }
  }

  /** `s` lists its strings in sorted order, each once. */
  ghost predicate Sorted(s: seq<string>) {
    forall i, j :: 0 <= i < j < |s| ==> Before(s[i], s[j])
  }

  /** A non-empty set of names has a least one. */
  lemma {:induction false} Least(names: set<string>) returns (n: string)
    requires names != {}
    ensures n in names && forall m :: m in names && m != n ==> Before(n, m)
    decreases |names|
  {
    n :| n in names;
    var rest := names - {n};
    if rest != {} {
      var k := Least(rest);
      if Before(k, n) {
        n := k;
      } else {
        BeforeTotal(n, k);
        forall m | m in rest && m != k ensures Before(n, m) {
          BeforeTransitive(n, k, m);
        }
      }
    }
  }

  function InsertName(n: string, s: seq<string>): (r: seq<string>)
    requires Sorted(s) && n !in s
    ensures Sorted(r) && forall m :: m in r <==> m == n || m in s
  {
    if s == [] then [n]
    else if Before(n, s[0]) then
      assert forall i :: 0 < i < |s| ==> Before(n, s[i]) by {
        forall i | 0 < i < |s| ensures Before(n, s[i]) {
          BeforeTransitive(n, s[0], s[i]);
        }
      }
      [n] + s
    else
      BeforeTotal(n, s[0]);
      var rest := InsertName(n, s[1..]);
      assert forall m :: m in rest ==> Before(s[0], m) by {
        assert forall m :: m in rest ==> m == n || m in s[1..];
      }
      assert s == [s[0]] + s[1..];
      [s[0]] + rest
  }

  /** Python's `sorted` of distinct names. */
  method SortNames(names: set<string>) returns (s: seq<string>)
    ensures Sorted(s) && forall n :: n in s <==> n in names
  {
    s := [];
    var rest := names;
    while rest != {}
      invariant rest <= names && Sorted(s) && forall n :: n in s <==> n in names - rest
      decreases rest
    {
      var n :| n in rest;
      s := InsertName(n, s);
      rest := rest - {n};
    }
  }
}
