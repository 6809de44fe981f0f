/** Python's `sorted` on sets of path strings. */
module PathOrder {

  /** Code-point order on strings. */
  predicate Less(a: string, b: string) {
    b != "" && (a == "" || a[0] < b[0] || (a[0] == b[0] && Less(a[1..], b[1..])))
  }

  lemma {:induction false} LessTransitive(a: string, b: string, c: string)
    requires Less(a, b) && Less(b, c)
    ensures Less(a, c)
  {
    if a != "" && a[0] == b[0] == c[0] {
      LessTransitive(a[1..], b[1..], c[1..]);
    }
  }

  /** A prefix comes first, and otherwise the first difference decides. */
  lemma {:induction false} LessMeaning(a: string, b: string)
    ensures Less(a, b) <==>
              exists k :: 0 <= k <= |a| && k < |b| && a[..k] == b[..k] && (k == |a| || a[k] < b[k])
  {
    if a != "" && b != "" && a[0] == b[0] {
      LessMeaning(a[1..], b[1..]);
      if k :| 0 <= k <= |a[1..]| && k < |b[1..]| && a[1..][..k] == b[1..][..k]
              && (k == |a[1..]| || a[1..][k] < b[1..][k]) {
        assert a[..k + 1] == [a[0]] + a[1..][..k] && b[..k + 1] == [b[0]] + b[1..][..k];
      }
      if k :| 0 <= k <= |a| && k < |b| && a[..k] == b[..k] && (k == |a| || a[k] < b[k]) {
        assert k > 0;
        assert a[1..][..k - 1] == a[..k][1..] && b[1..][..k - 1] == b[..k][1..];
      }
    } else {
      assert a[..0] == b[..0];
      forall k | 0 < k <= |a| && k < |b|
        ensures a[..k] == b[..k] ==> a[0] == b[0]
      {
        assert a[..k][0] == a[0] && b[..k][0] == b[0];
      }
    }
  }

  lemma {:induction false} LessTotal(a: string, b: string)
    ensures !(Less(a, b) && Less(b, a))
    ensures a == b <==> !Less(a, b) && !Less(b, a)
  {
    if a != "" && b != "" && a[0] == b[0] {
      LessTotal(a[1..], b[1..]);
      assert a == [a[0]] + a[1..] && b == [b[0]] + b[1..];
    }
  }

  ghost predicate Increasing(r: seq<string>) {
    forall i, j :: 0 <= i < j < |r| ==> Less(r[i], r[j])
  }

  /** `r` is `sorted(s)`: strictly increasing, with exactly the members of `s`. */
  ghost predicate Sorts(r: seq<string>, s: set<string>) {
    Increasing(r) && forall x :: x in r <==> x in s
  }

  lemma {:induction false} SortsUnique(r: seq<string>, q: seq<string>, s: set<string>)
    requires Sorts(r, s) && Sorts(q, s)
    ensures r == q
  {
    assert r != [] ==> r[0] in r;
    assert q != [] ==> q[0] in q;
    if r != [] {
      SameFirst(r, q, s);
      SortsTail(r, s);
      SortsTail(q, s);
      SortsUnique(r[1..], q[1..], s - {r[0]});
      assert r == [r[0]] + r[1..] && q == [q[0]] + q[1..];
    }
  }

  lemma SameFirst(r: seq<string>, q: seq<string>, s: set<string>)
    requires Sorts(r, s) && Sorts(q, s) && r != [] && q != []
    ensures r[0] == q[0]
  {
    assert r[0] in q && q[0] in r;
    var i :| 0 <= i < |q| && q[i] == r[0];
    var j :| 0 <= j < |r| && r[j] == q[0];
    LessTotal(r[0], q[0]);
  }

  lemma SortsTail(r: seq<string>, s: set<string>)
    requires Sorts(r, s) && r != []
    ensures Sorts(r[1..], s - {r[0]})
  {
    forall x
      ensures x in r[1..] <==> x in s - {r[0]}
    {
      assert r == [r[0]] + r[1..];
      if x in r[1..] {
        var i :| 0 <= i < |r[1..]| && r[1..][i] == x;
        assert Less(r[0], r[i + 1]);
        LessTotal(x, x);
      }
    }
  }

  method Sort(s: set<string>) returns (r: seq<string>)
    ensures Sorts(r, s)
  {
    r := [];
    var todo := s;
    while todo != {}
      invariant todo <= s && Sorts(r, s - todo)
      decreases |todo|
    {
      var x :| x in todo;
      r := Insert(r, x, s - todo);
      todo := todo - {x};
      assert s - todo == s - (todo + {x}) + {x};
    }
    assert s - todo == s;
  }

  method Insert(r: seq<string>, x: string, ghost s: set<string>) returns (q: seq<string>)
    requires Sorts(r, s) && x !in s
    ensures Sorts(q, s + {x})
  {
    var k := 0;
    while k < |r| && Less(r[k], x)
      invariant 0 <= k <= |r|
      invariant forall i :: 0 <= i < k ==> Less(r[i], x)
    {
      k := k + 1;
    }
    q := r[..k] + [x] + r[k..];
    AboveFrom(r, x, s, k);
    hide Less;
    assert forall y :: y in q <==> y in r[..k] || y == x || y in r[k..];
    assert r == r[..k] + r[k..];
  }

  lemma AboveFrom(r: seq<string>, x: string, s: set<string>, k: nat)
    requires Sorts(r, s) && x !in s && k <= |r| && (k < |r| ==> !Less(r[k], x))
    ensures forall i :: k <= i < |r| ==> Less(x, r[i])
  {
    forall i | k <= i < |r|
      ensures Less(x, r[i])
    {
      assert r[k] in s;
      LessTotal(r[k], x);
      hide Less;
      if k < i {
        LessTransitive(x, r[k], r[i]);
      }
    }
  }
}
