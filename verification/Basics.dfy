/** Small definitions that several modules share. */
module Basics {

  datatype Option<+T> = None | Some(value: T)

  function Max(a: int, b: int): int {
    if a > b then a else b
  }

  function Min(a: int, b: int): int {
    if a < b then a else b
  }

  /** `a || b` on a number in JavaScript: 0 counts as not given. */
  function Or(a: int, b: int): int {
    if a == 0 then b else a
  }

  /** `part in s` in Python, `s.includes(part)` in JavaScript. */
  predicate Includes(s: string, part: string) {
    part <= s || (s != "" && Includes(s[1..], part))
  }

  /** The part starts at some position. */
  lemma {:induction false} IncludesMeaning(s: string, part: string)
    ensures Includes(s, part) <==> exists i :: 0 <= i <= |s| && part <= s[i..]
  {
    if part <= s {
      assert part <= s[0..];
    } else if s != "" {
      IncludesMeaning(s[1..], part);
      if i :| 0 <= i <= |s[1..]| && part <= s[1..][i..] {
        assert s[1..][i..] == s[i + 1..];
      }
      if i :| 0 <= i <= |s| && part <= s[i..] {
        assert i > 0 && s[i..] == s[1..][i - 1..];
      }
    } else {
      forall i | 0 <= i <= |s|
        ensures s[i..] == s
      {
      }
    }
  }

  lemma {:induction false} SubsetSize<T>(a: set<T>, b: set<T>)
    requires a <= b
    ensures |a| <= |b|
  {
    if a != {} {
      var x :| x in a;
      SubsetSize(a - {x}, b - {x});
    }
  }
}
