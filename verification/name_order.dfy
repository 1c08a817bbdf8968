/**
 * Lexicographic code-point order on strings, standing in for the comparer `OrderBy(n => n)` uses,
 * and the least name of a non-empty list under it.
 */
module NameOrder {

  /** `a` sorts no later than `b`: compare code points left to right; a proper prefix sorts first. */
  predicate LexLe(a: string, b: string)
    decreases |a|
  {
    if |a| == 0 then true
    else if |b| == 0 then false
    else if a[0] != b[0] then a[0] < b[0]
    else LexLe(a[1..], b[1..])
  }

  lemma {:induction false} LexLeReflexive(a: string)
    ensures LexLe(a, a)
    decreases |a|
  {
    if |a| > 0 {
      LexLeReflexive(a[1..]);
    }
  }

  lemma {:induction false} LexLeTotal(a: string, b: string)
    ensures LexLe(a, b) || LexLe(b, a)
    decreases |a|
  {
    if |a| > 0 && |b| > 0 && a[0] == b[0] {
      LexLeTotal(a[1..], b[1..]);
    }
  }

  lemma {:induction false} LexLeAntisymmetric(a: string, b: string)
    requires LexLe(a, b) && LexLe(b, a)
    ensures a == b
    decreases |a|
  {
    if |a| > 0 && |b| > 0 {
      LexLeAntisymmetric(a[1..], b[1..]);
      assert a == [a[0]] + a[1..];
      assert b == [b[0]] + b[1..];
    }
  }

  lemma {:induction false} LexLeTransitive(a: string, b: string, c: string)
    requires LexLe(a, b) && LexLe(b, c)
    ensures LexLe(a, c)
    decreases |a|
  {
    if |a| > 0 && |b| > 0 && |c| > 0 && a[0] == b[0] && b[0] == c[0] {
      LexLeTransitive(a[1..], b[1..], c[1..]);
    }
  }

  /**
   * The name `OrderBy(n => n).FirstOrDefault()` selects from a non-empty list: a member of `names`
   * that sorts no later than any other.
   */
  function Least(names: seq<string>): (m: string)
    requires |names| > 0
    ensures m in names
    ensures forall n :: n in names ==> LexLe(m, n)
    decreases |names|
  {
    if |names| == 1 then
      LexLeReflexive(names[0]);
      names[0]
    else
      var rest := Least(names[1..]);
      LexLeReflexive(names[0]);
      if LexLe(names[0], rest) then
        assert forall n :: n in names[1..] ==> LexLe(names[0], n) by {
          forall n | n in names[1..]
            ensures LexLe(names[0], n)
          {
            LexLeTransitive(names[0], rest, n);
          }
        }
        assert forall n :: n in names ==> n == names[0] || n in names[1..];
        names[0]
      else
        LexLeTotal(names[0], rest);
        assert forall n :: n in names ==> n == names[0] || n in names[1..];
        rest
  }

  /** The least name depends only on which names occur, not on their order or repetition. */
  lemma LeastDependsOnlyOnNames(a: seq<string>, b: seq<string>)
    requires |a| > 0 && |b| > 0
    requires forall n :: n in a <==> n in b
    ensures Least(a) == Least(b)
  {
    LexLeAntisymmetric(Least(a), Least(b));
  }
}
