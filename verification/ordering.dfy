/**
  The values a table column can be sorted on, and the order JavaScript's
  relational `<` puts on them: numbers by value, strings lexicographically,
  booleans with false before true. A single sort key always yields values of
  one kind; values of different kinds are ordered by kind only so that the
  order is total.
 */
module Ordering {
  import Strings

  datatype Field = Num(n: int) | Str(s: string) | Flag(b: bool)

  datatype Direction = Ascending | Descending

  function Rank(f: Field): nat {
    match f
    case Num(_) => 0
    case Str(_) => 1
    case Flag(_) => 2
  }

  /** `a < b` for two sort values. */
  predicate Less(a: Field, b: Field) {
    match (a, b)
    case (Num(x), Num(y)) => x < y
    case (Str(x), Str(y)) => Strings.Less(x, y)
    case (Flag(x), Flag(y)) => !x && y
    case _ => Rank(a) < Rank(b)
  }

  /** `Less` is a strict total order on sort values. */
  lemma LessStrictTotalOrder(a: Field, b: Field, c: Field)
    ensures !Less(a, a)
    ensures Less(a, b) ==> !Less(b, a)
    ensures Less(a, b) && Less(b, c) ==> Less(a, c)
    ensures a == b || Less(a, b) || Less(b, a)
  {
    if a.Str? {
      Strings.LessIrreflexive(a.s);
      if b.Str? {
        Strings.LessAsymmetric(a.s, b.s);
        Strings.LessTotal(a.s, b.s);
        if c.Str? {
          Strings.LessTransitive(a.s, b.s, c.s);
        }
      }
    }
  }

  /** The three-way comparison a comparator derives from `<` and `>`. */
  function Compare(a: Field, b: Field): (c: int)
    ensures c == 0 <==> a == b
    ensures c == -1 || c == 0 || c == 1
    ensures c < 0 <==> Less(a, b)
  {
    LessStrictTotalOrder(a, b, a);
    if Less(a, b) then -1 else if Less(b, a) then 1 else 0
  }

  lemma CompareAntisymmetric(a: Field, b: Field)
    ensures Compare(a, b) == -Compare(b, a)
  {
    LessStrictTotalOrder(a, b, a);
  }

  /** A comparison result as the sort sees it under the chosen direction. */
  function Directed(c: int, d: Direction): int {
    if d == Ascending then c else -c
  }

  /** `a` may stand before `b` in a list sorted in direction `d`. */
  predicate InOrder(a: Field, b: Field, d: Direction) {
    Directed(Compare(a, b), d) <= 0
  }

  /** `InOrder` is a total preorder whose equivalence is equality. */
  lemma InOrderTotalPreorder(a: Field, b: Field, c: Field, d: Direction)
    ensures InOrder(a, a, d)
    ensures InOrder(a, b, d) || InOrder(b, a, d)
    ensures InOrder(a, b, d) && InOrder(b, c, d) ==> InOrder(a, c, d)
    ensures InOrder(a, b, d) && InOrder(b, a, d) ==> a == b
  {
    LessStrictTotalOrder(a, b, c);
    LessStrictTotalOrder(c, b, a);
    LessStrictTotalOrder(a, c, b);
    LessStrictTotalOrder(b, a, c);
    CompareAntisymmetric(a, b);
    CompareAntisymmetric(b, c);
    CompareAntisymmetric(a, c);
  }
}
