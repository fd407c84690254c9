/**
 * The values a table column holds and the part of the history pages'
 * comparators they share: strings compare by `localeCompare`, numbers by
 * subtraction, each the other way round when the column is sorted descending.
 */
module Columns {
  import Text
  import opened Wrappers

  /** The value a sort key reads from a record: `undefined`, a string or a number. */
  datatype Field = Absent | Text(s: string) | Number(n: int)

  /** A table's sort direction. */
  datatype Direction = Asc | Desc

  function StringField(o: Option<string>): (v: Field)
    ensures v.Absent? <==> o.None?
    ensures !v.Number?
  {
    match o
    case Some(s) => Text(s)
    case None => Absent
  }

  function NumberField(o: Option<int>): (v: Field)
    ensures v.Absent? <==> o.None?
    ensures !v.Text?
  {
    match o
    case Some(n) => Number(n)
    case None => Absent
  }

  /** Values of one column: never a string against a number. */
  predicate Comparable(x: Field, y: Field) {
    !(x.Text? && y.Number?) && !(x.Number? && y.Text?)
  }

  /**
   * The comparators' branches for two present values: `localeCompare` for two
   * strings, subtraction for two numbers, arguments swapped for `desc`, and 0
   * for anything else.
   */
  function ComparePresent(x: Field, y: Field, d: Direction): int {
    if x.Text? && y.Text? then
      (if d == Asc then Text.LexCompare(x.s, y.s) else Text.LexCompare(y.s, x.s))
    else if x.Number? && y.Number? then
      (if d == Asc then x.n - y.n else y.n - x.n)
    else 0
  }

  /** Swapping the arguments negates the result, and `desc` is `asc` with the arguments swapped. */
  lemma ComparePresentAntisymmetric(x: Field, y: Field, d: Direction)
    ensures ComparePresent(y, x, d) == -ComparePresent(x, y, d)
    ensures ComparePresent(x, y, Desc) == ComparePresent(y, x, Asc)
  {
    if x.Text? && y.Text? {
      Text.LexAntisymmetric(x.s, y.s);
    }
  }

  /** Within one column, `ComparePresent(_, _) <= 0` is transitive. */
  lemma ComparePresentTransitive(x: Field, y: Field, z: Field, d: Direction)
    requires !x.Absent? && !y.Absent? && !z.Absent?
    requires Comparable(x, y) && Comparable(y, z)
    requires ComparePresent(x, y, d) <= 0 && ComparePresent(y, z, d) <= 0
    ensures ComparePresent(x, z, d) <= 0
  {
    if x.Text? {
      if d == Asc {
        Text.LexTransitive(x.s, y.s, z.s);
      } else {
        Text.LexTransitive(z.s, y.s, x.s);
      }
    }
  }
}
