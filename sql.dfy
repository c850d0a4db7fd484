/**
 * The few pieces of SQLite semantics the workshop store relies on:
 * nullable values, constraint errors, and the BINARY collation used by
 * ORDER BY and by comparisons between TEXT values.
 */
module Sql {

  /** A value that may be SQL NULL (or a JavaScript null/undefined bound as NULL). */
  datatype Option<+T> = None | Some(value: T)

  /** The outcome of a statement that may fail with a constraint error. */
  datatype Result<+T> = Ok(value: T) | Err(error: DbError)

  /** The constraint errors the schema can raise, naming the offending column
      as SQLite does ("table.column"). */
  datatype DbError =
    | NotNullFailed(column: string)
    | UniqueFailed(column: string)

  /** BINARY collation on TEXT: lexicographic comparison by code point,
      a proper prefix sorting first.  `TextLe(a, b)` is `a <= b` in SQL. */
  predicate TextLe(a: string, b: string)
  {
    |a| == 0 || (|b| > 0 && (a[0] < b[0] || (a[0] == b[0] && TextLe(a[1..], b[1..]))))
  }

  /** A common prefix does not change how two texts compare. */
  lemma {:induction false} TextLeCommonPrefix(p: string, a: string, b: string)
    requires TextLe(a, b)
    ensures TextLe(p + a, p + b)
  {
    if |p| > 0 {
      assert (p + a)[0] == p[0] == (p + b)[0];
      assert (p + a)[1..] == p[1..] + a && (p + b)[1..] == p[1..] + b;
      TextLeCommonPrefix(p[1..], a, b);
    } else {
      assert p + a == a && p + b == b;
    }
  }

  lemma {:induction false} TextLeReflexive(a: string)
    ensures TextLe(a, a)
  {
    if |a| > 0 {
      TextLeReflexive(a[1..]);
    }
  }

  lemma {:induction false} TextLeTotal(a: string, b: string)
    ensures TextLe(a, b) || TextLe(b, a)
  {
    if |a| > 0 && |b| > 0 && a[0] == b[0] {
      TextLeTotal(a[1..], b[1..]);
    }
  }

  lemma {:induction false} TextLeTransitive(a: string, b: string, c: string)
    requires TextLe(a, b) && TextLe(b, c)
    ensures TextLe(a, c)
  {
    if |a| > 0 && |b| > 0 && |c| > 0 && a[0] == b[0] && b[0] == c[0] {
      TextLeTransitive(a[1..], b[1..], c[1..]);
    }
  }

  lemma {:induction false} TextLeAntisymmetric(a: string, b: string)
    requires TextLe(a, b) && TextLe(b, a)
    ensures a == b
  {
    if |a| > 0 && |b| > 0 {
      TextLeAntisymmetric(a[1..], b[1..]);
      assert a == [a[0]] + a[1..];
      assert b == [b[0]] + b[1..];
    }
  }
}
