/** ORDER BY one text column, under whatever collation the database uses. */
module Ordering {

  type Collation = (string, string) -> bool

  ghost predicate Total(le: Collation) {
    && (forall a, b :: le(a, b) || le(b, a))
    && (forall a, b, c :: le(a, b) && le(b, c) ==> le(a, c))
  }

  /** The rows in order: no row's column is greater than a later one's. */
  ghost predicate OrderedBy<T(!new)>(rows: seq<T>, column: T -> string, le: Collation) {
    forall i, j | 0 <= i < j < |rows| :: le(column(rows[i]), column(rows[j]))
  }

  function Insert<T>(x: T, rows: seq<T>, column: T -> string, le: Collation): seq<T> {
    if rows == [] || le(column(x), column(rows[0])) then [x] + rows
    else [rows[0]] + Insert(x, rows[1..], column, le)
  }

  function OrderBy<T>(rows: seq<T>, column: T -> string, le: Collation): seq<T> {
    if rows == [] then [] else Insert(rows[0], OrderBy(rows[1..], column, le), column, le)
  }

  lemma {:induction false} InsertKeeps<T>(x: T, rows: seq<T>, column: T -> string, le: Collation)
    ensures multiset(Insert(x, rows, column, le)) == multiset(rows) + multiset{x}
  {
    if rows != [] && !le(column(x), column(rows[0])) {
      InsertKeeps(x, rows[1..], column, le);
      assert rows == [rows[0]] + rows[1..];
    }
  }

  lemma {:induction false} InsertOrdered<T(!new)>(x: T, rows: seq<T>, column: T -> string, le: Collation)
    requires Total(le) && OrderedBy(rows, column, le)
    ensures OrderedBy(Insert(x, rows, column, le), column, le)
  {
    if rows != [] && !le(column(x), column(rows[0])) {
      var rest := Insert(x, rows[1..], column, le);
      InsertOrdered(x, rows[1..], column, le);
      InsertKeeps(x, rows[1..], column, le);
      forall j | 0 <= j < |rest| ensures le(column(rows[0]), column(rest[j])) {
        assert rest[j] in multiset(rest);
        assert rest[j] == x || rest[j] in rows[1..];
      }
    }
  }

  /** Exactly the rows, in order. */
  lemma {:induction false} OrderByOrders<T(!new)>(rows: seq<T>, column: T -> string, le: Collation)
    requires Total(le)
    ensures multiset(OrderBy(rows, column, le)) == multiset(rows)
    ensures OrderedBy(OrderBy(rows, column, le), column, le)
  {
    if rows != [] {
      OrderByOrders(rows[1..], column, le);
      InsertKeeps(rows[0], OrderBy(rows[1..], column, le), column, le);
      InsertOrdered(rows[0], OrderBy(rows[1..], column, le), column, le);
      assert rows == [rows[0]] + rows[1..];
    }
  }
}
