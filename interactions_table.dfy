/**
 * The `interactions` table as the comment, like and favourites routes use
 * it: rows appended by an insert, removed by a delete with equality filters.
 */
module InteractionsTable {
  import opened Wrappers
  import opened SupabaseStore

  /** One row; `createdAt` is the database's insertion time in milliseconds. */
  datatype Row = Row(id: string, entityId: string, entityType: EntityType, kind: InteractionKind,
                     userId: string, content: Option<string>, ipHash: string, userAgent: string, createdAt: int)

  /** The rows that a delete filtered by `matches` leaves, in order. */
  function Without(rows: seq<Row>, matches: Row -> bool): (r: seq<Row>)
    ensures |r| <= |rows|
    ensures forall x | x in r :: x in rows && !matches(x)
    ensures forall x | x in rows && !matches(x) :: x in r
  {
    if rows == [] then []
    else (if matches(rows[0]) then [] else [rows[0]]) + Without(rows[1..], matches)
  }

  /** A delete can be split at any point of the table. */
  lemma {:induction false} WithoutAppend(a: seq<Row>, b: seq<Row>, matches: Row -> bool)
    ensures Without(a + b, matches) == Without(a, matches) + Without(b, matches)
  {
    if a != [] {
      assert (a + b)[1..] == a[1..] + b;
      WithoutAppend(a[1..], b, matches);
    } else {
      assert a + b == b;
    }
  }

  /** A delete that matches no row leaves the table as it is. */
  lemma {:induction false} WithoutNothing(rows: seq<Row>, matches: Row -> bool)
    requires forall i | 0 <= i < |rows| :: !matches(rows[i])
    ensures Without(rows, matches) == rows
  {
    if rows != [] {
      WithoutNothing(rows[1..], matches);
    }
  }

  class Interactions {
    var rows: seq<Row>

    constructor(rows: seq<Row>)
      ensures this.rows == rows
    {
      this.rows := rows;
    }

    /** `insert`: one row more, at the end. */
    method Insert(row: Row)
      modifies this
      ensures rows == old(rows) + [row]
    {
      rows := rows + [row];
    }

    /** `delete()` with equality filters: every matching row goes, the others stay in order. */
    method Delete(matches: Row -> bool)
      modifies this
      ensures rows == Without(old(rows), matches)
      ensures forall x | x in rows :: !matches(x)
    {
      rows := Without(rows, matches);
    }
  }
}
