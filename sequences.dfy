/** Generic facts about sequences used by several modules. */
module Sequences {
  /** No element occurs twice. */
  predicate Distinct<T(==)>(s: seq<T>) {
    forall i, j | 0 <= i < j < |s| :: s[i] != s[j]
  }

  /** Each element once, in order of first appearance (`Array.from(new Set(s))`). */
  function Dedup<T(==)>(s: seq<T>): (r: seq<T>)
    ensures Distinct(r)
    ensures forall i | 0 <= i < |r| :: r[i] in s
    ensures forall i | 0 <= i < |s| :: s[i] in r
    ensures |r| <= |s|
    decreases |s|
  {
    if s == [] then []
    else
      var init := Dedup(s[..|s| - 1]);
      var last := s[|s| - 1];
      assert forall i | 0 <= i < |s| - 1 :: s[i] == s[..|s| - 1][i];
      if last in init then init else init + [last]
  }

  /** A sequence without repeats is its own `Dedup`. */
  lemma {:induction false} DedupOfDistinct<T>(s: seq<T>)
    requires Distinct(s)
    ensures Dedup(s) == s
    decreases |s|
  {
    if s != [] {
      var init := s[..|s| - 1];
      assert Distinct(init) by {
        forall i, j | 0 <= i < j < |init| ensures init[i] != init[j] {
          assert init[i] == s[i] && init[j] == s[j];
        }
      }
      DedupOfDistinct(init);
      forall k | 0 <= k < |init| ensures init[k] != s[|s| - 1] {
        assert init[k] == s[k];
      }
      assert init + [s[|s| - 1]] == s;
    }
  }

  /** One more element: `Dedup` appends it unless it is already there. */
  lemma DedupSnoc<T>(s: seq<T>, x: T)
    ensures Dedup(s + [x]) == if x in Dedup(s) then Dedup(s) else Dedup(s) + [x]
  {
    assert (s + [x])[..|s|] == s;
  }

  /**
   * A query's `.in(column, ids)` filter: the rows whose `key` is one of
   * `ids`, in table order.
   */
  function Within<T(==)>(rows: seq<T>, key: T -> string, ids: seq<string>): (r: seq<T>)
    ensures forall x | x in r :: x in rows && key(x) in ids
    ensures forall x | x in rows && key(x) in ids :: x in r
  {
    if rows == [] then []
    else (if key(rows[0]) in ids then [rows[0]] else []) + Within(rows[1..], key, ids)
  }

  /** Filtering by no ids keeps no row. */
  lemma WithinNothing<T>(rows: seq<T>, key: T -> string)
    ensures Within(rows, key, []) == []
  {
  }
}
