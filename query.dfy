/**
 * The relational operations the finders are built from, over a table held as
 * a sequence of rows: `WHERE` (Filter), `ORDER BY ... DESC` (SortDesc),
 * `ORDER BY ... LIMIT 1` in either direction (Greatest, Least) and a bare
 * `LIMIT 1` (FindFirst).
 *
 * SQL leaves the order of rows with equal sort keys unspecified, and a bare
 * `LIMIT 1` may return any qualifying row. The functions below make one choice
 * each, but their contracts promise only what SQL promises, so that every
 * property proved from them holds whichever row the database picks.
 */
module Query {
  import opened Wrappers

  // ---------------------------------------------------------------------------
  // WHERE
  // ---------------------------------------------------------------------------

  /** The rows satisfying `p`, each as often as the table holds it (in table order). */
  function Filter<T(!new)>(rows: seq<T>, p: T -> bool): (r: seq<T>)
    ensures forall x :: multiset(r)[x] == if p(x) then multiset(rows)[x] else 0
    ensures forall x :: x in r <==> x in rows && p(x)
  {
    if rows == [] then []
    else
      assert rows == [rows[0]] + rows[1..];
      (if p(rows[0]) then [rows[0]] else []) + Filter(rows[1..], p)
  }

  // ---------------------------------------------------------------------------
  // ORDER BY key DESC
  // ---------------------------------------------------------------------------

  /** Sorted on `key`, largest first; rows with equal keys may come in any order. */
  ghost predicate NonIncreasing<T>(s: seq<T>, key: T -> int) {
    forall i, j :: 0 <= i < j < |s| ==> key(s[i]) >= key(s[j])
  }

  /** `x` placed into a sequence already sorted largest first. */
  function InsertDesc<T>(x: T, s: seq<T>, key: T -> int): (r: seq<T>)
    requires NonIncreasing(s, key)
    ensures multiset(r) == multiset(s) + multiset{x}
    ensures NonIncreasing(r, key)
    ensures |r| == |s| + 1 && (r[0] == x || (s != [] && r[0] == s[0]))
  {
    if s == [] || key(s[0]) <= key(x) then
      PrependKeepsOrder(x, s, key);
      [x] + s
    else
      assert s == [s[0]] + s[1..];
      var tail := InsertDesc(x, s[1..], key);
      PrependKeepsOrder(s[0], tail, key);
      [s[0]] + tail
  }

  /** A row whose key is at least that of a sorted sequence's head may go in front of it. */
  lemma PrependKeepsOrder<T>(x: T, s: seq<T>, key: T -> int)
    requires NonIncreasing(s, key)
    requires s != [] ==> key(x) >= key(s[0])
    ensures NonIncreasing([x] + s, key)
  {
    var r := [x] + s;
    forall i, j | 0 <= i < j < |r| ensures key(r[i]) >= key(r[j]) {
      if i == 0 {
        assert r[j] == s[j - 1];
        assert key(s[0]) >= key(s[j - 1]);
      } else {
        assert r[i] == s[i - 1] && r[j] == s[j - 1];
      }
    }
  }

  /** The rows of `s` rearranged largest key first. */
  function SortDesc<T>(s: seq<T>, key: T -> int): (r: seq<T>)
    ensures multiset(r) == multiset(s)
    ensures NonIncreasing(r, key)
  {
    if s == [] then []
    else
      assert s == [s[0]] + s[1..];
      InsertDesc(s[0], SortDesc(s[1..], key), key)
  }

  // ---------------------------------------------------------------------------
  // ORDER BY major, minor ... LIMIT 1
  // ---------------------------------------------------------------------------

  /** Strict lexicographic order on (major, minor) sort keys. */
  predicate LexLess(a: (int, int), b: (int, int)) {
    a.0 < b.0 || (a.0 == b.0 && a.1 < b.1)
  }

  /** `ORDER BY major DESC, minor DESC LIMIT 1`: a row no other row's key exceeds. */
  function Greatest<T(!new)>(rows: seq<T>, key: T -> (int, int)): (r: Option<T>)
    ensures r.None? <==> rows == []
    ensures r.Some? ==> r.value in rows && forall x :: x in rows ==> !LexLess(key(r.value), key(x))
  {
    if rows == [] then None
    else
      assert forall x :: x in rows ==> x == rows[0] || x in rows[1..];
      match Greatest(rows[1..], key)
      case None => Some(rows[0])
      case Some(m) => if LexLess(key(rows[0]), key(m)) then Some(m) else Some(rows[0])
  }

  /** `ORDER BY major ASC, minor ASC LIMIT 1`: a row whose key exceeds no other row's. */
  function Least<T(!new)>(rows: seq<T>, key: T -> (int, int)): (r: Option<T>)
    ensures r.None? <==> rows == []
    ensures r.Some? ==> r.value in rows && forall x :: x in rows ==> !LexLess(key(x), key(r.value))
  {
    if rows == [] then None
    else
      assert forall x :: x in rows ==> x == rows[0] || x in rows[1..];
      match Least(rows[1..], key)
      case None => Some(rows[0])
      case Some(m) => if LexLess(key(m), key(rows[0])) then Some(m) else Some(rows[0])
  }

  // ---------------------------------------------------------------------------
  // LIMIT 1 without ORDER BY
  // ---------------------------------------------------------------------------

  /** Some row satisfying `p`, if there is one. */
  function FindFirst<T(!new)>(rows: seq<T>, p: T -> bool): (r: Option<T>)
    ensures r.Some? ==> r.value in rows && p(r.value)
    ensures r.None? <==> forall x :: x in rows ==> !p(x)
  {
    if rows == [] then None
    else if p(rows[0]) then Some(rows[0])
    else
      assert forall x :: x in rows ==> x == rows[0] || x in rows[1..];
      FindFirst(rows[1..], p)
  }

  // ---------------------------------------------------------------------------
  // Comparing query results row by row
  // ---------------------------------------------------------------------------

  /** Two results that hold every row equally often hold the same rows. */
  lemma MultisetExt<T>(a: multiset<T>, b: multiset<T>)
    requires forall x :: a[x] == b[x]
    ensures a == b
  {
  }
}
