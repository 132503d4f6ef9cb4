/// The query shapes the handlers use on a table held as a sequence of rows:
/// `WHERE` (filter), `result[0]` (the first matching row), `ORDER BY key DESC`
/// and `LIMIT n`.
module Tables {
  import opened Common

  /** The position of the first row satisfying `keep`, if any: what `rows[0]` of a `WHERE` query reads. */
  function FirstIndex<T>(rows: seq<T>, keep: T -> bool): (r: Option<nat>)
    ensures r.Some? ==> r.value < |rows| && keep(rows[r.value])
    ensures r.Some? ==> forall j :: 0 <= j < r.value ==> !keep(rows[j])
    ensures r.None? <==> forall j :: 0 <= j < |rows| ==> !keep(rows[j])
  {
    if rows == [] then None
    else if keep(rows[0]) then Some(0)
    else match FirstIndex(rows[1..], keep)
      case None => None
      case Some(i) => Some(i + 1)
  }

  /** The rows satisfying `keep`, in table order: a `WHERE` query. */
  function Where<T(!new)>(rows: seq<T>, keep: T -> bool): (r: seq<T>)
    ensures |r| <= |rows|
    ensures forall x :: x in r <==> x in rows && keep(x)
    ensures forall i :: 0 <= i < |r| ==> keep(r[i])
    ensures forall x :: multiset(r)[x] == if keep(x) then multiset(rows)[x] else 0
  {
    if rows == [] then []
    else
      assert rows == [rows[0]] + rows[1..];
      if keep(rows[0]) then [rows[0]] + Where(rows[1..], keep)
      else Where(rows[1..], keep)
  }

  /** A row appended to a table with no match is the first match of the longer table. */
  lemma FirstIndexAppend<T>(rows: seq<T>, x: T, keep: T -> bool)
    requires FirstIndex(rows, keep).None? && keep(x)
    ensures FirstIndex(rows + [x], keep) == Some(|rows|)
  {
    var all := rows + [x];
    assert keep(all[|rows|]);
    forall j | 0 <= j < |rows| ensures !keep(all[j]) {
      assert all[j] == rows[j];
    }
  }

  /** A matching row with no match before it is the one FirstIndex finds. */
  lemma FirstIndexAt<T>(rows: seq<T>, k: nat, keep: T -> bool)
    requires k < |rows| && keep(rows[k])
    requires forall j :: 0 <= j < k ==> !keep(rows[j])
    ensures FirstIndex(rows, keep) == Some(k)
  {
  }

  ghost predicate SortedDesc<T>(s: seq<T>, key: T -> int) {
    forall i, j :: 0 <= i < j < |s| ==> key(s[i]) >= key(s[j])
  }

  function InsertDesc<T>(x: T, s: seq<T>, key: T -> int): (r: seq<T>)
    requires SortedDesc(s, key)
    ensures SortedDesc(r, key)
    ensures multiset(r) == multiset(s) + multiset{x}
    ensures |r| == |s| + 1
  {
    if s == [] then [x]
    else if key(x) >= key(s[0]) then [x] + s
    else
      var t := InsertDesc(x, s[1..], key);
      InsertDescHead(x, s, key, t);
      [s[0]] + t
  }

  lemma InsertDescHead<T>(x: T, s: seq<T>, key: T -> int, t: seq<T>)
    requires s != [] && SortedDesc(s, key) && key(x) < key(s[0])
    requires SortedDesc(t, key) && multiset(t) == multiset(s[1..]) + multiset{x}
    ensures SortedDesc([s[0]] + t, key)
    ensures multiset([s[0]] + t) == multiset(s) + multiset{x}
  {
    forall j | 0 <= j < |t| ensures key(s[0]) >= key(t[j]) {
      assert t[j] in multiset(t);
      if t[j] != x {
        assert t[j] in multiset(s[1..]);
        var k :| 0 <= k < |s[1..]| && s[1..][k] == t[j];
        assert s[k + 1] == t[j];
      }
    }
    assert s == [s[0]] + s[1..];
  }

  /** `ORDER BY key DESC`: the same rows, largest key first. */
  function SortDesc<T>(s: seq<T>, key: T -> int): (r: seq<T>)
    ensures SortedDesc(r, key)
    ensures multiset(r) == multiset(s)
    ensures |r| == |s|
  {
    if s == [] then []
    else
      assert s == [s[0]] + s[1..];
      InsertDesc(s[0], SortDesc(s[1..], key), key)
  }

  /** `LIMIT n`. */
  function Take<T>(s: seq<T>, n: nat): (r: seq<T>)
    ensures |r| == Min(n, |s|)
  {
    if |s| <= n then s else s[..n]
  }

  /** A limited, descending-sorted result keeps the largest keys: every row left out has a key
      no larger than any row kept. */
  lemma TakeKeepsLargest<T>(s: seq<T>, n: nat, key: T -> int)
    requires SortedDesc(s, key)
    ensures SortedDesc(Take(s, n), key)
    ensures multiset(Take(s, n)) <= multiset(s)
    ensures forall v :: v in multiset(s) - multiset(Take(s, n)) ==>
      forall i :: 0 <= i < |Take(s, n)| ==> key(v) <= key(Take(s, n)[i])
  {
    if |s| > n {
      var kept, rest := s[..n], s[n..];
      assert s == kept + rest;
      assert multiset(s) == multiset(kept) + multiset(rest);
      assert multiset(s) - multiset(kept) == multiset(rest);
      forall v | v in multiset(rest)
        ensures forall i :: 0 <= i < n ==> key(v) <= key(kept[i])
      {
        var j :| 0 <= j < |rest| && rest[j] == v;
        assert s[n + j] == v;
        forall i | 0 <= i < n ensures key(v) <= key(kept[i]) {
          assert kept[i] == s[i];
        }
      }
    }
  }
}
