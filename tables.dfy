/**
 * In-memory stand-in for a relational table with an auto-increment primary key.
 * Row ids start at 1 and grow with each insert, so a higher id means a later
 * insert; "ORDER BY created_at DESC" is modelled as descending id.
 */
module Tables {
  import opened Wrappers

  type Id = nat

  datatype Table<T> = Table(rows: map<Id, T>, next: Id) {

    /** Every row id was handed out by the auto-increment counter. */
    predicate Valid() {
      next >= 1 && forall id :: id in rows ==> 1 <= id < next
    }

    /** `INSERT`: the new row gets the next id. */
    function Insert(row: T): (t: Table<T>)
      ensures t.rows == rows[next := row] && t.next == next + 1
      ensures Valid() ==> t.Valid() && next !in rows
    {
      Table(rows[next := row], next + 1)
    }

    /** `UPDATE ... WHERE id = ?`: a no-op when no row has that id. */
    function Update(id: Id, row: T): (t: Table<T>)
      ensures id in rows ==> t.rows == rows[id := row]
      ensures id !in rows ==> t == this
      ensures Valid() ==> t.Valid()
    {
      if id in rows then Table(rows[id := row], next) else this
    }

    /** `DELETE ... WHERE id = ?`. */
    function Delete(id: Id): (t: Table<T>)
      ensures t.rows.Keys == rows.Keys - {id} && t.next == next
      ensures forall k :: k in t.rows ==> t.rows[k] == rows[k]
      ensures Valid() ==> t.Valid()
    {
      Table(rows - {id}, next)
    }
  }

  /** A freshly created, empty table. */
  function Empty<T>(): (t: Table<T>)
    ensures t.Valid() && t.rows == map[]
  {
    Table(map[], 1)
  }

  /** Ids below `k` whose row satisfies `keep`, highest id first. */
  function SelectBelow<T>(rows: map<Id, T>, k: nat, keep: T -> bool): (ids: seq<Id>)
    ensures forall i :: 0 <= i < |ids| ==> ids[i] in rows && ids[i] < k && keep(rows[ids[i]])
    ensures forall i, j :: 0 <= i < j < |ids| ==> ids[i] > ids[j]
    ensures forall id :: id in rows && id < k && keep(rows[id]) ==> id in ids
  {
    if k == 0 then []
    else
      var rest := SelectBelow(rows, k - 1, keep);
      if k - 1 in rows && keep(rows[k - 1]) then [k - 1] + rest else rest
  }

  /** `SELECT id ... WHERE keep ORDER BY created_at DESC`: matching ids, newest first. */
  function Select<T>(t: Table<T>, keep: T -> bool): (ids: seq<Id>)
    ensures forall i :: 0 <= i < |ids| ==> ids[i] in t.rows && keep(t.rows[ids[i]])
    ensures forall i, j :: 0 <= i < j < |ids| ==> ids[i] > ids[j]
    ensures t.Valid() ==> forall id :: id in t.rows && keep(t.rows[id]) ==> id in ids
  {
    SelectBelow(t.rows, t.next, keep)
  }

  /** `... LIMIT n`: the first `n` of the newest-first list. */
  function Newest<T>(t: Table<T>, keep: T -> bool, n: nat): (ids: seq<Id>)
    ensures |ids| <= n
    ensures ids <= Select(t, keep)
    ensures |ids| < n ==> ids == Select(t, keep)
    ensures forall i :: 0 <= i < |ids| ==> ids[i] in t.rows && keep(t.rows[ids[i]])
    ensures forall i, j :: 0 <= i < j < |ids| ==> ids[i] > ids[j]
    ensures t.Valid() ==> forall id :: id in t.rows && keep(t.rows[id]) && id !in ids ==>
      forall i :: 0 <= i < |ids| ==> id < ids[i]
  {
    var all := Select(t, keep);
    if |all| <= n then all
    else
      var ids := all[..n];
      assert forall i :: 0 <= i < |ids| ==> ids[i] == all[i];
      forall id | t.Valid() && id in t.rows && keep(t.rows[id]) && id !in ids
        ensures forall i :: 0 <= i < |ids| ==> id < ids[i]
      {
        BelowPrefix(all, n, id);
      }
      ids
  }

  /** An element of a strictly decreasing list that is not among its first `n` is below all of them. */
  lemma BelowPrefix(all: seq<Id>, n: nat, id: Id)
    requires n <= |all| && id in all && id !in all[..n]
    requires forall i, j :: 0 <= i < j < |all| ==> all[i] > all[j]
    ensures forall i :: 0 <= i < n ==> id < all[i]
  {
    var j :| 0 <= j < |all| && all[j] == id;
    assert j >= n;
  }

  /** `... ORDER BY created_at DESC LIMIT 1` read as `rows[0] || null`: the newest matching row. */
  function Latest<T>(t: Table<T>, keep: T -> bool): (r: Option<Id>)
    ensures r.Some? ==> r.value in t.rows && keep(t.rows[r.value])
    ensures t.Valid() && r.Some? ==> forall id :: id in t.rows && keep(t.rows[id]) ==> id <= r.value
    ensures t.Valid() && r.None? ==> forall id :: id in t.rows ==> !keep(t.rows[id])
  {
    var ids := Newest(t, keep, 1);
    if ids == [] then None else Some(ids[0])
  }

  /** `SELECT COUNT(*) ... WHERE keep`. */
  function Count<T>(t: Table<T>, keep: T -> bool): nat {
    |Select(t, keep)|
  }

  /**
   * `SELECT * ... WHERE keep` read as `rows[0]`. The query has no ORDER BY,
   * so the database may return any matching row first; the model takes the
   * lowest id. The logins look rows up by email, which is unique, so there
   * is at most one match and the choice never matters there.
   */
  function First<T>(t: Table<T>, keep: T -> bool): (r: Option<Id>)
    ensures r.Some? ==> r.value in t.rows && keep(t.rows[r.value])
    ensures r.Some? ==> forall i :: 0 <= i < |Select(t, keep)| ==> r.value <= Select(t, keep)[i]
    ensures t.Valid() && r.None? ==> forall id :: id in t.rows ==> !keep(t.rows[id])
  {
    var all := Select(t, keep);
    if all == [] then None else Some(all[|all| - 1])
  }

  /** Sum of `f` over the rows with the given ids. */
  function SumOver<T>(rows: map<Id, T>, ids: seq<Id>, f: T -> real): real
    requires forall i :: 0 <= i < |ids| ==> ids[i] in rows
  {
    if ids == [] then 0.0 else f(rows[ids[0]]) + SumOver(rows, ids[1..], f)
  }

  /** A sum of terms that all lie between `lo` and `hi` lies between `|ids|·lo` and `|ids|·hi`. */
  lemma {:induction false} SumOverBounds<T>(rows: map<Id, T>, ids: seq<Id>, f: T -> real, lo: real, hi: real)
    requires forall i :: 0 <= i < |ids| ==> ids[i] in rows && lo <= f(rows[ids[i]]) <= hi
    ensures |ids| as real * lo <= SumOver(rows, ids, f) <= |ids| as real * hi
  {
    if ids != [] {
      SumOverBounds(rows, ids[1..], f, lo, hi);
    }
  }

  /** A sum of non-negative terms is non-negative. */
  lemma {:induction false} SumOverNonNegative<T>(rows: map<Id, T>, ids: seq<Id>, f: T -> real)
    requires forall i :: 0 <= i < |ids| ==> ids[i] in rows && 0.0 <= f(rows[ids[i]])
    ensures 0.0 <= SumOver(rows, ids, f)
  {
    if ids != [] {
      SumOverNonNegative(rows, ids[1..], f);
    }
  }

  /** Summing a non-negative `f` under a stronger condition never gives more. */
  lemma {:induction false} SumMonotone<T>(t: Table<T>, p: T -> bool, q: T -> bool, f: T -> real)
    requires forall r :: q(r) ==> p(r)
    requires forall id :: id in t.rows && p(t.rows[id]) ==> f(t.rows[id]) >= 0.0
    ensures SumOver(t.rows, Select(t, q), f) <= SumOver(t.rows, Select(t, p), f)
  {
    SelectBelowSumMonotone(t.rows, t.next, p, q, f);
  }

  lemma {:induction false} SelectBelowSumMonotone<T>(rows: map<Id, T>, k: nat, p: T -> bool, q: T -> bool, f: T -> real)
    requires forall r :: q(r) ==> p(r)
    requires forall id :: id in rows && p(rows[id]) ==> f(rows[id]) >= 0.0
    ensures SumOver(rows, SelectBelow(rows, k, q), f) <= SumOver(rows, SelectBelow(rows, k, p), f)
  {
    if k > 0 {
      SelectBelowSumMonotone(rows, k - 1, p, q, f);
      var x := k - 1;
      var restP, restQ := SelectBelow(rows, x, p), SelectBelow(rows, x, q);
      if x in rows && p(rows[x]) {
        assert SelectBelow(rows, k, p) == [x] + restP;
        SumCons(rows, x, restP, f);
        if q(rows[x]) {
          assert SelectBelow(rows, k, q) == [x] + restQ;
          SumCons(rows, x, restQ, f);
        } else {
          assert SelectBelow(rows, k, q) == restQ;
        }
      } else {
        assert SelectBelow(rows, k, p) == restP;
        assert SelectBelow(rows, k, q) == restQ;
      }
    }
  }

  lemma SumCons<T>(rows: map<Id, T>, x: Id, rest: seq<Id>, f: T -> real)
    requires x in rows && forall i :: 0 <= i < |rest| ==> rest[i] in rows
    ensures SumOver(rows, [x] + rest, f) == f(rows[x]) + SumOver(rows, rest, f)
  {
    assert ([x] + rest)[1..] == rest;
  }

  /** Counting under a stronger condition never gives more rows. */
  lemma {:induction false} CountMonotone<T>(t: Table<T>, p: T -> bool, q: T -> bool)
    requires forall r :: p(r) ==> q(r)
    ensures Count(t, p) <= Count(t, q)
  {
    SelectBelowMonotone(t.rows, t.next, p, q);
  }

  lemma {:induction false} SelectBelowMonotone<T>(rows: map<Id, T>, k: nat, p: T -> bool, q: T -> bool)
    requires forall r :: p(r) ==> q(r)
    ensures |SelectBelow(rows, k, p)| <= |SelectBelow(rows, k, q)|
  {
    if k > 0 {
      SelectBelowMonotone(rows, k - 1, p, q);
    }
  }

  /** Rows matching two conditions that never hold together are counted at most once in all. */
  lemma {:induction false} CountDisjoint<T>(t: Table<T>, p: T -> bool, q: T -> bool)
    requires t.Valid()
    requires forall r :: !(p(r) && q(r))
    ensures Count(t, p) + Count(t, q) <= |t.rows|
  {
    SelectBelowDisjoint(t.rows, t.next, p, q);
    CountAll(t);
  }

  /** The condition that keeps every row. */
  predicate Always<T>(r: T) {
    true
  }

  lemma {:induction false} SelectBelowDisjoint<T>(rows: map<Id, T>, k: nat, p: T -> bool, q: T -> bool)
    requires forall r :: !(p(r) && q(r))
    ensures |SelectBelow(rows, k, p)| + |SelectBelow(rows, k, q)| <= |SelectBelow(rows, k, Always)|
  {
    if k > 0 {
      SelectBelowDisjoint(rows, k - 1, p, q);
    }
  }

  /** Counting with no condition gives the number of rows (`COUNT(*)`). */
  lemma {:induction false} CountAll<T>(t: Table<T>)
    requires t.Valid()
    ensures Count(t, Always) == |t.rows|
  {
    SelectBelowAll(t.rows, t.next);
    assert KeysBelow(t.rows, t.next) == t.rows.Keys;
  }

  /** Ids of `rows` below `k`. */
  function KeysBelow<T>(rows: map<Id, T>, k: nat): set<Id> {
    set id | id in rows && id < k
  }

  lemma {:induction false} SelectBelowAll<T>(rows: map<Id, T>, k: nat)
    ensures |SelectBelow(rows, k, Always)| == |KeysBelow(rows, k)|
  {
    if k > 0 {
      SelectBelowAll(rows, k - 1);
      var below := KeysBelow(rows, k - 1);
      assert k - 1 !in below;
      if k - 1 in rows {
        assert KeysBelow(rows, k) == below + {k - 1};
        assert |below + {k - 1}| == |below| + 1;
      } else {
        assert KeysBelow(rows, k) == below;
      }
    } else {
      assert KeysBelow(rows, k) == {};
    }
  }
}
