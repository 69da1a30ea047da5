/**
 * What the three admin list screens share: `Array.prototype.filter`, the
 * `?.toLowerCase().includes(...)` search test, the sort-header toggle and the
 * checkbox selection of row ids.
 */
module ListViews {
  import opened Wrappers
  import opened Text

  /** `xs` can be obtained from `ys` by deleting elements: an order-preserving sub-list. */
  predicate SubSequence<T(==)>(xs: seq<T>, ys: seq<T>)
    decreases |ys|
  {
    if xs == [] then true
    else if ys == [] then false
    else (xs[0] == ys[0] && SubSequence(xs[1..], ys[1..])) || SubSequence(xs, ys[1..])
  }

  /** `xs.filter(keep)`: the elements that pass, in their original order. */
  function Filter<T(==)>(xs: seq<T>, keep: T -> bool): (r: seq<T>)
    ensures |r| <= |xs|
    ensures forall i :: 0 <= i < |r| ==> keep(r[i]) && r[i] in xs
    ensures forall x :: x in xs && keep(x) ==> x in r
    ensures SubSequence(r, xs)
  {
    if xs == [] then []
    else
      var rest := Filter(xs[1..], keep);
      if keep(xs[0]) then [xs[0]] + rest else rest
  }

  /** Filtering a concatenation filters each part. */
  lemma {:induction false} FilterAppend<T>(xs: seq<T>, ys: seq<T>, keep: T -> bool)
    ensures Filter(xs + ys, keep) == Filter(xs, keep) + Filter(ys, keep)
  {
    if xs == [] {
      assert xs + ys == ys;
    } else {
      var zs := xs + ys;
      assert zs[0] == xs[0] && zs[1..] == xs[1..] + ys;
      FilterAppend(xs[1..], ys, keep);
      if keep(xs[0]) {
        calc {
          Filter(zs, keep);
          [xs[0]] + Filter(xs[1..] + ys, keep);
          [xs[0]] + (Filter(xs[1..], keep) + Filter(ys, keep));
          ([xs[0]] + Filter(xs[1..], keep)) + Filter(ys, keep);
        }
      }
    }
  }

  /** A filter that keeps everything returns the whole list. */
  lemma {:induction false} FilterAll<T>(xs: seq<T>, keep: T -> bool)
    requires forall x :: x in xs ==> keep(x)
    ensures Filter(xs, keep) == xs
  {
    if xs != [] {
      assert forall x :: x in xs[1..] ==> x in xs;
      FilterAll(xs[1..], keep);
    }
  }

  /** Filtering twice with the same test changes nothing more. */
  lemma FilterIdempotent<T>(xs: seq<T>, keep: T -> bool)
    ensures Filter(Filter(xs, keep), keep) == Filter(xs, keep)
  {
    FilterAll(Filter(xs, keep), keep);
  }

  /** `xs.filter(keep).length`. */
  function CountWhere<T(==)>(xs: seq<T>, keep: T -> bool): (n: nat)
    ensures n <= |xs|
  {
    |Filter(xs, keep)|
  }

  /** Counting a concatenation adds the counts of the parts. */
  lemma CountAppend<T>(xs: seq<T>, ys: seq<T>, keep: T -> bool)
    ensures CountWhere(xs + ys, keep) == CountWhere(xs, keep) + CountWhere(ys, keep)
  {
    FilterAppend(xs, ys, keep);
  }

  /** `field?.toLowerCase().includes(term.toLowerCase())`: a missing field never matches. */
  predicate MatchesText(field: Option<string>, term: string) {
    field.Some? && ContainsIgnoringCase(field.value, term)
  }

  /** The order the list is sorted in. */
  datatype Order = Asc | Desc

  /** The sort state of a list screen: the column and its direction. */
  datatype Sort = Sort(column: string, order: Order)

  /** Every list screen starts sorted by creation time, newest first. */
  const InitialSort := Sort("created_at", Desc)

  /** handleSort: the current column flips direction, another column is taken ascending. */
  function NextSort(s: Sort, field: string): (r: Sort)
    ensures r.column == field
    ensures field == s.column ==> r.order != s.order
    ensures field != s.column ==> r.order == Asc
  {
    if s.column == field then Sort(field, if s.order == Asc then Desc else Asc)
    else Sort(field, Asc)
  }

  /** Clicking the same header twice restores the sort state. */
  lemma SortTwice(s: Sort)
    ensures NextSort(NextSort(s, s.column), s.column) == s
  {
  }

  /** A header clicked after another column is first sorted ascending, then descending. */
  lemma SortNewColumn(s: Sort, field: string)
    requires field != s.column
    ensures NextSort(s, field) == Sort(field, Asc)
    ensures NextSort(NextSort(s, field), field) == Sort(field, Desc)
  {
  }

  /** The row checkbox: checking appends the id (even a second time), unchecking removes every copy. */
  function Toggled(selected: seq<nat>, id: nat, checked: bool): (r: seq<nat>)
    ensures checked ==> r == selected + [id]
    ensures !checked ==> id !in r && SubSequence(r, selected)
    ensures !checked ==> forall x :: x in selected && x != id ==> x in r
  {
    if checked then selected + [id] else Filter(selected, (x: nat) => x != id)
  }

  /** Checking a box and unchecking it again leaves the selection without that id, in its order. */
  lemma CheckThenUncheck(selected: seq<nat>, id: nat)
    ensures Toggled(Toggled(selected, id, true), id, false) == Toggled(selected, id, false)
  {
    FilterAppend(selected, [id], (x: nat) => x != id);
  }

  /** Unchecking an id that is not selected changes nothing. */
  lemma UncheckAbsent(selected: seq<nat>, id: nat)
    requires id !in selected
    ensures Toggled(selected, id, false) == selected
  {
    FilterAll(selected, (x: nat) => x != id);
  }

  /** The header checkbox: the ids of the shown rows, or nothing. */
  function AllSelected(shown: seq<nat>, checked: bool): (r: seq<nat>)
    ensures checked ==> r == shown
    ensures !checked ==> r == []
    ensures forall i :: 0 <= i < |r| ==> r[i] in shown
    ensures HeaderChecked(r, shown) <==> checked && |shown| > 0
  {
    if checked then shown else []
  }

  /** The header checkbox is drawn checked when as many ids are selected as rows are shown, and some are. */
  predicate HeaderChecked(selected: seq<nat>, shown: seq<nat>) {
    |selected| == |shown| && |shown| > 0
  }

  /** Checking the header box of a non-empty list shows it checked; unchecking it shows it unchecked. */
  lemma HeaderFollowsSelectAll(shown: seq<nat>)
    ensures |shown| > 0 ==> HeaderChecked(AllSelected(shown, true), shown)
    ensures !HeaderChecked(AllSelected(shown, false), shown)
  {
  }
}
