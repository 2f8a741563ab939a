/**
 * The data inspector's selection endpoint of the visualization server:
 * `sliceSelection` (a case-insensitive search over the rows of the selected
 * elements, an optional sort on one column, then a slice) and the page
 * arithmetic of `read_selection`.
 *
 * The dataframe is not part of this model: its row lookup, its column
 * lookup and the edge permutation are parameters, and the page returns the
 * chosen element indices (the server hands them to `dataFrame.getRows`).
 */
module Selection {
  import opened JsValue
  import opened JsString

  /** `dataFrame.getRowAt(idx, type)`: the values of one row. */
  type RowLookup = int -> seq<JsValue>

  /** `a.localeCompare(b)` in the server's default locale. */
  type LocaleCompare = (string, string) -> int

  // ---------------------------------------------------------------------
  // Search
  // ---------------------------------------------------------------------

  /** The lower-cased text of the value contains the (lower-cased) needle. */
  predicate ValueMatches(v: JsValue, needle: string) {
    Contains(ToLower(StringOf(v)), needle)
  }

  predicate RowMatches(row: seq<JsValue>, needle: string) {
    exists k | 0 <= k < |row| :: ValueMatches(row[k], needle)
  }

  /** The indices whose row has a matching value, in their original order. */
  function Matching(indices: seq<int>, rowAt: RowLookup, needle: string): seq<int> {
    if indices == [] then []
    else
      var rest := Matching(indices[..|indices| - 1], rowAt, needle);
      var idx := indices[|indices| - 1];
      if RowMatches(rowAt(idx), needle) then rest + [idx] else rest
  }

  /** An index is kept exactly when it was selected and its row matches. */
  lemma {:induction false} MatchingMembers(indices: seq<int>, rowAt: RowLookup, needle: string, idx: int)
    ensures idx in Matching(indices, rowAt, needle) <==> idx in indices && RowMatches(rowAt(idx), needle)
    ensures |Matching(indices, rowAt, needle)| <= |indices|
    decreases |indices|
  {
    if indices != [] {
      var prefix := indices[..|indices| - 1];
      MatchingMembers(prefix, rowAt, needle, idx);
      assert indices == prefix + [indices[|indices| - 1]];
    }
  }

  /** The search keeps the original order: it filters each part of a split list separately. */
  lemma {:induction false} MatchingSplits(a: seq<int>, b: seq<int>, rowAt: RowLookup, needle: string)
    ensures Matching(a + b, rowAt, needle) == Matching(a, rowAt, needle) + Matching(b, rowAt, needle)
    decreases |b|
  {
    if b == [] {
      assert a + b == a;
    } else {
      var b' := b[..|b| - 1];
      MatchingSplits(a, b', rowAt, needle);
      assert (a + b)[..|a + b| - 1] == a + b';
    }
  }

  /** The scan of one row: some value's lower-cased text contains the needle. */
  method ScanRow(row: seq<JsValue>, needle: string) returns (keep: bool)
    ensures keep == RowMatches(row, needle)
  {
    keep := false;
    var k := 0;
    while k < |row|
      invariant 0 <= k <= |row|
      invariant keep <==> exists m | 0 <= m < k :: ValueMatches(row[m], needle)
    {
      IndexOfFindsOccurrence(ToLower(StringOf(row[k])), needle);
      if IndexOf(ToLower(StringOf(row[k])), needle) > -1 {
        keep := true;
      }
      k := k + 1;
    }
  }

  /** One more index: the search appends it when its row matches. */
  lemma MatchingStep(indices: seq<int>, i: nat, rowAt: RowLookup, needle: string)
    requires i < |indices|
    ensures Matching(indices[..i + 1], rowAt, needle) ==
              Matching(indices[..i], rowAt, needle) + (if RowMatches(rowAt(indices[i]), needle) then [indices[i]] else [])
  {
    assert indices[..i + 1][..i] == indices[..i];
  }

  /**
   * The search loop: for each selected index, scans the row's values and
   * keeps the index when some value's lower-cased text contains the
   * lower-cased search string.
   */
  method SearchIndices(indices: seq<int>, rowAt: RowLookup, search: string) returns (newIndices: seq<int>)
    ensures newIndices == Matching(indices, rowAt, ToLower(search))
  {
    var needle := ToLower(search);
    newIndices := [];
    var i := 0;
    while i < |indices|
      invariant 0 <= i <= |indices|
      invariant newIndices == Matching(indices[..i], rowAt, needle)
    {
      var idx := indices[i];
      var keep := ScanRow(rowAt(idx), needle);
      MatchingStep(indices, i, rowAt, needle);
      if keep {
        newIndices := newIndices + [idx];
      }
      i := i + 1;
    }
    assert indices[..i] == indices;
  }

  // ---------------------------------------------------------------------
  // Sort
  // ---------------------------------------------------------------------

  function Sign(n: int): int {
    if n < 0 then -1 else if n > 0 then 1 else 0
  }

  /**
   * The sort comparator as written: two strings by locale, otherwise a
   * value that is NaN under `isNaN` goes first (last when descending).
   */
  function CompareAsWritten(a: JsValue, b: JsValue, ascending: bool, collate: LocaleCompare): int {
    if a.Str? && b.Str? then (if ascending then collate(a.s, b.s) else collate(b.s, a.s))
    else if IsNaN(a) || JsLess(a, b) then (if ascending then -1 else 1)
    else if IsNaN(b) || JsLess(b, a) then (if ascending then 1 else -1)
    else 0
  }

  /**
   * As written, two values that are both NaN (two missing cells, say) are
   * each reported to sort before the other, so the comparator is not
   * consistent and the engine's sort may order the column arbitrarily.
   */
  lemma {:induction false} NaNsSortBeforeEachOther(a: JsValue, b: JsValue, ascending: bool, collate: LocaleCompare)
    requires IsNaN(a) && IsNaN(b) && !(a.Str? && b.Str?)
    ensures CompareAsWritten(a, b, ascending, collate) == CompareAsWritten(b, a, ascending, collate)
    ensures CompareAsWritten(a, b, ascending, collate) != 0
  {
  }

  /** The comparator with two NaN values treated as equal. */
  function Compare(a: JsValue, b: JsValue, ascending: bool, collate: LocaleCompare): int {
    if a.Str? && b.Str? then (if ascending then collate(a.s, b.s) else collate(b.s, a.s))
    else if IsNaN(a) && IsNaN(b) then 0
    else CompareAsWritten(a, b, ascending, collate)
  }

  /** Values a column holds: primitives and dates, never arrays or plain objects. */
  predicate CellValue(v: JsValue) {
    !v.ArrayObj? && !v.PlainObj?
  }

  lemma NumericLess(a: JsValue, b: JsValue)
    requires CellValue(a) && CellValue(b) && !(a.Str? && b.Str?)
    ensures JsLess(a, b) <==> NumLess(ToNumber(a), ToNumber(b))
  {
  }

  /**
   * On column values, the corrected comparator is antisymmetric: swapping
   * the arguments flips the sign, given a locale comparison that does.
   */
  lemma {:induction false} CompareAntisymmetric(a: JsValue, b: JsValue, ascending: bool, collate: LocaleCompare)
    requires CellValue(a) && CellValue(b)
    requires a.Str? && b.Str? ==> Sign(collate(a.s, b.s)) == -Sign(collate(b.s, a.s))
    ensures Sign(Compare(a, b, ascending, collate)) == -Sign(Compare(b, a, ascending, collate))
  {
    if !(a.Str? && b.Str?) {
      NumericLess(a, b);
      NumericLess(b, a);
    }
  }

  /** Descending order compares the same pair the other way round. */
  lemma {:induction false} DescendingIsReversed(a: JsValue, b: JsValue, collate: LocaleCompare)
    requires CellValue(a) && CellValue(b)
    ensures Compare(a, b, false, collate) == Compare(b, a, true, collate)
  {
    if !(a.Str? && b.Str?) {
      NumericLess(a, b);
      NumericLess(b, a);
    }
  }

  /** Inserts `x` in front of the first element it does not sort after. */
  function Insert<T>(x: T, sorted: seq<T>, cmp: (T, T) -> int): (r: seq<T>)
    ensures multiset(r) == multiset(sorted) + multiset{x}
    ensures |r| == |sorted| + 1
    ensures r[0] == x || (sorted != [] && r[0] == sorted[0])
  {
    if sorted == [] || cmp(x, sorted[0]) <= 0 then [x] + sorted
    else
      assert sorted == [sorted[0]] + sorted[1..];
      [sorted[0]] + Insert(x, sorted[1..], cmp)
  }

  /**
   * A stable insertion sort standing in for the engine's `Array.prototype.sort`:
   * the result is a permutation of the input.
   */
  function SortBy<T>(xs: seq<T>, cmp: (T, T) -> int): (r: seq<T>)
    ensures multiset(r) == multiset(xs)
  {
    if xs == [] then []
    else
      assert xs == [xs[0]] + xs[1..];
      Insert(xs[0], SortBy(xs[1..], cmp), cmp)
  }

  /** Every element sorts no later than its successor. */
  predicate InOrder<T>(r: seq<T>, cmp: (T, T) -> int) {
    forall i | 0 <= i < |r| - 1 :: cmp(r[i], r[i + 1]) <= 0
  }

  /** Any two elements that sort one way round do not also sort the other way. */
  ghost predicate Consistent<T>(xs: seq<T>, cmp: (T, T) -> int) {
    forall x, y | x in xs && y in xs :: cmp(x, y) > 0 ==> cmp(y, x) <= 0
  }

  lemma {:induction false} InsertInOrder<T>(x: T, sorted: seq<T>, cmp: (T, T) -> int)
    requires InOrder(sorted, cmp)
    requires forall y | y in sorted :: cmp(x, y) > 0 ==> cmp(y, x) <= 0
    ensures InOrder(Insert(x, sorted, cmp), cmp)
    decreases |sorted|
  {
    if sorted != [] && cmp(x, sorted[0]) > 0 {
      var tail := sorted[1..];
      assert forall y | y in tail :: y in sorted;
      InsertInOrder(x, tail, cmp);
      var r := Insert(x, sorted, cmp);
      assert r == [sorted[0]] + Insert(x, tail, cmp);
      assert cmp(sorted[0], r[1]) <= 0 by {
        if r[1] != x {
          assert r[1] == sorted[1];
        }
      }
    }
  }

  /** With a consistent comparator, the sort leaves every adjacent pair in order. */
  lemma {:induction false} SortedInOrder<T>(xs: seq<T>, cmp: (T, T) -> int)
    requires Consistent(xs, cmp)
    ensures InOrder(SortBy(xs, cmp), cmp)
    decreases |xs|
  {
    if xs != [] {
      var tail := xs[1..];
      assert forall y | y in tail :: y in xs;
      SortedInOrder(tail, cmp);
      var sortedTail := SortBy(tail, cmp);
      forall y | y in sortedTail
        ensures y in xs
      {
        assert y in multiset(sortedTail);
      }
      InsertInOrder(xs[0], sortedTail, cmp);
    }
  }

  // ---------------------------------------------------------------------
  // Slicing and pages
  // ---------------------------------------------------------------------

  /** How `Array.prototype.slice` resolves a start or end argument against a length. */
  function SliceBound(n: JsNumber, len: nat): (b: nat)
    ensures b <= len
    ensures n.Finite? && 0 <= n.i <= len ==> b == n.i
  {
    match n
    case NaN => 0
    case Finite(i) =>
      if i < 0 then (if len + i < 0 then 0 else len + i)
      else if i > len then len
      else i
  }

  /** `xs.slice(start, end)`. */
  function Slice<T>(xs: seq<T>, start: JsNumber, end: JsNumber): seq<T> {
    var from, to := SliceBound(start, |xs|), SliceBound(end, |xs|);
    if from < to then xs[from..to] else []
  }

  function Min(a: int, b: int): int { if a <= b then a else b }

  /** A slice between two non-negative bounds holds at most `end - start` elements, taken in order. */
  lemma {:induction false} SliceWindow<T>(xs: seq<T>, start: int, end: int)
    requires 0 <= start <= end
    ensures |Slice(xs, Finite(start), Finite(end))| <= end - start
    ensures start <= |xs| ==> Slice(xs, Finite(start), Finite(end)) == xs[start..Min(end, |xs|)]
    ensures start >= |xs| ==> Slice(xs, Finite(start), Finite(end)) == []
  {
  }

  /** Two slices that meet make up the slice that spans both. */
  lemma {:induction false} SlicesJoin<T>(xs: seq<T>, a: int, b: int, c: int)
    requires 0 <= a <= b <= c
    ensures Slice(xs, Finite(a), Finite(b)) + Slice(xs, Finite(b), Finite(c)) == Slice(xs, Finite(a), Finite(c))
  {
    var n := |xs|;
    var fa, fb, fc := Min(a, n), Min(b, n), Min(c, n);
    assert xs[fa..fb] + xs[fb..fc] == xs[fa..fc];
  }

  function Mul(a: JsNumber, b: JsNumber): (r: JsNumber)
    ensures r.NaN? <==> a.NaN? || b.NaN?
  {
    if a.Finite? && b.Finite? then Finite(a.i * b.i) else NaN
  }

  function Add(a: JsNumber, b: JsNumber): (r: JsNumber)
    ensures r.NaN? <==> a.NaN? || b.NaN?
  {
    if a.Finite? && b.Finite? then Finite(a.i + b.i) else NaN
  }

  /** `start = (page - 1) * per_page`. */
  function PageStart(page: JsNumber, perPage: JsNumber): JsNumber {
    Mul(Sub(page, Finite(1)), perPage)
  }

  /** `end = start + per_page`. */
  function PageEnd(page: JsNumber, perPage: JsNumber): JsNumber {
    Add(PageStart(page, perPage), perPage)
  }

  lemma PageBounds(page: int, perPage: int)
    requires page >= 1 && perPage >= 0
    ensures PageStart(Finite(page), Finite(perPage)) == Finite((page - 1) * perPage)
    ensures PageEnd(Finite(page), Finite(perPage)) == Finite(page * perPage)
    ensures 0 <= (page - 1) * perPage <= page * perPage
  {
    assert (page - 1) * perPage + perPage == page * perPage;
  }

  /**
   * Consecutive pages meet without overlap: a page holds at most `per_page`
   * rows, and page `p` followed by page `p + 1` is the slice that spans both.
   */
  lemma {:induction false} ConsecutivePages<T>(xs: seq<T>, page: int, perPage: int)
    requires page >= 1 && perPage >= 0
    ensures PageEnd(Finite(page), Finite(perPage)) == PageStart(Finite(page + 1), Finite(perPage))
    ensures |Slice(xs, PageStart(Finite(page), Finite(perPage)), PageEnd(Finite(page), Finite(perPage)))| <= perPage
    ensures Slice(xs, PageStart(Finite(page), Finite(perPage)), PageEnd(Finite(page), Finite(perPage)))
          + Slice(xs, PageStart(Finite(page + 1), Finite(perPage)), PageEnd(Finite(page + 1), Finite(perPage)))
         == Slice(xs, PageStart(Finite(page), Finite(perPage)), PageEnd(Finite(page + 1), Finite(perPage)))
  {
    PageBounds(page, perPage);
    PageBounds(page + 1, perPage);
    SliceWindow(xs, (page - 1) * perPage, page * perPage);
    SlicesJoin(xs, (page - 1) * perPage, page * perPage, (page + 1) * perPage);
  }

  /** A page number or size that does not parse gives NaN bounds and an empty page. */
  lemma NaNPageIsEmpty<T>(xs: seq<T>, page: JsNumber, perPage: JsNumber)
    requires page.NaN? || perPage.NaN?
    ensures Slice(xs, PageStart(page, perPage), PageEnd(page, perPage)) == []
  {
  }

  // ---------------------------------------------------------------------
  // sliceSelection
  // ---------------------------------------------------------------------

  /** A sort key paired with the element index it belongs to. */
  datatype Tag = Tag(value: JsValue, index: int)

  /** `xs[i]`, which is `undefined` outside the array. */
  function At(xs: seq<JsValue>, i: int): JsValue {
    if 0 <= i < |xs| then xs[i] else Undefined
  }

  /**
   * The sort value of an element: edges are looked up through the
   * sorted-to-unsorted edge permutation, points directly.
   */
  function SortValue(column: seq<JsValue>, permutation: seq<int>, kind: string, idx: int): JsValue {
    if kind == "edge" then (if 0 <= idx < |permutation| then At(column, permutation[idx]) else Undefined)
    else At(column, idx)
  }

  function Tags(indices: seq<int>, column: seq<JsValue>, permutation: seq<int>, kind: string): (r: seq<Tag>)
    ensures |r| == |indices|
    ensures forall i | 0 <= i < |indices| :: r[i].index == indices[i]
  {
    seq(|indices|, i requires 0 <= i < |indices| => Tag(SortValue(column, permutation, kind, indices[i]), indices[i]))
  }

  function IndicesOf(tags: seq<Tag>): (r: seq<int>)
    ensures |r| == |tags|
    ensures forall i | 0 <= i < |tags| :: r[i] == tags[i].index
  {
    seq(|tags|, i requires 0 <= i < |tags| => tags[i].index)
  }

  /** Sort requested on a column: its values (`getColumnValues(sort_by, type)`) and the direction. */
  datatype SortRequest = SortRequest(column: seq<JsValue>, ascending: bool)

  /** The reply: the number of matches before slicing and the indices of the rows on the page. */
  datatype SelectionPage = SelectionPage(count: nat, indices: seq<int>)

  /** `if (searchFilter)`: only a non-empty search string filters. */
  function Searched(indices: seq<int>, rowAt: RowLookup, search: Option<string>): seq<int> {
    if search.Some? && search.value != "" then Matching(indices, rowAt, ToLower(search.value)) else indices
  }

  /** The comparator `sliceSelection` hands to the sort, applied to the tags' values. */
  function TagCompare(ascending: bool, collate: LocaleCompare): (Tag, Tag) -> int {
    (t1: Tag, t2: Tag) => Compare(t1.value, t2.value, ascending, collate)
  }

  function SortedIndices(found: seq<int>, order: SortRequest, permutation: seq<int>, kind: string,
                         collate: LocaleCompare): seq<int>
  {
    IndicesOf(SortBy(Tags(found, order.column, permutation, kind), TagCompare(order.ascending, collate)))
  }

  /**
   * On a column of primitives and dates, and with a locale comparison that
   * is antisymmetric, the sorted tags have every adjacent pair in order.
   */
  lemma {:induction false} SortedColumnInOrder(tags: seq<Tag>, ascending: bool, collate: LocaleCompare)
    requires forall t | t in tags :: CellValue(t.value)
    requires forall a, b :: Sign(collate(a, b)) == -Sign(collate(b, a))
    ensures InOrder(SortBy(tags, TagCompare(ascending, collate)), TagCompare(ascending, collate))
  {
    var cmp := TagCompare(ascending, collate);
    forall x, y | x in tags && y in tags
      ensures cmp(x, y) > 0 ==> cmp(y, x) <= 0
    {
      CompareAntisymmetric(x.value, y.value, ascending, collate);
    }
    SortedInOrder(tags, cmp);
  }

  /** The page `sliceSelection` describes. */
  function SelectionSpec(rowAt: RowLookup, kind: string, indices: seq<int>, start: JsNumber, end: JsNumber,
                         sortBy: Option<SortRequest>, search: Option<string>, permutation: seq<int>,
                         collate: LocaleCompare): SelectionPage
  {
    var found := Searched(indices, rowAt, search);
    var ordered := if sortBy.Some? then SortedIndices(found, sortBy.value, permutation, kind, collate) else found;
    SelectionPage(|found|, Slice(ordered, start, end))
  }

  method SliceSelection(rowAt: RowLookup, kind: string, indices: seq<int>, start: JsNumber, end: JsNumber,
                        sortBy: Option<SortRequest>, search: Option<string>, permutation: seq<int>,
                        collate: LocaleCompare)
    returns (page: SelectionPage)
    ensures page == SelectionSpec(rowAt, kind, indices, start, end, sortBy, search, permutation, collate)
  {
    var found := indices;
    if search.Some? && search.value != "" {
      found := SearchIndices(indices, rowAt, search.value);
    }
    var count := |found|;
    if sortBy.Some? {
      var ordered := SortedIndices(found, sortBy.value, permutation, kind, collate);
      page := SelectionPage(count, Slice(ordered, start, end));
    } else {
      page := SelectionPage(count, Slice(found, start, end));
    }
  }

  /** Sorting only reorders the matching indices: the same count, and the same members. */
  lemma {:induction false} SortedIndicesArePermutation(found: seq<int>, order: SortRequest, permutation: seq<int>,
                                                       kind: string, collate: LocaleCompare, idx: int)
    ensures |SortedIndices(found, order, permutation, kind, collate)| == |found|
    ensures idx in SortedIndices(found, order, permutation, kind, collate) <==> idx in found
  {
    var tags := Tags(found, order.column, permutation, kind);
    var sorted := SortBy(tags, TagCompare(order.ascending, collate));
    assert |sorted| == |multiset(sorted)| == |multiset(tags)| == |tags|;
    if idx in IndicesOf(sorted) {
      var i :| 0 <= i < |sorted| && sorted[i].index == idx;
      assert sorted[i] in multiset(tags);
      var j :| 0 <= j < |tags| && tags[j] == sorted[i];
      assert found[j] == idx;
    }
    if idx in found {
      var j :| 0 <= j < |found| && found[j] == idx;
      assert tags[j] in multiset(sorted);
      var i :| 0 <= i < |sorted| && sorted[i] == tags[j];
      assert IndicesOf(sorted)[i] == idx;
    }
  }

  /**
   * The reply counts the matches before slicing, holds at most
   * `end - start` indices for non-negative bounds, and every index on the
   * page was selected and, with a search, has a matching row.
   */
  lemma {:induction false} SelectionPageFacts(rowAt: RowLookup, kind: string, indices: seq<int>, start: int, end: int,
                                              sortBy: Option<SortRequest>, search: Option<string>,
                                              permutation: seq<int>, collate: LocaleCompare, idx: int)
    requires 0 <= start <= end
    ensures var page := SelectionSpec(rowAt, kind, indices, Finite(start), Finite(end), sortBy, search, permutation, collate);
      && page.count == |Searched(indices, rowAt, search)|
      && |page.indices| <= end - start
      && (idx in page.indices ==> idx in indices)
      && (idx in page.indices && search.Some? && search.value != "" ==> RowMatches(rowAt(idx), ToLower(search.value)))
  {
    var found := Searched(indices, rowAt, search);
    var ordered := if sortBy.Some? then SortedIndices(found, sortBy.value, permutation, kind, collate) else found;
    SliceWindow(ordered, start, end);
    if sortBy.Some? {
      SortedIndicesArePermutation(found, sortBy.value, permutation, kind, collate, idx);
    }
    if search.Some? && search.value != "" {
      MatchingMembers(indices, rowAt, ToLower(search.value), idx);
    }
    var page := Slice(ordered, Finite(start), Finite(end));
    if idx in page {
      assert idx in ordered;
    }
  }
}
