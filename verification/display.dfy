/**
 * The ordering part of `displayMovements`: which list is shown, in what
 * order, with which number and label on each row.  The HTML itself and the
 * `toFixed(2)` formatting of amounts are not modelled.
 */
module Display {

  predicate Sorted(s: seq<real>)
  {
    forall i, j :: 0 <= i < j < |s| ==> s[i] <= s[j]
  }

  /** Places `x` in front of the first element that is larger than or equal to it. */
  function Insert(x: real, s: seq<real>): (r: seq<real>)
    ensures multiset(r) == multiset(s) + multiset{x}
  {
    if s == [] || x <= s[0] then
      [x] + s
    else
      assert s == [s[0]] + s[1..];
      [s[0]] + Insert(x, s[1..])
  }

  /** `slice().sort((a, b) => a - b)`: an ascending copy. */
  function SortAscending(s: seq<real>): (r: seq<real>)
    ensures |r| == |s|
    ensures Sorted(r)
    ensures multiset(r) == multiset(s)
  {
    if s == [] then []
    else
      assert s == [s[0]] + s[1..];
      var rest := SortAscending(s[1..]);
      InsertSorted(s[0], rest);
      assert |Insert(s[0], rest)| == |multiset(Insert(s[0], rest))|;
      Insert(s[0], rest)
  }

  /** The list handed to the row loop: the sorted copy or the stored list itself. */
  function View(movements: seq<real>, sort: bool): seq<real>
  {
    if sort then SortAscending(movements) else movements
  }

  datatype Kind = Deposit | Withdrawal

  /** `mov > 0 ? 'deposit' : 'withdrawal'`: a zero amount is labelled a withdrawal. */
  function KindOf(m: real): Kind
  {
    if m > 0.0 then Deposit else Withdrawal
  }

  /** One rendered row: its number (`i + 1`), its label and its amount. */
  datatype Row = Row(number: nat, kind: Kind, amount: real)

  /**
   * The rows top to bottom.  Each row is inserted `afterbegin`, so the row
   * for the last element of the view is on top.
   */
  function Rows(view: seq<real>): (rows: seq<Row>)
    ensures |rows| == |view|
  {
    if view == [] then []
    else [Row(|view|, KindOf(view[|view| - 1]), view[|view| - 1])] + Rows(view[..|view| - 1])
  }

  /** The loop of `displayMovements`: every row goes in front of the rows already there. */
  method DisplayMovements(movements: seq<real>, sort: bool) returns (rows: seq<Row>)
    ensures rows == Rows(View(movements, sort))
    ensures |rows| == |movements|
    ensures forall k :: 0 <= k < |rows| ==> rows[k] == RowFor(View(movements, sort), |movements| - 1 - k)
  {
    var view := View(movements, sort);
    rows := [];
    for i := 0 to |view|
      invariant rows == Rows(view[..i])
    {
      assert view[..i + 1][..i] == view[..i];
      rows := [Row(i + 1, KindOf(view[i]), view[i])] + rows;
    }
    assert view[..|view|] == view;
    RowsReverseView(view);
  }

  // ----- Lemmas -----

  /** The row that element `i` of the view gets: numbered `i + 1`, labelled by its sign. */
  function RowFor(view: seq<real>, i: int): Row
    requires 0 <= i < |view|
  {
    Row(i + 1, KindOf(view[i]), view[i])
  }

  /** Row `k` from the top shows element `|view| - 1 - k` of the view, numbered by its position. */
  lemma {:induction false} RowsAt(view: seq<real>, k: nat)
    requires k < |view|
    ensures Rows(view)[k] == RowFor(view, |view| - 1 - k)
  {
    var init := view[..|view| - 1];
    if |view| > 1 {
      RowsAt(init, if k == 0 then 0 else k - 1);
    } else {
      assert Rows(init) == [];
    }
  }

  /** The rendered rows are the view in reverse order. */
  lemma RowsReverseView(view: seq<real>)
    ensures forall k :: 0 <= k < |view| ==> Rows(view)[k] == RowFor(view, |view| - 1 - k)
  {
    forall k | 0 <= k < |view| ensures Rows(view)[k] == RowFor(view, |view| - 1 - k) {
      RowsAt(view, k);
    }
  }

  /** A deposit row is exactly a row whose amount is positive. */
  lemma RowKinds(view: seq<real>, k: nat)
    requires k < |view|
    ensures Rows(view)[k].kind == Deposit <==> Rows(view)[k].amount > 0.0
  {
    RowsAt(view, k);
  }

  /** Inserting into an ascending list keeps it ascending. */
  lemma {:induction false} InsertSorted(x: real, s: seq<real>)
    requires Sorted(s)
    ensures Sorted(Insert(x, s))
  {
    if s != [] && x > s[0] {
      var tail := s[1..];
      assert Sorted(tail);
      InsertSorted(x, tail);
      var r := Insert(x, tail);
      assert |r| == |tail| + 1 by { assert |multiset(r)| == |multiset(tail)| + 1; }
      assert s[0] <= r[0] by { assert r[0] == x || r[0] == tail[0]; }
      assert Insert(x, s) == [s[0]] + r;
    }
  }

  /** The first element of an ascending list is its least element. */
  lemma SortedHeadIsLeast(s: seq<real>, x: real)
    requires Sorted(s)
    requires x in multiset(s)
    ensures s[0] <= x
  {
    var i :| 0 <= i < |s| && s[i] == x;
    assert i == 0 || s[0] <= s[i];
  }

  /** Two ascending lists with the same elements are the same list. */
  lemma {:induction false} SortedPermutationsEqual(a: seq<real>, b: seq<real>)
    requires Sorted(a) && Sorted(b)
    requires multiset(a) == multiset(b)
    ensures a == b
  {
    assert |a| == |multiset(a)| == |multiset(b)| == |b|;
    if a != [] {
      SortedHeadIsLeast(a, b[0]);
      SortedHeadIsLeast(b, a[0]);
      assert a == [a[0]] + a[1..] && b == [b[0]] + b[1..];
      assert a[0] == b[0];
      assert multiset(a[1..]) == multiset(b[1..]) by {
        assert multiset(a) == multiset{a[0]} + multiset(a[1..]);
        assert multiset(b) == multiset{a[0]} + multiset(b[1..]);
        assert multiset(a[1..]) == multiset(a) - multiset{a[0]};
        assert multiset(b[1..]) == multiset(b) - multiset{a[0]};
      }
      SortedPermutationsEqual(a[1..], b[1..]);
    }
  }

  /** Sorting an ascending list changes nothing. */
  lemma SortOfSorted(s: seq<real>)
    requires Sorted(s)
    ensures SortAscending(s) == s
  {
    SortedPermutationsEqual(SortAscending(s), s);
  }

  /** Sorting the sorted view again gives the same view. */
  lemma SortIdempotent(s: seq<real>)
    ensures SortAscending(SortAscending(s)) == SortAscending(s)
  {
    SortOfSorted(SortAscending(s));
  }
}
