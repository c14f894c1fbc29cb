/**
 * Array Garden: the player fills cells of a 10 x 10 grid (cells 0..99, row
 * `i / 10`, column `i % 10`) to build an array of a target number of rows
 * and columns.
 */
module ArrayGarden {
  import opened Wrappers
  import opened Collections
  import opened Draws

  /** The grid is `Width` cells wide and `Width` cells high. */
  const Width: int := 10
  const Cells: int := 100

  /** A selection as the game keeps it: distinct cell indices of the grid. */
  ghost predicate ValidSelection(s: seq<int>)
  {
    NoDups(s) && forall k :: 0 <= k < |s| ==> 0 <= s[k] < Cells
  }

  /** The selection after a click on cell `i`: pushed when absent, spliced out when present. */
  function Toggled(s: seq<int>, i: int): (r: seq<int>)
    ensures i !in s ==> r == s + [i]
    ensures i in s ==> |r| == |s| - 1 && multiset(r) == multiset(s) - multiset{i}
  {
    var k := FirstIndex(s, i);
    if k == -1 then s + [i]
    else
      assert s == s[..k] + [s[k]] + s[k + 1..];
      s[..k] + s[k + 1..]
  }

  /** Splicing one element out of a list without duplicates leaves a list without duplicates, that element gone. */
  lemma SpliceOut(s: seq<int>, k: int)
    requires NoDups(s) && 0 <= k < |s|
    ensures NoDups(s[..k] + s[k + 1..])
    ensures forall x :: x in s[..k] + s[k + 1..] <==> x in s && x != s[k]
  {
    var t := s[..k] + s[k + 1..];
    forall a, b | 0 <= a < b < |t| ensures t[a] != t[b] {
      var a' := if a < k then a else a + 1;
      var b' := if b < k then b else b + 1;
      assert t[a] == s[a'] && t[b] == s[b'];
    }
    forall x ensures x in t <==> x in s && x != s[k] {
      if x in t {
        var j :| 0 <= j < |t| && t[j] == x;
        var j' := if j < k then j else j + 1;
        assert s[j'] == x && j' != k;
      }
      if x in s && x != s[k] {
        var j :| 0 <= j < |s| && s[j] == x;
        assert j != k;
        if j < k { assert t[j] == x; } else { assert t[j - 1] == x; }
      }
    }
  }

  /**
   * A click adds an absent cell and removes a present one, so the selected
   * set changes by exactly `{i}` and the selection never holds duplicates.
   */
  lemma ToggledSelection(s: seq<int>, i: int)
    requires ValidSelection(s) && 0 <= i < Cells
    ensures ValidSelection(Toggled(s, i))
    ensures Elems(Toggled(s, i)) == if i in s then Elems(s) - {i} else Elems(s) + {i}
    ensures |Toggled(s, i)| == if i in s then |s| - 1 else |s| + 1
  {
    var k := FirstIndex(s, i);
    var t := Toggled(s, i);
    if k != -1 {
      assert t == s[..k] + s[k + 1..];
      SpliceOut(s, k);
    } else {
      assert t == s + [i];
      forall x ensures x in t <==> x in s || x == i {
        if x in s {
          var j :| 0 <= j < |s| && s[j] == x;
          assert t[j] == x;
        }
        if x == i { assert t[|s|] == x; }
      }
    }
  }

  /** Clicking the same cell twice restores the selected set; when the cell was absent, the very same list. */
  lemma {:induction false} ToggleTwice(s: seq<int>, i: int)
    requires ValidSelection(s) && 0 <= i < Cells
    ensures Elems(Toggled(Toggled(s, i), i)) == Elems(s)
    ensures i !in s ==> Toggled(Toggled(s, i), i) == s
  {
    ToggledSelection(s, i);
    ToggledSelection(Toggled(s, i), i);
    if i !in s {
      var t := s + [i];
      assert FirstIndex(t, i) == |s|;
      assert t[..|s|] == s;
    }
  }

  // ---------------------------------------------------------------------
  // Rows, columns and the shape check
  // ---------------------------------------------------------------------

  /** The row of a cell (`Math.floor(i / 10)`; cells are never negative). */
  function RowOf(x: int): int { x / Width }

  /** The column of a cell (`i % 10`). */
  function ColOf(x: int): int { x % Width }

  /** The distinct rows touched by the selection, in order of first occurrence: each row of a selected cell once, and no other value. */
  function Rows(s: seq<int>): (r: seq<int>)
    ensures NoDups(r) && |r| <= |s|
    ensures forall x :: x in r <==> exists k :: 0 <= k < |s| && x == RowOf(s[k])
  {
    var rows := seq(|s|, k requires 0 <= k < |s| => RowOf(s[k]));
    assert forall x :: x in rows <==> exists k :: 0 <= k < |s| && x == RowOf(s[k]) by {
      forall x | x in rows ensures exists k :: 0 <= k < |s| && x == RowOf(s[k]) {
        var k :| 0 <= k < |rows| && rows[k] == x;
      }
      forall k | 0 <= k < |s| ensures RowOf(s[k]) in rows {
        assert rows[k] == RowOf(s[k]);
      }
    }
    var r := Distinct(rows);
    assert forall x :: x in r <==> x in rows by {
      forall x ensures x in r <==> x in rows {
        assert x in r <==> x in Elems(r);
        assert x in rows <==> x in Elems(rows);
      }
    }
    r
  }

  /** The distinct columns touched by the selection, in order of first occurrence: each column of a selected cell once, and no other value. */
  function Cols(s: seq<int>): (r: seq<int>)
    ensures NoDups(r) && |r| <= |s|
    ensures forall x :: x in r <==> exists k :: 0 <= k < |s| && x == ColOf(s[k])
  {
    var cols := seq(|s|, k requires 0 <= k < |s| => ColOf(s[k]));
    assert forall x :: x in cols <==> exists k :: 0 <= k < |s| && x == ColOf(s[k]) by {
      forall x | x in cols ensures exists k :: 0 <= k < |s| && x == ColOf(s[k]) {
        var k :| 0 <= k < |cols| && cols[k] == x;
      }
      forall k | 0 <= k < |s| ensures ColOf(s[k]) in cols {
        assert cols[k] == ColOf(s[k]);
      }
    }
    var r := Distinct(cols);
    assert forall x :: x in r <==> x in cols by {
      forall x ensures x in r <==> x in cols {
        assert x in r <==> x in Elems(r);
        assert x in cols <==> x in Elems(cols);
      }
    }
    r
  }

  /** The cells of the array spanned by the rows `rs` and the columns `cs`. */
  function Product(rs: seq<int>, cs: seq<int>): set<int>
  {
    set r, c | r in rs && c in cs :: Width * r + c
  }

  /** The cells of row `r` in the columns `cs`. */
  function RowCells(r: int, cs: seq<int>): set<int>
  {
    set c | c in cs :: Width * r + c
  }

  ghost predicate InColumns(cs: seq<int>)
  {
    forall k :: 0 <= k < |cs| ==> 0 <= cs[k] < Width
  }

  lemma RowCellsSnoc(r: int, cs: seq<int>, c: int)
    ensures RowCells(r, cs + [c]) == RowCells(r, cs) + {Width * r + c}
  {
    forall x | x in RowCells(r, cs + [c]) ensures x in RowCells(r, cs) + {Width * r + c} {
      var c' :| c' in cs + [c] && x == Width * r + c';
      if c' != c {
        assert c' in cs;
      }
    }
    forall x | x in RowCells(r, cs) + {Width * r + c} ensures x in RowCells(r, cs + [c]) {
      if x in RowCells(r, cs) {
        var c' :| c' in cs && x == Width * r + c';
        assert c' in cs + [c];
      } else {
        assert c in cs + [c];
      }
    }
  }

  /** The cell of column `c` is in row `r`'s cells exactly when `c` is one of the columns. */
  lemma RowCellsMember(r: int, cs: seq<int>, c: int)
    ensures Width * r + c in RowCells(r, cs) <==> c in cs
  {
    if Width * r + c in RowCells(r, cs) {
      var c' :| c' in cs && Width * r + c == Width * r + c';
    }
  }

  lemma {:induction false} RowCellsCard(r: int, cs: seq<int>)
    requires NoDups(cs)
    ensures |RowCells(r, cs)| == |cs|
  {
    if cs != [] {
      var n := |cs| - 1;
      var rest := cs[..n];
      NoDupsLast(cs);
      RowCellsCard(r, rest);
      RowCellsSnoc(r, rest, cs[n]);
      RowCellsMember(r, rest, cs[n]);
      var c := cs[n];
      assert RowCells(r, cs) == RowCells(r, rest + [c]);
    }
  }

  lemma ProductSnoc(rs: seq<int>, r: int, cs: seq<int>)
    ensures Product(rs + [r], cs) == Product(rs, cs) + RowCells(r, cs)
  {
    forall x | x in Product(rs + [r], cs) ensures x in Product(rs, cs) + RowCells(r, cs) {
      var r', c :| r' in rs + [r] && c in cs && x == Width * r' + c;
      if r' != r {
        assert r' in rs;
      }
    }
    forall x | x in Product(rs, cs) + RowCells(r, cs) ensures x in Product(rs + [r], cs) {
      if x in Product(rs, cs) {
        var r', c :| r' in rs && c in cs && x == Width * r' + c;
        assert r' in rs + [r];
      } else {
        var c :| c in cs && x == Width * r + c;
        assert r in rs + [r];
      }
    }
  }

  /** A cell of the product lies in one of the product's rows. */
  lemma ProductRowOf(rs: seq<int>, cs: seq<int>, x: int)
    requires InColumns(cs) && x in Product(rs, cs)
    ensures RowOf(x) in rs
  {
    var r, c :| r in rs && c in cs && x == Width * r + c;
    var j :| 0 <= j < |cs| && cs[j] == c;
    assert RowOf(x) == r;
  }

  /** A cell of row `r` lies in row `r`. */
  lemma RowCellsRowOf(r: int, cs: seq<int>, x: int)
    requires InColumns(cs) && x in RowCells(r, cs)
    ensures RowOf(x) == r
  {
    var c :| c in cs && x == Width * r + c;
    var j :| 0 <= j < |cs| && cs[j] == c;
  }

  /** Cells of different rows differ, as long as columns stay within the grid width. */
  lemma ProductRowDisjoint(rs: seq<int>, r: int, cs: seq<int>)
    requires r !in rs && InColumns(cs)
    ensures Product(rs, cs) !! RowCells(r, cs)
  {
    forall x | x in Product(rs, cs) ensures x !in RowCells(r, cs) {
      ProductRowOf(rs, cs, x);
      if x in RowCells(r, cs) {
        RowCellsRowOf(r, cs, x);
      }
    }
  }

  /** Distinct rows and distinct columns address distinct cells: the product has |rs| * |cs| cells. */
  lemma {:induction false} ProductCard(rs: seq<int>, cs: seq<int>)
    requires NoDups(rs) && NoDups(cs) && InColumns(cs)
    ensures |Product(rs, cs)| == |rs| * |cs|
  {
    if rs == [] {
      assert Product(rs, cs) == {};
    } else {
      var n := |rs| - 1;
      var rest := rs[..n];
      NoDupsLast(rs);
      ProductCard(rest, cs);
      RowCellsCard(rs[n], cs);
      ProductSnoc(rest, rs[n], cs);
      ProductRowDisjoint(rest, rs[n], cs);
      DisjointUnionCard(Product(rs, cs), Product(rest, cs), RowCells(rs[n], cs));
      assert |rs| == |rest| + 1;
      assert (|rest| + 1) * |cs| == |rest| * |cs| + |cs|;
    }
  }

  /** Every selected cell lies in the product of the selection's rows and columns. */
  lemma SelectionInProduct(s: seq<int>)
    ensures Elems(s) <= Product(Rows(s), Cols(s))
    ensures InColumns(Cols(s))
  {
    forall x | x in Elems(s) ensures x in Product(Rows(s), Cols(s)) {
      var j :| 0 <= j < |s| && s[j] == x;
      assert x / Width == RowOf(s[j]) && x % Width == ColOf(s[j]);
      assert x / Width in Rows(s) && x % Width in Cols(s);
      assert x == Width * (x / Width) + x % Width;
    }
    forall k | 0 <= k < |Cols(s)| ensures 0 <= Cols(s)[k] < Width {
      var c := Cols(s)[k];
      assert c in Cols(s);
      var j :| 0 <= j < |s| && c == ColOf(s[j]);
    }
  }

  /**
   * The count test of the shape check: a selection has exactly
   * rows * cols cells iff it is the full product of its row set and its
   * column set, and otherwise it has fewer.
   */
  lemma CountIsProduct(s: seq<int>)
    requires ValidSelection(s)
    ensures |s| <= |Rows(s)| * |Cols(s)|
    ensures |s| == |Rows(s)| * |Cols(s)| <==> Elems(s) == Product(Rows(s), Cols(s))
  {
    SelectionInProduct(s);
    ProductCard(Rows(s), Cols(s));
    DistinctCard(s);
    SubsetCard(Elems(s), Product(Rows(s), Cols(s)));
    if |s| == |Rows(s)| * |Cols(s)| {
      SubsetCardEq(Elems(s), Product(Rows(s), Cols(s)));
    }
  }

  /** What the "check" button reports. */
  datatype Feedback = Empty | Success | Shape | Wrong

  /** The shape check of the "check" button, against the target rows and columns. */
  function Classify(s: seq<int>, targetRows: int, targetCols: int): (fb: Feedback)
    ensures fb == Empty <==> s == []
    ensures fb == Wrong <==> s != [] && (|Rows(s)| != targetRows || |Cols(s)| != targetCols)
    ensures fb == Success ==> |s| == targetRows * targetCols
    ensures fb == Shape ==> |s| != targetRows * targetCols
  {
    if |s| == 0 then Empty
    else
      var rows, cols, total := |Rows(s)|, |Cols(s)|, |s|;
      if rows == targetRows && cols == targetCols && total == rows * cols then Success
      else if rows == targetRows && cols == targetCols then Shape
      else Wrong
  }

  /**
   * What each verdict means: success exactly when the selection is a full
   * array with the target numbers of rows and columns, shape when it spans
   * the target rows and columns but leaves holes, wrong when it spans
   * other numbers of rows or columns.
   */
  lemma ClassifyMeaning(s: seq<int>, targetRows: int, targetCols: int)
    requires ValidSelection(s)
    ensures Classify(s, targetRows, targetCols) == Empty <==> s == []
    ensures Classify(s, targetRows, targetCols) == Success <==>
      s != [] && |Rows(s)| == targetRows && |Cols(s)| == targetCols && Elems(s) == Product(Rows(s), Cols(s))
    ensures Classify(s, targetRows, targetCols) == Shape <==>
      s != [] && |Rows(s)| == targetRows && |Cols(s)| == targetCols && Elems(s) < Product(Rows(s), Cols(s))
    ensures Classify(s, targetRows, targetCols) == Wrong <==>
      s != [] && (|Rows(s)| != targetRows || |Cols(s)| != targetCols)
    ensures Classify(s, targetRows, targetCols) == Success ==> |s| == targetRows * targetCols
  {
    CountIsProduct(s);
    SelectionInProduct(s);
  }

  /** The numbers shown beside the grid: rows x cols and the number of filled cells. */
  datatype Dims = Dims(rows: int, cols: int, total: int)

  /** The counter shown by the info line, or nothing ("? x ?") for an empty selection. */
  function Info(s: seq<int>): (r: Option<Dims>)
    ensures r.None? <==> s == []
    ensures r.Some? ==> r.value.total == |s| && 1 <= r.value.rows <= |s| && 1 <= r.value.cols <= |s|
  {
    if |s| == 0 then None else Some(Dims(|Rows(s)|, |Cols(s)|, |s|))
  }

  /** The info line shows something iff cells are selected, and the filled count never exceeds rows x cols. */
  lemma InfoBounds(s: seq<int>)
    requires ValidSelection(s)
    ensures Info(s).None? <==> s == []
    ensures Info(s).Some? ==> 1 <= Info(s).value.total <= Info(s).value.rows * Info(s).value.cols
  {
    CountIsProduct(s);
  }

  /** The state of the Array Garden screen. */
  class Garden {
    var selected: seq<int>
    var targetRows: int
    var targetCols: int

    ghost predicate Valid()
      reads this
    {
      ValidSelection(selected) && 2 <= targetRows <= 5 && 2 <= targetCols <= 5
    }

    /** The state at page load: nothing selected, target 2 x 3. */
    constructor ()
      ensures Valid()
      ensures selected == [] && targetRows == 2 && targetCols == 3
    {
      selected := [];
      targetRows := 2;
      targetCols := 3;
    }

    /** A new task: target rows and columns drawn from [2, 5], selection cleared. */
    method NewTask(uRows: real, uCols: real)
      requires IsRandom(uRows) && IsRandom(uCols)
      modifies this
      ensures Valid()
      ensures targetRows == 2 + Below(uRows, 4) && targetCols == 2 + Below(uCols, 4)
      ensures selected == []
    {
      targetRows := 2 + Below(uRows, 4);
      targetCols := 2 + Below(uCols, 4);
      selected := [];
    }

    /** A click on cell `i` toggles it in or out of the selection. */
    method ToggleCell(i: int)
      requires Valid() && 0 <= i < Cells
      modifies this`selected
      ensures Valid()
      ensures selected == Toggled(old(selected), i)
      ensures Elems(selected) == if i in old(selected) then Elems(old(selected)) - {i} else Elems(old(selected)) + {i}
    {
      ToggledSelection(selected, i);
      var idx := FirstIndex(selected, i);
      if idx == -1 {
        selected := selected + [i];
      } else {
        selected := selected[..idx] + selected[idx + 1..];
      }
    }

    /** The "check" button: the verdict on the current selection. */
    method Check() returns (fb: Feedback)
      requires Valid()
      ensures fb == Empty <==> selected == []
      ensures fb == Success <==> selected != [] && |Rows(selected)| == targetRows && |Cols(selected)| == targetCols
                                 && Elems(selected) == Product(Rows(selected), Cols(selected))
      ensures fb == Shape <==> selected != [] && |Rows(selected)| == targetRows && |Cols(selected)| == targetCols
                               && Elems(selected) < Product(Rows(selected), Cols(selected))
    {
      ClassifyMeaning(selected, targetRows, targetCols);
      fb := Classify(selected, targetRows, targetCols);
    }
  }
}
