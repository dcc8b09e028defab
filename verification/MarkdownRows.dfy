/** Which rows and cells a table shows: every row of the tree that has a cell, in document order, cell by cell. */
module MarkdownRows {
  import opened Prelude
  import opened MarkdownItems
  import opened Markdown

  /** The row that a path leads to; there is no other row on the way. */
  function RowAt(ns: seq<Node>, path: Path): Option<Node> {
    if path == [] || path[0] >= |ns| || !ns[path[0]].Element? then None
    else if ns[path[0]].name != "tr" then RowAt(ns[path[0]].children, path[1..])
    else if |path| == 1 then Some(ns[path[0]])
    else None
  }

  ghost predicate CellAt(ns: seq<Node>, k: int) {
    0 <= k < |ns| && ns[k].Element? && ns[k].name in {"th", "td"}
  }

  ghost predicate HasCell(row: Node) { row.Element? && exists k :: CellAt(row.children, k) }

  /** The texts are those of the cells, from left to right. */
  ghost predicate CellsListed(r: Resolver, ns: seq<Node>, path: Path, p: Place, at: seq<nat>, texts: seq<string>) {
    && |texts| == |at|
    && (forall j, k :: 0 <= j < k < |at| ==> at[j] < at[k])
    && (forall k :: CellAt(ns, k) <==> k in at)
    && forall j :: 0 <= j < |at| ==>
         at[j] < |ns| && ns[at[j]].Element?
         && texts[j] == RenderAll(r, ns[at[j]].children, path + [at[j]], "", p)
  }

  /** The texts are those of the row that the path leads to. */
  ghost predicate RowTold(r: Resolver, ns: seq<Node>, path: Path, p: Place, place: Path, texts: seq<string>) {
    && RowAt(ns, place).Some? && RowAt(ns, place).value.Element?
    && exists at :: CellsListed(r, RowAt(ns, place).value.children, path + place, p, at, texts)
  }

  /** One more child, a cell or not. */
  lemma NextCell(r: Resolver, ns: seq<Node>, path: Path, p: Place, at: seq<nat>, texts: seq<string>)
    requires ns != [] && CellsListed(r, ns[..|ns| - 1], path, p, at, texts)
    ensures var k: nat, last := |ns| - 1, ns[|ns| - 1];
      if CellAt(ns, k) then
        CellsListed(r, ns, path, p, at + [k], texts + [RenderAll(r, last.children, path + [k], "", p)])
      else CellsListed(r, ns, path, p, at, texts)
  {
    hide RenderAll;
    var k: nat := |ns| - 1;
    var init := ns[..k];
    assert forall j :: CellAt(init, j) <==> CellAt(ns, j) && j != k;
    assert forall j :: 0 <= j < |at| ==> at[j] in at && at[j] < k && init[at[j]] == ns[at[j]];
  }

  lemma CellsNext(r: Resolver, ns: seq<Node>, path: Path, p: Place)
    requires ns != []
    ensures var k: nat, last := |ns| - 1, ns[|ns| - 1];
      Cells(r, ns, path, p)
      == Cells(r, ns[..k], path, p)
         + if CellAt(ns, k) then [RenderAll(r, last.children, path + [k], "", p)] else []
  {
    hide RenderAll;
  }

  lemma {:induction false} CellsMeaning(r: Resolver, ns: seq<Node>, path: Path, p: Place) returns (at: seq<nat>)
    ensures CellsListed(r, ns, path, p, at, Cells(r, ns, path, p))
  {
    at := [];
    if ns != [] {
      hide *;
      var k: nat, last := |ns| - 1, ns[|ns| - 1];
      at := CellsMeaning(r, ns[..k], path, p);
      CellsNext(r, ns, path, p);
      NextCell(r, ns, path, p, at, Cells(r, ns[..k], path, p));
      if CellAt(ns, k) {
        at := at + [k];
      } else {
        assert Cells(r, ns[..k], path, p) + [] == Cells(r, ns[..k], path, p);
      }
    }
  }

  lemma SomeCell(r: Resolver, ns: seq<Node>, path: Path, p: Place, at: seq<nat>, texts: seq<string>)
    requires CellsListed(r, ns, path, p, at, texts)
    ensures texts != [] <==> exists k :: CellAt(ns, k)
  {
    hide RenderAll, CellAt;
    assert at == [] || at[0] in at;
  }

  /** A row with a cell. */
  ghost predicate IsPlace(ns: seq<Node>, q: Path) { RowAt(ns, q).Some? && HasCell(RowAt(ns, q).value) }

  ghost predicate Ascending(places: seq<Path>) {
    forall i, j :: 0 <= i < j < |places| ==> Before(places[i], places[j])
  }

  /** The places are those of all rows with a cell in some of the children. */
  ghost predicate AllPlaces(ns: seq<Node>, first: nat, end: nat, places: seq<Path>) {
    forall q :: q in places <==> IsPlace(ns, q) && first <= q[0] < end
  }

  ghost predicate AllTold(r: Resolver, ns: seq<Node>, path: Path, p: Place, places: seq<Path>,
      rows: seq<seq<string>>)
  {
    |places| == |rows| && forall i :: 0 <= i < |rows| ==> RowTold(r, ns, path, p, places[i], rows[i])
  }

  ghost predicate RowsListed(r: Resolver, ns: seq<Node>, first: nat, end: nat, path: Path, p: Place,
      places: seq<Path>, rows: seq<seq<string>>)
  {
    Ascending(places) && AllPlaces(ns, first, end, places) && AllTold(r, ns, path, p, places, rows)
  }

  lemma OneMoreChild(r: Resolver, ns: seq<Node>, k: nat, path: Path, p: Place, a: seq<Path>, b: seq<Path>,
      rows: seq<seq<string>>, more: seq<seq<string>>)
    requires RowsListed(r, ns, 0, k, path, p, a, rows) && RowsListed(r, ns, k, k + 1, path, p, b, more)
    ensures RowsListed(r, ns, 0, k + 1, path, p, a + b, rows + more)
  {
    var all := a + b;
    hide IsPlace, RowTold;
    assert AllPlaces(ns, 0, k + 1, all);
    forall i, j | 0 <= i < j < |all| ensures Before(all[i], all[j]) {
      if i < |a| <= j {
        assert all[i] in a && all[j] in b;
        EarlierChild(ns, all[i], all[j]);
      }
    }
  }

  lemma EarlierChild(ns: seq<Node>, a: Path, b: Path)
    requires IsPlace(ns, a) && IsPlace(ns, b) && a[0] < b[0]
    ensures Before(a, b)
  {
    assert a[..0] == b[..0];
  }

  function Deeper(k: nat, places: seq<Path>): (r: seq<Path>)
    ensures |r| == |places| && forall i :: 0 <= i < |r| ==> r[i] == [k] + places[i]
  {
    seq(|places|, i requires 0 <= i < |places| => [k] + places[i])
  }

  lemma BeforeBelow(k: nat, a: Path, b: Path)
    requires Before(a, b)
    ensures Before([k] + a, [k] + b)
  {
    if i: nat :| i < |a| && i < |b| && a[..i] == b[..i] && a[i] < b[i] {
      assert ([k] + a)[..i + 1] == [k] + a[..i] && ([k] + b)[..i + 1] == [k] + b[..i];
      assert ([k] + a)[i + 1] == a[i] && ([k] + b)[i + 1] == b[i];
    }
  }

  lemma RowBelow(ns: seq<Node>, k: nat, q: Path)
    requires k < |ns| && ns[k].Element? && ns[k].name != "tr"
    ensures RowAt(ns, [k] + q) == RowAt(ns[k].children, q)
  {
    assert ([k] + q)[1..] == q;
  }

  lemma DeeperPlaces(ns: seq<Node>, k: nat, places: seq<Path>)
    requires k < |ns| && ns[k].Element? && ns[k].name != "tr"
    requires AllPlaces(ns[k].children, 0, |ns[k].children|, places)
    ensures AllPlaces(ns, k, k + 1, Deeper(k, places))
  {
    var deeper := Deeper(k, places);
    hide HasCell, Deeper;
    forall q ensures q in deeper <==> IsPlace(ns, q) && k <= q[0] < k + 1 {
      if q in deeper {
        var i :| 0 <= i < |deeper| && deeper[i] == q;
        assert places[i] in places;
        RowBelow(ns, k, places[i]);
      }
      if IsPlace(ns, q) && q[0] == k {
        assert q == [k] + q[1..];
        RowBelow(ns, k, q[1..]);
        assert IsPlace(ns[k].children, q[1..]) && q[1..] in places;
        var i :| 0 <= i < |places| && places[i] == q[1..];
        assert deeper[i] == q;
      }
    }
  }

  lemma DeeperTold(r: Resolver, ns: seq<Node>, k: nat, path: Path, p: Place, places: seq<Path>,
      rows: seq<seq<string>>)
    requires k < |ns| && ns[k].Element? && ns[k].name != "tr"
    requires AllTold(r, ns[k].children, path + [k], p, places, rows)
    ensures AllTold(r, ns, path, p, Deeper(k, places), rows)
  {
    hide CellsListed, Deeper;
    forall i | 0 <= i < |rows| ensures RowTold(r, ns, path, p, Deeper(k, places)[i], rows[i]) {
      assert RowTold(r, ns[k].children, path + [k], p, places[i], rows[i]);
      RowBelow(ns, k, places[i]);
      assert path + [k] + places[i] == path + ([k] + places[i]);
    }
  }

  lemma DeeperListed(r: Resolver, ns: seq<Node>, k: nat, path: Path, p: Place, places: seq<Path>,
      rows: seq<seq<string>>)
    requires k < |ns| && ns[k].Element? && ns[k].name != "tr"
    requires RowsListed(r, ns[k].children, 0, |ns[k].children|, path + [k], p, places, rows)
    ensures RowsListed(r, ns, k, k + 1, path, p, Deeper(k, places), rows)
  {
    DeeperPlaces(ns, k, places);
    DeeperTold(r, ns, k, path, p, places, rows);
    hide AllPlaces, AllTold, Before;
    forall i, j | 0 <= i < j < |places| ensures Before(Deeper(k, places)[i], Deeper(k, places)[j]) {
      BeforeBelow(k, places[i], places[j]);
    }
  }

  /** A row of its own, if it has a cell. */
  lemma OwnRow(r: Resolver, ns: seq<Node>, k: nat, path: Path, p: Place) returns (places: seq<Path>)
    requires k < |ns| && ns[k].Element? && ns[k].name == "tr"
    ensures RowsListed(r, ns, k, k + 1, path, p, places, TableRows(r, ns[k], path + [k], p))
  {
    var at := CellsMeaning(r, ns[k].children, path + [k], p);
    SomeCell(r, ns[k].children, path + [k], p, at, Cells(r, ns[k].children, path + [k], p));
    hide CellAt, Cells, CellsListed;
    places := if Cells(r, ns[k].children, path + [k], p) == [] then [] else [[k]];
    forall q ensures q in places <==> IsPlace(ns, q) && k <= q[0] < k + 1 {
      assert |q| == 1 && q[0] == k ==> q == [k];
    }
  }

  lemma {:induction false} ChildRows(r: Resolver, ns: seq<Node>, k: nat, path: Path, p: Place)
      returns (places: seq<Path>)
    requires k < |ns|
    ensures RowsListed(r, ns, k, k + 1, path, p, places, TableRows(r, ns[k], path + [k], p))
    decreases ns[k]
  {
    if !ns[k].Element? {
      places := [];
    } else if ns[k].name == "tr" {
      places := OwnRow(r, ns, k, path, p);
    } else {
      var below := FirstRows(r, ns[k].children, |ns[k].children|, path + [k], p);
      places := Deeper(k, below);
      assert ns[k].children[..|ns[k].children|] == ns[k].children;
      hide RowsListed, TableRowsAll;
      DeeperListed(r, ns, k, path, p, below, TableRowsAll(r, ns[k].children, path + [k], p));
    }
  }

  lemma {:induction false} FirstRows(r: Resolver, ns: seq<Node>, n: nat, path: Path, p: Place)
      returns (places: seq<Path>)
    requires n <= |ns|
    ensures RowsListed(r, ns, 0, n, path, p, places, TableRowsAll(r, ns[..n], path, p))
    decreases ns, n
  {
    if n == 0 {
      places := [];
    } else {
      var k: nat := n - 1;
      var before := FirstRows(r, ns, k, path, p);
      var own := ChildRows(r, ns, k, path, p);
      places := before + own;
      assert ns[..n][..k] == ns[..k] && ns[..n][k] == ns[k];
      hide RowsListed, TableRows;
      OneMoreChild(r, ns, k, path, p, before, own, TableRowsAll(r, ns[..k], path, p),
                   TableRows(r, ns[k], path + [k], p));
    }
  }

  /**
   A table shows every row below it that has a cell and stands in no other row, in document order, and of each row the
   cells from left to right.
   */
  lemma TableRowsMeaning(r: Resolver, ns: seq<Node>, path: Path, p: Place) returns (places: seq<Path>)
    ensures var rows := TableRowsAll(r, ns, path, p);
      && |places| == |rows| && Ascending(places)
      && (forall q :: q in places <==> RowAt(ns, q).Some? && HasCell(RowAt(ns, q).value))
      && forall i :: 0 <= i < |rows| ==> RowTold(r, ns, path, p, places[i], rows[i])
  {
    places := FirstRows(r, ns, |ns|, path, p);
    assert ns[..|ns|] == ns;
    hide HasCell, RowTold, Before;
  }
}
