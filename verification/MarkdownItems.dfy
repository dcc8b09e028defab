/** HTML trees, and which list items are numbered: for every item its nearest list, and its numeral in that list. */
module MarkdownItems {
  import opened Prelude
  import opened Text

  datatype Node =
    | TextNode(text: string)
    | Element(name: string, attrs: map<string, string>, children: seq<Node>)
    | Other

  datatype Tag =
    Heading(level: nat) | Paragraph | Strong | Emphasis | Strike | Pre | Code | Anchor | Image
    | Bullets | Numbered | Item | Quote | Table | Break | Rule | Container

  function TagOf(name: string): Tag {
    var tag := Lower(name);
    if tag == "h1" then Heading(1)
    else if tag == "h2" then Heading(2)
    else if tag == "h3" then Heading(3)
    else if tag == "h4" then Heading(4)
    else if tag == "h5" then Heading(5)
    else if tag == "h6" then Heading(6)
    else if tag == "p" then Paragraph
    else if tag == "b" || tag == "strong" then Strong
    else if tag == "i" || tag == "em" then Emphasis
    else if tag == "s" || tag == "del" || tag == "strike" then Strike
    else if tag == "pre" then Pre
    else if tag == "code" then Code
    else if tag == "a" then Anchor
    else if tag == "img" then Image
    else if tag == "ul" then Bullets
    else if tag == "ol" then Numbered
    else if tag == "li" then Item
    else if tag == "blockquote" then Quote
    else if tag == "table" then Table
    else if tag == "br" then Break
    else if tag == "hr" then Rule
    else Container
  }

  predicate IsCell(n: Node) { n.Element? && (n.name == "th" || n.name == "td") }

  // ---- The items of a document ----

  /** A node is named by the child indices that lead to it. */
  type Path = seq<nat>

  /** The nearest list around a node. */
  datatype Near = Nowhere | BulletsAt(list: Path) | NumberedAt(list: Path)

  /** An item, and the numbered list that is its nearest list. */
  datatype Mark = Mark(list: Path, item: Path)

  /** The numbered items that rendering a node comes upon, in that order. */
  function Items(n: Node, path: Path, near: Near): seq<Mark>
    decreases n, 1
  {
    if n.Element? then ItemsBelow(TagOf(n.name), n.children, path, near) else []
  }

  function OwnMark(path: Path, near: Near): seq<Mark> {
    if near.NumberedAt? then [Mark(near.list, path)] else []
  }

  function ItemsBelow(tag: Tag, ns: seq<Node>, path: Path, near: Near): seq<Mark>
    decreases ns, 1
  {
    match tag
    case Bullets => ItemsAll(ns, path, BulletsAt(path))
    case Numbered => ItemsAll(ns, path, NumberedAt(path))
    case Image => []
    case Break => []
    case Rule => []
    case Item => OwnMark(path, near) + ItemsAll(ns, path, near)
    case Table => RowItemsAll(ns, path, near)
    case _ => ItemsAll(ns, path, near)
  }

  function ItemsAll(ns: seq<Node>, path: Path, near: Near): seq<Mark>
    decreases ns, 0
  {
    if ns == [] then []
    else ItemsAll(ns[..|ns| - 1], path, near) + Items(ns[|ns| - 1], path + [|ns| - 1], near)
  }

  /** The same for a node inside a table: only what is in cells is rendered. */
  function RowItems(n: Node, path: Path, near: Near): seq<Mark>
    decreases n, 1
  {
    if !n.Element? then []
    else if n.name == "tr" then CellItems(n.children, path, near)
    else RowItemsAll(n.children, path, near)
  }

  function RowItemsAll(ns: seq<Node>, path: Path, near: Near): seq<Mark>
    decreases ns, 0
  {
    if ns == [] then []
    else RowItemsAll(ns[..|ns| - 1], path, near) + RowItems(ns[|ns| - 1], path + [|ns| - 1], near)
  }

  function CellItems(ns: seq<Node>, path: Path, near: Near): seq<Mark>
    decreases ns, 0
  {
    if ns == [] then []
    else
      CellItems(ns[..|ns| - 1], path, near)
      + if IsCell(ns[|ns| - 1]) then ItemsAll(ns[|ns| - 1].children, path + [|ns| - 1], near) else []
  }

  function DocumentItems(roots: seq<Node>): seq<Mark> { ItemsAll(roots, [], Nowhere) }

  // ---- Numerals ----

  /** The items of one list, in order. */
  function ItemsOf(marks: seq<Mark>, list: Path): seq<Path> {
    if marks == [] then []
    else
      var last := marks[|marks| - 1];
      ItemsOf(marks[..|marks| - 1], list) + if last.list == list then [last.item] else []
  }

  /** One more than the number of earlier items with the same nearest list. */
  function NumeralOf(marks: seq<Mark>, item: Path): nat {
    if marks == [] then 0
    else
      var init, last := marks[..|marks| - 1], marks[|marks| - 1];
      if last.item == item then |ItemsOf(init, last.list)| + 1 else NumeralOf(init, item)
  }

  ghost predicate DistinctItems(marks: seq<Mark>) {
    forall i, j :: 0 <= i < j < |marks| ==> marks[i].item != marks[j].item
  }

  lemma {:induction false} ItemsOfConcat(a: seq<Mark>, b: seq<Mark>, list: Path)
    ensures ItemsOf(a + b, list) == ItemsOf(a, list) + ItemsOf(b, list)
  {
    if b == [] {
      assert a + b == a;
    } else {
      var init := b[..|b| - 1];
      assert (a + b)[..|a + b| - 1] == a + init;
      ItemsOfConcat(a, init, list);
    }
  }

  lemma {:induction false} ItemsOfOthers(marks: seq<Mark>, list: Path)
    requires forall m <- marks :: m.list != list
    ensures ItemsOf(marks, list) == []
  {
    if marks != [] { ItemsOfOthers(marks[..|marks| - 1], list); }
  }

  /** What comes after an item does not change its numeral. */
  lemma {:induction false} NumeralAt(marks: seq<Mark>, i: nat)
    requires DistinctItems(marks) && i < |marks|
    ensures NumeralOf(marks, marks[i].item) == |ItemsOf(marks[..i], marks[i].list)| + 1
  {
    var init := marks[..|marks| - 1];
    if i < |init| {
      NumeralAt(init, i);
      assert init[..i] == marks[..i];
      assert marks[i].item != marks[|marks| - 1].item;
    }
  }

  /** The k-th item of a list, of all the items with that nearest list, is among the marks. */
  lemma {:induction false} KthMark(marks: seq<Mark>, list: Path, k: nat) returns (i: nat)
    requires 1 <= k <= |ItemsOf(marks, list)|
    ensures i < |marks| && marks[i] == Mark(list, ItemsOf(marks, list)[k - 1])
    ensures |ItemsOf(marks[..i], list)| == k - 1
  {
    var init := marks[..|marks| - 1];
    if k <= |ItemsOf(init, list)| {
      i := KthMark(init, list, k);
      assert init[..i] == marks[..i];
    } else {
      i := |marks| - 1;
    }
  }

  // ---- Where the items are ----

  /** At or below one of the first `n` children. */
  predicate Under(q: Path, path: Path, n: nat) { path < q && q[|path|] < n }

  ghost predicate Owns(near: Near, list: Path) { near == NumberedAt(list) }

  /** The items are at or below the node, and so are their lists, except for the list around the node. */
  ghost predicate Within(marks: seq<Mark>, path: Path, near: Near) {
    forall m <- marks :: path <= m.item && (path <= m.list || Owns(near, m.list))
  }

  ghost predicate WithinChildren(marks: seq<Mark>, path: Path, n: nat, near: Near) {
    forall m <- marks :: Under(m.item, path, n) && (Under(m.list, path, n) || Owns(near, m.list))
  }

  lemma WithinOneMore(a: seq<Mark>, b: seq<Mark>, path: Path, n: nat, near: Near)
    requires WithinChildren(a, path, n, near) && Within(b, path + [n], near)
    ensures WithinChildren(a + b, path, n + 1, near)
  {
    forall m | m in b ensures Under(m.item, path, n + 1) && (Under(m.list, path, n + 1) || Owns(near, m.list)) {
      assert path + [n] <= m.item;
    }
  }

  lemma {:induction false} ItemsWithin(n: Node, path: Path, near: Near)
    ensures Within(Items(n, path, near), path, near)
    decreases n, 1
  {
    if n.Element? {
      var tag := TagOf(n.name);
      hide TagOf;
      match tag
      case Bullets => AllWithin(n.children, path, BulletsAt(path));
      case Numbered => AllWithin(n.children, path, NumberedAt(path));
      case Table => RowsWithin(n.children, path, near);
      case _ => AllWithin(n.children, path, near);
      hide ItemsAll, RowItemsAll;
    }
  }

  lemma {:induction false} AllWithin(ns: seq<Node>, path: Path, near: Near)
    ensures WithinChildren(ItemsAll(ns, path, near), path, |ns|, near)
    decreases ns, 0
  {
    if ns != [] {
      var k := |ns| - 1;
      AllWithin(ns[..k], path, near);
      ItemsWithin(ns[k], path + [k], near);
      WithinOneMore(ItemsAll(ns[..k], path, near), Items(ns[k], path + [k], near), path, k, near);
      hide Within, WithinChildren, Items;
    }
  }

  lemma {:induction false} RowWithin(n: Node, path: Path, near: Near)
    ensures Within(RowItems(n, path, near), path, near)
    decreases n, 1
  {
    if n.Element? {
      if n.name == "tr" { CellsWithin(n.children, path, near); } else { RowsWithin(n.children, path, near); }
      hide CellItems, RowItemsAll;
    }
  }

  lemma {:induction false} RowsWithin(ns: seq<Node>, path: Path, near: Near)
    ensures WithinChildren(RowItemsAll(ns, path, near), path, |ns|, near)
    decreases ns, 0
  {
    if ns != [] {
      var k := |ns| - 1;
      RowsWithin(ns[..k], path, near);
      RowWithin(ns[k], path + [k], near);
      WithinOneMore(RowItemsAll(ns[..k], path, near), RowItems(ns[k], path + [k], near), path, k, near);
      hide Within, WithinChildren, RowItems;
    }
  }

  lemma {:induction false} CellsWithin(ns: seq<Node>, path: Path, near: Near)
    ensures WithinChildren(CellItems(ns, path, near), path, |ns|, near)
    decreases ns, 0
  {
    if ns != [] {
      var k := |ns| - 1;
      CellsWithin(ns[..k], path, near);
      var marks := if IsCell(ns[k]) then ItemsAll(ns[k].children, path + [k], near) else [];
      if IsCell(ns[k]) { AllWithin(ns[k].children, path + [k], near); }
      assert Within(marks, path + [k], near);
      WithinOneMore(CellItems(ns[..k], path, near), marks, path, k, near);
      hide Within, WithinChildren, ItemsAll;
    }
  }

  // ---- Document order ----

  /** `p` comes before `q`: it is above it, or in an earlier child at the first step where they part. */
  ghost predicate Before(p: Path, q: Path) {
    p < q || exists k: nat :: k < |p| && k < |q| && p[..k] == q[..k] && p[k] < q[k]
  }

  ghost predicate InOrder(marks: seq<Mark>) {
    forall i, j :: 0 <= i < j < |marks| ==> Before(marks[i].item, marks[j].item)
  }

  lemma OrderedAreDistinct(marks: seq<Mark>)
    requires InOrder(marks)
    ensures DistinctItems(marks)
  {
    forall i, j | 0 <= i < j < |marks| ensures marks[i].item != marks[j].item {
      assert Before(marks[i].item, marks[j].item);
    }
  }

  /** The items of one child come before those of the next. */
  lemma OrderOneMore(a: seq<Mark>, b: seq<Mark>, path: Path, n: nat, near: Near)
    requires WithinChildren(a, path, n, near) && Within(b, path + [n], near) && InOrder(a) && InOrder(b)
    ensures InOrder(a + b)
  {
    forall i, j | 0 <= i < j < |a + b| ensures Before((a + b)[i].item, (a + b)[j].item) {
      if i < |a| <= j {
        var p, q := a[i].item, b[j - |a|].item;
        assert a[i] in a && b[j - |a|] in b;
        hide Within, WithinChildren;
        assert p[..|path|] == path == q[..|path|] && p[|path|] < n == q[|path|] by { PartAt(path, p, q, n); }
      } else if j < |a| {
        assert Before(a[i].item, a[j].item);
      } else {
        assert Before(b[i - |a|].item, b[j - |a|].item);
      }
    }
  }

  lemma PartAt(path: Path, p: Path, q: Path, n: nat)
    requires Under(p, path, n) && path + [n] <= q
    ensures |path| < |p| && |path| < |q| && p[..|path|] == path == q[..|path|] && p[|path|] < n == q[|path|]
  {
    assert q[..|path|] == (path + [n])[..|path|] == path;
  }

  lemma {:induction false} ItemsInOrder(n: Node, path: Path, near: Near)
    ensures InOrder(Items(n, path, near))
    decreases n, 1
  {
    if n.Element? {
      var tag := TagOf(n.name);
      hide TagOf;
      match tag
      case Bullets => AllInOrder(n.children, path, BulletsAt(path));
      case Numbered => AllInOrder(n.children, path, NumberedAt(path));
      case Table => RowsInOrder(n.children, path, near);
      case Item =>
        AllInOrder(n.children, path, near);
        AllWithin(n.children, path, near);
        OwnFirst(ItemsAll(n.children, path, near), path, |n.children|, near);
      case _ => AllInOrder(n.children, path, near);
      hide ItemsAll, RowItemsAll, InOrder;
    }
  }

  lemma OwnFirst(marks: seq<Mark>, path: Path, n: nat, near: Near)
    requires WithinChildren(marks, path, n, near) && InOrder(marks)
    ensures InOrder(OwnMark(path, near) + marks)
  {
    var all := OwnMark(path, near) + marks;
    forall i, j | 0 <= i < j < |all| ensures Before(all[i].item, all[j].item) {
      if near.NumberedAt? {
        assert all[j] == marks[j - 1] && marks[j - 1] in marks;
        if i > 0 { assert Before(marks[i - 1].item, marks[j - 1].item); }
      } else {
        assert Before(marks[i].item, marks[j].item);
      }
    }
  }

  lemma {:induction false} AllInOrder(ns: seq<Node>, path: Path, near: Near)
    ensures InOrder(ItemsAll(ns, path, near))
    decreases ns, 0
  {
    if ns != [] {
      var k := |ns| - 1;
      AllInOrder(ns[..k], path, near);
      AllWithin(ns[..k], path, near);
      ItemsInOrder(ns[k], path + [k], near);
      ItemsWithin(ns[k], path + [k], near);
      OrderOneMore(ItemsAll(ns[..k], path, near), Items(ns[k], path + [k], near), path, k, near);
      hide Within, WithinChildren, Items, InOrder;
    }
  }

  lemma {:induction false} RowInOrder(n: Node, path: Path, near: Near)
    ensures InOrder(RowItems(n, path, near))
    decreases n, 1
  {
    if n.Element? {
      if n.name == "tr" { CellsInOrder(n.children, path, near); } else { RowsInOrder(n.children, path, near); }
      hide CellItems, RowItemsAll, InOrder;
    }
  }

  lemma {:induction false} RowsInOrder(ns: seq<Node>, path: Path, near: Near)
    ensures InOrder(RowItemsAll(ns, path, near))
    decreases ns, 0
  {
    if ns != [] {
      var k := |ns| - 1;
      RowsInOrder(ns[..k], path, near);
      RowsWithin(ns[..k], path, near);
      RowInOrder(ns[k], path + [k], near);
      RowWithin(ns[k], path + [k], near);
      OrderOneMore(RowItemsAll(ns[..k], path, near), RowItems(ns[k], path + [k], near), path, k, near);
      hide Within, WithinChildren, RowItems, InOrder;
    }
  }

  lemma {:induction false} CellsInOrder(ns: seq<Node>, path: Path, near: Near)
    ensures InOrder(CellItems(ns, path, near))
    decreases ns, 0
  {
    if ns != [] {
      var k := |ns| - 1;
      CellsInOrder(ns[..k], path, near);
      CellsWithin(ns[..k], path, near);
      var marks := if IsCell(ns[k]) then ItemsAll(ns[k].children, path + [k], near) else [];
      if IsCell(ns[k]) {
        AllInOrder(ns[k].children, path + [k], near);
        AllWithin(ns[k].children, path + [k], near);
      }
      assert Within(marks, path + [k], near) && InOrder(marks);
      OrderOneMore(CellItems(ns[..k], path, near), marks, path, k, near);
      hide Within, WithinChildren, ItemsAll, InOrder;
    }
  }

  // ---- Which items, path by path ----

  /** What the children of a node are searched for. */
  datatype Search = ForText | ForRows | ForCells

  /**
   The nearest list of the item that `rest` leads to from these children, if it leads to an item that is rendered:
   nothing below an image, a break or a rule is, and in a table only what is in the cells of its rows.
   */
  function NearestList(ns: seq<Node>, path: Path, rest: Path, search: Search, near: Near): Option<Near>
    decreases |rest|, 0
  {
    if rest == [] || rest[0] >= |ns| then None
    else NearestIn(ns[rest[0]], path + [rest[0]], rest[1..], search, near)
  }

  function NearestIn(n: Node, path: Path, rest: Path, search: Search, near: Near): Option<Near>
    decreases |rest|, 1
  {
    if !n.Element? then None
    else
      match search
      case ForRows => NearestList(n.children, path, rest, if n.name == "tr" then ForCells else ForRows, near)
      case ForCells => if IsCell(n) then NearestList(n.children, path, rest, ForText, near) else None
      case ForText =>
        match TagOf(n.name)
        case Image => None
        case Break => None
        case Rule => None
        case Bullets => NearestList(n.children, path, rest, ForText, BulletsAt(path))
        case Numbered => NearestList(n.children, path, rest, ForText, NumberedAt(path))
        case Table => NearestList(n.children, path, rest, ForRows, near)
        case Item => if rest == [] then Some(near) else NearestList(n.children, path, rest, ForText, near)
        case _ => NearestList(n.children, path, rest, ForText, near)
  }

  function Found(ns: seq<Node>, path: Path, search: Search, near: Near): seq<Mark> {
    match search
    case ForText => ItemsAll(ns, path, near)
    case ForRows => RowItemsAll(ns, path, near)
    case ForCells => CellItems(ns, path, near)
  }

  function FoundIn(n: Node, path: Path, search: Search, near: Near): seq<Mark> {
    match search
    case ForText => Items(n, path, near)
    case ForRows => RowItems(n, path, near)
    case ForCells => if IsCell(n) then ItemsAll(n.children, path, near) else []
  }

  lemma FoundInWithin(n: Node, path: Path, search: Search, near: Near)
    ensures Within(FoundIn(n, path, search, near), path, near)
  {
    match search
    case ForText => ItemsWithin(n, path, near);
    case ForRows => RowWithin(n, path, near);
    case ForCells => if IsCell(n) { AllWithin(n.children, path, near); }
    hide Items, RowItems, ItemsAll;
  }

  /** An item is found in the child that its path names, if anywhere. */
  lemma {:induction false} FoundInChild(ns: seq<Node>, path: Path, search: Search, near: Near, m: Mark)
    ensures m in Found(ns, path, search, near)
       <==> Under(m.item, path, |ns|)
            && m in FoundIn(ns[m.item[|path|]], path + [m.item[|path|]], search, near)
  {
    if ns != [] {
      var k := |ns| - 1;
      var init, last := ns[..k], path + [k];
      FoundInChild(init, path, search, near, m);
      FoundInWithin(ns[k], last, search, near);
      assert Found(ns, path, search, near) == Found(init, path, search, near) + FoundIn(ns[k], last, search, near);
      hide Found, FoundIn;
      if m in FoundIn(ns[k], last, search, near) {
        assert last <= m.item;
        assert Under(m.item, path, k + 1) && m.item[|path|] == k;
      }
    }
  }

  /** The items are exactly those that their paths lead to, each with its nearest list, and that list is numbered. */
  lemma {:induction false} FoundByPath(ns: seq<Node>, path: Path, search: Search, near: Near, m: Mark)
    requires path <= m.item
    ensures m in Found(ns, path, search, near)
       <==> NearestList(ns, path, m.item[|path|..], search, near) == Some(NumberedAt(m.list))
    decreases |m.item| - |path|, 0
  {
    var rest := m.item[|path|..];
    FoundInChild(ns, path, search, near, m);
    hide NearestIn, Found, FoundIn;
    if rest != [] && rest[0] < |ns| {
      var here := path + [rest[0]];
      assert here <= m.item && m.item[|here|..] == rest[1..];
      FoundInByPath(ns[rest[0]], here, search, near, m);
    }
  }

  lemma {:induction false} FoundInByPath(n: Node, path: Path, search: Search, near: Near, m: Mark)
    requires path <= m.item
    ensures m in FoundIn(n, path, search, near)
       <==> NearestIn(n, path, m.item[|path|..], search, near) == Some(NumberedAt(m.list))
    decreases |m.item| - |path|, 1
  {
    hide TagOf, NearestList, ItemsAll, RowItemsAll, CellItems;
    if n.Element? {
      var ns := n.children;
      match search
      case ForRows => FoundByPath(ns, path, if n.name == "tr" then ForCells else ForRows, near, m);
      case ForCells => FoundByPath(ns, path, ForText, near, m);
      case ForText =>
        assert Items(n, path, near) == ItemsBelow(TagOf(n.name), ns, path, near);
        match TagOf(n.name)
        case Bullets => FoundByPath(ns, path, ForText, BulletsAt(path), m);
        case Numbered => FoundByPath(ns, path, ForText, NumberedAt(path), m);
        case Table => FoundByPath(ns, path, ForRows, near, m);
        case Item =>
          FoundByPath(ns, path, ForText, near, m);
          OwnItem(ns, path, near, m);
        case _ => FoundByPath(ns, path, ForText, near, m);
    }
  }

  lemma OwnItem(ns: seq<Node>, path: Path, near: Near, m: Mark)
    requires path <= m.item
    ensures m.item == path ==>
      m !in ItemsAll(ns, path, near) && (m in OwnMark(path, near) <==> near == NumberedAt(m.list))
    ensures m.item != path ==> m !in OwnMark(path, near)
    ensures m.item == path <==> m.item[|path|..] == []
  {
    AllWithin(ns, path, near);
    hide ItemsAll;
  }

  /** An item is numbered if and only if it is rendered and its nearest list is numbered, and then for that list. */
  lemma ItemsMeaning(roots: seq<Node>, list: Path, item: Path)
    ensures Mark(list, item) in DocumentItems(roots)
       <==> NearestList(roots, [], item, ForText, Nowhere) == Some(NumberedAt(list))
  {
    var root: Path := [];
    assert item[|root|..] == item;
    FoundByPath(roots, root, ForText, Nowhere, Mark(list, item));
    hide NearestList, ItemsAll;
  }

  /** The node that a path leads to. */
  function NodeAt(ns: seq<Node>, path: Path): Option<Node> {
    if path == [] || path[0] >= |ns| then None
    else if |path| == 1 then Some(ns[path[0]])
    else if ns[path[0]].Element? then NodeAt(ns[path[0]].children, path[1..])
    else None
  }

  predicate IsItem(n: Node) { n.Element? && TagOf(n.name) == Item }

  lemma {:induction false} NearestListOfItem(ns: seq<Node>, path: Path, rest: Path, search: Search, near: Near)
    requires NearestList(ns, path, rest, search, near).Some?
    ensures NodeAt(ns, rest).Some? && IsItem(NodeAt(ns, rest).value)
    decreases |rest|
  {
    var n, here, deeper := ns[rest[0]], path + [rest[0]], rest[1..];
    if deeper == [] {
      EndsAtItem(n, here, deeper, search, near);
    } else {
      var search', near' := LooksDeeper(n, here, deeper, search, near);
      NearestListOfItem(n.children, here, deeper, search', near');
    }
  }

  lemma EndsAtItem(n: Node, path: Path, rest: Path, search: Search, near: Near)
    requires NearestIn(n, path, rest, search, near).Some? && rest == []
    ensures IsItem(n)
  {
    hide TagOf;
  }

  lemma LooksDeeper(n: Node, path: Path, rest: Path, search: Search, near: Near) returns (search': Search, near': Near)
    requires NearestIn(n, path, rest, search, near).Some? && rest != []
    ensures n.Element? && NearestList(n.children, path, rest, search', near').Some?
  {
    hide TagOf, NearestList;
    var tag := TagOf(n.name);
    search' := match search
      case ForRows => if n.name == "tr" then ForCells else ForRows
      case ForCells => ForText
      case ForText => if tag == Table then ForRows else ForText;
    near' := if search != ForText then near
      else if tag == Bullets then BulletsAt(path) else if tag == Numbered then NumberedAt(path) else near;
  }

  // ---- The numerals of a document ----

  /** The k-th item of a numbered list has the numeral k, on any tree. */
  lemma KthItemHasNumeralK(roots: seq<Node>, list: Path, k: nat)
    requires 1 <= k <= |ItemsOf(DocumentItems(roots), list)|
    ensures var item := ItemsOf(DocumentItems(roots), list)[k - 1];
      NumeralOf(DocumentItems(roots), item) == k && Mark(list, item) in DocumentItems(roots)
  {
    var marks := DocumentItems(roots);
    var root: Path := [];
    AllInOrder(roots, root, Nowhere);
    OrderedAreDistinct(marks);
    hide DocumentItems, ItemsOf, NumeralOf;
    var i := KthMark(marks, list, k);
    NumeralAt(marks, i);
  }
}
