/** The list counters of the renderer: a stack of counters, and a record of every numeral printed. */
module MarkdownLists {
  import opened Prelude
  import opened MarkdownItems
  import opened Markdown

  /**
   The state of the context. A counter of zero is a bullet list; otherwise it is the next numeral. `open` holds the
   paths of the lists on the stack, `log` the items numbered so far, and `all` the items of the whole document.
   */
  datatype Lists = Lists(
    depth: nat, indices: seq<nat>, pre: bool, open: seq<Path>, log: seq<Mark>, all: seq<Mark>)

  /** The depth is the height of the stack. */
  ghost predicate Stacked(l: Lists) {
    && |l.open| == |l.indices| == l.depth
    && forall i, j :: 0 <= i < j < |l.open| ==> l.open[i] != l.open[j]
  }

  /** A counter is one more than the number of items numbered so far for its list. */
  ghost predicate CountersTell(l: Lists)
    requires |l.open| == |l.indices|
  {
    forall j :: 0 <= j < |l.open| ==> l.indices[j] == 0 || l.indices[j] == |ItemsOf(l.log, l.open[j])| + 1
  }

  ghost predicate Sound(l: Lists) { Stacked(l) && CountersTell(l) }

  function NearOf(l: Lists): Near {
    if l.indices == [] || l.open == [] then Nowhere
    else if l.indices[|l.indices| - 1] == 0 then BulletsAt(l.open[|l.open| - 1])
    else NumberedAt(l.open[|l.open| - 1])
  }

  function PlaceOf(l: Lists): Place { Place(l.depth, NearOf(l), l.pre, l.all) }

  /** These items are the next ones of the document. */
  ghost predicate Next(l: Lists, marks: seq<Mark>) { DistinctItems(l.all) && l.log + marks <= l.all }

  /** The renderer stands before the node: it has numbered nothing for a list at or below it, and is below all lists. */
  ghost predicate Facing(l: Lists, path: Path) {
    && (forall m <- l.log :: !(path <= m.list))
    && forall q <- l.open :: q < path
  }

  /** The same, before the children of the node. */
  ghost predicate Inside(l: Lists, path: Path) {
    && (forall m <- l.log :: !(path < m.list))
    && forall q <- l.open :: q <= path
  }

  /** Only the counter of the innermost list moves, by the items of that list, and only if the list is numbered. */
  function Bumped(l: Lists, marks: seq<Mark>): seq<nat> {
    var top := |l.indices| - 1;
    if l.indices == [] || l.open == [] || l.indices[top] == 0 then l.indices
    else l.indices[top := l.indices[top] + |ItemsOf(marks, l.open[|l.open| - 1])|]
  }

  /** What rendering something with these items leaves behind. */
  ghost predicate After(a: Lists, b: Lists, marks: seq<Mark>) {
    && b.depth == a.depth
    && b.pre == a.pre
    && b.open == a.open
    && b.indices == Bumped(a, marks)
    && b.log == a.log + marks
    && b.all == a.all
    && Sound(b)
  }

  lemma AfterNothing(a: Lists)
    requires Sound(a)
    ensures After(a, a, [])
  {
    hide Sound;
    assert a.log + [] == a.log;
  }

  lemma AfterThen(a: Lists, b: Lists, d: Lists, m: seq<Mark>, n: seq<Mark>)
    requires After(a, b, m) && After(b, d, n)
    ensures After(a, d, m + n)
  {
    if a.open != [] { ItemsOfConcat(m, n, a.open[|a.open| - 1]); }
    hide Sound, ItemsOf;
    assert a.log + m + n == a.log + (m + n);
  }

  lemma AfterPlace(a: Lists, b: Lists, marks: seq<Mark>)
    requires After(a, b, marks)
    ensures PlaceOf(b) == PlaceOf(a)
    ensures Sound(b)
  {
    hide Sound, ItemsOf;
  }

  // ---- The steps on the stack ----

  function Opened(l: Lists, counter: nat, path: Path): Lists {
    l.(depth := l.depth + 1, indices := l.indices + [counter], open := l.open + [path])
  }

  function Closed(l: Lists): Lists
    requires l.depth > 0 && l.indices != [] && l.open != []
  {
    l.(depth := l.depth - 1, indices := l.indices[..|l.indices| - 1], open := l.open[..|l.open| - 1])
  }

  /** Printing the marker of the item at `path`; a numbered list counts on. */
  function Marked(l: Lists, path: Path): Lists
    requires |l.open| == |l.indices|
  {
    var top := |l.indices| - 1;
    if l.indices == [] || l.indices[top] == 0 then l
    else l.(indices := l.indices[top := l.indices[top] + 1],
            log := l.log + [Mark(l.open[top], path)])
  }

  function NearHere(counter: nat, path: Path): Near { if counter == 0 then BulletsAt(path) else NumberedAt(path) }

  /** A list is opened at a node for which nothing has been numbered yet. */
  lemma OpenedSound(l: Lists, counter: nat, path: Path)
    requires Sound(l) && Facing(l, path) && counter <= 1
    ensures Sound(Opened(l, counter, path)) && Inside(Opened(l, counter, path), path)
    ensures PlaceOf(Opened(l, counter, path)) == InList(PlaceOf(l), NearHere(counter, path))
  {
    ItemsOfOthers(l.log, path);
    hide ItemsOf;
    assert forall i :: 0 <= i < |l.open| ==> l.open[i] in l.open;
  }

  /** Closing the list that was opened restores the stack, whatever was rendered in between. */
  lemma ClosedRestores(a: Lists, b: Lists, counter: nat, path: Path, marks: seq<Mark>)
    requires Sound(a) && Facing(a, path) && After(Opened(a, counter, path), b, marks)
    requires forall m <- marks :: path <= m.list
    ensures b.depth > 0 && b.indices != [] && b.open != []
    ensures After(a, Closed(b), marks)
  {
    var c := Closed(b);
    assert c.indices == a.indices && c.open == a.open;
    assert c.indices == Bumped(a, marks) by {
      if a.open != [] {
        assert a.open[|a.open| - 1] in a.open;
        ItemsOfOthers(marks, a.open[|a.open| - 1]);
      }
      hide ItemsOf;
    }
    assert Sound(c) by {
      hide ItemsOf, Bumped;
    }
    hide Sound, Bumped, ItemsOf;
  }

  /** The counter that is printed is the numeral of the item in the document. */
  lemma CounterIsNumeral(l: Lists, path: Path, rest: seq<Mark>)
    requires Sound(l) && l.indices != [] && l.indices[|l.indices| - 1] != 0
    requires Next(l, [Mark(l.open[|l.open| - 1], path)] + rest)
    ensures l.indices[|l.indices| - 1] == NumeralOf(l.all, path)
  {
    var k := |l.log|;
    assert l.all[k] == Mark(l.open[|l.open| - 1], path) && l.all[..k] == l.log;
    hide ItemsOf, NumeralOf;
    NumeralAt(l.all, k);
  }

  lemma MarkedCounters(l: Lists, path: Path)
    requires Stacked(l) && CountersTell(l)
    ensures |Marked(l, path).open| == |Marked(l, path).indices| && CountersTell(Marked(l, path))
  {
    var m, top := Marked(l, path), |l.indices| - 1;
    if l.indices != [] && l.indices[top] != 0 {
      forall j | 0 <= j < |m.open| ensures m.indices[j] == 0 || m.indices[j] == |ItemsOf(m.log, m.open[j])| + 1 {
        ItemsOfOne(l.log, Mark(l.open[top], path), m.open[j]);
        hide ItemsOf;
      }
    }
  }

  lemma ItemsOfOne(marks: seq<Mark>, m: Mark, list: Path)
    ensures ItemsOf(marks + [m], list) == ItemsOf(marks, list) + if m.list == list then [m.item] else []
  {
    assert (marks + [m])[..|marks|] == marks;
  }

  /** Printing a numeral moves the counter of the innermost list and adds the item to the record. */
  lemma MarkedMoves(l: Lists, path: Path)
    requires Stacked(l)
    ensures var m, own := Marked(l, path), OwnMark(path, NearOf(l));
      && m.indices == Bumped(l, own) && m.log == l.log + own && Stacked(m)
  {
    if NearOf(l).NumberedAt? {
      var top := |l.indices| - 1;
      ItemsOfOne([], Mark(l.open[top], path), l.open[top]);
    } else {
      assert l.log + [] == l.log;
    }
  }

  /** The marker of an item shows its numeral, or a bullet; every counter stays one ahead. */
  lemma MarkedSound(l: Lists, path: Path, rest: seq<Mark>)
    requires Sound(l) && Next(l, OwnMark(path, NearOf(l)) + rest)
    ensures After(l, Marked(l, path), OwnMark(path, NearOf(l)))
    ensures NearOf(l).NumberedAt? ==> l.indices[|l.indices| - 1] == NumeralOf(l.all, path)
  {
    if NearOf(l).NumberedAt? { CounterIsNumeral(l, path, rest); }
    MarkedCounters(l, path);
    MarkedMoves(l, path);
    hide CountersTell, NumeralOf, Next, Stacked, Bumped, OwnMark, NearOf;
  }

  // ---- From a node to its children, and from child to child ----

  /** Ready to render a node with these items. */
  ghost predicate ReadyAt(l: Lists, marks: seq<Mark>, path: Path) { Sound(l) && Facing(l, path) && Next(l, marks) }

  /** Ready to render the children of a node, with these items. */
  ghost predicate ReadyBelow(l: Lists, marks: seq<Mark>, path: Path) { Sound(l) && Inside(l, path) && Next(l, marks) }

  lemma ReadySound(l: Lists, marks: seq<Mark>, path: Path)
    requires ReadyBelow(l, marks, path)
    ensures Sound(l)
  {
  }

  lemma ReadyFaces(l: Lists, marks: seq<Mark>, path: Path)
    requires ReadyAt(l, marks, path)
    ensures Sound(l) && Facing(l, path)
  {
  }

  lemma NextLater(a: Lists, b: Lists, m: seq<Mark>, n: seq<Mark>)
    requires Next(a, m + n) && b.log == a.log + m && b.all == a.all
    ensures Next(b, n)
  {
    assert b.log + n == a.log + (m + n);
    hide DistinctItems;
  }

  lemma NextFirst(l: Lists, m: seq<Mark>, n: seq<Mark>)
    requires Next(l, n) && m <= n
    ensures Next(l, m)
  {
    assert l.log + m <= l.log + n;
    hide DistinctItems;
  }

  lemma EnterNode(l: Lists, marks: seq<Mark>, path: Path)
    requires ReadyAt(l, marks, path)
    ensures ReadyBelow(l, marks, path)
  {
    hide Sound, Next;
  }

  lemma EnterItem(l: Lists, path: Path, rest: seq<Mark>)
    requires ReadyAt(l, OwnMark(path, NearOf(l)) + rest, path)
    ensures ReadyBelow(Marked(l, path), rest, path)
  {
    MarkedSound(l, path, rest);
    NextLater(l, Marked(l, path), OwnMark(path, NearOf(l)), rest);
    hide After, Sound, Next;
    assert l.open != [] ==> l.open[|l.open| - 1] in l.open;
  }

  lemma EnterList(l: Lists, counter: nat, path: Path, marks: seq<Mark>)
    requires ReadyAt(l, marks, path) && counter <= 1
    ensures ReadyBelow(Opened(l, counter, path), marks, path)
    ensures PlaceOf(Opened(l, counter, path)) == InList(PlaceOf(l), NearHere(counter, path))
  {
    OpenedSound(l, counter, path);
    hide Sound, Facing, Inside, DistinctItems;
  }

  lemma {:induction false} FoundFirst(ns: seq<Node>, i: nat, path: Path, search: Search, near: Near)
    requires i <= |ns|
    ensures Found(ns[..i], path, search, near) <= Found(ns, path, search, near)
    decreases |ns| - i
  {
    if i < |ns| {
      FoundNext(ns, i, path, search, near);
      FoundFirst(ns, i + 1, path, search, near);
      hide Found, FoundIn;
    } else {
      assert ns[..i] == ns;
    }
  }

  lemma FoundNext(ns: seq<Node>, i: nat, path: Path, search: Search, near: Near)
    requires i < |ns|
    ensures Found(ns[..i + 1], path, search, near)
         == Found(ns[..i], path, search, near) + FoundIn(ns[i], path + [i], search, near)
  {
    var first := ns[..i + 1];
    assert first[..|first| - 1] == ns[..i];
    hide Items, RowItems, IsCell;
  }

  lemma FoundWithin(ns: seq<Node>, path: Path, search: Search, near: Near)
    ensures WithinChildren(Found(ns, path, search, near), path, |ns|, near)
  {
    match search
    case ForText => AllWithin(ns, path, near);
    case ForRows => RowsWithin(ns, path, near);
    case ForCells => CellsWithin(ns, path, near);
    hide WithinChildren, ItemsAll, RowItemsAll, CellItems;
  }

  lemma FacesChild(a: Lists, b: Lists, marks: seq<Mark>, path: Path, i: nat)
    requires Inside(a, path) && WithinChildren(marks, path, i, NearOf(a)) && After(a, b, marks)
    ensures Facing(b, path + [i])
  {
    hide Bumped, Sound;
    assert a.open != [] ==> a.open[|a.open| - 1] in a.open;
    forall m | m in b.log ensures !(path + [i] <= m.list) {
      if path + [i] <= m.list {
        assert false;
      }
    }
  }

  /** After the first children, the renderer is ready for the next one. */
  lemma EnterChild(a: Lists, b: Lists, ns: seq<Node>, i: nat, path: Path, search: Search)
    requires i < |ns| && ReadyBelow(a, Found(ns, path, search, NearOf(a)), path)
    requires After(a, b, Found(ns[..i], path, search, NearOf(a)))
    ensures ReadyAt(b, FoundIn(ns[i], path + [i], search, NearOf(a)), path + [i])
    ensures PlaceOf(b) == PlaceOf(a) && NearOf(b) == NearOf(a)
  {
    var near := NearOf(a);
    var first, here := Found(ns[..i], path, search, near), FoundIn(ns[i], path + [i], search, near);
    FoundWithin(ns[..i], path, search, near);
    FacesChild(a, b, first, path, i);
    FoundNext(ns, i, path, search, near);
    FoundFirst(ns, i + 1, path, search, near);
    AfterPlace(a, b, first);
    hide Found, FoundIn, Sound, Facing, Inside;
    NextFirst(a, first + here, Found(ns, path, search, near));
    hide WithinChildren;
    AfterLog(a, b, first);
    hide After;
    NextLater(a, b, first, here);
  }

  lemma AfterLog(a: Lists, b: Lists, marks: seq<Mark>)
    requires After(a, b, marks)
    ensures b.log == a.log + marks && b.all == a.all
  {
  }

  /** One more child has been rendered. */
  lemma ChildDone(a: Lists, b: Lists, d: Lists, ns: seq<Node>, i: nat, path: Path, search: Search, near: Near)
    requires i < |ns| && After(a, b, Found(ns[..i], path, search, near))
    requires After(b, d, FoundIn(ns[i], path + [i], search, near))
    ensures After(a, d, Found(ns[..i + 1], path, search, near))
  {
    FoundNext(ns, i, path, search, near);
    hide Found, FoundIn, After;
    AfterThen(a, b, d, Found(ns[..i], path, search, near), FoundIn(ns[i], path + [i], search, near));
  }

  lemma NoneDone(a: Lists, ns: seq<Node>, path: Path, search: Search)
    requires Sound(a)
    ensures After(a, a, Found(ns[..0], path, search, NearOf(a)))
  {
    AfterNothing(a);
    hide After;
  }
}
