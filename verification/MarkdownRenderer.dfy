/** The renderer as it runs: a tree walk that appends to a buffer and keeps its list counters in a context. */
module MarkdownRenderer {
  import opened Prelude
  import opened Text
  import opened MarkdownTable
  import opened MarkdownItems
  import opened Markdown
  import opened MarkdownLists

  class MarkdownContext {
    var listDepth: nat
    var listIndices: seq<nat>
    var insidePre: bool
    /** The lists on the stack, the items numbered so far, and the items of the document. */
    ghost var open: seq<Path>
    ghost var log: seq<Mark>
    ghost var all: seq<Mark>

    constructor (ghost items: seq<Mark>)
      ensures State() == Lists(0, [], false, [], [], items)
    {
      listDepth, listIndices, insidePre, open, log, all := 0, [], false, [], [], items;
    }

    ghost function State(): Lists
      reads this
    {
      Lists(listDepth, listIndices, insidePre, open, log, all)
    }

    method OpenList(counter: nat, ghost path: Path)
      modifies this
      ensures State() == Opened(old(State()), counter, path)
    {
      listDepth := listDepth + 1;
      listIndices := listIndices + [counter];
      open := open + [path];
    }

    method CloseList()
      requires listDepth > 0 && listIndices != [] && open != []
      modifies this
      ensures State() == Closed(old(State()))
    {
      listIndices := listIndices[..|listIndices| - 1];
      open := open[..|open| - 1];
      listDepth := listDepth - 1;
    }

    /** The marker of the next item; in a numbered list its counter, which is the rank of the item in that list. */
    method NextMarker(ghost path: Path, ghost rest: seq<Mark>) returns (marker: string)
      requires Sound(State()) && Next(State(), OwnMark(path, NearOf(State())) + rest)
      modifies this
      ensures State() == Marked(old(State()), path)
      ensures marker == MarkerText(path, old(PlaceOf(State())))
    {
      MarkedSound(State(), path, rest);
      hide NumeralOf, Decimal, CountersTell, After;
      var top := |listIndices| - 1;
      if listIndices == [] || listIndices[top] == 0 {
        marker := "- ";
      } else {
        marker := Decimal(listIndices[top]) + ". ";
        log := log + [Mark(open[top], path)];
        listIndices := listIndices[top := listIndices[top] + 1];
      }
    }
  }

  // ---- Buffers ----

  method AppendNewlines(out: string, count: nat) returns (out': string)
    ensures out' == EnsureNewline(out, count)
  {
    var existing := 0;
    var k := |out|;
    assert out[..k] == out;
    while k > 0 && out[k - 1] == '\n'
      invariant 0 <= k <= |out|
      invariant Trailing(out) == existing + Trailing(out[..k])
    {
      assert out[..k][..k - 1] == out[..k - 1];
      existing := existing + 1;
      k := k - 1;
    }
    out' := out;
    var added := 0;
    while existing + added < count
      invariant existing + added <= Max(count, existing)
      invariant out' == out + Repeat("\n", added)
    {
      assert Repeat("\n", added + 1) == Repeat("\n", added) + "\n";
      out' := out' + "\n";
      added := added + 1;
    }
  }

  method AppendText(out: string, text: string, pre: bool) returns (out': string)
    ensures out' == AddText(out, text, pre)
  {
    if pre {
      return out + text;
    }
    var prevSpace := EndsSpaced(out);
    out' := out;
    for i := 0 to |text|
      invariant PushText(out, text, EndsSpaced(out)) == PushText(out', text[i..], prevSpace)
    {
      assert text[i..][1..] == text[i + 1..];
      hide IsWhitespace, EndsSpaced;
      if IsWhitespace(text[i]) {
        if !prevSpace {
          out' := out' + " ";
          prevSpace := true;
        }
      } else {
        out' := out' + [text[i]];
        prevSpace := false;
      }
    }
  }

  method FindLanguage(children: seq<Node>) returns (lang: string)
    ensures lang == Language(children, "")
  {
    lang := "";
    for i := 0 to |children|
      invariant Language(children, "") == Language(children[i..], lang)
    {
      assert children[i..][1..] == children[i + 1..];
      var c := children[i];
      if c.Element? && c.name == "code" && "class" in c.attrs {
        var classes := Words(c.attrs["class"]);
        ghost var before := lang;
        for j := 0 to |classes|
          invariant LanguageOf(classes, before) == LanguageOf(classes[j..], lang)
        {
          assert classes[j..][1..] == classes[j + 1..];
          if StartsWith(classes[j], "language-") {
            lang := classes[j][|"language-"|..];
          } else if StartsWith(classes[j], "lang-") {
            lang := classes[j][|"lang-"|..];
          }
        }
      }
    }
  }

  method AppendQuote(out: string, lines: seq<string>) returns (out': string)
    ensures out' == QuoteLines(out, lines)
  {
    out' := out;
    for i := 0 to |lines|
      invariant QuoteLines(out, lines) == QuoteLines(out', lines[i..])
    {
      assert lines[i..][1..] == lines[i + 1..];
      hide Trim;
      var trimmed := Trim(lines[i]);
      if trimmed != "" {
        out' := out' + "> " + trimmed + "\n";
      }
    }
  }

  // ---- The tree walk ----

  lemma RenderAllNext(r: Resolver, ns: seq<Node>, i: nat, path: Path, out: string, p: Place)
    requires i < |ns|
    ensures RenderAll(r, ns[..i + 1], path, out, p)
         == Render(r, ns[i], path + [i], RenderAll(r, ns[..i], path, out, p), p)
  {
    assert ns[..i + 1][..i] == ns[..i];
    hide Render;
  }

  method RenderChildren(r: Resolver, ns: seq<Node>, ghost path: Path, out: string, ctx: MarkdownContext)
      returns (out': string)
    requires ReadyBelow(ctx.State(), ItemsAll(ns, path, NearOf(ctx.State())), path)
    modifies ctx
    ensures out' == RenderAll(r, ns, path, out, old(PlaceOf(ctx.State())))
    ensures After(old(ctx.State()), ctx.State(), old(ItemsAll(ns, path, NearOf(ctx.State()))))
    decreases ns, 0
  {
    ghost var start := ctx.State();
    ghost var p, near := PlaceOf(start), NearOf(start);
    out' := out;
    hide Sound, ReadyBelow, ReadyAt, After, PlaceOf, NearOf, Render, ItemsAll, Items;
    ReadySound(start, ItemsAll(ns, path, near), path);
    NoneDone(start, ns, path, ForText);
    for i := 0 to |ns|
      invariant out' == RenderAll(r, ns[..i], path, out, p)
      invariant After(start, ctx.State(), Found(ns[..i], path, ForText, near))
    {
      ghost var here := ctx.State();
      EnterChild(start, here, ns, i, path, ForText);
      RenderAllNext(r, ns, i, path, out, p);
      hide RenderAll;
      out' := RenderNode(r, ns[i], path + [i], out', ctx);
      hide Found;
      ChildDone(start, here, ctx.State(), ns, i, path, ForText, near);
    }
    assert ns[..|ns|] == ns;
  }

  method RenderNode(r: Resolver, n: Node, ghost path: Path, out: string, ctx: MarkdownContext) returns (out': string)
    requires ReadyAt(ctx.State(), Items(n, path, NearOf(ctx.State())), path)
    modifies ctx
    ensures out' == Render(r, n, path, out, old(PlaceOf(ctx.State())))
    ensures After(old(ctx.State()), ctx.State(), old(Items(n, path, NearOf(ctx.State()))))
    decreases n, 4
  {
    assert Sound(ctx.State());
    hide Sound, ReadyAt, After, NearOf, TagOf, ItemsBelow, RenderElement, AddText;
    match n
    case TextNode(text) =>
      AfterNothing(ctx.State());
      out' := AppendText(out, text, ctx.insidePre);
    case Other =>
      AfterNothing(ctx.State());
      out' := out;
    case Element(name, attrs, children) =>
      out' := RenderTagged(r, n, TagOf(name), path, out, ctx);
  }

  method RenderTagged(r: Resolver, n: Node, tag: Tag, ghost path: Path, out: string, ctx: MarkdownContext)
      returns (out': string)
    requires n.Element? && tag == TagOf(n.name)
    requires ReadyAt(ctx.State(), ItemsBelow(tag, n.children, path, NearOf(ctx.State())), path)
    modifies ctx
    ensures out' == RenderElement(r, tag, n.attrs, n.children, path, out, old(PlaceOf(ctx.State())))
    ensures After(old(ctx.State()), ctx.State(), old(ItemsBelow(tag, n.children, path, NearOf(ctx.State()))))
    decreases n, 3
  {
    assert Sound(ctx.State());
    EnterNode(ctx.State(), ItemsBelow(tag, n.children, path, NearOf(ctx.State())), path);
    hide Sound, ReadyAt, ReadyBelow, After, TagOf, RenderAll, EnsureNewline, LinkText, ImageText, PlaceOf, NearOf,
      ItemsAll, RowItemsAll, TableRowsAll;
    match tag
    case Heading(level) =>
      out' := AppendNewlines(out, 2);
      out' := RenderChildren(r, n.children, path, out' + Repeat("#", level) + " ", ctx);
      out' := AppendNewlines(out', 2);
    case Paragraph =>
      out' := AppendNewlines(out, 2);
      out' := RenderChildren(r, n.children, path, out', ctx);
      out' := AppendNewlines(out', 2);
    case Strong =>
      out' := RenderChildren(r, n.children, path, out + "**", ctx);
      out' := out' + "**";
    case Emphasis =>
      out' := RenderChildren(r, n.children, path, out + "*", ctx);
      out' := out' + "*";
    case Strike =>
      out' := RenderChildren(r, n.children, path, out + "~~", ctx);
      out' := out' + "~~";
    case Pre => out' := RenderPre(r, n.children, path, out, ctx);
    case Code => out' := RenderCode(r, n.children, path, out, ctx);
    case Anchor =>
      var text := RenderChildren(r, n.children, path, "", ctx);
      out' := LinkText(r, out, text, Attribute(n.attrs, "href"));
    case Image =>
      AfterNothing(ctx.State());
      out' := ImageText(r, out, n.attrs);
    case Bullets => out' := RenderList(r, n.children, 0, path, out, ctx);
    case Numbered => out' := RenderList(r, n.children, 1, path, out, ctx);
    case Item => out' := RenderItem(r, n.children, path, out, ctx);
    case Quote =>
      out' := AppendNewlines(out, 2);
      var content := RenderChildren(r, n.children, path, "", ctx);
      out' := AppendQuote(out', Lines(content));
      out' := AppendNewlines(out', 2);
    case Table =>
      out' := AppendNewlines(out, 2);
      out' := RenderTable(r, n, path, out', ctx);
      out' := AppendNewlines(out', 2);
    case Break =>
      AfterNothing(ctx.State());
      out' := out + "\n";
    case Rule =>
      AfterNothing(ctx.State());
      out' := AppendNewlines(out, 2);
      out' := AppendNewlines(out' + "---", 2);
    case Container => out' := RenderChildren(r, n.children, path, out, ctx);
  }

  /** The flag is set for the children and put back afterwards. */
  method RenderPre(r: Resolver, ns: seq<Node>, ghost path: Path, out: string, ctx: MarkdownContext)
      returns (out': string)
    requires ReadyBelow(ctx.State(), ItemsAll(ns, path, NearOf(ctx.State())), path)
    modifies ctx
    ensures out' == RenderElement(r, Pre, map[], ns, path, out, old(PlaceOf(ctx.State())))
    ensures After(old(ctx.State()), ctx.State(), old(ItemsAll(ns, path, NearOf(ctx.State()))))
    decreases ns, 1
  {
    hide RenderAll, EnsureNewline, ItemsAll, Language;
    out' := AppendNewlines(out, 2);
    var lang := FindLanguage(ns);
    out' := out' + "```" + lang + "\n";
    var prevPre := ctx.insidePre;
    ghost var before := ctx.State();
    ctx.insidePre := true;
    PreIrrelevant(before, true);
    hide Sound, DistinctItems;
    out' := RenderChildren(r, ns, path, out', ctx);
    ghost var inside := ctx.State();
    ctx.insidePre := prevPre;
    PreRestored(before, inside, ItemsAll(ns, path, NearOf(before)));
    hide After, NearOf;
    if !EndsWith(out', "\n") {
      out' := out' + "\n";
    }
    out' := out' + "```\n\n";
  }

  lemma PreIrrelevant(l: Lists, pre: bool)
    ensures Sound(l.(pre := pre)) == Sound(l) && NearOf(l.(pre := pre)) == NearOf(l)
  {
    hide DistinctItems, ItemsOf;
  }

  lemma PreRestored(a: Lists, b: Lists, marks: seq<Mark>)
    requires After(a.(pre := true), b, marks)
    ensures After(a, b.(pre := a.pre), marks)
  {
    PreIrrelevant(b, a.pre);
    hide Sound, ItemsOf;
  }

  method RenderCode(r: Resolver, ns: seq<Node>, ghost path: Path, out: string, ctx: MarkdownContext)
      returns (out': string)
    requires ReadyBelow(ctx.State(), ItemsAll(ns, path, NearOf(ctx.State())), path)
    modifies ctx
    ensures out' == RenderElement(r, Code, map[], ns, path, out, old(PlaceOf(ctx.State())))
    ensures After(old(ctx.State()), ctx.State(), old(ItemsAll(ns, path, NearOf(ctx.State()))))
    decreases ns, 1
  {
    hide RenderAll, ItemsAll, ReadyBelow, After, NearOf;
    if ctx.insidePre {
      out' := RenderChildren(r, ns, path, out, ctx);
    } else {
      out' := RenderChildren(r, ns, path, out + "`", ctx);
      out' := out' + "`";
    }
  }

  method RenderList(r: Resolver, ns: seq<Node>, counter: nat, ghost path: Path, out: string, ctx: MarkdownContext)
      returns (out': string)
    requires ReadyAt(ctx.State(), ItemsAll(ns, path, NearHere(counter, path)), path) && counter <= 1
    modifies ctx
    ensures out' == RenderElement(r, if counter == 0 then Bullets else Numbered, map[], ns, path, out,
                                  old(PlaceOf(ctx.State())))
    ensures After(old(ctx.State()), ctx.State(), ItemsAll(ns, path, NearHere(counter, path)))
    decreases ns, 1
  {
    ghost var before, marks := ctx.State(), ItemsAll(ns, path, NearHere(counter, path));
    hide RenderAll, ItemsAll, Sound, After, Facing, ReadyAt, ReadyBelow, EnsureNewline, NearOf;
    ReadyFaces(before, marks, path);
    out' := AppendNewlines(out, 1);
    EnterList(before, counter, path, marks);
    ctx.OpenList(counter, path);
    out' := RenderChildren(r, ns, path, out', ctx);
    ListsBelow(ns, path, counter);
    ClosedRestores(before, ctx.State(), counter, path, marks);
    hide Opened, Closed, NearHere;
    ctx.CloseList();
    out' := AppendNewlines(out', 1);
  }

  lemma ListsBelow(ns: seq<Node>, path: Path, counter: nat)
    ensures forall m <- ItemsAll(ns, path, NearHere(counter, path)) :: path <= m.list
  {
    AllWithin(ns, path, NearHere(counter, path));
    hide ItemsAll;
  }

  method RenderItem(r: Resolver, ns: seq<Node>, ghost path: Path, out: string, ctx: MarkdownContext)
      returns (out': string)
    requires ReadyAt(ctx.State(), ItemsBelow(Item, ns, path, NearOf(ctx.State())), path)
    modifies ctx
    ensures out' == RenderElement(r, Item, map[], ns, path, out, old(PlaceOf(ctx.State())))
    ensures After(old(ctx.State()), ctx.State(), old(ItemsBelow(Item, ns, path, NearOf(ctx.State()))))
    decreases ns, 1
  {
    ghost var before := ctx.State();
    ghost var own, rest := OwnMark(path, NearOf(before)), ItemsAll(ns, path, NearOf(before));
    assert Sound(before) && Next(before, own + rest);
    hide RenderAll, ItemsAll, Sound, Next, After, ReadyAt, ReadyBelow, EnsureNewline, Indent, MarkerText, OwnMark;
    EnterItem(before, path, rest);
    MarkedSound(before, path, rest);
    out' := AppendNewlines(out, 1);
    out' := out' + Indent(ctx.listDepth);
    var marker := ctx.NextMarker(path, rest);
    out' := out' + marker;
    ghost var marked := ctx.State();
    AfterPlace(before, marked, own);
    hide Marked, NearOf;
    out' := RenderChildren(r, ns, path, out', ctx);
    AfterThen(before, marked, ctx.State(), own, rest);
    out' := AppendNewlines(out', 1);
  }

  // ---- Tables ----

  lemma CleanMatrixConcat(a: seq<seq<string>>, b: seq<seq<string>>)
    ensures CleanMatrix(a + b) == CleanMatrix(a) + CleanMatrix(b)
  {
    hide CleanCell;
  }

  lemma RowsNext(r: Resolver, ns: seq<Node>, i: nat, path: Path, p: Place)
    requires i < |ns|
    ensures CleanMatrix(TableRowsAll(r, ns[..i + 1], path, p))
         == CleanMatrix(TableRowsAll(r, ns[..i], path, p)) + CleanMatrix(TableRows(r, ns[i], path + [i], p))
  {
    var first := ns[..i + 1];
    assert first[..|first| - 1] == ns[..i];
    CleanMatrixConcat(TableRowsAll(r, ns[..i], path, p), TableRows(r, ns[i], path + [i], p));
    hide TableRows, CleanMatrix;
  }

  lemma NoRows(r: Resolver, ns: seq<Node>, path: Path, start: Lists)
    requires ReadyBelow(start, RowItemsAll(ns, path, NearOf(start)), path)
    ensures CleanMatrix(TableRowsAll(r, ns[..0], path, PlaceOf(start))) == []
    ensures After(start, start, RowItemsAll(ns[..0], path, NearOf(start)))
  {
    AfterNothing(start);
    hide After, Sound, Inside, Next;
  }

  lemma EnterRows(a: Lists, b: Lists, ns: seq<Node>, i: nat, path: Path)
    requires i < |ns| && ReadyBelow(a, RowItemsAll(ns, path, NearOf(a)), path)
    requires After(a, b, RowItemsAll(ns[..i], path, NearOf(a)))
    ensures ReadyAt(b, RowItems(ns[i], path + [i], NearOf(b)), path + [i]) && PlaceOf(b) == PlaceOf(a)
    ensures NearOf(b) == NearOf(a)
  {
    hide After, NearOf, ReadyBelow, ReadyAt, PlaceOf, RowItems, RowItemsAll;
    EnterChild(a, b, ns, i, path, ForRows);
  }

  lemma RowsDone(a: Lists, b: Lists, d: Lists, ns: seq<Node>, i: nat, path: Path, near: Near)
    requires i < |ns| && After(a, b, RowItemsAll(ns[..i], path, near))
    requires After(b, d, RowItems(ns[i], path + [i], near))
    ensures After(a, d, RowItemsAll(ns[..i + 1], path, near))
  {
    hide After, RowItems, RowItemsAll;
    ChildDone(a, b, d, ns, i, path, ForRows, near);
  }

  method CollectChildren(r: Resolver, ns: seq<Node>, ghost path: Path, rows: seq<seq<string>>, ctx: MarkdownContext)
      returns (rows': seq<seq<string>>)
    requires ReadyBelow(ctx.State(), RowItemsAll(ns, path, NearOf(ctx.State())), path)
    modifies ctx
    ensures rows' == rows + CleanMatrix(TableRowsAll(r, ns, path, old(PlaceOf(ctx.State()))))
    ensures After(old(ctx.State()), ctx.State(), old(RowItemsAll(ns, path, NearOf(ctx.State()))))
    decreases ns, 0
  {
    hide *;
    ghost var start := ctx.State();
    ghost var p, near := PlaceOf(start), NearOf(start);
    rows' := rows;
    NoRows(r, ns, path, start);
    for i := 0 to |ns|
      invariant rows' == rows + CleanMatrix(TableRowsAll(r, ns[..i], path, p))
      invariant After(start, ctx.State(), RowItemsAll(ns[..i], path, near))
    {
      ghost var here := ctx.State();
      EnterRows(start, here, ns, i, path);
      rows' := CollectTableRows(r, ns[i], path + [i], rows', ctx);
      RowsNext(r, ns, i, path, p);
      RowsDone(start, here, ctx.State(), ns, i, path, near);
    }
    assert ns[..|ns|] == ns;
  }

  function CleanRow(raw: seq<string>): seq<string> { seq(|raw|, i requires 0 <= i < |raw| => CleanCell(raw[i])) }

  lemma CellsNext(r: Resolver, ns: seq<Node>, i: nat, path: Path, p: Place)
    requires i < |ns|
    ensures CleanRow(Cells(r, ns[..i + 1], path, p))
         == CleanRow(Cells(r, ns[..i], path, p))
            + if IsCell(ns[i]) then [CleanCell(RenderAll(r, ns[i].children, path + [i], "", p))] else []
  {
    var first, raw := ns[..i + 1], Cells(r, ns[..i], path, p);
    assert first[..|first| - 1] == ns[..i];
    hide RenderAll, IsCell, CleanCell;
    assert Cells(r, first, path, p)
        == raw + if IsCell(ns[i]) then [RenderAll(r, ns[i].children, path + [i], "", p)] else [];
    hide Cells;
  }

  method CollectCells(r: Resolver, ns: seq<Node>, ghost path: Path, ctx: MarkdownContext) returns (row: seq<string>)
    requires ReadyBelow(ctx.State(), CellItems(ns, path, NearOf(ctx.State())), path)
    modifies ctx
    ensures row == CleanRow(Cells(r, ns, path, old(PlaceOf(ctx.State()))))
    ensures After(old(ctx.State()), ctx.State(), old(CellItems(ns, path, NearOf(ctx.State()))))
    decreases ns, 0
  {
    ghost var start := ctx.State();
    ghost var p, near := PlaceOf(start), NearOf(start);
    row := [];
    assert CleanRow(Cells(r, ns[..0], path, p)) == [];
    hide Sound, ReadyBelow, ReadyAt, After, PlaceOf, NearOf, RenderAll, ItemsAll, CleanCell, Cells, CellItems, CleanRow;
    ReadySound(start, CellItems(ns, path, near), path);
    NoneDone(start, ns, path, ForCells);
    for i := 0 to |ns|
      invariant row == CleanRow(Cells(r, ns[..i], path, p))
      invariant After(start, ctx.State(), Found(ns[..i], path, ForCells, near))
    {
      ghost var here := ctx.State();
      EnterChild(start, here, ns, i, path, ForCells);
      hide Found;
      CellsNext(r, ns, i, path, p);
      if IsCell(ns[i]) {
        EnterNode(here, ItemsAll(ns[i].children, path + [i], near), path + [i]);
        var cellText := RenderChildren(r, ns[i].children, path + [i], "", ctx);
        row := row + [CleanCell(cellText)];
      } else {
        StaySound(start, here, Found(ns[..i], path, ForCells, near));
        AfterNothing(here);
      }
      ChildDone(start, here, ctx.State(), ns, i, path, ForCells, near);
    }
    assert ns[..|ns|] == ns;
  }

  lemma StaySound(a: Lists, b: Lists, marks: seq<Mark>)
    requires After(a, b, marks)
    ensures Sound(b)
  {
    hide Sound;
  }

  /** Appends the rows below the node; a row without cells is left out, and nothing below a row is searched for rows. */
  method CollectTableRows(r: Resolver, n: Node, ghost path: Path, rows: seq<seq<string>>, ctx: MarkdownContext)
      returns (rows': seq<seq<string>>)
    requires ReadyAt(ctx.State(), RowItems(n, path, NearOf(ctx.State())), path)
    modifies ctx
    ensures rows' == rows + CleanMatrix(TableRows(r, n, path, old(PlaceOf(ctx.State()))))
    ensures After(old(ctx.State()), ctx.State(), old(RowItems(n, path, NearOf(ctx.State()))))
    decreases n, 1
  {
    assert Sound(ctx.State());
    EnterNode(ctx.State(), RowItems(n, path, NearOf(ctx.State())), path);
    hide Sound, After, ReadyAt, ReadyBelow, PlaceOf, NearOf, Cells, TableRowsAll, CellItems, RowItemsAll, CleanCell;
    rows' := rows;
    if n.Element? && n.name == "tr" {
      var row := CollectCells(r, n.children, path, ctx);
      if row != [] {
        rows' := rows + [row];
      }
    } else if n.Element? {
      rows' := CollectChildren(r, n.children, path, rows, ctx);
    } else {
      AfterNothing(ctx.State());
    }
  }

  method WidestRow(rows: seq<seq<string>>) returns (n: nat)
    ensures n == MaxCols(rows)
  {
    n := 0;
    for i := 0 to |rows|
      invariant n == MaxCols(rows[..i])
    {
      assert rows[..i + 1][..i] == rows[..i];
      if |rows[i]| > n {
        n := |rows[i]|;
      }
    }
    assert rows[..|rows|] == rows;
  }

  method PadRow(row: seq<string>, n: nat) returns (row': seq<string>)
    ensures row' == PadTo(row, n)
  {
    row' := row;
    while |row'| < n
      invariant |row| <= |row'| <= Max(n, |row|)
      invariant row' == row + seq(|row'| - |row|, _ => "")
    {
      row' := row' + [""];
    }
  }

  method PadRows(rows: seq<seq<string>>, n: nat) returns (rows': seq<seq<string>>)
    ensures rows' == PadAll(rows, n)
  {
    hide PadTo;
    rows' := rows;
    for i := 0 to |rows|
      invariant |rows'| == |rows|
      invariant forall j :: 0 <= j < i ==> rows'[j] == PadTo(rows[j], n)
      invariant forall j :: i <= j < |rows| ==> rows'[j] == rows[j]
    {
      var row := PadRow(rows'[i], n);
      rows' := rows'[i := row];
    }
  }

  method PrintLines(rows: seq<seq<string>>, out: string) returns (out': string)
    ensures out' == out + PrintRows(rows)
  {
    out' := out;
    for i := 0 to |rows|
      invariant out' == out + PrintRows(rows[..i])
    {
      assert rows[..i + 1][..i] == rows[..i];
      hide PrintRow;
      out' := out' + PrintRow(rows[i]) + "\n";
    }
    assert rows[..|rows|] == rows;
  }

  lemma Regroup(a: string, b: string, c: string, d: string)
    ensures ((a + b) + c) + d == a + ((b + c) + d)
  {
  }

  lemma {:induction false} PrintRowsConcat(a: seq<seq<string>>, b: seq<seq<string>>)
    ensures PrintRows(a + b) == PrintRows(a) + PrintRows(b)
  {
    if b == [] {
      assert a + b == a;
    } else {
      var init, last := b[..|b| - 1], b[|b| - 1];
      assert (a + b)[..|a + b| - 1] == a + init;
      PrintRowsConcat(a, init);
      hide PrintRow;
      assert PrintRows(a + b) == PrintRows(a + init) + PrintRow(last) + "\n";
      assert PrintRows(b) == PrintRows(init) + PrintRow(last) + "\n";
      hide PrintRows;
      Regroup(PrintRows(a), PrintRows(init), PrintRow(last), "\n");
    }
  }

  /** Prints the header, the dividers and the other rows. */
  method PrintPadded(rows: seq<seq<string>>, n: nat, out: string) returns (out': string)
    requires rows != []
    ensures out' == out + PrintRows(WithDivider(rows, n))
  {
    hide PrintRow;
    out' := out + PrintRow(rows[0]) + "\n";
    out' := out' + PrintRow(Dividers(n)) + "\n";
    assert PrintRows([rows[0]]) == PrintRow(rows[0]) + "\n";
    assert [rows[0], Dividers(n)][..1] == [rows[0]];
    PrintRowsConcat([rows[0], Dividers(n)], rows[1..]);
    hide Dividers;
    out' := PrintLines(rows[1..], out');
  }

  method PrintCollected(rows: seq<seq<string>>, out: string) returns (out': string)
    ensures out' == out + PrintTable(rows)
  {
    hide PrintRows, MaxCols, PadAll, WithDivider;
    if rows == [] {
      return out;
    }
    var maxCols := WidestRow(rows);
    if maxCols == 0 {
      return out;
    }
    var padded := PadRows(rows, maxCols);
    assert padded != [] by { PadAllLength(rows, maxCols); }
    out' := PrintPadded(padded, maxCols, out);
  }

  lemma PadAllLength(rows: seq<seq<string>>, n: nat)
    ensures |PadAll(rows, n)| == |rows|
  {
  }

  method RenderTable(r: Resolver, table: Node, ghost path: Path, out: string, ctx: MarkdownContext)
      returns (out': string)
    requires table.Element? && TagOf(table.name) == Table
    requires ReadyAt(ctx.State(), RowItemsAll(table.children, path, NearOf(ctx.State())), path)
    modifies ctx
    ensures out' == out + PrintTable(CleanMatrix(TableRowsAll(r, table.children, path, old(PlaceOf(ctx.State())))))
    ensures After(old(ctx.State()), ctx.State(), old(RowItemsAll(table.children, path, NearOf(ctx.State()))))
    decreases table, 2
  {
    TableIsNoRow(table);
    hide ReadyAt, After, PlaceOf, NearOf, TableRowsAll, RowItemsAll, CleanMatrix, PrintTable, TagOf;
    var rows := CollectTableRows(r, table, path, [], ctx);
    assert rows == CleanMatrix(TableRowsAll(r, table.children, path, old(PlaceOf(ctx.State()))));
    hide TableRows, RowItems;
    out' := PrintCollected(rows, out);
  }

  lemma TableIsNoRow(table: Node)
    requires table.Element? && TagOf(table.name) == Table
    ensures table.name != "tr"
  {
    assert Lower("tr") == "tr";
  }

  // ---- The whole document ----

  method CleanWhitespace(input: string) returns (result: string)
    ensures result == CleanMarkdownWhitespace(input)
  {
    hide Trim, TrimEnd, Lines;
    result := JoinCleanLines(Lines(input));
    result := Trim(result);
  }

  /** What one line contributes. */
  function LinePiece(trimmed: string, blanks: nat): string {
    if trimmed == "" then (if blanks < 2 then "\n" else "") else trimmed + "\n"
  }

  lemma CleanLine(result: string, lines: seq<string>, i: nat, blanks: nat)
    requires i < |lines|
    ensures var trimmed := TrimEnd(lines[i]);
      result + CleanLines(lines[i..], blanks)
      == (result + LinePiece(trimmed, blanks)) + CleanLines(lines[i + 1..], if trimmed == "" then blanks + 1 else 0)
  {
    assert lines[i..][1..] == lines[i + 1..];
    hide TrimEnd;
  }

  method JoinCleanLines(lines: seq<string>) returns (result: string)
    ensures result == CleanLines(lines, 0)
  {
    var consecutiveNewlines := 0;
    result := "";
    for i := 0 to |lines|
      invariant CleanLines(lines, 0) == result + CleanLines(lines[i..], consecutiveNewlines)
    {
      CleanLine(result, lines, i, consecutiveNewlines);
      hide TrimEnd, CleanLines;
      var trimmed := TrimEnd(lines[i]);
      ghost var longer := result + LinePiece(trimmed, consecutiveNewlines);
      if trimmed == "" {
        consecutiveNewlines := consecutiveNewlines + 1;
        if consecutiveNewlines <= 2 {
          result := result + "\n";
        }
      } else {
        consecutiveNewlines := 0;
        result := result + trimmed + "\n";
      }
      assert result == longer;
    }
  }

  /** Renders a document; in the text every numbered item shows its rank in its list. */
  method ConvertHtml(r: Resolver, roots: seq<Node>) returns (markdown: string)
    ensures markdown == HtmlToMarkdown(r, roots)
  {
    ghost var items, root: Path := DocumentItems(roots), [];
    var context := new MarkdownContext(items);
    DocumentReady(context.State(), roots);
    hide RenderAll, CleanMarkdownWhitespace, ReadyBelow, After, DocumentItems;
    var output := RenderChildren(r, roots, root, "", context);
    markdown := CleanWhitespace(output);
  }

  lemma DocumentReady(l: Lists, roots: seq<Node>)
    requires l == Lists(0, [], false, [], [], DocumentItems(roots))
    ensures ReadyBelow(l, ItemsAll(roots, [], NearOf(l)), []) && PlaceOf(l) == Outermost(roots)
  {
    var root: Path := [];
    AllInOrder(roots, root, Nowhere);
    OrderedAreDistinct(DocumentItems(roots));
    assert l.log + DocumentItems(roots) == DocumentItems(roots);
    hide ItemsAll, DistinctItems;
  }
}
