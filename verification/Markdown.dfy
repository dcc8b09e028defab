/** What the Markdown of an HTML tree is: a function of the tree, in which every item shows its rank in its list. */
module Markdown {
  import opened Prelude
  import opened Text
  import opened MarkdownTable
  import opened MarkdownItems

  /** Resolves a reference against the page; `None` leaves it as written. */
  type Resolver = string -> Option<string>

  /** Where a node stands: its depth in lists, the nearest list, preformatted or not, and the items of the document. */
  datatype Place = Place(depth: nat, near: Near, pre: bool, items: seq<Mark>)

  // ---- Text ----

  function Trailing(out: string): nat {
    if out != "" && out[|out| - 1] == '\n' then 1 + Trailing(out[..|out| - 1]) else 0
  }

  /** At least `count` newlines at the end. */
  function EnsureNewline(out: string, count: nat): string { out + Repeat("\n", Max(count - Trailing(out), 0)) }

  /** Runs of whitespace become one space, and none if a space is already there. */
  function PushText(out: string, text: string, prevSpace: bool): string
    decreases |text|
  {
    if text == "" then out
    else if IsWhitespace(text[0]) then PushText(if prevSpace then out else out + " ", text[1..], true)
    else PushText(out + [text[0]], text[1..], false)
  }

  predicate EndsSpaced(out: string) { EndsWith(out, " ") || EndsWith(out, "\n") }

  function AddText(out: string, text: string, pre: bool): string {
    if pre then out + text else PushText(out, text, EndsSpaced(out))
  }

  function Attribute(attrs: map<string, string>, name: string): Option<string> {
    if name in attrs then Some(Trim(attrs[name])) else None
  }

  function Resolved(r: Resolver, raw: string): string {
    var u := r(raw);
    if u.Some? then u.value else raw
  }

  /** The language named by the classes, or the one known before. */
  function LanguageOf(classes: seq<string>, lang: string): string {
    if classes == [] then lang
    else
      var word := classes[0];
      LanguageOf(classes[1..],
        if StartsWith(word, "language-") then word[|"language-"|..]
        else if StartsWith(word, "lang-") then word[|"lang-"|..]
        else lang)
  }

  function Language(children: seq<Node>, lang: string): string {
    if children == [] then lang
    else
      var c := children[0];
      Language(children[1..],
        if c.Element? && c.name == "code" && "class" in c.attrs then LanguageOf(Words(c.attrs["class"]), lang)
        else lang)
  }

  function QuoteLines(out: string, lines: seq<string>): string
    decreases |lines|
  {
    if lines == [] then out
    else
      var line := Trim(lines[0]);
      QuoteLines(if line == "" then out else out + "> " + line + "\n", lines[1..])
  }

  function LinkText(r: Resolver, out: string, text: string, href: Option<string>): string {
    if href.Some? && href.value != "" then
      var resolved := Resolved(r, href.value);
      out + "[" + (if Trim(text) == "" then resolved else Trim(text)) + "](" + resolved + ")"
    else out + text
  }

  function ImageSource(attrs: map<string, string>): string {
    if "src" in attrs then Trim(attrs["src"]) else if "data-src" in attrs then Trim(attrs["data-src"]) else ""
  }

  function ImageText(r: Resolver, out: string, attrs: map<string, string>): string {
    var src, alt := ImageSource(attrs), Attribute(attrs, "alt");
    if src == "" then out
    else out + "![" + (if alt.Some? then alt.value else "") + "](" + Resolved(r, src) + ")"
  }

  function Indent(depth: nat): string { Repeat("  ", Max(depth - 1, 0)) }

  function MarkerText(path: Path, p: Place): string {
    if p.near.NumberedAt? then Decimal(NumeralOf(p.items, path)) + ". " else "- "
  }

  // ---- Rendering ----

  function Render(r: Resolver, n: Node, path: Path, out: string, p: Place): string
    decreases n, 1
  {
    match n
    case TextNode(text) => AddText(out, text, p.pre)
    case Other => out
    case Element(name, attrs, children) => RenderElement(r, TagOf(name), attrs, children, path, out, p)
  }

  function RenderElement(r: Resolver, tag: Tag, attrs: map<string, string>, ns: seq<Node>, path: Path, out: string,
      p: Place): string
    decreases ns, 1
  {
    match tag
    case Heading(level) => EnsureNewline(RenderAll(r, ns, path, EnsureNewline(out, 2) + Repeat("#", level) + " ", p), 2)
    case Paragraph => EnsureNewline(RenderAll(r, ns, path, EnsureNewline(out, 2), p), 2)
    case Strong => RenderAll(r, ns, path, out + "**", p) + "**"
    case Emphasis => RenderAll(r, ns, path, out + "*", p) + "*"
    case Strike => RenderAll(r, ns, path, out + "~~", p) + "~~"
    case Pre =>
      var body := RenderAll(r, ns, path, EnsureNewline(out, 2) + "```" + Language(ns, "") + "\n", p.(pre := true));
      (if EndsWith(body, "\n") then body else body + "\n") + "```\n\n"
    case Code => if p.pre then RenderAll(r, ns, path, out, p) else RenderAll(r, ns, path, out + "`", p) + "`"
    case Anchor => LinkText(r, out, RenderAll(r, ns, path, "", p), Attribute(attrs, "href"))
    case Image => ImageText(r, out, attrs)
    case Bullets => EnsureNewline(RenderAll(r, ns, path, EnsureNewline(out, 1), InList(p, BulletsAt(path))), 1)
    case Numbered => EnsureNewline(RenderAll(r, ns, path, EnsureNewline(out, 1), InList(p, NumberedAt(path))), 1)
    case Item =>
      EnsureNewline(RenderAll(r, ns, path, EnsureNewline(out, 1) + Indent(p.depth) + MarkerText(path, p), p), 1)
    case Quote => EnsureNewline(QuoteLines(EnsureNewline(out, 2), Lines(RenderAll(r, ns, path, "", p))), 2)
    case Table => EnsureNewline(EnsureNewline(out, 2) + PrintTable(CleanMatrix(TableRowsAll(r, ns, path, p))), 2)
    case Break => out + "\n"
    case Rule => EnsureNewline(EnsureNewline(out, 2) + "---", 2)
    case Container => RenderAll(r, ns, path, out, p)
  }

  function InList(p: Place, near: Near): Place { p.(depth := p.depth + 1, near := near) }

  /** Each child starts where the ones before it stopped. */
  function RenderAll(r: Resolver, ns: seq<Node>, path: Path, out: string, p: Place): string
    decreases ns, 0
  {
    if ns == [] then out
    else
      var init, last := ns[..|ns| - 1], ns[|ns| - 1];
      Render(r, last, path + [|init|], RenderAll(r, init, path, out, p), p)
  }

  /** The rendered cells of the rows below a node, before they are cleaned; rows without cells are left out. */
  function TableRows(r: Resolver, n: Node, path: Path, p: Place): seq<seq<string>>
    decreases n, 1
  {
    if !n.Element? then []
    else if n.name == "tr" then
      var row := Cells(r, n.children, path, p);
      if row == [] then [] else [row]
    else TableRowsAll(r, n.children, path, p)
  }

  function TableRowsAll(r: Resolver, ns: seq<Node>, path: Path, p: Place): seq<seq<string>>
    decreases ns, 0
  {
    if ns == [] then []
    else
      var init, last := ns[..|ns| - 1], ns[|ns| - 1];
      TableRowsAll(r, init, path, p) + TableRows(r, last, path + [|init|], p)
  }

  function Cells(r: Resolver, ns: seq<Node>, path: Path, p: Place): seq<string>
    decreases ns, 0
  {
    if ns == [] then []
    else
      var init, last := ns[..|ns| - 1], ns[|ns| - 1];
      Cells(r, init, path, p) + if IsCell(last) then [RenderAll(r, last.children, path + [|init|], "", p)] else []
  }

  // ---- The final clean-up ----

  /** Lines lose their trailing whitespace, and at most two empty lines stay in a row; `blanks` have just been seen. */
  function CleanLines(lines: seq<string>, blanks: nat): string {
    if lines == [] then ""
    else
      var line := TrimEnd(lines[0]);
      if line == "" then (if blanks < 2 then "\n" else "") + CleanLines(lines[1..], blanks + 1)
      else line + "\n" + CleanLines(lines[1..], 0)
  }

  function CleanMarkdownWhitespace(s: string): string { Trim(CleanLines(Lines(s), 0)) }

  /** Before the first node of a document. */
  function Outermost(roots: seq<Node>): Place { Place(0, Nowhere, false, DocumentItems(roots)) }

  function HtmlToMarkdown(r: Resolver, roots: seq<Node>): string {
    CleanMarkdownWhitespace(RenderAll(r, roots, [], "", Outermost(roots)))
  }

  // ---- What is printed ----

  /**
   On any tree, the k-th of the items whose nearest list is a given numbered list is rendered with the numeral k,
   whatever it is rendered after and however deep it stands.
   */
  lemma OrderedListNumerals(r: Resolver, roots: seq<Node>, list: Path, k: nat, out: string, p: Place)
    requires 1 <= k <= |ItemsOf(DocumentItems(roots), list)|
    requires p.items == DocumentItems(roots) && p.near == NumberedAt(list)
    ensures var item := ItemsOf(DocumentItems(roots), list)[k - 1];
      && NodeAt(roots, item).Some? && IsItem(NodeAt(roots, item).value)
      && var li := NodeAt(roots, item).value;
      && Render(r, li, item, out, p)
         == EnsureNewline(
              RenderAll(r, li.children, item, EnsureNewline(out, 1) + Indent(p.depth) + (Decimal(k) + ". "), p), 1)
  {
    KthItemHasNumeralK(roots, list, k);
    var item := ItemsOf(DocumentItems(roots), list)[k - 1];
    ItemsMeaning(roots, list, item);
    NearestListOfItem(roots, [], item, ForText, Nowhere);
    hide DocumentItems, ItemsOf, NumeralOf, NearestList, NodeAt, RenderAll, EnsureNewline, Indent, Decimal, TagOf;
  }

  lemma {:induction false} RowsHaveCells(r: Resolver, ns: seq<Node>, path: Path, p: Place)
    ensures forall row <- TableRowsAll(r, ns, path, p) :: row != []
    decreases ns, 0
  {
    if ns != [] {
      var k := |ns| - 1;
      RowsHaveCells(r, ns[..k], path, p);
      NodeRowsHaveCells(r, ns[k], path + [k], p);
      hide TableRows;
    }
  }

  lemma {:induction false} NodeRowsHaveCells(r: Resolver, n: Node, path: Path, p: Place)
    ensures forall row <- TableRows(r, n, path, p) :: row != []
    decreases n, 1
  {
    if n.Element? && n.name != "tr" {
      RowsHaveCells(r, n.children, path, p);
    }
    hide Cells, TableRowsAll;
  }

  lemma {:induction false} SomeColumn(rows: seq<seq<string>>)
    requires rows != [] && forall row <- rows :: row != []
    ensures MaxCols(rows) > 0
  {
    assert rows[|rows| - 1] in rows;
  }

  /** A rendered table reads back as its cells, whatever is in them. */
  lemma RenderedTableReadsBack(r: Resolver, table: Node, path: Path, out: string, p: Place)
    requires table.Element? && TagOf(table.name) == Table && TableRowsAll(r, table.children, path, p) != []
    ensures var raw := TableRowsAll(r, table.children, path, p);
      var text := PrintTable(CleanMatrix(raw));
      && Render(r, table, path, out, p) == EnsureNewline(EnsureNewline(out, 2) + text, 2)
      && ParseTable(text) == WithDivider(PadAll(TextMatrix(raw), MaxCols(raw)), MaxCols(raw))
  {
    var raw := TableRowsAll(r, table.children, path, p);
    RowsHaveCells(r, table.children, path, p);
    SomeColumn(raw);
    TableRoundTrip(raw);
    hide TableRowsAll, PrintTable, ParseTable, EnsureNewline, CleanMatrix, MaxCols, TagOf;
  }
}
