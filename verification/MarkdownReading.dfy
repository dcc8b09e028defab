/**
 Reading rendered Markdown back: from the text that an element appends, its kind, its level, label, address, language
 and content. The laws name HTML tags and attributes as they are written, and Markdown by its punctuation.
 */
module MarkdownReading {
  import opened Prelude
  import opened Text
  import opened MarkdownTable
  import opened MarkdownItems
  import opened Markdown

  // ---- Rendering only appends ----

  lemma {:induction false} PushAppends(out: string, text: string, prevSpace: bool)
    ensures out <= PushText(out, text, prevSpace)
    decreases |text|
  {
    hide IsWhitespace;
    if text != "" {
      if IsWhitespace(text[0]) {
        PushAppends(if prevSpace then out else out + " ", text[1..], true);
      } else {
        PushAppends(out + [text[0]], text[1..], false);
      }
    }
  }

  lemma {:induction false} QuoteAppends(out: string, lines: seq<string>)
    ensures out <= QuoteLines(out, lines)
    decreases |lines|
  {
    hide Trim;
    if lines != [] {
      var line := Trim(lines[0]);
      QuoteAppends(if line == "" then out else out + "> " + line + "\n", lines[1..]);
    }
  }

  lemma {:induction false} RenderAppends(r: Resolver, n: Node, path: Path, out: string, p: Place)
    ensures out <= Render(r, n, path, out, p)
    decreases n, 1
  {
    match n
    case TextNode(text) => if !p.pre { PushAppends(out, text, EndsSpaced(out)); }
    case Other =>
    case Element(name, attrs, children) =>
      hide TagOf, RenderElement;
      ElementAppends(r, TagOf(name), attrs, children, path, out, p);
  }

  lemma {:induction false} AllAppends(r: Resolver, ns: seq<Node>, path: Path, out: string, p: Place)
    ensures out <= RenderAll(r, ns, path, out, p)
    decreases ns, 0
  {
    hide Render;
    if ns != [] {
      var init, last := ns[..|ns| - 1], ns[|ns| - 1];
      AllAppends(r, init, path, out, p);
      RenderAppends(r, last, path + [|init|], RenderAll(r, init, path, out, p), p);
    }
  }

  lemma {:induction false} ElementAppends(r: Resolver, tag: Tag, attrs: map<string, string>, ns: seq<Node>, path: Path,
      out: string, p: Place)
    ensures out <= RenderElement(r, tag, attrs, ns, path, out, p)
    decreases ns, 2
  {
    hide *;
    match tag
    case Heading(level) => HeadingAppends(r, level, attrs, ns, path, out, p);
    case Pre => FenceAppends(r, attrs, ns, path, out, p);
    case Item => ItemAppends(r, attrs, ns, path, out, p);
    case Quote => BlockQuoteAppends(r, attrs, ns, path, out, p);
    case Bullets => ListAppends(r, tag, attrs, ns, path, out, p);
    case Numbered => ListAppends(r, tag, attrs, ns, path, out, p);
    case Paragraph => ParagraphAppends(r, attrs, ns, path, out, p);
    case _ => SpanAppends(r, tag, attrs, ns, path, out, p);
  }

  lemma EnsureAppends(out: string, count: nat)
    ensures out <= EnsureNewline(out, count)
  {
    hide Trailing, Repeat;
  }

  lemma PrefixOfPrefix(a: string, b: string, c: string)
    requires a <= b && b <= c
    ensures a <= c
  {
  }

  lemma {:induction false} HeadingAppends(r: Resolver, level: nat, attrs: map<string, string>, ns: seq<Node>,
      path: Path, out: string, p: Place)
    ensures out <= RenderElement(r, Heading(level), attrs, ns, path, out, p)
    decreases ns, 1
  {
    var start := EnsureNewline(out, 2) + Repeat("#", level) + " ";
    EnsureAppends(out, 2);
    AllAppends(r, ns, path, start, p);
    EnsureAppends(RenderAll(r, ns, path, start, p), 2);
    hide EnsureNewline, RenderAll, Repeat;
    PrefixOfPrefix(out, start, RenderAll(r, ns, path, start, p));
  }

  lemma {:induction false} ParagraphAppends(r: Resolver, attrs: map<string, string>, ns: seq<Node>, path: Path,
      out: string, p: Place)
    ensures out <= RenderElement(r, Paragraph, attrs, ns, path, out, p)
    decreases ns, 1
  {
    var start := EnsureNewline(out, 2);
    EnsureAppends(out, 2);
    AllAppends(r, ns, path, start, p);
    EnsureAppends(RenderAll(r, ns, path, start, p), 2);
    hide EnsureNewline, RenderAll;
    PrefixOfPrefix(out, start, RenderAll(r, ns, path, start, p));
  }

  lemma {:induction false} FenceAppends(r: Resolver, attrs: map<string, string>, ns: seq<Node>, path: Path, out: string,
      p: Place)
    ensures out <= RenderElement(r, Pre, attrs, ns, path, out, p)
    decreases ns, 1
  {
    var start := EnsureNewline(out, 2) + "```" + Language(ns, "") + "\n";
    EnsureAppends(out, 2);
    AllAppends(r, ns, path, start, p.(pre := true));
    hide EnsureNewline, RenderAll, Language, EndsWith;
    PrefixOfPrefix(out, start, RenderAll(r, ns, path, start, p.(pre := true)));
  }

  lemma {:induction false} ItemAppends(r: Resolver, attrs: map<string, string>, ns: seq<Node>, path: Path, out: string,
      p: Place)
    ensures out <= RenderElement(r, Item, attrs, ns, path, out, p)
    decreases ns, 1
  {
    var start := EnsureNewline(out, 1) + Indent(p.depth) + MarkerText(path, p);
    EnsureAppends(out, 1);
    AllAppends(r, ns, path, start, p);
    EnsureAppends(RenderAll(r, ns, path, start, p), 1);
    hide EnsureNewline, RenderAll, Indent, MarkerText;
    PrefixOfPrefix(out, start, RenderAll(r, ns, path, start, p));
  }

  lemma QuoteElement(r: Resolver, attrs: map<string, string>, ns: seq<Node>, path: Path, out: string, p: Place)
    ensures RenderElement(r, Quote, attrs, ns, path, out, p)
         == EnsureNewline(QuoteLines(EnsureNewline(out, 2), Lines(RenderAll(r, ns, path, "", p))), 2)
  {
    hide EnsureNewline, RenderAll, QuoteLines, Lines;
  }

  lemma BlockQuoteAppends(r: Resolver, attrs: map<string, string>, ns: seq<Node>, path: Path, out: string, p: Place)
    ensures out <= RenderElement(r, Quote, attrs, ns, path, out, p)
  {
    var start, lines := EnsureNewline(out, 2), Lines(RenderAll(r, ns, path, "", p));
    hide *;
    QuoteElement(r, attrs, ns, path, out, p);
    EnsureAppends(out, 2);
    QuoteAppends(start, lines);
    EnsureAppends(QuoteLines(start, lines), 2);
    PrefixOfPrefix(out, start, QuoteLines(start, lines));
  }

  lemma {:induction false} ListAppends(r: Resolver, tag: Tag, attrs: map<string, string>, ns: seq<Node>, path: Path,
      out: string, p: Place)
    requires tag == Bullets || tag == Numbered
    ensures out <= RenderElement(r, tag, attrs, ns, path, out, p)
    decreases ns, 1
  {
    var start, q := EnsureNewline(out, 1), InList(p, if tag == Bullets then BulletsAt(path) else NumberedAt(path));
    EnsureAppends(out, 1);
    AllAppends(r, ns, path, start, q);
    EnsureAppends(RenderAll(r, ns, path, start, q), 1);
    hide EnsureNewline, RenderAll;
    PrefixOfPrefix(out, start, RenderAll(r, ns, path, start, q));
  }

  lemma LinkAppends(r: Resolver, out: string, text: string, href: Option<string>)
    ensures out <= LinkText(r, out, text, href)
  {
    hide Trim, Resolved;
  }

  lemma ImageAppends(r: Resolver, out: string, attrs: map<string, string>)
    ensures out <= ImageText(r, out, attrs)
  {
    hide ImageSource, Attribute, Resolved;
  }

  lemma {:induction false} SpanAppends(r: Resolver, tag: Tag, attrs: map<string, string>, ns: seq<Node>, path: Path,
      out: string, p: Place)
    requires tag !in {Paragraph, Pre, Item, Quote, Bullets, Numbered} && !tag.Heading?
    ensures out <= RenderElement(r, tag, attrs, ns, path, out, p)
    decreases ns, 1
  {
    EnsureAppends(out, 2);
    hide RenderAll, EnsureNewline, LinkText, ImageText, PrintTable, CleanMatrix, TableRowsAll;
    match tag
    case Anchor => LinkAppends(r, out, RenderAll(r, ns, path, "", p), Attribute(attrs, "href"));
    case Image => ImageAppends(r, out, attrs);
    case Strong => AllAppends(r, ns, path, out + "**", p);
    case Emphasis => AllAppends(r, ns, path, out + "*", p);
    case Strike => AllAppends(r, ns, path, out + "~~", p);
    case Code => if p.pre { AllAppends(r, ns, path, out, p); } else { AllAppends(r, ns, path, out + "`", p); }
    case Container => AllAppends(r, ns, path, out, p);
    case Table =>
      EnsureAppends(EnsureNewline(out, 2) + PrintTable(CleanMatrix(TableRowsAll(r, ns, path, p))), 2);
    case Rule => EnsureAppends(EnsureNewline(out, 2) + "---", 2);
    case _ =>
  }

  /** What the nodes append to a text. */
  function Content(r: Resolver, ns: seq<Node>, path: Path, out: string, p: Place): string {
    var whole := RenderAll(r, ns, path, out, p);
    if |out| <= |whole| then whole[|out|..] else ""
  }

  lemma ContentAppended(r: Resolver, ns: seq<Node>, path: Path, out: string, p: Place)
    ensures RenderAll(r, ns, path, out, p) == out + Content(r, ns, path, out, p)
  {
    AllAppends(r, ns, path, out, p);
    hide RenderAll;
  }

  // ---- Line breaks before and after blocks ----

  /** Newlines, and no more of them than it takes for the text to end in so many. */
  ghost predicate Gap(out: string, gap: string, count: nat) {
    && gap == Repeat("\n", |gap|)
    && EndsWith(out + gap, Repeat("\n", count))
    && (gap != "" ==> !EndsWith(out + gap[1..], Repeat("\n", count)))
  }

  lemma {:induction false} RepeatAt(n: nat)
    ensures |Repeat("\n", n)| == n && forall i :: 0 <= i < n ==> Repeat("\n", n)[i] == '\n'
  {
    if n > 0 { RepeatAt(n - 1); }
  }

  lemma {:induction false} TrailingMeaning(out: string)
    ensures Trailing(out) <= |out| && forall i :: |out| - Trailing(out) <= i < |out| ==> out[i] == '\n'
    ensures Trailing(out) < |out| ==> out[|out| - Trailing(out) - 1] != '\n'
  {
    if out != "" && out[|out| - 1] == '\n' { TrailingMeaning(out[..|out| - 1]); }
  }

  lemma EnsuredGap(out: string, count: nat) returns (gap: string)
    ensures EnsureNewline(out, count) == out + gap && Gap(out, gap, count)
  {
    var n, t := Max(count - Trailing(out), 0), Trailing(out);
    gap := Repeat("\n", n);
    TrailingMeaning(out);
    RepeatAt(n);
    RepeatAt(count);
    hide Trailing, Repeat;
    var s, tail := out + gap, Repeat("\n", count);
    assert n == |gap|;
    if gap != "" {
      var fewer := out + gap[1..];
      assert |fewer| == |out| + n - 1 && n == count - t;
      if |fewer| >= count {
        assert fewer[|fewer| - count] == out[|out| - t - 1] != '\n';
        assert fewer[|fewer| - count..][0] == fewer[|fewer| - count];
      }
    }
    assert |s| >= count && s[|s| - count..] == tail;
  }

  // ---- Readers ----

  /** The label and the address of a link; the address ends at the last parenthesis and holds no closing bracket. */
  function ReadLink(s: string): Option<(string, string)> {
    var k := LastBracket(s);
    if k.Some? && k.value >= 1 && s[0] == '[' && k.value + 2 < |s| && s[k.value + 1] == '(' && s[|s| - 1] == ')'
    then Some((s[1..k.value], s[k.value + 2..|s| - 1]))
    else None
  }

  function LastBracket(s: string): (k: Option<nat>)
    ensures k.Some? ==> k.value < |s|
  {
    if s == "" then None
    else if s[|s| - 1] == ']' then Some(|s| - 1)
    else LastBracket(s[..|s| - 1])
  }

  lemma {:induction false} LastBracketAt(s: string, k: nat)
    requires k < |s| && s[k] == ']' && forall i :: k < i < |s| ==> s[i] != ']'
    ensures LastBracket(s) == Some(k)
  {
    if k < |s| - 1 { LastBracketAt(s[..|s| - 1], k); }
  }

  lemma LinkReads(label_: string, address: string)
    requires ']' !in address
    ensures ReadLink("[" + label_ + "](" + address + ")") == Some((label_, address))
  {
    var s, k := "[" + label_ + "](" + address + ")", 1 + |label_|;
    assert s[k] == ']' && s[k + 1] == '(' && s[1..k] == label_ && s[k + 2..|s| - 1] == address;
    assert forall i :: 0 <= i < |address| ==> s[k + 2 + i] == address[i];
    LastBracketAt(s, k);
  }

  /** How many number signs a text starts with. */
  function Signs(s: string): nat { if s != "" && s[0] == '#' then 1 + Signs(s[1..]) else 0 }

  lemma {:induction false} SignsRead(level: nat, rest: string)
    ensures Signs(Repeat("#", level) + " " + rest) == level
  {
    if level > 0 {
      SignsFirst(level);
      var s := Repeat("#", level) + " " + rest;
      assert s[0] == '#' && s[1..] == Repeat("#", level - 1) + " " + rest;
      SignsRead(level - 1, rest);
    } else {
      assert (Repeat("#", 0) + " " + rest)[0] == ' ';
    }
  }

  lemma {:induction false} SignsFirst(level: nat)
    requires level > 0
    ensures Repeat("#", level) == "#" + Repeat("#", level - 1)
  {
    if level > 1 { SignsFirst(level - 1); }
  }

  // ---- Links and images ----

  /** Where a reference leads: to its resolution, if it has one, or where it says. */
  ghost predicate LeadsTo(r: Resolver, raw: string, address: string) {
    if r(raw).Some? then address == r(raw).value else address == raw
  }

  /** The element of this tag, in any case. */
  ghost predicate Is(n: Node, name: string) { n.Element? && Lower(n.name) == name }

  /** The text has been followed by a link, or after a mark of exclamation an image, that reads back as these two. */
  ghost predicate LinkAdded(out: string, whole: string, mark: string, label_: string, address: string) {
    var link := "[" + label_ + "](" + address + ")";
    whole == out + mark + link && (']' !in address ==> ReadLink(link) == Some((label_, address)))
  }

  lemma AddsLink(out: string, mark: string, label_: string, address: string)
    ensures LinkAdded(out, out + mark + ("[" + label_ + "](" + address + ")"), mark, label_, address)
  {
    hide ReadLink;
    if ']' !in address { LinkReads(label_, address); }
  }

  lemma RenderIs(r: Resolver, n: Node, path: Path, out: string, p: Place, tag: Tag)
    requires n.Element? && TagOf(n.name) == tag
    ensures Render(r, n, path, out, p) == RenderElement(r, tag, n.attrs, n.children, path, out, p)
  {
    hide RenderElement, TagOf;
  }

  lemma AnchorRendered(r: Resolver, n: Node, path: Path, out: string, p: Place)
    requires Is(n, "a")
    ensures Render(r, n, path, out, p)
         == LinkText(r, out, RenderAll(r, n.children, path, "", p), Attribute(n.attrs, "href"))
  {
    assert TagOf(n.name) == Anchor;
    hide TagOf, Lower;
    RenderIs(r, n, path, out, p, Anchor);
    hide Render, RenderAll, LinkText, Attribute;
  }

  lemma LinkTextReads(r: Resolver, out: string, text: string, href: string) returns (label_: string, address: string)
    requires href != ""
    ensures LinkAdded(out, LinkText(r, out, text, Some(href)), "", label_, address) && LeadsTo(r, href, address)
    ensures label_ == if Trim(text) != "" then Trim(text) else address
  {
    address := Resolved(r, href);
    assert LeadsTo(r, href, address);
    hide Trim, Resolved, LeadsTo, LinkAdded;
    label_ := if Trim(text) == "" then address else Trim(text);
    AddsLink(out, "", label_, address);
    assert out + "" + ("[" + label_ + "](" + address + ")") == out + "[" + label_ + "](" + address + ")";
  }

  /**
   An anchor with an address appends its trimmed text, or its address if there is none, and its address, and they read
   back in that order; an anchor without an address appends its text.
   */
  lemma LinkReadsBack(r: Resolver, n: Node, path: Path, out: string, p: Place)
    requires Is(n, "a")
    ensures var text, whole := RenderAll(r, n.children, path, "", p), Render(r, n, path, out, p);
      if "href" in n.attrs && Trim(n.attrs["href"]) != "" then
        exists label_, address ::
          && LinkAdded(out, whole, "", label_, address)
          && LeadsTo(r, Trim(n.attrs["href"]), address)
          && label_ == if Trim(text) != "" then Trim(text) else address
      else whole == out + text
  {
    AnchorRendered(r, n, path, out, p);
    hide Is, Render, RenderAll, Trim, LeadsTo, LinkAdded;
    var text := RenderAll(r, n.children, path, "", p);
    if "href" in n.attrs && Trim(n.attrs["href"]) != "" {
      var label_, address := LinkTextReads(r, out, text, Trim(n.attrs["href"]));
      hide LinkText;
    }
  }

  lemma ImageRendered(r: Resolver, n: Node, path: Path, out: string, p: Place)
    requires Is(n, "img")
    ensures Render(r, n, path, out, p) == ImageText(r, out, n.attrs)
  {
    assert TagOf(n.name) == Image;
    hide TagOf, Lower;
    RenderIs(r, n, path, out, p, Image);
    hide Render, RenderAll, ImageText;
  }

  /** The source of an image, as it is written. */
  function SourceOf(attrs: map<string, string>): string {
    if "src" in attrs then attrs["src"] else if "data-src" in attrs then attrs["data-src"] else ""
  }

  function AltOf(attrs: map<string, string>): string { if "alt" in attrs then Trim(attrs["alt"]) else "" }

  lemma ImageTextReads(r: Resolver, out: string, attrs: map<string, string>) returns (address: string)
    requires Trim(SourceOf(attrs)) != ""
    ensures LinkAdded(out, ImageText(r, out, attrs), "!", AltOf(attrs), address)
    ensures LeadsTo(r, Trim(SourceOf(attrs)), address)
  {
    hide *;
    SourceTrimmed(attrs);
    address := Resolved(r, ImageSource(attrs));
    AddressLeads(r, ImageSource(attrs));
    AddsLink(out, "!", AltOf(attrs), address);
    MarkFirst(out, AltOf(attrs), address);
    ImageTextIs(r, out, attrs);
  }

  lemma SourceTrimmed(attrs: map<string, string>)
    ensures ImageSource(attrs) == Trim(SourceOf(attrs))
  {
    TrimEmpty();
    hide Trim, TrimStart, TrimEnd, IsWhitespace;
  }

  lemma TrimEmpty()
    ensures Trim("") == ""
  {
    assert TrimStart("") == "" && TrimEnd("") == "";
  }

  lemma AddressLeads(r: Resolver, raw: string)
    ensures LeadsTo(r, raw, Resolved(r, raw))
  {
  }

  lemma MarkFirst(out: string, alt: string, address: string)
    ensures out + "!" + ("[" + alt + "](" + address + ")") == out + "![" + alt + "](" + address + ")"
  {
  }

  lemma ImageTextIs(r: Resolver, out: string, attrs: map<string, string>)
    requires ImageSource(attrs) != ""
    ensures ImageText(r, out, attrs) == out + "![" + AltOf(attrs) + "](" + Resolved(r, ImageSource(attrs)) + ")"
  {
    hide Trim, ImageSource, Resolved;
  }

  /** An image with a source appends its alternative text and the source's address, which read back in that order. */
  lemma ImageReadsBack(r: Resolver, n: Node, path: Path, out: string, p: Place)
    requires Is(n, "img")
    ensures var whole, source := Render(r, n, path, out, p), Trim(SourceOf(n.attrs));
      if source == "" then whole == out
      else exists address :: LinkAdded(out, whole, "!", AltOf(n.attrs), address) && LeadsTo(r, source, address)
  {
    ImageRendered(r, n, path, out, p);
    hide Is, Render, LeadsTo, LinkAdded;
    if Trim(SourceOf(n.attrs)) == "" {
      assert Trim("") == "";
      hide Trim;
    } else {
      hide ImageText, Trim, SourceOf, AltOf;
      var address := ImageTextReads(r, out, n.attrs);
    }
  }

  // ---- Headings ----

  /** The tag name of a heading of this level. */
  ghost predicate NamesLevel(name: string, level: nat) {
    1 <= level <= 6 && |name| == 2 && name[0] == 'h' && name[1] == '0' + level as char
  }

  /** The text of a heading: what stands before, its signs and content, and what stands after. */
  ghost predicate IsHeading(out: string, whole: string, before: string, level: nat, content: string, after: string) {
    && Gap(out, before, 2)
    && whole == out + before + (Repeat("#", level) + " " + content) + after
    && Signs(Repeat("#", level) + " " + content) == level
    && Gap(out + before + (Repeat("#", level) + " " + content), after, 2)
  }

  /**
   A heading is set off by empty lines, and starts with as many number signs as its tag says, a space, and then its
   content.
   */
  lemma HeadingReadsBack(r: Resolver, n: Node, path: Path, out: string, p: Place, level: nat)
    requires n.Element? && NamesLevel(Lower(n.name), level)
    ensures exists before, after, content ::
      && IsHeading(out, Render(r, n, path, out, p), before, level, content, after)
      && Appends(r, n.children, path, out + before + (Repeat("#", level) + " "), p, content)
  {
    hide *;
    HeadingRendered(r, n, path, out, p, level);
    var before := EnsuredGap(out, 2);
    var signs := Repeat("#", level) + " ";
    assert EnsureNewline(out, 2) + Repeat("#", level) + " " == out + before + signs;
    var content := ContentIs(r, n.children, path, out + before + signs, p);
    var after := EnsuredGap(out + before + signs + content, 2);
    assert out + before + signs + content == out + before + (signs + content);
    AddsHeading(out, before, level, content, after);
  }

  lemma AddsHeading(out: string, before: string, level: nat, content: string, after: string)
    requires Gap(out, before, 2) && Gap(out + before + (Repeat("#", level) + " " + content), after, 2)
    ensures var whole := out + before + (Repeat("#", level) + " " + content) + after;
      IsHeading(out, whole, before, level, content, after)
  {
    SignsRead(level, content);
    hide Gap, Repeat, Signs;
  }

  /** The children, rendered after this text, append the content. */
  ghost predicate Appends(r: Resolver, ns: seq<Node>, path: Path, start: string, p: Place, content: string) {
    RenderAll(r, ns, path, start, p) == start + content
  }

  lemma ContentIs(r: Resolver, ns: seq<Node>, path: Path, start: string, p: Place) returns (content: string)
    ensures RenderAll(r, ns, path, start, p) == start + content && Appends(r, ns, path, start, p, content)
  {
    ContentAppended(r, ns, path, start, p);
    content := Content(r, ns, path, start, p);
    hide RenderAll, Content;
  }

  lemma HeadingRendered(r: Resolver, n: Node, path: Path, out: string, p: Place, level: nat)
    requires n.Element? && NamesLevel(Lower(n.name), level)
    ensures Render(r, n, path, out, p)
         == EnsureNewline(RenderAll(r, n.children, path, EnsureNewline(out, 2) + Repeat("#", level) + " ", p), 2)
  {
    HeadingTag(n.name, level);
    hide TagOf, NamesLevel, EnsureNewline, RenderAll, Repeat;
  }

  lemma HeadingTag(name: string, level: nat)
    requires NamesLevel(Lower(name), level)
    ensures TagOf(name) == Heading(level)
  {
    var tag := Lower(name);
    assert tag == ['h', '0' + level as char];
    hide Lower;
  }
}
