/** Reading back emphasis, code, fenced text, quotations, list items, plain text and the final clean-up. */
module MarkdownBlocks {
  import opened Prelude
  import opened Text
  import opened MarkdownItems
  import opened Markdown
  import opened MarkdownReading

  // ---- Emphasis and code ----

  /** The punctuation around a span, and what is between. */
  function ReadSpan(s: string): Option<(string, string)> {
    if |s| >= 4 && StartsWith(s, "**") && EndsWith(s, "**") then Some(("**", s[2..|s| - 2]))
    else if |s| >= 4 && StartsWith(s, "~~") && EndsWith(s, "~~") then Some(("~~", s[2..|s| - 2]))
    else if |s| >= 2 && StartsWith(s, "*") && EndsWith(s, "*") then Some(("*", s[1..|s| - 1]))
    else if |s| >= 2 && StartsWith(s, "`") && EndsWith(s, "`") then Some(("`", s[1..|s| - 1]))
    else None
  }

  ghost predicate MarkedBy(name: string, mark: string) {
    || (mark == "**" && name in {"b", "strong"})
    || (mark == "*" && name in {"i", "em"})
    || (mark == "~~" && name in {"s", "del", "strike"})
  }

  lemma SpanReads(mark: string, content: string)
    requires mark in {"**", "*", "~~", "`"}
    requires mark == "*" ==> !StartsWith(content, "*")
    ensures ReadSpan(mark + content + mark) == Some((mark, content))
  {
    var s := mark + content + mark;
    assert s[..|mark|] == mark && s[|s| - |mark|..] == mark && s[|mark|..|s| - |mark|] == content;
    if |mark| == 1 {
      assert |s| >= 4 ==> s[1] == content[0];
    }
  }

  lemma SpanRendered(r: Resolver, n: Node, path: Path, out: string, p: Place, mark: string)
    requires n.Element? && MarkedBy(Lower(n.name), mark)
    ensures Render(r, n, path, out, p) == RenderAll(r, n.children, path, out + mark, p) + mark
  {
    var tag := if mark == "**" then Strong else if mark == "*" then Emphasis else Strike;
    assert TagOf(n.name) == tag;
    hide TagOf, Lower;
    RenderIs(r, n, path, out, p, tag);
    hide Render, RenderAll;
  }

  /** A span of emphasis appends its content between the marks of its tag, and reads back as these. */
  lemma SpanReadsBack(r: Resolver, n: Node, path: Path, out: string, p: Place, mark: string)
    requires n.Element? && MarkedBy(Lower(n.name), mark)
    ensures exists content ::
      && Appends(r, n.children, path, out + mark, p, content)
      && Render(r, n, path, out, p) == out + (mark + content + mark)
      && ((mark == "*" ==> !StartsWith(content, "*")) ==>
            ReadSpan(mark + content + mark) == Some((mark, content)))
  {
    hide *;
    SpanRendered(r, n, path, out, p, mark);
    var content := ContentIs(r, n.children, path, out + mark, p);
    KnownMark(n, mark);
    if mark == "*" ==> !StartsWith(content, "*") { SpanReads(mark, content); }
    assert out + mark + content + mark == out + (mark + content + mark);
  }

  lemma KnownMark(n: Node, mark: string)
    requires n.Element? && MarkedBy(Lower(n.name), mark)
    ensures mark in {"**", "*", "~~", "`"}
  {
    hide Lower;
  }

  lemma CodeRendered(r: Resolver, n: Node, path: Path, out: string, p: Place)
    requires Is(n, "code")
    ensures Render(r, n, path, out, p)
         == if p.pre then RenderAll(r, n.children, path, out, p) else RenderAll(r, n.children, path, out + "`", p) + "`"
  {
    assert TagOf(n.name) == Code;
    hide TagOf, Lower;
    RenderIs(r, n, path, out, p, Code);
    hide Render, RenderAll;
  }

  ghost predicate CodeAdded(out: string, whole: string, content: string) {
    var span := "`" + content + "`";
    whole == out + span && ReadSpan(span) == Some(("`", content))
  }

  lemma AddsCode(out: string, content: string)
    ensures CodeAdded(out, out + "`" + content + "`", content)
  {
    SpanReads("`", content);
    hide ReadSpan;
    assert out + "`" + content + "`" == out + ("`" + content + "`");
  }

  /** Code appends its content between backticks, except in preformatted text, which it leaves as it is. */
  lemma CodeReadsBack(r: Resolver, n: Node, path: Path, out: string, p: Place)
    requires Is(n, "code")
    ensures p.pre ==> Render(r, n, path, out, p) == RenderAll(r, n.children, path, out, p)
    ensures !p.pre ==> exists content ::
      Appends(r, n.children, path, out + "`", p, content) && CodeAdded(out, Render(r, n, path, out, p), content)
  {
    CodeRendered(r, n, path, out, p);
    ContentAppended(r, n.children, path, out + "`", p);
    var content := Content(r, n.children, path, out + "`", p);
    assert Appends(r, n.children, path, out + "`", p, content);
    hide Render, RenderAll, Content, CodeAdded, Appends, Is;
    AddsCode(out, content);
  }

  // ---- Fenced text ----

  /** The language and the body of a fence. */
  function ReadFence(s: string): Option<(string, string)> {
    var k := FirstNewline(s);
    if StartsWith(s, "```") && 3 <= k && k + 1 <= |s| - 5 && EndsWith(s, "```\n\n") then
      Some((s[3..k], s[k + 1..|s| - 5]))
    else None
  }

  function FirstNewline(s: string): (k: nat)
    ensures k <= |s|
  {
    if s == "" || s[0] == '\n' then 0 else 1 + FirstNewline(s[1..])
  }

  lemma {:induction false} FirstNewlineAt(line: string, rest: string)
    requires '\n' !in line
    ensures FirstNewline(line + "\n" + rest) == |line|
  {
    var s := line + "\n" + rest;
    if line != "" {
      assert s[1..] == line[1..] + "\n" + rest;
      FirstNewlineAt(line[1..], rest);
    }
  }

  function FenceText(lang: string, body: string): string { "```" + lang + "\n" + body + "```\n\n" }

  lemma FenceReads(lang: string, body: string)
    requires '\n' !in lang
    ensures ReadFence(FenceText(lang, body)) == Some((lang, body))
  {
    var first := "```" + lang;
    var s := first + "\n" + (body + "```\n\n");
    FirstNewlineAt(first, body + "```\n\n");
    assert s == "```" + lang + "\n" + body + "```\n\n";
    assert s[..3] == "```" && s[3..|first|] == lang;
    assert s[|first| + 1..] == body + "```\n\n";
    assert s[|s| - 5..] == "```\n\n";
    assert s[|first| + 1..|s| - 5] == body;
  }

  lemma FenceRendered(r: Resolver, n: Node, path: Path, out: string, p: Place)
    requires Is(n, "pre")
    ensures var start := EnsureNewline(out, 2) + "```" + Language(n.children, "") + "\n";
      var body := RenderAll(r, n.children, path, start, p.(pre := true));
      Render(r, n, path, out, p) == (if EndsWith(body, "\n") then body else body + "\n") + "```\n\n"
  {
    assert TagOf(n.name) == Pre;
    hide TagOf, Lower;
    RenderIs(r, n, path, out, p, Pre);
    hide Render, RenderAll, Language, EnsureNewline, EndsWith;
  }

  /** The content, and a newline if its last line lacks one. */
  function Closed(content: string): string {
    content + if content == "" || EndsWith(content, "\n") then "" else "\n"
  }

  /** A fence has been appended, after an empty line, that reads back as this language and body. */
  ghost predicate FenceAdded(out: string, whole: string, before: string, lang: string, body: string) {
    && Gap(out, before, 2)
    && whole == out + before + FenceText(lang, body)
    && ReadFence(FenceText(lang, body)) == Some((lang, body))
  }

  lemma FenceAfter(head: string, lang: string, body: string)
    ensures head + "```" + lang + "\n" + body + "```\n\n" == head + FenceText(lang, body)
  {
  }

  lemma AddsFence(out: string, before: string, lang: string, content: string)
    requires Gap(out, before, 2) && '\n' !in lang
    ensures var whole := out + before + "```" + lang + "\n" + content;
      var ended := if EndsWith(whole, "\n") then whole else whole + "\n";
      FenceAdded(out, ended + "```\n\n", before, lang, Closed(content))
  {
    var head, body := out + before + "```" + lang + "\n", Closed(content);
    FenceReads(lang, body);
    LastOfWhole(out + before + "```" + lang, content);
    FenceAfter(out + before, lang, body);
    hide Gap, ReadFence, EndsWith, FenceText;
    if content == "" || EndsWith(content, "\n") {
      assert content + "" == content;
    } else {
      assert head + content + "\n" == head + (content + "\n");
    }
  }

  lemma LastOfWhole(head: string, content: string)
    ensures EndsWith(head + "\n" + content, "\n") <==> content == "" || EndsWith(content, "\n")
  {
    var whole := head + "\n" + content;
    assert whole[|whole| - 1..] == [whole[|whole| - 1]];
    if content != "" {
      assert content[|content| - 1..] == [content[|content| - 1]];
      assert whole[|whole| - 1] == content[|content| - 1];
    }
  }

  /** Preformatted text is set off by an empty line and fenced, with its language, and reads back as these. */
  lemma FenceReadsBack(r: Resolver, n: Node, path: Path, out: string, p: Place)
    requires Is(n, "pre")
    ensures exists before, lang, content ::
      && FenceAdded(out, Render(r, n, path, out, p), before, lang, Closed(content))
      && NamesLanguage(CodeClasses(n.children), lang)
      && Appends(r, n.children, path, out + before + "```" + lang + "\n", p.(pre := true), content)
  {
    FenceRendered(r, n, path, out, p);
    LanguageMeaning(n.children);
    var before := EnsuredGap(out, 2);
    var lang := Language(n.children, "");
    var start := out + before + "```" + lang + "\n";
    LanguageIsOneLine(n.children);
    hide EnsureNewline, Render, RenderAll, Language, EndsWith, Gap;
    ContentAppended(r, n.children, path, start, p.(pre := true));
    var content := Content(r, n.children, path, start, p.(pre := true));
    assert Appends(r, n.children, path, start, p.(pre := true), content);
    hide Content, Appends, NamesLanguage, FenceAdded, Closed;
    AddsFence(out, before, lang, content);
  }

  /** The words of the classes of the children that are code, in order. */
  function CodeClasses(children: seq<Node>): seq<string> {
    if children == [] then []
    else
      var c := children[0];
      (if c.Element? && c.name == "code" && "class" in c.attrs then Words(c.attrs["class"]) else [])
      + CodeClasses(children[1..])
  }

  ghost predicate LanguageWord(word: string, lang: string) { word == "language-" + lang || word == "lang-" + lang }

  ghost predicate NoLanguage(words: seq<string>) { forall i, l :: 0 <= i < |words| ==> !LanguageWord(words[i], l) }

  /** The last word that names a language names this one. */
  ghost predicate LastNames(words: seq<string>, lang: string) {
    exists i :: 0 <= i < |words| && LanguageWord(words[i], lang) && NoLanguage(words[i + 1..])
  }

  /** The language is the one that the last word with a language names, or none. */
  ghost predicate NamesLanguage(words: seq<string>, lang: string) {
    LastNames(words, lang) || (NoLanguage(words) && lang == "")
  }

  /** One word names one language, or none and then an earlier word decides. */
  lemma OneWord(word: string, lang: string)
    ensures var now := if StartsWith(word, "language-") then word[|"language-"|..]
                       else if StartsWith(word, "lang-") then word[|"lang-"|..]
                       else lang;
      LanguageWord(word, now) || (now == lang && forall l :: !LanguageWord(word, l))
  {
    if StartsWith(word, "language-") {
      assert word == "language-" + word[9..];
    } else if StartsWith(word, "lang-") {
      assert word == "lang-" + word[5..];
    } else {
      forall l ensures !LanguageWord(word, l) {
        assert ("language-" + l)[..9] == "language-" && ("lang-" + l)[..5] == "lang-";
      }
    }
  }

  lemma {:induction false} ClassLanguage(words: seq<string>, lang: string)
    ensures var l := LanguageOf(words, lang); LastNames(words, l) || (NoLanguage(words) && l == lang)
  {
    if words != [] {
      var word, rest := words[0], words[1..];
      var now := if StartsWith(word, "language-") then word[|"language-"|..]
                 else if StartsWith(word, "lang-") then word[|"lang-"|..]
                 else lang;
      OneWord(word, lang);
      ClassLanguage(rest, now);
      hide LanguageWord, StartsWith;
      var l := LanguageOf(words, lang);
      if LastNames(rest, l) {
        var i :| 0 <= i < |rest| && LanguageWord(rest[i], l) && NoLanguage(rest[i + 1..]);
        assert words[i + 1] == rest[i] && words[i + 2..] == rest[i + 1..];
      } else if LanguageWord(word, now) {
        assert LanguageWord(words[0], l) && NoLanguage(words[1..]);
      } else {
        assert forall i :: 0 < i < |words| ==> words[i] == rest[i - 1];
      }
    }
  }

  lemma {:induction false} LanguagesConcat(a: seq<string>, b: seq<string>, lang: string)
    ensures LanguageOf(a + b, lang) == LanguageOf(b, LanguageOf(a, lang))
  {
    if a == [] {
      assert a + b == b;
    } else {
      assert (a + b)[1..] == a[1..] + b;
      LanguagesConcat(a[1..], b,
        if StartsWith(a[0], "language-") then a[0][|"language-"|..]
        else if StartsWith(a[0], "lang-") then a[0][|"lang-"|..]
        else lang);
    }
  }

  lemma {:induction false} LanguageOfClasses(children: seq<Node>, lang: string)
    ensures Language(children, lang) == LanguageOf(CodeClasses(children), lang)
  {
    hide LanguageOf, Words;
    if children != [] {
      var c := children[0];
      var first := if c.Element? && c.name == "code" && "class" in c.attrs then Words(c.attrs["class"]) else [];
      LanguagesConcat(first, CodeClasses(children[1..]), lang);
      LanguageOfClasses(children[1..], LanguageOf(first, lang));
      NoWords(lang);
    } else {
      NoWords(lang);
    }
  }

  lemma NoWords(lang: string)
    ensures LanguageOf([], lang) == lang
  {
  }

  lemma LanguageMeaning(children: seq<Node>)
    ensures NamesLanguage(CodeClasses(children), Language(children, ""))
  {
    LanguageOfClasses(children, "");
    ClassLanguage(CodeClasses(children), "");
    hide Language, LanguageOf, CodeClasses, LastNames, NoLanguage;
  }

  lemma {:induction false} ClassesAreSolid(children: seq<Node>)
    ensures forall w <- CodeClasses(children) :: IsSolid(w)
  {
    hide IsSolid, Words;
    if children != [] {
      var c := children[0];
      if c.Element? && "class" in c.attrs { WordsAreSolid(c.attrs["class"]); }
      ClassesAreSolid(children[1..]);
    }
  }

  lemma LanguageIsOneLine(children: seq<Node>)
    ensures '\n' !in Language(children, "")
  {
    LanguageMeaning(children);
    ClassesAreSolid(children);
    var words, lang := CodeClasses(children), Language(children, "");
    assert IsWhitespace('\n');
    hide IsWhitespace, CodeClasses, Language, NoLanguage;
    if LastNames(words, lang) {
      var i :| 0 <= i < |words| && LanguageWord(words[i], lang) && NoLanguage(words[i + 1..]);
      assert words[i] in words;
      forall k | 0 <= k < |lang| ensures lang[k] != '\n' {
        assert words[i][|words[i]| - |lang| + k] == lang[k];
      }
    }
  }

  // ---- Quotations ----

  /** The lines of a quotation, each without its mark. */
  function ReadQuote(s: string): seq<string> {
    var lines := Lines(s);
    seq(|lines|, i requires 0 <= i < |lines| => if StartsWith(lines[i], "> ") then lines[i][2..] else lines[i])
  }

  function Marked(lines: seq<string>): string {
    if lines == [] then "" else "> " + lines[0] + "\n" + Marked(lines[1..])
  }

  lemma {:induction false} QuoteLinesMarked(out: string, lines: seq<string>)
    ensures QuoteLines(out, lines) == out + Marked(NonBlank(lines))
    decreases |lines|
  {
    hide Trim;
    if lines != [] {
      var line, rest := Trim(lines[0]), NonBlank(lines[1..]);
      if line == "" {
        QuoteLinesMarked(out, lines[1..]);
        assert [] + rest == rest;
      } else {
        QuoteLinesMarked(out + "> " + line + "\n", lines[1..]);
        hide QuoteLines, NonBlank;
        MarkedFirst([line] + rest);
        hide *;
        assert ([line] + rest)[1..] == rest;
        assert out + "> " + line + "\n" + Marked(rest) == out + ("> " + line + "\n" + Marked(rest));
      }
    }
  }

  lemma MarkKeepsEnd(line: string)
    requires Trim(line) == line
    ensures !EndsWith("> " + line, "\r")
  {
    if line != "" { NoReturn(line); }
    hide *;
    EndsWithOne(line, '\r');
    EndsWithOne("> " + line, '\r');
  }

  lemma MarkedLine(line: string, rest: string)
    requires '\n' !in line && Trim(line) == line
    ensures Lines("> " + line + "\n" + rest) == ["> " + line] + Lines(rest)
  {
    hide *;
    MarkKeepsEnd(line);
    LinesNext("> " + line, rest);
  }

  ghost predicate AreTrimmed(lines: seq<string>) { forall line <- lines :: '\n' !in line && Trim(line) == line }

  lemma FirstTrimmed(lines: seq<string>)
    requires AreTrimmed(lines) && lines != []
    ensures '\n' !in lines[0] && Trim(lines[0]) == lines[0] && AreTrimmed(lines[1..])
  {
    hide Trim;
    assert lines[0] in lines && forall line <- lines[1..] :: line in lines;
  }

  lemma {:induction false} MarkedReads(lines: seq<string>)
    requires AreTrimmed(lines)
    ensures ReadQuote(Marked(lines)) == lines
  {
    hide *;
    if lines == [] {
      NothingMarked();
    } else {
      var line, rest := lines[0], Marked(lines[1..]);
      FirstTrimmed(lines);
      MarkedReads(lines[1..]);
      MarkedFirst(lines);
      MarkedLine(line, rest);
      ReadsNext(Marked(lines), line, rest);
      assert [line] + lines[1..] == lines;
    }
  }

  lemma NothingMarked()
    ensures ReadQuote(Marked([])) == []
  {
    LinesLast("");
    hide Lines;
  }

  lemma MarkedFirst(lines: seq<string>)
    requires lines != []
    ensures Marked(lines) == "> " + lines[0] + "\n" + Marked(lines[1..]) && '\n' !in "> "
  {
  }

  lemma ReadsNext(s: string, line: string, rest: string)
    requires Lines(s) == ["> " + line] + Lines(rest)
    ensures ReadQuote(s) == [line] + ReadQuote(rest)
  {
    hide Lines;
    assert ("> " + line)[2..] == line;
  }

  lemma QuoteRendered(r: Resolver, n: Node, path: Path, out: string, p: Place)
    requires Is(n, "blockquote")
    ensures Render(r, n, path, out, p)
         == EnsureNewline(QuoteLines(EnsureNewline(out, 2), Lines(RenderAll(r, n.children, path, "", p))), 2)
  {
    assert TagOf(n.name) == Quote;
    hide TagOf, Lower;
    RenderIs(r, n, path, out, p, Quote);
    hide Render, RenderAll, EnsureNewline, QuoteLines, Lines;
  }

  /** A quotation is set off by empty lines; its lines read back as the content's, trimmed and without blank ones. */
  lemma QuoteReadsBack(r: Resolver, n: Node, path: Path, out: string, p: Place)
    requires Is(n, "blockquote")
    ensures exists before, after ::
      var lines := NonBlank(Lines(RenderAll(r, n.children, path, "", p)));
      && Gap(out, before, 2)
      && Render(r, n, path, out, p) == out + before + Marked(lines) + after
      && ReadQuote(Marked(lines)) == lines
      && Gap(out + before + Marked(lines), after, 2)
  {
    QuoteRendered(r, n, path, out, p);
    var inner := Lines(RenderAll(r, n.children, path, "", p));
    LinesAreLines(RenderAll(r, n.children, path, "", p));
    NonBlankLines(inner);
    MarkedReads(NonBlank(inner));
    var before := EnsuredGap(out, 2);
    QuoteLinesMarked(out + before, inner);
    hide EnsureNewline, Render, RenderAll, Gap, QuoteLines, NonBlank, Trim, Marked, ReadQuote, Lines;
    var after := EnsuredGap(out + before + Marked(NonBlank(inner)), 2);
  }

  // ---- Blocks without punctuation ----

  lemma ParagraphRendered(r: Resolver, n: Node, path: Path, out: string, p: Place)
    requires Is(n, "p")
    ensures Render(r, n, path, out, p) == EnsureNewline(RenderAll(r, n.children, path, EnsureNewline(out, 2), p), 2)
  {
    assert TagOf(n.name) == Paragraph;
    hide TagOf, Lower;
    RenderIs(r, n, path, out, p, Paragraph);
    hide Render, RenderAll, EnsureNewline;
  }

  /** Inside the list, one level deeper. */
  function Deeper(n: Node, path: Path, p: Place): Place
    requires n.Element?
  {
    p.(depth := p.depth + 1, near := if Lower(n.name) == "ul" then BulletsAt(path) else NumberedAt(path))
  }

  lemma ListRendered(r: Resolver, n: Node, path: Path, out: string, p: Place)
    requires Is(n, "ul") || Is(n, "ol")
    ensures Render(r, n, path, out, p)
         == EnsureNewline(RenderAll(r, n.children, path, EnsureNewline(out, 1), Deeper(n, path, p)), 1)
  {
    var tag := if Lower(n.name) == "ul" then Bullets else Numbered;
    assert TagOf(n.name) == tag;
    hide TagOf, Lower;
    RenderIs(r, n, path, out, p, tag);
    hide Render, RenderAll, EnsureNewline;
  }

  lemma RuleRendered(r: Resolver, n: Node, path: Path, out: string, p: Place)
    requires Is(n, "hr") || Is(n, "br")
    ensures Render(r, n, path, out, p)
         == if Is(n, "hr") then EnsureNewline(EnsureNewline(out, 2) + "---", 2) else out + "\n"
  {
    var tag := if Lower(n.name) == "hr" then Rule else Break;
    assert TagOf(n.name) == tag;
    hide TagOf, Lower;
    RenderIs(r, n, path, out, p, tag);
    hide Render, RenderAll, EnsureNewline;
  }

  /** Content that stands between gaps of so many newlines. */
  ghost predicate SetOff(out: string, whole: string, content: string, count: nat) {
    exists before, after ::
      Gap(out, before, count) && whole == out + before + content + after && Gap(out + before + content, after, count)
  }

  lemma SetsOff(r: Resolver, ns: seq<Node>, path: Path, out: string, p: Place, count: nat) returns (content: string)
    ensures SetOff(out, EnsureNewline(RenderAll(r, ns, path, EnsureNewline(out, count), p), count), content, count)
    ensures Appends(r, ns, path, EnsureNewline(out, count), p, content)
  {
    var before := EnsuredGap(out, count);
    hide EnsureNewline, RenderAll, Gap;
    ContentAppended(r, ns, path, out + before, p);
    content := Content(r, ns, path, out + before, p);
    hide Content;
    var after := EnsuredGap(out + before + content, count);
  }

  /** A paragraph is set off by empty lines. */
  lemma ParagraphSetOff(r: Resolver, n: Node, path: Path, out: string, p: Place)
    requires Is(n, "p")
    ensures exists content ::
      && SetOff(out, Render(r, n, path, out, p), content, 2)
      && Appends(r, n.children, path, EnsureNewline(out, 2), p, content)
  {
    assert n.Element?;
    hide *;
    ParagraphRendered(r, n, path, out, p);
    var content := SetsOff(r, n.children, path, out, p, 2);
  }

  /** A list is set off by line breaks, and its content is one level deeper. */
  lemma ListSetOff(r: Resolver, n: Node, path: Path, out: string, p: Place)
    requires Is(n, "ul") || Is(n, "ol")
    ensures exists content ::
      && SetOff(out, Render(r, n, path, out, p), content, 1)
      && Appends(r, n.children, path, EnsureNewline(out, 1), Deeper(n, path, p), content)
  {
    ListRendered(r, n, path, out, p);
    hide Render, RenderAll, EnsureNewline, SetOff, Appends, Deeper;
    var content := SetsOff(r, n.children, path, out, Deeper(n, path, p), 1);
  }

  /** A rule is three dashes set off by empty lines, and a break is a newline. */
  lemma RuleAndBreak(r: Resolver, n: Node, path: Path, out: string, p: Place)
    requires Is(n, "hr") || Is(n, "br")
    ensures if Is(n, "hr") then SetOff(out, Render(r, n, path, out, p), "---", 2)
            else Render(r, n, path, out, p) == out + "\n"
  {
    RuleRendered(r, n, path, out, p);
    RuleSetOff(out);
    hide Render, EnsureNewline, SetOff;
  }

  lemma RuleSetOff(out: string)
    ensures SetOff(out, EnsureNewline(EnsureNewline(out, 2) + "---", 2), "---", 2)
  {
    var before := EnsuredGap(out, 2);
    hide EnsureNewline, Gap;
    var after := EnsuredGap(out + before + "---", 2);
  }

  lemma ItemRendered(r: Resolver, n: Node, path: Path, out: string, p: Place)
    requires Is(n, "li")
    ensures Render(r, n, path, out, p)
         == EnsureNewline(
              RenderAll(r, n.children, path, EnsureNewline(out, 1) + Indent(p.depth) + MarkerText(path, p), p), 1)
  {
    assert TagOf(n.name) == Item;
    hide TagOf, Lower;
    RenderIs(r, n, path, out, p, Item);
    hide Render, RenderAll, EnsureNewline, Indent, MarkerText;
  }

  /** The marker of an item: two spaces for each level but the first, and then its numeral or a dash. */
  ghost predicate IsMarker(p: Place, path: Path, marker: string) {
    var level: nat := if p.depth == 0 then 0 else p.depth - 1;
    && |marker| >= 2 * level + 2
    && (forall i :: 0 <= i < 2 * level ==> marker[i] == ' ')
    && marker[2 * level..] == if p.near.NumberedAt? then Decimal(NumeralOf(p.items, path)) + ". " else "- "
  }

  lemma {:induction false} SpacesOnly(n: nat)
    ensures forall i :: 0 <= i < 2 * n ==> Repeat("  ", n)[i] == ' '
  {
    if n > 0 { SpacesOnly(n - 1); }
  }

  lemma MarkerIsMarker(p: Place, path: Path)
    ensures IsMarker(p, path, Indent(p.depth) + MarkerText(path, p))
  {
    var level: nat := if p.depth == 0 then 0 else p.depth - 1;
    SpacesOnly(level);
    var text := MarkerText(path, p);
    assert |text| >= 2;
    hide Decimal, NumeralOf, MarkerText;
    assert (Indent(p.depth) + text)[2 * level..] == text;
    hide Repeat;
    assert text == if p.near.NumberedAt? then Decimal(NumeralOf(p.items, path)) + ". " else "- " by {
      MarkerTextIs(p, path);
    }
  }

  lemma MarkerTextIs(p: Place, path: Path)
    ensures MarkerText(path, p) == if p.near.NumberedAt? then Decimal(NumeralOf(p.items, path)) + ". " else "- "
  {
    hide Decimal, NumeralOf;
  }

  /** An item on a line of its own. */
  ghost predicate ItemAdded(out: string, whole: string, before: string, marker: string, content: string) {
    exists after ::
      && Gap(out, before, 1)
      && whole == out + before + marker + content + after
      && Gap(out + before + marker + content, after, 1)
  }

  lemma Rebracket(a: string, b: string, c: string)
    ensures a + b + c == a + (b + c)
  {
  }

  /** An item starts on a line of its own, with its marker, and then its content. */
  lemma ItemReadsBack(r: Resolver, n: Node, path: Path, out: string, p: Place)
    requires Is(n, "li")
    ensures exists before, marker, content ::
      && ItemAdded(out, Render(r, n, path, out, p), before, marker, content)
      && IsMarker(p, path, marker)
      && Appends(r, n.children, path, out + before + marker, p, content)
  {
    assert n.Element?;
    hide *;
    ItemRendered(r, n, path, out, p);
    MarkerIsMarker(p, path);
    var marker := Indent(p.depth) + MarkerText(path, p);
    var before := EnsuredGap(out, 1);
    Rebracket(EnsureNewline(out, 1), Indent(p.depth), MarkerText(path, p));
    var content := ContentIs(r, n.children, path, out + before + marker, p);
    AddsItem(out, before, marker, content);
  }

  lemma AddsItem(out: string, before: string, marker: string, content: string)
    requires Gap(out, before, 1)
    ensures ItemAdded(out, EnsureNewline(out + before + marker + content, 1), before, marker, content)
  {
    var after := EnsuredGap(out + before + marker + content, 1);
    hide Gap, EnsureNewline;
  }
}
