/** Plain text and the final clean-up: no word is lost, joined or split, and what whitespace remains is tidy. */
module MarkdownText {
  import opened Prelude
  import opened Text
  import opened MarkdownItems
  import opened Markdown

  // ---- Text nodes ----

  /** Whitespace comes as single spaces, and not first if a space stands before. */
  ghost predicate Squeezed(t: string, spaceBefore: bool) {
    && (forall i :: 0 <= i < |t| && IsWhitespace(t[i]) ==> t[i] == ' ')
    && (forall i :: 0 < i < |t| && IsWhitespace(t[i]) ==> !IsWhitespace(t[i - 1]))
    && (spaceBefore && t != "" ==> !IsWhitespace(t[0]))
  }

  lemma {:induction false} PushSqueezes(out: string, text: string, prevSpace: bool) returns (t: string)
    ensures PushText(out, text, prevSpace) == out + t && Squeezed(t, prevSpace) && Words(t) == Words(text)
    ensures t != "" && text != "" ==> (IsWhitespace(t[0]) <==> IsWhitespace(text[0])) || prevSpace
    ensures !prevSpace ==> (t == "" <==> text == "")
    decreases |text|
  {
    assert IsWhitespace(' ');
    hide IsWhitespace;
    if text == "" {
      t := "";
    } else if IsWhitespace(text[0]) {
      var rest := PushSqueezes(if prevSpace then out else out + " ", text[1..], true);
      t := if prevSpace then rest else " " + rest;
      assert !prevSpace ==> t[0] == ' ' && t[1..] == rest;
    } else {
      var rest := PushSqueezes(out + [text[0]], text[1..], false);
      t := [text[0]] + rest;
      assert t[1..] == rest && (|text| > 1 ==> text[1] == text[1..][0]) && (|t| > 1 ==> t[1] == rest[0]);
    }
  }

  /** Text keeps its words and has its whitespace squeezed, or is kept as it is in preformatted text. */
  lemma TextIsKept(r: Resolver, text: string, path: Path, out: string, p: Place)
    ensures var whole := Render(r, TextNode(text), path, out, p);
      if p.pre then whole == out + text
      else exists t ::
        && whole == out + t && Words(t) == Words(text)
        && Squeezed(t, out != "" && out[|out| - 1] in {' ', '\n'})
  {
    if !p.pre {
      assert EndsSpaced(out) <==> out != "" && out[|out| - 1] in {' ', '\n'} by {
        assert out != "" ==> out[|out| - 1..] == [out[|out| - 1]];
      }
      hide EndsSpaced, PushText, Words, Squeezed;
      var t := PushSqueezes(out, text, EndsSpaced(out));
    }
  }

  // ---- The final clean-up ----

  lemma {:induction false} TrimEndKeepsWords(s: string)
    ensures Words(TrimEnd(s)) == Words(s)
  {
    hide IsWhitespace;
    if s != "" && IsWhitespace(s[|s| - 1]) {
      var front, c := s[..|s| - 1], s[|s| - 1];
      TrimEndKeepsWords(front);
      WordsApart(front, c, "");
      assert front + [c] + "" == s;
    }
  }

  lemma {:induction false} TrimStartKeepsWords(s: string)
    ensures Words(TrimStart(s)) == Words(s)
  {
    hide IsWhitespace;
    if s != "" && IsWhitespace(s[0]) { TrimStartKeepsWords(s[1..]); }
  }

  /** The words of some lines, one line after the other. */
  function WordsAll(lines: seq<string>): seq<string> {
    if lines == [] then [] else Words(lines[0]) + WordsAll(lines[1..])
  }

  lemma WithoutReturnKeepsWords(line: string)
    ensures Words(WithoutReturn(line)) == Words(line)
  {
    if EndsWith(line, "\r") {
      var front := line[..|line| - 1];
      assert IsWhitespace('\r');
      assert line[|line| - 1..] == "\r";
      WordsApart(front, '\r', "");
      assert front + ['\r'] + "" == line;
    }
    hide IsWhitespace;
  }

  function FirstLine(s: string): (k: nat)
    ensures k <= |s| && '\n' !in s[..k] && (k < |s| ==> s[k] == '\n')
  {
    if s == "" || s[0] == '\n' then 0
    else
      var k := FirstLine(s[1..]);
      assert s[..k + 1] == [s[0]] + s[1..][..k];
      k + 1
  }

  /** The words of a text are those of its lines. */
  lemma {:induction false} WordsOfLines(s: string)
    ensures WordsAll(Lines(s)) == Words(s)
    decreases |s|
  {
    var k := FirstLine(s);
    assert IsWhitespace('\n');
    hide IsWhitespace, FirstLine, EndsWith;
    if k == |s| {
      assert s[..k] == s;
      LinesLast(s);
      hide Lines;
      if s != "" { assert WordsAll([s]) == Words(s) + []; }
    } else {
      var line, rest := s[..k], s[k + 1..];
      assert s == line + "\n" + rest;
      LinesNext(line, rest);
      WordsApart(line, '\n', rest);
      WithoutReturnKeepsWords(line);
      WordsOfLines(rest);
      assert ([WithoutReturn(line)] + Lines(rest))[1..] == Lines(rest);
      hide Words, Lines;
    }
  }

  lemma NewlineFirst(s: string)
    ensures Words("\n" + s) == Words(s)
  {
    assert IsWhitespace('\n');
    assert ("\n" + s)[1..] == s;
    hide IsWhitespace;
  }

  lemma {:induction false} CleanLinesKeepWords(lines: seq<string>, blanks: nat)
    ensures Words(CleanLines(lines, blanks)) == WordsAll(lines)
  {
    if lines != [] {
      var line := TrimEnd(lines[0]);
      TrimEndKeepsWords(lines[0]);
      assert IsWhitespace('\n');
      hide IsWhitespace, TrimEnd;
      if line == "" {
        var rest := CleanLines(lines[1..], blanks + 1);
        CleanLinesKeepWords(lines[1..], blanks + 1);
        assert Words(lines[0]) == [];
        hide Words;
        NewlineFirst(rest);
        assert "" + rest == rest;
      } else {
        var rest := CleanLines(lines[1..], 0);
        CleanLinesKeepWords(lines[1..], 0);
        hide Words;
        WordsApart(line, '\n', rest);
        assert line + "\n" + rest == line + ['\n'] + rest;
      }
    }
  }

  /** The clean-up loses no word, and neither joins nor splits any. */
  lemma CleanUpKeepsWords(s: string)
    ensures Words(CleanMarkdownWhitespace(s)) == Words(s)
  {
    var t := CleanLines(Lines(s), 0);
    WordsOfLines(s);
    CleanLinesKeepWords(Lines(s), 0);
    TrimStartKeepsWords(t);
    TrimEndKeepsWords(TrimStart(t));
    hide Lines, CleanLines, Words, WordsAll, TrimStart, TrimEnd;
  }

  /** No line ends in whitespace, and no three lines in a row are empty. */
  ghost predicate Tidy(lines: seq<string>) {
    && (forall i :: 0 <= i < |lines| ==> TrimEnd(lines[i]) == lines[i])
    && (forall i :: 0 <= i < |lines| - 2 ==> lines[i] != "" || lines[i + 1] != "" || lines[i + 2] != "")
  }

  /** How many empty lines come first. */
  function Blanks(lines: seq<string>): nat { if lines != [] && lines[0] == "" then 1 + Blanks(lines[1..]) else 0 }

  lemma TrimEndTwice(s: string)
    ensures TrimEnd(TrimEnd(s)) == TrimEnd(s)
  {
    hide IsWhitespace;
  }

  lemma TidyNext(line: string, lines: seq<string>)
    requires Tidy(lines) && TrimEnd(line) == line && (line == "" ==> Blanks(lines) <= 1)
    ensures Tidy([line] + lines)
  {
    var all := [line] + lines;
    hide TrimEnd;
    assert forall i :: 0 < i < |all| ==> all[i] == lines[i - 1];
    if |all| > 2 && line == "" && lines[0] == "" { assert lines[1] == lines[1..][0]; }
  }

  lemma LineOf(line: string, rest: string)
    requires '\n' !in line && TrimEnd(line) == line
    ensures Lines(line + "\n" + rest) == [line] + Lines(rest)
  {
    LinesNext(line, rest);
    assert line != "" ==> line[|line| - 1..] == [line[|line| - 1]] && !IsWhitespace(line[|line| - 1]);
    assert IsWhitespace('\r');
    hide Lines, TrimEnd;
  }

  lemma TrimmedLine(line: string)
    requires '\n' !in line
    ensures '\n' !in TrimEnd(line)
  {
  }

  lemma LineFirst(line: string, rest: string, n: nat)
    requires '\n' !in line && TrimEnd(line) == line
    requires Tidy(Lines(rest)) && (line == "" ==> Blanks(Lines(rest)) <= n <= 1)
    ensures var cleaned := Lines(line + "\n" + rest);
      Tidy(cleaned) && Blanks(cleaned) <= if line == "" then n + 1 else 0
  {
    LineOf(line, rest);
    TidyNext(line, Lines(rest));
    hide Tidy, TrimEnd, Lines;
    assert ([line] + Lines(rest))[1..] == Lines(rest);
  }

  /** An empty line is dropped after two others. */
  lemma CleanNext(lines: seq<string>, blanks: nat)
    requires lines != []
    ensures var line := TrimEnd(lines[0]);
      var rest := CleanLines(lines[1..], if line == "" then blanks + 1 else 0);
      CleanLines(lines, blanks) == if line == "" && blanks >= 2 then rest else line + "\n" + rest
  {
    hide TrimEnd;
    var rest := CleanLines(lines[1..], blanks + 1);
    assert "" + rest == rest && "" + "\n" + rest == "\n" + rest;
  }

  lemma TwoLess(n: nat)
    ensures Max(2 - (n + 1), 0) == if n < 2 then 1 - n else 0
    ensures Max(2 - n, 0) == if n < 2 then 2 - n else 0
  {
  }

  /** Before the ends are trimmed, the lines of the clean-up are tidy. */
  lemma {:induction false} CleanLinesAreTidy(lines: seq<string>, blanks: nat)
    requires forall line <- lines :: '\n' !in line
    ensures var cleaned := Lines(CleanLines(lines, blanks)); Tidy(cleaned) && Blanks(cleaned) <= Max(2 - blanks, 0)
  {
    if lines == [] {
      LinesLast("");
    } else {
      var line := TrimEnd(lines[0]);
      assert lines[0] in lines && forall l <- lines[1..] :: l in lines;
      TrimmedLine(lines[0]);
      TrimEndTwice(lines[0]);
      var next := if line == "" then blanks + 1 else 0;
      CleanLinesAreTidy(lines[1..], next);
      hide *;
      CleanNext(lines, blanks);
      if line != "" || blanks < 2 {
        LineFirst(line, CleanLines(lines[1..], next), if line == "" then 1 - blanks else 0);
      }
      TwoLess(blanks);
    }
  }

  /** The clean-up is tidy lines with the whitespace around them taken away. */
  lemma CleanUpIsTidy(s: string)
    ensures exists t :: CleanMarkdownWhitespace(s) == Trim(t) && Tidy(Lines(t))
  {
    LinesAreLines(s);
    CleanLinesAreTidy(Lines(s), 0);
    hide Lines, CleanLines, Trim, Tidy;
  }

  // ---- Tags ----

  /** Which names are which elements, in any case of letters; everything else is a container. */
  lemma TagMeaning(name: string)
    ensures var tag, lower := TagOf(name), Lower(name);
      && (tag == Numbered <==> lower == "ol")
      && (tag == Bullets <==> lower == "ul")
      && (tag == Item <==> lower == "li")
      && (tag == Table <==> lower == "table")
      && (tag == Image <==> lower == "img")
      && (tag == Break <==> lower == "br")
      && (tag == Rule <==> lower == "hr")
      && (tag == Container <==> lower !in {
            "h1", "h2", "h3", "h4", "h5", "h6", "p", "b", "strong", "i", "em", "s", "del", "strike", "pre", "code", "a",
            "img", "ul", "ol", "li", "blockquote", "table", "br", "hr"})
  {
    ListTags(name);
    PlainTags(name);
    ContainerTag(name);
    hide *;
  }

  lemma ListTags(name: string)
    ensures var tag, lower := TagOf(name), Lower(name);
      && (tag == Numbered <==> lower == "ol")
      && (tag == Bullets <==> lower == "ul")
      && (tag == Item <==> lower == "li")
      && (tag == Table <==> lower == "table")
  {
    hide Lower;
  }

  lemma PlainTags(name: string)
    ensures var tag, lower := TagOf(name), Lower(name);
      && (tag == Image <==> lower == "img")
      && (tag == Break <==> lower == "br")
      && (tag == Rule <==> lower == "hr")
  {
    hide Lower;
  }

  lemma ContainerTag(name: string)
    ensures TagOf(name) == Container
       <==> Lower(name) !in {
              "h1", "h2", "h3", "h4", "h5", "h6", "p", "b", "strong", "i", "em", "s", "del", "strike", "pre", "code",
              "a", "img", "ul", "ol", "li", "blockquote", "table", "br", "hr"}
  {
    hide Lower;
  }

  /** Any other element renders as its children. */
  lemma ContainerRendered(r: Resolver, n: Node, path: Path, out: string, p: Place)
    requires n.Element? && TagOf(n.name) == Container
    ensures Render(r, n, path, out, p) == RenderAll(r, n.children, path, out, p)
  {
    hide TagOf, RenderAll;
  }
}
