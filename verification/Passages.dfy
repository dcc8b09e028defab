/** The passages of a text: its paragraphs of a fitting length, without the whitespace around them. */
module Passages {
  import opened Prelude
  import Text
  import Utf8

  /** The stretches between blank lines. */
  function Paragraphs(s: string): (r: seq<string>)
    ensures r != []
  {
    if s == "" then [""]
    else if |s| > 1 && s[0] == '\n' && s[1] == '\n' then [""] + Paragraphs(s[2..])
    else
      var rest := Paragraphs(s[1..]);
      [[s[0]] + rest[0]] + rest[1..]
  }

  /** Between 40 and 2000 bytes long. */
  predicate IsPassage(trimmed: string) { 40 <= |Utf8.Encode(trimmed)| <= 2000 }

  function Fitting(paragraphs: seq<string>): seq<string> {
    if paragraphs == [] then []
    else
      var trimmed := Text.Trim(paragraphs[|paragraphs| - 1]);
      Fitting(paragraphs[..|paragraphs| - 1]) + if IsPassage(trimmed) then [trimmed] else []
  }

  function PassagesIn(content: string): seq<string> { Fitting(Paragraphs(content)) }

  // ---- Where a text is cut ----

  ghost predicate NoBlankLine(s: string) { forall i :: 0 <= i < |s| - 1 ==> s[i] != '\n' || s[i + 1] != '\n' }

  ghost predicate Stretch(s: string, last: bool) {
    NoBlankLine(s) && (!last && s != "" ==> s[|s| - 1] != '\n')
  }

  /** The stretches, with two line feeds between them, are the text; each cut is made at the first place possible. */
  ghost predicate Stretches(s: string, pieces: seq<string>) {
    && pieces != [] && Text.Join(pieces, "\n\n") == s
    && forall i :: 0 <= i < |pieces| ==> Stretch(pieces[i], i == |pieces| - 1)
  }

  lemma {:induction false} ParagraphsMeaning(s: string)
    ensures Stretches(s, Paragraphs(s))
  {
    if s == "" {
      assert Text.Join([""], "\n\n") == "";
    } else if |s| > 1 && s[0] == '\n' && s[1] == '\n' {
      ParagraphsMeaning(s[2..]);
      CutHere(s, Paragraphs(s[2..]));
    } else {
      ParagraphsMeaning(s[1..]);
      NoCutHere(s, Paragraphs(s[1..]));
    }
  }

  lemma CutHere(s: string, rest: seq<string>)
    requires |s| > 1 && s[0] == '\n' && s[1] == '\n' && Stretches(s[2..], rest)
    ensures Stretches(s, [""] + rest)
  {
    var all := [""] + rest;
    hide Stretch;
    assert Stretch("", false) by { EmptyStretch(); }
    assert all[1..] == rest;
    assert Text.Join(all, "\n\n") == "" + "\n\n" + s[2..] == s;
  }

  lemma EmptyStretch()
    ensures Stretch("", false)
  {
  }

  lemma NoCutHere(s: string, rest: seq<string>)
    requires s != "" && !(|s| > 1 && s[0] == '\n' && s[1] == '\n') && Stretches(s[1..], rest)
    ensures Stretches(s, [[s[0]] + rest[0]] + rest[1..])
  {
    var all := [[s[0]] + rest[0]] + rest[1..];
    JoinFirst(s[0], rest);
    assert [s[0]] + s[1..] == s;
    StretchFirst(s, rest);
    hide Stretch;
    assert forall i :: 0 < i < |all| ==> all[i] == rest[i];
  }

  lemma JoinFirst(c: char, rest: seq<string>)
    requires rest != []
    ensures Text.Join([[c] + rest[0]] + rest[1..], "\n\n") == [c] + Text.Join(rest, "\n\n")
  {
    var all := [[c] + rest[0]] + rest[1..];
    assert all[1..] == rest[1..];
    if |rest| > 1 {
      var tail := Text.Join(rest[1..], "\n\n");
      assert Text.Join(rest, "\n\n") == rest[0] + "\n\n" + tail;
      assert Text.Join(all, "\n\n") == [c] + rest[0] + "\n\n" + tail;
      hide Text.Join;
      Rebracket(c, rest[0], "\n\n", tail);
    }
  }

  lemma Rebracket(c: char, a: string, b: string, d: string)
    ensures [c] + a + b + d == [c] + (a + b + d)
  {
  }

  lemma StretchFirst(s: string, rest: seq<string>)
    requires s != "" && !(|s| > 1 && s[0] == '\n' && s[1] == '\n') && Stretches(s[1..], rest)
    ensures Stretch([s[0]] + rest[0], |rest| == 1)
  {
    var first, head := [s[0]] + rest[0], rest[0];
    assert Stretch(head, |rest| == 1);
    FirstIsPrefix(rest);
    assert s[1..][..|head|] == head;
    assert forall i :: 0 < i < |first| ==> first[i] == head[i - 1];
    assert head != "" ==> head[0] == s[1..][0] == s[1];
    if head == "" && |rest| > 1 { EmptyFirst(rest); }
  }

  lemma EmptyFirst(rest: seq<string>)
    requires |rest| > 1 && rest[0] == ""
    ensures var s := Text.Join(rest, "\n\n"); s != "" && s[0] == '\n'
  {
    assert Text.Join(rest, "\n\n") == "" + "\n\n" + Text.Join(rest[1..], "\n\n");
  }

  lemma FirstIsPrefix(pieces: seq<string>)
    requires pieces != []
    ensures pieces[0] <= Text.Join(pieces, "\n\n")
  {
  }

  // ---- Which stretches are passages ----

  /** One of the stretches, without the whitespace around it, is the text, and its length fits. */
  ghost predicate IsPassageOf(content: string, t: string) {
    && 40 <= |Utf8.Encode(t)| <= 2000
    && exists p <- Paragraphs(content) :: TrimsTo(p, t)
  }

  ghost predicate TrimsTo(p: string, t: string) { exists i: nat, j: nat :: Text.TrimmedAt(p, i, j) && p[i..j] == t }

  lemma {:induction false} FittingMeaning(paragraphs: seq<string>, t: string)
    ensures t in Fitting(paragraphs) <==> IsPassage(t) && exists p <- paragraphs :: Text.Trim(p) == t
  {
    hide IsPassage, Text.Trim;
    if paragraphs != [] {
      var init, last := paragraphs[..|paragraphs| - 1], paragraphs[|paragraphs| - 1];
      FittingMeaning(init, t);
      assert paragraphs == init + [last];
    }
  }

  lemma PassagesMeaning(content: string, t: string)
    ensures t in PassagesIn(content) <==> IsPassageOf(content, t)
  {
    FittingMeaning(Paragraphs(content), t);
    forall p | p in Paragraphs(content) ensures Text.Trim(p) == t <==> TrimsTo(p, t) { Text.TrimMeaning(p, t); }
    hide Fitting, Paragraphs, Text.Trim, TrimsTo, Utf8.Encode;
  }

  function Fits(): string -> int { (p: string) => if IsPassage(Text.Trim(p)) then 1 else 0 }

  lemma {:induction false} FittingCount(paragraphs: seq<string>)
    ensures |Fitting(paragraphs)| == Sum(paragraphs, Fits())
  {
    hide IsPassage, Text.Trim;
    if paragraphs != [] { FittingCount(paragraphs[..|paragraphs| - 1]); }
  }

  /** Passages keep the order of the text: each stands behind as many as come before it. */
  lemma {:induction false} FittingInOrder(paragraphs: seq<string>, i: nat)
    requires i < |paragraphs| && IsPassage(Text.Trim(paragraphs[i]))
    ensures var all, k := Fitting(paragraphs), Sum(paragraphs[..i], Fits());
      |all| == Sum(paragraphs, Fits()) && 0 <= k < |all| && all[k] == Text.Trim(paragraphs[i])
  {
    FittingCount(paragraphs);
    hide IsPassage, Text.Trim, Sum;
    var init := paragraphs[..|paragraphs| - 1];
    FittingCount(init);
    if i < |init| {
      FittingInOrder(init, i);
      assert init[..i] == paragraphs[..i];
    } else {
      assert paragraphs[..i] == init;
    }
  }

  /** A blank text has no passages. */
  lemma BlankHasNone(content: string)
    requires Text.Trim(content) == ""
    ensures PassagesIn(content) == []
  {
    hide Fitting, Text.Trim, Paragraphs;
    BlankPieces(content);
    NoneFits(Paragraphs(content));
  }

  lemma {:induction false} NoneFits(paragraphs: seq<string>)
    requires forall p <- paragraphs :: Text.Trim(p) == ""
    ensures Fitting(paragraphs) == []
  {
    assert |Utf8.Encode("")| == 0;
    hide Text.Trim, Utf8.Encode;
    if paragraphs != [] { NoneFits(paragraphs[..|paragraphs| - 1]); }
  }

  lemma BlankPieces(content: string)
    requires Text.Trim(content) == ""
    ensures forall p <- Paragraphs(content) :: Text.Trim(p) == ""
  {
    hide Text.Trim, Paragraphs, Stretch;
    ParagraphsMeaning(content);
    var pieces := Paragraphs(content);
    forall p | p in pieces ensures Text.Trim(p) == "" {
      var i :| 0 <= i < |pieces| && pieces[i] == p;
      PieceOfBlank(content, pieces, i);
    }
  }

  ghost predicate Occurs(s: string, piece: string, at: nat) { at + |piece| <= |s| && s[at..at + |piece|] == piece }

  ghost predicate IsBlank(s: string) { forall k :: 0 <= k < |s| ==> Text.IsWhitespace(s[k]) }

  lemma BlankMeaning(s: string)
    ensures Text.Trim(s) == "" <==> IsBlank(s)
  {
    Text.TrimMeaning(s, "");
    hide Text.IsWhitespace, Text.Trim;
    if IsBlank(s) { assert Text.TrimmedAt(s, 0, 0) && s[0..0] == ""; }
  }

  lemma PieceOfBlank(content: string, pieces: seq<string>, i: nat)
    requires Text.Trim(content) == "" && Text.Join(pieces, "\n\n") == content && i < |pieces|
    ensures Text.Trim(pieces[i]) == ""
  {
    hide Text.IsWhitespace, Text.Trim, Text.Join;
    BlankMeaning(content);
    BlankMeaning(pieces[i]);
    PieceIn(pieces, "\n\n", i);
    var at: nat :| Occurs(content, pieces[i], at);
    forall k | 0 <= k < |pieces[i]| ensures Text.IsWhitespace(pieces[i][k]) {
      assert pieces[i][k] == content[at..at + |pieces[i]|][k] == content[at + k];
    }
  }

  lemma {:induction false} PieceIn(pieces: seq<string>, glue: string, i: nat)
    requires i < |pieces|
    ensures exists at: nat :: Occurs(Text.Join(pieces, glue), pieces[i], at)
  {
    var s := Text.Join(pieces, glue);
    if i == 0 {
      assert Occurs(s, pieces[0], 0);
    } else {
      var rest := Text.Join(pieces[1..], glue);
      PieceIn(pieces[1..], glue, i - 1);
      var at: nat :| Occurs(rest, pieces[i], at);
      assert s == pieces[0] + glue + rest;
      hide Text.Join;
      assert Occurs(s, pieces[i], |pieces[0] + glue| + at);
    }
  }
}
