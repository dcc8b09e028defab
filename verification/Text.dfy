/** Characters and strings: ordering, trimming, splitting and case, as the Rust standard library defines them. */
module Text {

  /** The Unicode White_Space property. */
  predicate IsWhitespace(c: char) {
    var n := c as int;
    || 0x09 <= n <= 0x0D || n == 0x20 || n == 0x85 || n == 0xA0 || n == 0x1680
    || 0x2000 <= n <= 0x200A || n == 0x2028 || n == 0x2029 || n == 0x202F || n == 0x205F || n == 0x3000
  }

  predicate IsDigit(c: char) { '0' <= c <= '9' }

  function TrimStart(s: string): (r: string)
    ensures r != "" ==> !IsWhitespace(r[0])
    ensures |r| <= |s| && r == s[|s| - |r|..]
  {
    if s != "" && IsWhitespace(s[0]) then TrimStart(s[1..]) else s
  }

  function TrimEnd(s: string): (r: string)
    ensures r != "" ==> !IsWhitespace(r[|r| - 1])
    ensures r <= s
  {
    if s != "" && IsWhitespace(s[|s| - 1]) then TrimEnd(s[..|s| - 1]) else s
  }

  function Trim(s: string): (r: string)
    ensures r != "" ==> !IsWhitespace(r[0]) && !IsWhitespace(r[|r| - 1])
  {
    TrimEnd(TrimStart(s))
  }

  /** Only whitespace stands before `i` and from `j` on, and none at the ends of what lies between. */
  ghost predicate TrimmedAt(s: string, i: nat, j: nat) {
    && i <= j <= |s|
    && (forall k :: 0 <= k < i || j <= k < |s| ==> IsWhitespace(s[k]))
    && (i < j ==> !IsWhitespace(s[i]) && !IsWhitespace(s[j - 1]))
  }

  lemma {:induction false} TrimStartDrops(s: string)
    ensures forall i :: 0 <= i < |s| - |TrimStart(s)| ==> IsWhitespace(s[i])
  {
    if s != "" && IsWhitespace(s[0]) {
      TrimStartDrops(s[1..]);
      hide IsWhitespace;
      assert TrimStart(s) == TrimStart(s[1..]);
      hide TrimStart;
      assert forall i :: 1 <= i < |s| ==> s[i] == s[1..][i - 1];
    }
  }

  lemma {:induction false} TrimEndDrops(s: string)
    ensures forall i :: |TrimEnd(s)| <= i < |s| ==> IsWhitespace(s[i])
  {
    if s != "" && IsWhitespace(s[|s| - 1]) {
      TrimEndDrops(s[..|s| - 1]);
      hide IsWhitespace;
    }
  }

  /** Trimming takes away the whitespace around a text, all of it, and nothing else. */
  lemma TrimMeaning(s: string, t: string)
    ensures Trim(s) == t <==> exists i: nat, j: nat :: TrimmedAt(s, i, j) && s[i..j] == t
  {
    hide IsWhitespace, TrimStart, TrimEnd;
    var r := TrimStart(s);
    var k: nat := |s| - |r|;
    var j: nat := k + |TrimEnd(r)|;
    TrimStartDrops(s);
    TrimEndDrops(r);
    assert forall n :: k <= n < |s| ==> s[n] == r[n - k];
    assert s[k..j] == TrimEnd(r) == Trim(s);
    assert TrimmedAt(s, k, j);
    hide Trim, TrimmedAt;
    forall i': nat, j': nat | TrimmedAt(s, i', j') ensures s[i'..j'] == s[k..j] { TrimmedOnce(s, i', j', k, j); }
  }

  lemma TrimmedOnce(s: string, i: nat, j: nat, m: nat, n: nat)
    requires TrimmedAt(s, i, j) && TrimmedAt(s, m, n)
    ensures s[i..j] == s[m..n]
  {
    hide IsWhitespace;
    if i < j && m < n {
      assert i == m && j == n;
    }
  }

  predicate StartsWith(s: string, prefix: string) { prefix <= s }

  predicate EndsWith(s: string, suffix: string) { |suffix| <= |s| && s[|s| - |suffix|..] == suffix }

  function LowerChar(c: char): char {
    if 'A' <= c <= 'Z' then (c as int + 32) as char else c
  }

  /** ASCII lower-casing, which leaves every other character alone. */
  function Lower(s: string): string {
    seq(|s|, i requires 0 <= i < |s| => LowerChar(s[i]))
  }

  /** Dictionary order by code point, which is also the byte order of the UTF-8 forms. */
  predicate Less(a: string, b: string) {
    b != "" && (a == "" || a[0] < b[0] || (a[0] == b[0] && Less(a[1..], b[1..])))
  }

  lemma {:induction false} LessTransitive(a: string, b: string, c: string)
    requires Less(a, b) && Less(b, c)
    ensures Less(a, c)
  {
    if a != "" && a[0] == b[0] && b[0] == c[0] {
      LessTransitive(a[1..], b[1..], c[1..]);
    }
  }

  lemma {:induction false} LessTotal(a: string, b: string)
    ensures Less(a, b) || a == b || Less(b, a)
    ensures !(Less(a, b) && Less(b, a))
    ensures !Less(a, a)
  {
    if a != "" {
      if b != "" {
        LessTotal(a[1..], b[1..]);
        assert a == [a[0]] + a[1..] && b == [b[0]] + b[1..];
      }
      LessTotal(a[1..], a[1..]);
    }
  }

  /** The pieces between separators; there is always one more piece than separators. */
  function Split<T(==)>(s: seq<T>, sep: T): (r: seq<seq<T>>)
    ensures r != []
  {
    if s == [] then [[]]
    else
      var rest := Split(s[1..], sep);
      if s[0] == sep then [[]] + rest else [[s[0]] + rest[0]] + rest[1..]
  }

  lemma {:induction false} SplitOne<T>(a: seq<T>, sep: T)
    requires sep !in a
    ensures Split(a, sep) == [a]
  {
    if a != [] {
      SplitOne(a[1..], sep);
      assert a == [a[0]] + a[1..];
    }
  }

  lemma {:induction false} SplitCons<T>(a: seq<T>, sep: T, b: seq<T>)
    requires sep !in a
    ensures Split(a + [sep] + b, sep) == [a] + Split(b, sep)
  {
    var s := a + [sep] + b;
    if a == [] {
      assert s[1..] == b;
    } else {
      assert s[1..] == a[1..] + [sep] + b;
      SplitCons(a[1..], sep, b);
      assert a == [a[0]] + a[1..];
    }
  }

  function Join<T>(pieces: seq<seq<T>>, glue: seq<T>): seq<T> {
    if pieces == [] then []
    else if |pieces| == 1 then pieces[0]
    else pieces[0] + glue + Join(pieces[1..], glue)
  }

  /** Splitting undoes joining when no piece holds the separator. */
  lemma {:induction false} SplitJoin<T>(pieces: seq<seq<T>>, sep: T)
    requires pieces != [] && forall p <- pieces :: sep !in p
    ensures Split(Join(pieces, [sep]), sep) == pieces
  {
    assert pieces[0] in pieces;
    if |pieces| == 1 {
      SplitOne(pieces[0], sep);
    } else {
      assert forall p <- pieces[1..] :: p in pieces;
      SplitJoin(pieces[1..], sep);
      assert Join(pieces, [sep]) == pieces[0] + [sep] + Join(pieces[1..], [sep]);
      hide Join, Split;
      SplitCons(pieces[0], sep, Join(pieces[1..], [sep]));
    }
  }

  function Repeat(s: string, n: nat): (r: string)
    ensures |r| == n * |s|
  {
    if n == 0 then "" else Repeat(s, n - 1) + s
  }

  /** The decimal digits of a number, without leading zeros. */
  function Decimal(n: nat): (r: string)
    ensures r != "" && forall c <- r :: IsDigit(c)
  {
    var digit := ['0' + (n % 10) as char];
    if n < 10 then digit else Decimal(n / 10) + digit
  }

  /** The number that some digits stand for. */
  function Value(digits: string): nat
    requires forall c <- digits :: IsDigit(c)
  {
    if digits == "" then 0
    else
      var last := digits[|digits| - 1];
      assert IsDigit(last);
      10 * Value(digits[..|digits| - 1]) + (last as int - '0' as int)
  }

  /** The digits of a number stand for it, and the first is no zero unless it is the only one. */
  lemma {:induction false} DecimalReads(n: nat)
    ensures Value(Decimal(n)) == n
    ensures n > 0 ==> Decimal(n)[0] != '0'
  {
    var r := Decimal(n);
    if n >= 10 {
      DecimalReads(n / 10);
      assert r[..|r| - 1] == Decimal(n / 10);
    } else {
      assert r[..|r| - 1] == "";
    }
  }

  lemma {:induction false} DecimalInjective(a: nat, b: nat)
    requires Decimal(a) == Decimal(b)
    ensures a == b
  {
    var x, y := Decimal(a), Decimal(b);
    assert x[|x| - 1] == '0' + (a % 10) as char && y[|y| - 1] == '0' + (b % 10) as char;
    if a >= 10 {
      assert x[..|x| - 1] == Decimal(a / 10) != "";
      if b >= 10 {
        assert y[..|y| - 1] == Decimal(b / 10);
        DecimalInjective(a / 10, b / 10);
      }
    }
  }

  /** The lines of a text; a line feed, with a carriage return before it or not, ends a line. */
  function Lines(s: string): seq<string> { EndedLines(Split(s, '\n')) }

  /** All pieces but the last have been ended by a line feed. */
  function EndedLines(pieces: seq<string>): seq<string>
    requires pieces != []
  {
    var n := |pieces| - 1;
    seq(n, i requires 0 <= i < n => WithoutReturn(pieces[i])) + if pieces[n] == "" then [] else [pieces[n]]
  }

  function WithoutReturn(line: string): string {
    if EndsWith(line, "\r") then line[..|line| - 1] else line
  }

  /** The maximal runs of characters that are not whitespace. */
  function Words(s: string): seq<string> {
    if s == "" then []
    else if IsWhitespace(s[0]) then Words(s[1..])
    else
      var rest := Words(s[1..]);
      if |s| > 1 && !IsWhitespace(s[1]) && rest != [] then [[s[0]] + rest[0]] + rest[1..] else [[s[0]]] + rest
  }

  predicate IsSolid(s: string) { forall i :: 0 <= i < |s| ==> !IsWhitespace(s[i]) }

  /** No word is empty or holds whitespace. */
  lemma {:induction false} WordsAreSolid(s: string)
    ensures forall w <- Words(s) :: w != "" && IsSolid(w)
  {
    hide IsWhitespace, IsSolid;
    if s != "" {
      var rest := Words(s[1..]);
      WordsAreSolid(s[1..]);
      if !IsWhitespace(s[0]) {
        EmptyIsSolid();
        SolidFirst(s[0], "");
        if rest != [] { SolidFirst(s[0], rest[0]); }
        assert [s[0]] + "" == [s[0]];
      }
    }
  }

  lemma SolidFirst(c: char, s: string)
    requires !IsWhitespace(c) && IsSolid(s)
    ensures IsSolid([c] + s)
  {
    hide IsWhitespace;
  }

  lemma EmptyIsSolid()
    ensures IsSolid("")
  {
  }

  /** A text without whitespace is one word. */
  lemma {:induction false} WordsOfSolid(s: string)
    requires s != "" && IsSolid(s)
    ensures Words(s) == [s]
  {
    hide IsWhitespace;
    if |s| > 1 {
      WordsOfSolid(s[1..]);
      assert s == [s[0]] + s[1..];
    } else {
      assert s[1..] == "" && s == [s[0]];
    }
  }

  /** Whitespace separates words. */
  lemma {:induction false} WordsApart(a: string, c: char, b: string)
    requires IsWhitespace(c)
    ensures Words(a + [c] + b) == Words(a) + Words(b)
  {
    var s := a + [c] + b;
    hide IsWhitespace;
    if a == "" {
      assert s[0] == c && s[1..] == b;
    } else {
      assert s[0] == a[0] && s[1..] == a[1..] + [c] + b;
      WordsApart(a[1..], c, b);
      if |a| == 1 {
        assert s[1] == c && Words(a[1..]) == [];
      } else {
        assert s[1] == a[1];
        if !IsWhitespace(a[1]) { WordsNonempty(a[1..]); }
      }
    }
  }

  lemma WordsNonempty(s: string)
    requires s != "" && !IsWhitespace(s[0])
    ensures Words(s) != []
  {
    hide IsWhitespace;
  }

  /** A line ends at the next line feed, and loses a carriage return before it; what is left over is a last line. */
  lemma LinesNext(line: string, rest: string)
    requires '\n' !in line
    ensures Lines(line + "\n" + rest) == [if EndsWith(line, "\r") then line[..|line| - 1] else line] + Lines(rest)
  {
    SplitCons(line, '\n', rest);
    hide Split;
    EndedNext(line, Split(rest, '\n'));
    hide EndedLines, EndsWith;
  }

  lemma EndedNext(line: string, pieces: seq<string>)
    requires pieces != []
    ensures EndedLines([line] + pieces) == [WithoutReturn(line)] + EndedLines(pieces)
  {
    var all := [line] + pieces;
    hide WithoutReturn;
    assert all[|all| - 1] == pieces[|pieces| - 1];
    assert forall i :: 0 <= i < |pieces| - 1 ==> all[i + 1] == pieces[i];
    var a, b := EndedLines(all), [WithoutReturn(line)] + EndedLines(pieces);
    assert |a| == |b| && forall i :: 0 <= i < |a| ==> a[i] == b[i];
  }

  lemma LinesLast(line: string)
    requires '\n' !in line
    ensures Lines(line) == if line == "" then [] else [line]
  {
    SplitOne(line, '\n');
    hide Split;
  }

  lemma {:induction false} SplitSound<T>(s: seq<T>, sep: T)
    ensures forall piece <- Split(s, sep) :: sep !in piece
  {
    if s != [] { SplitSound(s[1..], sep); }
  }

  lemma LinesAreLines(s: string)
    ensures forall line <- Lines(s) :: '\n' !in line
  {
    SplitSound(s, '\n');
    var pieces := Split(s, '\n');
    hide Split, EndsWith;
    forall line | line in EndedLines(pieces) ensures '\n' !in line {
      var i :| 0 <= i < |EndedLines(pieces)| && EndedLines(pieces)[i] == line;
      assert pieces[i] in pieces;
    }
  }

  /** The lines that are not blank, without the whitespace around them. */
  function NonBlank(lines: seq<string>): seq<string> {
    if lines == [] then [] else (if Trim(lines[0]) == "" then [] else [Trim(lines[0])]) + NonBlank(lines[1..])
  }

  lemma {:induction false} NonBlankLines(lines: seq<string>)
    requires forall line <- lines :: '\n' !in line
    ensures forall line <- NonBlank(lines) :: line != "" && Trim(line) == line && '\n' !in line
  {
    hide Trim;
    if lines != [] {
      TrimTwice(lines[0]);
      assert lines[0] in lines && forall line <- lines[1..] :: line in lines;
      NonBlankLines(lines[1..]);
      TrimWithin(lines[0], '\n');
    }
  }

  lemma TrimTwice(s: string)
    ensures Trim(Trim(s)) == Trim(s)
  {
    var t := Trim(s);
    assert TrimmedAt(t, 0, |t|) && t[0..|t|] == t;
    TrimMeaning(t, t);
  }

  lemma TrimWithin(s: string, c: char)
    requires c !in s
    ensures c !in Trim(s)
  {
    TrimMeaning(s, Trim(s));
  }

  lemma EndsWithOne(s: string, c: char)
    ensures EndsWith(s, [c]) <==> s != "" && s[|s| - 1] == c
  {
    if s != "" { assert s[|s| - 1..] == [s[|s| - 1]]; }
  }

  lemma NoReturn(line: string)
    requires line != "" && Trim(line) == line
    ensures !EndsWith(line, "\r")
  {
    assert IsWhitespace('\r');
    hide IsWhitespace;
  }
}
