/** Citations: finding the ids that a text cites, and keeping only those that the evidence supports. */
module Citations {
  import opened Prelude
  import opened Text
  import opened Evidence
  import Sorting

  datatype Citation = Citation(
    sourceId: string, url: string, title: Option<string>, snippet: string, supports: seq<string>)

  datatype Claim = Claim(id: string, evidenceIds: seq<string>)

  datatype Warning = TextCitesNothing(id: string) | ClaimCitesNothing(claim: string, id: string)

  // ---- Ids cited by a text ----

  predicate IsCitationId(id: string) {
    || (StartsWith(id, "E") && |id| > 1 && forall i :: 1 <= i < |id| ==> IsDigit(id[i]))
    || StartsWith(id, "src_")
    || StartsWith(id, "chk_")
  }

  function PositionOf(s: string, c: char): (r: nat)
    ensures r <= |s| && c !in s[..r] && (r < |s| ==> s[r] == c)
  {
    if s == "" || s[0] == c then 0
    else
      var rest := PositionOf(s[1..], c);
      assert s[..rest + 1] == [s[0]] + s[1..][..rest];
      1 + rest
  }

  /** The id in front of the first closing bracket of a piece. */
  function IdOf(piece: string): Option<string> {
    var k := PositionOf(piece, ']');
    if k < |piece| && IsCitationId(Trim(piece[..k])) then Some(Trim(piece[..k])) else None
  }

  /** Each id once, in the order in which they first appear. */
  function IdsOf(pieces: seq<string>): seq<string> {
    if pieces == [] then []
    else
      var rest, id := IdsOf(pieces[..|pieces| - 1]), IdOf(pieces[|pieces| - 1]);
      if id.Some? && id.value !in rest then rest + [id.value] else rest
  }

  function CitedIds(text: string): seq<string> { IdsOf(Split(text, '[')) }

  method ExtractCitationIds(text: string) returns (ids: seq<string>)
    ensures ids == CitedIds(text)
  {
    var parts := Split(text, '[');
    ids := [];
    var seen: set<string> := {};
    for i := 0 to |parts|
      invariant ids == IdsOf(parts[..i])
      invariant forall id :: id in seen <==> id in ids
    {
      assert parts[..i + 1][..i] == parts[..i];
      hide IdOf;
      var id := IdOf(parts[i]);
      if id.Some? && id.value !in seen {
        seen := seen + {id.value};
        ids := ids + [id.value];
      }
    }
    assert parts[..|parts|] == parts;
  }

  ghost predicate Tags(pieces: seq<string>, id: string) { exists p <- pieces :: IdOf(p) == Some(id) }

  lemma TagsLast(pieces: seq<string>, id: string)
    requires pieces != []
    ensures Tags(pieces, id) <==> Tags(pieces[..|pieces| - 1], id) || IdOf(pieces[|pieces| - 1]) == Some(id)
  {
    var init, last := pieces[..|pieces| - 1], pieces[|pieces| - 1];
    assert pieces == init + [last];
    hide IdOf;
    if p :| p in init && IdOf(p) == Some(id) { assert p in pieces; }
    assert last in pieces;
  }

  lemma {:induction false} IdsOfMeaning(pieces: seq<string>, id: string)
    ensures id in IdsOf(pieces) <==> Tags(pieces, id)
  {
    if pieces != [] {
      IdsOfMeaning(pieces[..|pieces| - 1], id);
      TagsLast(pieces, id);
      hide IdOf, Tags;
    }
  }

  lemma {:induction false} IdsOfDistinct(pieces: seq<string>)
    ensures Distinct(IdsOf(pieces))
  {
    if pieces != [] {
      IdsOfDistinct(pieces[..|pieces| - 1]);
      hide IdOf;
    }
  }

  // ---- Pieces of a split, by position ----

  /** A maximal stretch between separators. */
  predicate IsPiece(s: string, sep: char, i: nat, j: nat) {
    && i <= j <= |s|
    && sep !in s[i..j]
    && (i == 0 || s[i - 1] == sep)
    && (j == |s| || s[j] == sep)
  }

  lemma SliceOfRest(s: string, i: nat, j: nat)
    requires 1 <= i <= j <= |s|
    ensures s[i..j] == s[1..][i - 1..j - 1]
  {
    forall k | 0 <= k < j - i ensures s[i..j][k] == s[1..][i - 1..j - 1][k] {
      assert s[i..j][k] == s[i + k] == s[1..][i + k - 1];
    }
  }

  lemma PieceOfRest(s: string, sep: char, i: nat, j: nat)
    requires s != "" && 2 <= i
    ensures IsPiece(s, sep, i, j) <==> (1 <= j && IsPiece(s[1..], sep, i - 1, j - 1))
    ensures i <= j <= |s| ==> s[i..j] == s[1..][i - 1..j - 1]
  {
    if i <= j <= |s| { SliceOfRest(s, i, j); }
  }

  /** The first piece ends at the first separator; the others are the pieces that start after one. */
  lemma {:induction false} SplitFirst(s: string, sep: char)
    ensures Split(s, sep)[0] == s[..PositionOf(s, sep)]
  {
    if s != "" && s[0] != sep {
      SplitFirst(s[1..], sep);
      var k := PositionOf(s[1..], sep);
      assert s[..k + 1] == [s[0]] + s[1..][..k];
    }
  }

  lemma {:induction false} SplitOthersSound(s: string, sep: char, n: nat) returns (i: nat, j: nat)
    requires 1 <= n < |Split(s, sep)|
    ensures 1 <= i && IsPiece(s, sep, i, j) && s[i..j] == Split(s, sep)[n]
    decreases |s|
  {
    var rest := Split(s[1..], sep);
    var m := if s[0] == sep then n - 1 else n;
    assert Split(s, sep)[n] == rest[m];
    hide Split;
    if m == 0 {
      SplitFirst(s[1..], sep);
      i, j := 1, 1 + PositionOf(s[1..], sep);
      assert s[i..j] == s[1..][..j - 1];
    } else {
      i, j := SplitOthersSound(s[1..], sep, m);
      i, j := i + 1, j + 1;
      PieceOfRest(s, sep, i, j);
      hide IsPiece;
    }
  }

  lemma {:induction false} SplitOthersComplete(s: string, sep: char, i: nat, j: nat) returns (n: nat)
    requires 1 <= i && IsPiece(s, sep, i, j)
    ensures 1 <= n < |Split(s, sep)| && Split(s, sep)[n] == s[i..j]
    decreases |s|
  {
    if i == 1 {
      SplitFirst(s[1..], sep);
      SamePlace(s[1..], sep, j - 1);
      assert s[1..j] == s[1..][..j - 1];
      n := 1;
    } else {
      PieceOfRest(s, sep, i, j);
      n := SplitOthersComplete(s[1..], sep, i - 1, j - 1);
      if s[0] == sep { n := n + 1; }
    }
  }

  lemma SamePlace(s: string, sep: char, j: nat)
    requires IsPiece(s, sep, 0, j)
    ensures PositionOf(s, sep) == j
  {
  }

  // ---- What a text cites ----

  /**
   The text between `i` and `j` is a citation: it ends in a closing bracket, holds no bracket, and starts after an
   opening one. At the very start of the text no opening bracket is needed.
   */
  ghost predicate CitesAt(text: string, i: nat, j: nat, id: string) {
    && i <= j < |text| && text[j] == ']'
    && '[' !in text[i..j] && ']' !in text[i..j]
    && (i == 0 || text[i - 1] == '[')
    && Trim(text[i..j]) == id
    && NamesSource(id)
  }

  /** E and a number, or a name that starts with src_ or chk_. */
  ghost predicate NamesSource(id: string) {
    || (|id| >= 2 && id[0] == 'E' && forall c <- id[1..] :: '0' <= c <= '9')
    || "src_" <= id
    || "chk_" <= id
  }

  lemma NamesMeaning(id: string)
    ensures IsCitationId(id) <==> NamesSource(id)
  {
    assert "E" <= id <==> |id| >= 1 && id[0] == 'E';
    if |id| >= 2 {
      var rest := id[1..];
      forall i | 1 <= i < |id| ensures id[i] in rest { assert rest[i - 1] == id[i]; }
      forall c | c in rest ensures exists i :: 1 <= i < |id| && id[i] == c {
        var k :| 0 <= k < |rest| && rest[k] == c;
        assert id[k + 1] == c;
      }
    }
  }

  lemma PieceCites(text: string, i: nat, j: nat, id: string)
    requires IsPiece(text, '[', i, j) && IdOf(text[i..j]) == Some(id)
    ensures CitesAt(text, i, i + PositionOf(text[i..j], ']'), id)
  {
    hide Trim, IsCitationId, NamesSource;
    NamesMeaning(id);
    var piece := text[i..j];
    var k := PositionOf(piece, ']');
    hide PositionOf;
    assert text[i..i + k] == piece[..k];
    assert text[i + k] == piece[k];
    assert forall c <- piece[..k] :: c in piece;
  }

  lemma CitesInPiece(text: string, i: nat, k: nat, id: string) returns (j: nat)
    requires CitesAt(text, i, k, id)
    ensures IsPiece(text, '[', i, j) && IdOf(text[i..j]) == Some(id)
  {
    hide Trim, IsCitationId, NamesSource;
    NamesMeaning(id);
    j := k + PositionOf(text[k..], '[');
    var piece := text[i..j];
    assert piece == text[i..k] + text[k..][..j - k];
    assert piece[..k - i] == text[i..k] && piece[k - i] == ']';
    PositionIs(piece, ']', k - i);
  }

  lemma PositionIs(s: string, c: char, k: nat)
    requires k < |s| && s[k] == c && c !in s[..k]
    ensures PositionOf(s, c) == k
  {
  }

  /** The ids found are exactly the ids cited somewhere in the text, each once. */
  lemma CitedIdsMeaning(text: string, id: string)
    ensures Distinct(CitedIds(text))
    ensures id in CitedIds(text) <==> exists i: nat, j: nat :: CitesAt(text, i, j, id)
  {
    var pieces := Split(text, '[');
    IdsOfMeaning(pieces, id);
    IdsOfDistinct(pieces);
    SplitFirst(text, '[');
    hide IdOf, CitesAt, IdsOf, Split, Distinct;
    assert id in CitedIds(text) <==> Tags(pieces, id);
    if id in CitedIds(text) {
      var n :| 0 <= n < |pieces| && IdOf(pieces[n]) == Some(id);
      var i, j := 0, PositionOf(text, '[');
      if n > 0 { i, j := SplitOthersSound(text, '[', n); }
      assert text[..PositionOf(text, '[')] == text[0..PositionOf(text, '[')];
      PieceCites(text, i, j, id);
    }
    if i: nat, k: nat :| CitesAt(text, i, k, id) {
      var j := CitesInPiece(text, i, k, id);
      if i == 0 {
        SamePlace(text, '[', j);
        assert text[..j] == text[0..j];
        assert pieces[0] in pieces;
      } else {
        var n := SplitOthersComplete(text, '[', i, j);
        assert pieces[n] in pieces;
      }
    }
  }

  /** The exception at the start is real: an id before the first bracket counts without an opening bracket. */
  lemma UnopenedCitationCounts(id: string, rest: string)
    requires IsCitationId(id) && Trim(id) == id && '[' !in id && ']' !in id
    ensures id in CitedIds(id + "]" + rest)
  {
    hide Trim, CitedIds, IsCitationId;
    var text := id + "]" + rest;
    CitesAtStart(text, id);
    hide CitesAt;
    CitedIdsMeaning(text, id);
  }

  lemma CitesAtStart(text: string, id: string)
    requires IsCitationId(id) && Trim(id) == id && '[' !in id && ']' !in id
    requires |id| < |text| && text[..|id|] == id && text[|id|] == ']'
    ensures CitesAt(text, 0, |id|, id)
  {
    hide Trim, IsCitationId, NamesSource;
    NamesMeaning(id);
    assert text[0..|id|] == text[..|id|];
  }

  lemma UnopenedExample()
    ensures "E1" in CitedIds("E1] is cited")
  {
    TagIsTrimmed();
    hide Trim, CitedIds;
    UnopenedCitationCounts("E1", " is cited");
    assert "E1" + "]" + " is cited" == "E1] is cited";
  }

  /** The id stands between an opening bracket and the next closing one. */
  ghost predicate Bracketed(text: string, id: string) { exists i: nat, j: nat :: i > 0 && CitesAt(text, i, j, id) }

  /** What the text before the first opening bracket cites, if it cites anything. */
  function Leading(text: string): Option<string> { IdOf(text[..PositionOf(text, '[')]) }

  /**
   Everything a text cites is bracketed if and only if the text before the first opening bracket cites nothing, or
   something that is bracketed later on.
   */
  lemma BracketsSufficeIff(text: string)
    ensures (forall id <- CitedIds(text) :: Bracketed(text, id))
       <==> Leading(text).None? || Bracketed(text, Leading(text).value)
  {
    hide CitedIds, CitesAt, Bracketed, Leading;
    if Leading(text).Some? {
      var j := LeadingCites(text);
      CitedIdsMeaning(text, Leading(text).value);
    }
    forall id | id in CitedIds(text) ensures Bracketed(text, id) || Leading(text) == Some(id) {
      CitedIdsMeaning(text, id);
      var i: nat, j: nat :| CitesAt(text, i, j, id);
      CitesWhere(text, i, j, id);
    }
  }

  lemma LeadingCites(text: string) returns (j: nat)
    requires Leading(text).Some?
    ensures CitesAt(text, 0, j, Leading(text).value)
  {
    var p := PositionOf(text, '[');
    hide IdOf, CitesAt;
    assert text[0..p] == text[..p];
    assert IsPiece(text, '[', 0, p);
    PieceCites(text, 0, p, Leading(text).value);
    j := 0 + PositionOf(text[0..p], ']');
  }

  lemma CitesWhere(text: string, i: nat, j: nat, id: string)
    requires CitesAt(text, i, j, id)
    ensures Bracketed(text, id) || Leading(text) == Some(id)
  {
    hide IdOf, CitesAt;
    if i == 0 {
      var end := CitesInPiece(text, i, j, id);
      SamePlace(text, '[', end);
      assert text[0..end] == text[..end];
    }
  }

  lemma TagIsTrimmed()
    ensures Trim("E1") == "E1"
  {
    assert !IsWhitespace('E') && !IsWhitespace('1');
    hide IsWhitespace;
    assert TrimStart("E1") == "E1";
  }

  // ---- Building the citations ----

  /** One use of an evidence id, and what it supports. */
  datatype Use = Use(id: string, mark: string)

  function AddSupport(m: map<string, Citation>, e: Item, mark: string): map<string, Citation> {
    var entry := if e.id in m then m[e.id] else Citation(e.id, e.sourceUrl, e.title, e.excerpt, []);
    m[e.id := entry.(supports := entry.supports + [mark])]
  }

  /** The citations after some uses; a use of an unknown id adds nothing. */
  function Cited(items: seq<Item>, uses: seq<Use>): map<string, Citation> {
    if uses == [] then map[]
    else
      var before, use := Cited(items, uses[..|uses| - 1]), uses[|uses| - 1];
      var e := Find(items, use.id);
      if e.None? then before else AddSupport(before, e.value, use.mark)
  }

  function LabelsOf(uses: seq<Use>, id: string): seq<string> {
    if uses == [] then []
    else
      var use := uses[|uses| - 1];
      LabelsOf(uses[..|uses| - 1], id) + if use.id == id then [use.mark] else []
  }

  ghost predicate Uses(uses: seq<Use>, id: string) { exists u <- uses :: u.id == id }

  lemma UsesLast(uses: seq<Use>, id: string)
    requires uses != []
    ensures Uses(uses, id) <==> Uses(uses[..|uses| - 1], id) || uses[|uses| - 1].id == id
  {
    var init, last := uses[..|uses| - 1], uses[|uses| - 1];
    assert uses == init + [last];
    if u :| u in init && u.id == id { assert u in uses; }
    assert last in uses;
  }

  /** The citation of an item, with the labels of its uses in order. */
  function CitationOf(e: Item, labels: seq<string>): Citation {
    Citation(e.id, e.sourceUrl, e.title, e.excerpt, labels)
  }

  /** Exactly the used ids that the store knows are cited, each with its own evidence and every mark it was used for. */
  lemma {:induction false} CitedMeaning(items: seq<Item>, uses: seq<Use>, id: string)
    ensures id in Cited(items, uses) <==> Uses(uses, id) && Find(items, id).Some?
    ensures id in Cited(items, uses) ==> Cited(items, uses)[id] == CitationOf(Find(items, id).value, LabelsOf(uses, id))
    ensures !Uses(uses, id) ==> LabelsOf(uses, id) == []
  {
    if uses != [] {
      CitedMeaning(items, uses[..|uses| - 1], id);
      UsesLast(uses, id);
      hide Uses, Find;
    }
  }

  function TextUses(ids: seq<string>): seq<Use> { seq(|ids|, i requires 0 <= i < |ids| => Use(ids[i], "body_text")) }

  function ClaimUses(c: Claim): seq<Use> {
    seq(|c.evidenceIds|, i requires 0 <= i < |c.evidenceIds| => Use(c.evidenceIds[i], c.id))
  }

  function ClaimsUses(claims: seq<Claim>): seq<Use> {
    if claims == [] then [] else ClaimsUses(claims[..|claims| - 1]) + ClaimUses(claims[|claims| - 1])
  }

  /** The ids that the store knows. */
  function KnownIds(items: seq<Item>, ids: seq<string>): seq<string> {
    if ids == [] then []
    else KnownIds(items, ids[..|ids| - 1]) + if Find(items, ids[|ids| - 1]).Some? then [ids[|ids| - 1]] else []
  }

  function Cleaned(items: seq<Item>, c: Claim): Claim { c.(evidenceIds := KnownIds(items, c.evidenceIds)) }

  function TextWarnings(items: seq<Item>, ids: seq<string>): seq<Warning> {
    if ids == [] then []
    else
      TextWarnings(items, ids[..|ids| - 1])
      + if Find(items, ids[|ids| - 1]).None? then [TextCitesNothing(ids[|ids| - 1])] else []
  }

  function ClaimWarnings(items: seq<Item>, claim: string, ids: seq<string>): seq<Warning> {
    if ids == [] then []
    else
      ClaimWarnings(items, claim, ids[..|ids| - 1])
      + if Find(items, ids[|ids| - 1]).None? then [ClaimCitesNothing(claim, ids[|ids| - 1])] else []
  }

  function ClaimsWarnings(items: seq<Item>, claims: seq<Claim>): seq<Warning> {
    if claims == [] then []
    else
      var last := claims[|claims| - 1];
      ClaimsWarnings(items, claims[..|claims| - 1]) + ClaimWarnings(items, last.id, last.evidenceIds)
  }

  lemma CitedNext(items: seq<Item>, uses: seq<Use>, use: Use)
    ensures Cited(items, uses + [use])
         == (if Find(items, use.id).Some? then AddSupport(Cited(items, uses), Find(items, use.id).value, use.mark)
             else Cited(items, uses))
  {
    assert (uses + [use])[..|uses|] == uses;
  }

  /** Cites what the text cites. */
  method CiteText(ids: seq<string>, store: EvidenceStore) returns (m: map<string, Citation>, warnings: seq<Warning>)
    ensures m == Cited(store.items, TextUses(ids)) && warnings == TextWarnings(store.items, ids)
  {
    m, warnings := map[], [];
    for i := 0 to |ids|
      invariant m == Cited(store.items, TextUses(ids[..i])) && warnings == TextWarnings(store.items, ids[..i])
    {
      assert ids[..i + 1][..i] == ids[..i];
      assert TextUses(ids[..i + 1]) == TextUses(ids[..i]) + [Use(ids[i], "body_text")];
      CitedNext(store.items, TextUses(ids[..i]), Use(ids[i], "body_text"));
      hide Cited, AddSupport, TextUses;
      var ev := store.Get(ids[i]);
      if ev.Some? {
        m := AddSupport(m, ev.value, "body_text");
      } else {
        warnings := warnings + [TextCitesNothing(ids[i])];
      }
    }
    assert ids[..|ids|] == ids;
  }

  lemma ClaimUsesNext(items: seq<Item>, before: seq<Use>, c: Claim, i: nat)
    requires i < |c.evidenceIds|
    ensures before + ClaimUses(c)[..i + 1] == (before + ClaimUses(c)[..i]) + [Use(c.evidenceIds[i], c.id)]
    ensures c.evidenceIds[..i + 1][..i] == c.evidenceIds[..i]
  {
  }

  /** Cites what one claim cites, and drops the ids that the store does not know. */
  method CiteClaim(c: Claim, store: EvidenceStore, m0: map<string, Citation>, ghost before: seq<Use>)
      returns (cleaned: Claim, m: map<string, Citation>, warnings: seq<Warning>)
    requires m0 == Cited(store.items, before)
    ensures m == Cited(store.items, before + ClaimUses(c))
    ensures cleaned == Cleaned(store.items, c)
    ensures warnings == ClaimWarnings(store.items, c.id, c.evidenceIds)
  {
    var validEvidenceIds := [];
    m, warnings := m0, [];
    assert before + ClaimUses(c)[..0] == before;
    for i := 0 to |c.evidenceIds|
      invariant m == Cited(store.items, before + ClaimUses(c)[..i])
      invariant validEvidenceIds == KnownIds(store.items, c.evidenceIds[..i])
      invariant warnings == ClaimWarnings(store.items, c.id, c.evidenceIds[..i])
    {
      ClaimUsesNext(store.items, before, c, i);
      CitedNext(store.items, before + ClaimUses(c)[..i], Use(c.evidenceIds[i], c.id));
      hide Cited, AddSupport, ClaimUses;
      var ev := store.Get(c.evidenceIds[i]);
      if ev.Some? {
        validEvidenceIds := validEvidenceIds + [c.evidenceIds[i]];
        m := AddSupport(m, ev.value, c.id);
      } else {
        warnings := warnings + [ClaimCitesNothing(c.id, c.evidenceIds[i])];
      }
    }
    assert ClaimUses(c)[..|c.evidenceIds|] == ClaimUses(c);
    assert c.evidenceIds[..|c.evidenceIds|] == c.evidenceIds;
    cleaned := c.(evidenceIds := validEvidenceIds);
  }

  function CleanedAll(items: seq<Item>, claims: seq<Claim>): (r: seq<Claim>)
    ensures |r| == |claims| && forall i :: 0 <= i < |claims| ==> r[i] == Cleaned(items, claims[i])
  {
    seq(|claims|, i requires 0 <= i < |claims| => Cleaned(items, claims[i]))
  }

  /** What remains of a claim's evidence is exactly the part that the store knows, in order. */
  lemma {:induction false} KnownIdsMeaning(items: seq<Item>, ids: seq<string>, id: string)
    ensures id in KnownIds(items, ids) <==> id in ids && Find(items, id).Some?
  {
    if ids != [] {
      KnownIdsMeaning(items, ids[..|ids| - 1], id);
      assert ids == ids[..|ids| - 1] + [ids[|ids| - 1]];
      hide Find;
    }
  }

  ghost predicate AllKnown(items: seq<Item>, ids: seq<string>) { forall id <- ids :: Find(items, id).Some? }

  lemma AllKnownLast(items: seq<Item>, ids: seq<string>)
    requires ids != []
    ensures AllKnown(items, ids)
       <==> AllKnown(items, ids[..|ids| - 1]) && Find(items, ids[|ids| - 1]).Some?
  {
    var init, last := ids[..|ids| - 1], ids[|ids| - 1];
    hide Find;
    assert ids == init + [last];
    assert last in ids && forall id <- init :: id in ids;
  }

  /** A text is unwarned if and only if it cites only known evidence. */
  lemma {:induction false} UnwarnedText(items: seq<Item>, ids: seq<string>)
    ensures TextWarnings(items, ids) == [] <==> AllKnown(items, ids)
  {
    hide Find;
    if ids != [] {
      AllKnownLast(items, ids);
      UnwarnedText(items, ids[..|ids| - 1]);
      hide AllKnown;
    }
  }

  /** A claim is unwarned, and left as it is, if and only if it cites only known evidence. */
  lemma {:induction false} UnwarnedClaim(items: seq<Item>, claim: string, ids: seq<string>)
    ensures ClaimWarnings(items, claim, ids) == [] <==> AllKnown(items, ids)
    ensures KnownIds(items, ids) == ids <==> AllKnown(items, ids)
    ensures |KnownIds(items, ids)| <= |ids|
  {
    hide Find;
    if ids != [] {
      var init, last := ids[..|ids| - 1], ids[|ids| - 1];
      AllKnownLast(items, ids);
      UnwarnedClaim(items, claim, init);
      hide AllKnown;
      assert ids == init + [last];
      assert KnownIds(items, ids) == KnownIds(items, init) + if Find(items, last).Some? then [last] else [];
      if KnownIds(items, ids) == ids { assert KnownIds(items, ids)[..|init|] == init; }
    }
  }

  lemma {:induction false} UnwarnedClaims(items: seq<Item>, claims: seq<Claim>)
    ensures ClaimsWarnings(items, claims) == []
       <==> forall i :: 0 <= i < |claims| ==> Cleaned(items, claims[i]) == claims[i]
  {
    hide ClaimWarnings, KnownIds;
    if claims != [] {
      var init, last := claims[..|claims| - 1], claims[|claims| - 1];
      UnwarnedClaims(items, init);
      UnwarnedClaim(items, last.id, last.evidenceIds);
      assert forall i :: 0 <= i < |init| ==> init[i] == claims[i];
    }
  }

  lemma {:induction false} TextWarned(items: seq<Item>, ids: seq<string>, w: Warning)
    ensures w in TextWarnings(items, ids)
       <==> exists id <- ids :: w == TextCitesNothing(id) && Find(items, id).None?
  {
    hide Find;
    if ids != [] {
      var init, last := ids[..|ids| - 1], ids[|ids| - 1];
      TextWarned(items, init, w);
      assert ids == init + [last];
    }
  }

  lemma {:induction false} ClaimWarned(items: seq<Item>, claim: string, ids: seq<string>, w: Warning)
    ensures w in ClaimWarnings(items, claim, ids)
       <==> exists id <- ids :: w == ClaimCitesNothing(claim, id) && Find(items, id).None?
  {
    hide Find;
    if ids != [] {
      var init, last := ids[..|ids| - 1], ids[|ids| - 1];
      ClaimWarned(items, claim, init, w);
      assert ids == init + [last];
    }
  }

  /** The claim cites this id, which no item has. */
  ghost predicate Misquotes(items: seq<Item>, c: Claim, w: Warning) {
    exists id <- c.evidenceIds :: w == ClaimCitesNothing(c.id, id) && Find(items, id).None?
  }

  lemma {:induction false} ClaimsWarned(items: seq<Item>, claims: seq<Claim>, w: Warning)
    ensures w in ClaimsWarnings(items, claims) <==> exists c <- claims :: Misquotes(items, c, w)
  {
    hide Find;
    if claims != [] {
      var init, last := claims[..|claims| - 1], claims[|claims| - 1];
      ClaimsWarned(items, init, w);
      ClaimWarned(items, last.id, last.evidenceIds, w);
      assert Misquotes(items, last, w) <==> w in ClaimWarnings(items, last.id, last.evidenceIds);
      hide Misquotes, ClaimWarnings;
      assert forall c :: c in claims <==> c in init || c == last by { assert claims == init + [last]; }
    }
  }

  /** Each id that the text cites, or a claim, and that no item has, is warned of by name, and nothing else is. */
  lemma WarningsMeaning(items: seq<Item>, text: string, claims: seq<Claim>, w: Warning)
    ensures w in TextWarnings(items, CitedIds(text)) + ClaimsWarnings(items, claims)
       <==> || (w.TextCitesNothing? && w.id in CitedIds(text) && Find(items, w.id).None?)
            || (w.ClaimCitesNothing? && Find(items, w.id).None?
                && exists c <- claims :: c.id == w.claim && w.id in c.evidenceIds)
  {
    hide Find, CitedIds, TextWarnings, ClaimsWarnings;
    TextWarned(items, CitedIds(text), w);
    ClaimsWarned(items, claims, w);
    assert forall c <- claims ::
      Misquotes(items, c, w)
      <==> w.ClaimCitesNothing? && c.id == w.claim && w.id in c.evidenceIds && Find(items, w.id).None?;
  }

  /**
   No warning is given if and only if the text cites only known evidence and every claim comes out as it went in,
   which is to say that it cites only known evidence.
   */
  lemma UnwarnedIffUntouched(items: seq<Item>, text: string, claims: seq<Claim>)
    ensures TextWarnings(items, CitedIds(text)) + ClaimsWarnings(items, claims) == []
       <==> AllKnown(items, CitedIds(text)) && CleanedAll(items, claims) == claims
    ensures CleanedAll(items, claims) == claims
       <==> forall i :: 0 <= i < |claims| ==> AllKnown(items, claims[i].evidenceIds)
  {
    UnwarnedText(items, CitedIds(text));
    UnwarnedClaims(items, claims);
    hide CitedIds, TextWarnings, ClaimsWarnings, AllKnown, KnownIds;
    forall i | 0 <= i < |claims|
      ensures Cleaned(items, claims[i]) == claims[i] <==> AllKnown(items, claims[i].evidenceIds)
    {
      UnwarnedClaim(items, claims[i].id, claims[i].evidenceIds);
    }
    assert CleanedAll(items, claims) == claims
      <==> forall i :: 0 <= i < |claims| ==> Cleaned(items, claims[i]) == claims[i];
  }

  /** Cites what the claims cite, rewriting each claim in place. */
  method CiteClaims(claims: array<Claim>, store: EvidenceStore, m0: map<string, Citation>, ghost before: seq<Use>)
      returns (m: map<string, Citation>, warnings: seq<Warning>)
    requires m0 == Cited(store.items, before)
    modifies claims
    ensures claims[..] == CleanedAll(store.items, old(claims[..]))
    ensures m == Cited(store.items, before + ClaimsUses(old(claims[..])))
    ensures warnings == ClaimsWarnings(store.items, old(claims[..]))
  {
    hide Cited, ClaimUses, ClaimWarnings, Cleaned, ClaimsUses, ClaimsWarnings;
    m, warnings := m0, [];
    ghost var was := claims[..];
    NoClaims(store.items, before, was);
    for i := 0 to claims.Length
      invariant m == Cited(store.items, before + ClaimsUses(was[..i]))
      invariant warnings == ClaimsWarnings(store.items, was[..i])
      invariant forall j :: i <= j < |was| ==> claims[j] == was[j]
      invariant forall j :: 0 <= j < i ==> claims[j] == Cleaned(store.items, was[j])
    {
      ClaimsNext(store.items, before, was, i);
      var cleaned, m', more := CiteClaim(claims[i], store, m, before + ClaimsUses(was[..i]));
      claims[i] := cleaned;
      m, warnings := m', warnings + more;
    }
    assert was[..|was|] == was;
  }

  lemma NoClaims(items: seq<Item>, before: seq<Use>, claims: seq<Claim>)
    ensures before + ClaimsUses(claims[..0]) == before && ClaimsWarnings(items, claims[..0]) == []
  {
  }

  lemma ClaimsNext(items: seq<Item>, before: seq<Use>, claims: seq<Claim>, i: nat)
    requires i < |claims|
    ensures before + ClaimsUses(claims[..i + 1]) == (before + ClaimsUses(claims[..i])) + ClaimUses(claims[i])
    ensures ClaimsWarnings(items, claims[..i + 1])
         == ClaimsWarnings(items, claims[..i]) + ClaimWarnings(items, claims[i].id, claims[i].evidenceIds)
  {
    assert claims[..i + 1][..i] == claims[..i];
    hide ClaimUses, ClaimWarnings;
  }

  /** The citations of some items, for when nothing was cited. */
  function Fallback(top: seq<Item>): map<string, Citation> {
    if top == [] then map[]
    else
      var e := top[|top| - 1];
      Fallback(top[..|top| - 1])[e.id := CitationOf(e, ["general_evidence"])]
  }

  method CiteTop(top: seq<Item>) returns (m: map<string, Citation>)
    ensures m == Fallback(top)
  {
    m := map[];
    for i := 0 to |top|
      invariant m == Fallback(top[..i])
    {
      assert top[..i + 1][..i] == top[..i];
      m := m[top[i].id := CitationOf(top[i], ["general_evidence"])];
    }
    assert top[..|top|] == top;
  }

  lemma {:induction false} FallbackMeaning(top: seq<Item>, id: string)
    ensures id in Fallback(top) <==> exists e <- top :: e.id == id
    ensures id in Fallback(top) ==>
      exists e <- top :: e.id == id && Fallback(top)[id] == CitationOf(e, ["general_evidence"])
  {
    if top != [] {
      var init, last := top[..|top| - 1], top[|top| - 1];
      FallbackMeaning(init, id);
      assert top == init + [last];
      assert last in top;
      if last.id != id {
        if e :| e in init && e.id == id && Fallback(init)[id] == CitationOf(e, ["general_evidence"]) {
          assert e in top;
        }
      }
    }
  }

  const FALLBACK_ITEMS := 5

  /** All the citations of an answer, by id. */
  function FinalCitations(items: seq<Item>, text: string, claims: seq<Claim>): map<string, Citation> {
    var m := Cited(items, TextUses(CitedIds(text)) + ClaimsUses(claims));
    if m == map[] then Fallback(TopRelevant(items, FALLBACK_ITEMS)) else m
  }

  // ---- What is cited, and with which support ----

  /** The text cites the id. */
  ghost predicate InText(text: string, id: string) { exists i: nat, j: nat :: CitesAt(text, i, j, id) }

  ghost predicate UsedBy(text: string, claims: seq<Claim>, id: string) {
    InText(text, id) || exists k :: 0 <= k < |claims| && id in claims[k].evidenceIds
  }

  /** The claims that use the id, once for each time that they do. */
  function ClaimLabels(claims: seq<Claim>, id: string): seq<string> {
    if claims == [] then []
    else
      var last := claims[|claims| - 1];
      ClaimLabels(claims[..|claims| - 1], id) + seq(multiset(last.evidenceIds)[id], _ => last.id)
  }

  ghost function SupportsOf(text: string, claims: seq<Claim>, id: string): seq<string> {
    (if InText(text, id) then ["body_text"] else []) + ClaimLabels(claims, id)
  }

  /** The citation names the item, tells where it is from, and quotes it. */
  ghost predicate QuotesItem(c: Citation, e: Item, supports: seq<string>) {
    c.sourceId == e.id && c.url == e.sourceUrl && c.title == e.title && c.snippet == e.excerpt && c.supports == supports
  }

  ghost predicate SomethingKnown(items: seq<Item>, text: string, claims: seq<Claim>) {
    exists id :: UsedBy(text, claims, id) && Find(items, id).Some?
  }

  lemma {:induction false} LabelsConcat(a: seq<Use>, b: seq<Use>, id: string)
    ensures LabelsOf(a + b, id) == LabelsOf(a, id) + LabelsOf(b, id)
    ensures Uses(a + b, id) <==> Uses(a, id) || Uses(b, id)
  {
    if b == [] {
      assert a + b == a;
    } else {
      var init := b[..|b| - 1];
      assert (a + b)[..|a + b| - 1] == a + init;
      LabelsConcat(a, init, id);
      UsesLast(a + b, id);
      UsesLast(b, id);
      hide Uses;
    }
  }

  lemma {:induction false} TextLabels(ids: seq<string>, id: string)
    requires Distinct(ids)
    ensures LabelsOf(TextUses(ids), id) == if id in ids then ["body_text"] else []
    ensures Uses(TextUses(ids), id) <==> id in ids
  {
    if ids != [] {
      var init, last := ids[..|ids| - 1], ids[|ids| - 1];
      assert TextUses(ids) == TextUses(init) + [Use(last, "body_text")];
      assert TextUses(ids)[..|ids| - 1] == TextUses(init);
      assert ids == init + [last];
      TextLabels(init, id);
      UsesLast(TextUses(ids), id);
      assert id == last ==> id !in init;
      hide Uses, TextUses, Distinct;
    }
  }

  lemma {:induction false} ClaimUsesLabels(label_: string, ids: seq<string>, id: string)
    ensures var uses := ClaimUses(Claim(label_, ids));
      && LabelsOf(uses, id) == seq(multiset(ids)[id], _ => label_)
      && (Uses(uses, id) <==> id in ids)
  {
    if ids != [] {
      var init, last := ids[..|ids| - 1], ids[|ids| - 1];
      var uses := ClaimUses(Claim(label_, ids));
      assert uses[..|uses| - 1] == ClaimUses(Claim(label_, init));
      assert ids == init + [last];
      ClaimUsesLabels(label_, init, id);
      UsesLast(uses, id);
      hide Uses;
    }
  }

  lemma {:induction false} ClaimsLabels(claims: seq<Claim>, id: string)
    ensures LabelsOf(ClaimsUses(claims), id) == ClaimLabels(claims, id)
    ensures Uses(ClaimsUses(claims), id) <==> exists k :: 0 <= k < |claims| && id in claims[k].evidenceIds
  {
    if claims != [] {
      var init, last := claims[..|claims| - 1], claims[|claims| - 1];
      ClaimsLabels(init, id);
      assert ClaimUses(last) == ClaimUses(Claim(last.id, last.evidenceIds));
      ClaimUsesLabels(last.id, last.evidenceIds, id);
      LabelsConcat(ClaimsUses(init), ClaimUses(last), id);
      hide Uses, LabelsOf, ClaimUses;
      if k :| 0 <= k < |init| && id in init[k].evidenceIds { assert claims[k] == init[k]; }
      if k :| 0 <= k < |claims| && id in claims[k].evidenceIds {
        assert k < |init| ==> init[k] == claims[k];
      }
    }
  }

  /** The uses collected are those of the text and the claims. */
  lemma UsesMeaning(text: string, claims: seq<Claim>, id: string)
    ensures var uses := TextUses(CitedIds(text)) + ClaimsUses(claims);
      && (Uses(uses, id) <==> UsedBy(text, claims, id))
      && LabelsOf(uses, id) == SupportsOf(text, claims, id)
  {
    CitedIdsMeaning(text, id);
    TextLabels(CitedIds(text), id);
    ClaimsLabels(claims, id);
    LabelsConcat(TextUses(CitedIds(text)), ClaimsUses(claims), id);
    hide Uses, LabelsOf, CitedIds, TextUses, ClaimsUses, CitesAt, Distinct;
  }

  /**
   If the text or the claims use any id that the store knows, exactly the ids that are used and known are cited, each
   quoting its item with every use as support; otherwise the best items are cited as general evidence. An answer
   without citations means an empty store.
   */
  lemma FinalCitationsMeaning(items: seq<Item>, text: string, claims: seq<Claim>, id: string)
    ensures var m, top := FinalCitations(items, text, claims), TopRelevant(items, FALLBACK_ITEMS);
      && (SomethingKnown(items, text, claims) ==>
            && (id in m <==> UsedBy(text, claims, id) && Find(items, id).Some?)
            && (id in m ==> QuotesItem(m[id], Find(items, id).value, SupportsOf(text, claims, id))))
      && (!SomethingKnown(items, text, claims) ==>
            && (id in m <==> exists e <- top :: e.id == id)
            && (id in m ==> exists e <- top :: e.id == id && QuotesItem(m[id], e, ["general_evidence"])))
      && (m == map[] <==> items == [])
  {
    var uses := TextUses(CitedIds(text)) + ClaimsUses(claims);
    forall u ensures u in Cited(items, uses) <==> UsedBy(text, claims, u) && Find(items, u).Some? {
      CitedMeaning(items, uses, u);
      UsesMeaning(text, claims, u);
      hide *;
    }
    CitedMeaning(items, uses, id);
    UsesMeaning(text, claims, id);
    FallbackMeaning(TopRelevant(items, FALLBACK_ITEMS), id);
    FallbackFilled(items);
    hide TopRelevant, CitedIds, TextUses, ClaimsUses, Cited, Fallback, Find, UsedBy, SupportsOf, Uses, LabelsOf;
    assert SomethingKnown(items, text, claims) <==> Cited(items, uses) != map[] by {
      if Cited(items, uses) != map[] {
        var u :| u in Cited(items, uses);
        assert UsedBy(text, claims, u) && Find(items, u).Some?;
      }
    }
  }

  lemma FallbackFilled(items: seq<Item>)
    ensures Fallback(TopRelevant(items, FALLBACK_ITEMS)) == map[] <==> items == []
    ensures forall id :: Find(items, id).Some? ==> items != []
  {
    var top := TopRelevant(items, FALLBACK_ITEMS);
    TopRelevantMeaning(items, FALLBACK_ITEMS);
    if top != [] {
      FallbackMeaning(top, top[0].id);
      assert top[0] in top;
    }
    hide TopRelevant, Find;
  }

  /** Every citation quotes a stored item under that item's id. */
  ghost predicate Grounded(items: seq<Item>, m: map<string, Citation>) {
    forall id <- m :: exists e <- items :: e.id == id && m[id] == CitationOf(e, m[id].supports)
  }

  /** Citations never name a source that is not in the store, and quote it correctly. */
  lemma FinalCitationsGrounded(items: seq<Item>, text: string, claims: seq<Claim>)
    ensures Grounded(items, FinalCitations(items, text, claims))
  {
    var uses := TextUses(CitedIds(text)) + ClaimsUses(claims);
    var m, top := FinalCitations(items, text, claims), TopRelevant(items, FALLBACK_ITEMS);
    TopRelevantMeaning(items, FALLBACK_ITEMS);
    hide TopRelevant, CitedIds, TextUses, ClaimsUses, Cited, Fallback, Find;
    forall id | id in m ensures exists e <- items :: e.id == id && m[id] == CitationOf(e, m[id].supports) {
      if Cited(items, uses) == map[] {
        FallbackMeaning(top, id);
        var e :| e in top && e.id == id && m[id] == CitationOf(e, ["general_evidence"]);
        assert e in items;
      } else {
        CitedMeaning(items, uses, id);
        var e := Find(items, id).value;
        assert e in items;
      }
    }
  }

  /** The citations of a map, each once, in strictly ascending order of their ids. */
  ghost predicate ListsInOrder(citations: seq<Citation>, m: map<string, Citation>) {
    && (forall i, j :: 0 <= i < j < |citations| ==> Less(citations[i].sourceId, citations[j].sourceId))
    && (forall c <- citations :: c.sourceId in m && m[c.sourceId] == c)
    && (forall id <- m :: m[id] in citations)
  }

  function ById(): (Citation, Citation) -> bool { (a: Citation, b: Citation) => Less(a.sourceId, b.sourceId) }

  lemma ByIdIsOrder()
    ensures Sorting.WeakOrder(ById())
  {
    forall a: Citation, b: Citation ensures ById()(a, b) ==> !ById()(b, a) {
      LessTotal(a.sourceId, b.sourceId);
    }
    forall a: Citation, b: Citation, c: Citation | !ById()(b, a) && !ById()(c, b) ensures !ById()(c, a) {
      LessTotal(b.sourceId, a.sourceId);
      LessTotal(c.sourceId, b.sourceId);
      LessTotal(c.sourceId, a.sourceId);
      if Less(a.sourceId, b.sourceId) && Less(b.sourceId, c.sourceId) {
        LessTransitive(a.sourceId, b.sourceId, c.sourceId);
      }
    }
  }

  /** The collected citations, in whatever order the map yields them. */
  ghost predicate Collected(citations: seq<Citation>, m: map<string, Citation>) {
    && (forall i, j :: 0 <= i < j < |citations| ==> citations[i].sourceId != citations[j].sourceId)
    && (forall c <- citations :: c.sourceId in m && m[c.sourceId] == c)
    && (forall id <- m :: m[id] in citations)
  }

  lemma SortedListing(citations: seq<Citation>, m: map<string, Citation>)
    requires Collected(citations, m)
    ensures ListsInOrder(Sorting.Sorted(citations, ById()), m)
  {
    var sorted := Sorting.Sorted(citations, ById());
    ByIdIsOrder();
    Sorting.SortedInOrder(citations, ById());
    hide Sorting.WeakOrder, Sorting.Sorted;
    assert forall c :: c in sorted <==> c in citations by {
      forall c ensures c in sorted <==> c in citations {
        assert c in multiset(sorted) <==> c in multiset(citations);
      }
    }
    SortedIds(citations);
    forall i, j | 0 <= i < j < |sorted| ensures Less(sorted[i].sourceId, sorted[j].sourceId) {
      assert !ById()(sorted[j], sorted[i]);
      LessTotal(sorted[i].sourceId, sorted[j].sourceId);
    }
  }

  lemma SortedIds(citations: seq<Citation>)
    requires forall i, j :: 0 <= i < j < |citations| ==> citations[i].sourceId != citations[j].sourceId
    ensures var sorted := Sorting.Sorted(citations, ById());
      forall i, j :: 0 <= i < j < |sorted| ==> sorted[i].sourceId != sorted[j].sourceId
  {
    var sorted, idOf := Sorting.Sorted(citations, ById()), (c: Citation) => c.sourceId;
    Sorting.SortedImages(citations, ById(), idOf);
    Sorting.DistinctPermutation(Sorting.Map(citations, idOf), Sorting.Map(sorted, idOf));
    forall i, j | 0 <= i < j < |sorted| ensures sorted[i].sourceId != sorted[j].sourceId {
      assert Sorting.Map(sorted, idOf)[i] != Sorting.Map(sorted, idOf)[j];
    }
  }

  method CollectAndSort(m: map<string, Citation>) returns (citations: seq<Citation>)
    requires forall id <- m :: m[id].sourceId == id
    ensures ListsInOrder(citations, m)
  {
    citations := [];
    var left := m.Keys;
    while left != {}
      invariant left <= m.Keys
      invariant forall i, j :: 0 <= i < j < |citations| ==> citations[i].sourceId != citations[j].sourceId
      invariant forall c <- citations :: c.sourceId in m && c.sourceId !in left && m[c.sourceId] == c
      invariant forall id <- m :: id in left || m[id] in citations
      decreases left
    {
      var id :| id in left;
      citations := citations + [m[id]];
      left := left - {id};
    }
    SortedListing(citations, m);
    citations := Sorting.Sorted(citations, ById());
  }

  /**
   Keeps the citations that the store supports, drops the rest from the text's and the claims' evidence with a
   warning each, and falls back on the best items when nothing supported was cited.
   */
  method ValidateAndBuildCitations(text: string, claims: array<Claim>, store: EvidenceStore)
      returns (citations: seq<Citation>, warnings: seq<Warning>)
    modifies claims
    ensures claims[..] == CleanedAll(store.items, old(claims[..]))
    ensures ListsInOrder(citations, FinalCitations(store.items, text, old(claims[..])))
    ensures warnings == TextWarnings(store.items, CitedIds(text)) + ClaimsWarnings(store.items, old(claims[..]))
  {
    hide Cited, CitedIds, TextUses, ClaimsUses, Fallback, TopRelevant, ListsInOrder;
    hide CleanedAll, ClaimsWarnings, TextWarnings;
    FinalCitationsGrounded(store.items, text, claims[..]);
    GroundedKeys(store.items, FinalCitations(store.items, text, claims[..]));
    hide Grounded;
    var ids := ExtractCitationIds(text);
    var m, textWarnings := CiteText(ids, store);
    var claimWarnings;
    m, claimWarnings := CiteClaims(claims, store, m, TextUses(ids));
    if m == map[] {
      m := CiteTop(TopRelevant(store.items, FALLBACK_ITEMS));
    }
    citations := CollectAndSort(m);
    warnings := textWarnings + claimWarnings;
  }

  lemma GroundedKeys(items: seq<Item>, m: map<string, Citation>)
    requires Grounded(items, m)
    ensures forall id <- m :: m[id].sourceId == id
  {
  }
}
