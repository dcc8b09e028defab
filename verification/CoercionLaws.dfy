/**
 What coercion does to a value, told as a relation between the value, the schema and the result, and the readings that
 undo one another.
 */
module CoercionLaws {
  import opened Prelude
  import opened SortedMap
  import opened Json
  import opened Validation
  import opened Coercion

  // ---- Scalars ----

  /** The nearest integer, away from zero when two are equally near, and at the end of the 64-bit range beyond it. */
  ghost predicate Nearest(q: real, n: int) {
    && MIN_I64 <= n <= MAX_I64
    && (q >= MAX_I64 as real ==> n == MAX_I64)
    && (q <= MIN_I64 as real ==> n == MIN_I64)
    && (MIN_I64 as real < q < MAX_I64 as real ==>
          && -0.5 <= n as real - q <= 0.5
          && (n as real - q == 0.5 ==> q > 0.0)
          && (n as real - q == -0.5 ==> q < 0.0))
  }

  ghost predicate ReadAsNumber(x: Lexer, v: Json, r: Json) {
    if v.Str? && x.floatOf(v.s).Some? then r == Num(Float(x.floatOf(v.s).value)) else r == v
  }

  ghost predicate ReadAsInteger(x: Lexer, v: Json, r: Json) {
    match v
    case Num(Float(q)) => r.Num? && r.n.Int? && Nearest(q, r.n.i)
    case Str(text) => r == if x.intOf(text).Some? then Num(Int(x.intOf(text).value)) else v
    case _ => r == v
  }

  /** The words that mean yes, and those that mean no. */
  ghost predicate MeansYes(word: string) { word in {"true", "yes", "1", "in_stock", "instock"} }

  ghost predicate MeansNo(word: string) { word in {"false", "no", "0", "out_of_stock", "outofstock"} }

  ghost predicate ReadAsBoolean(x: Lexer, v: Json, r: Json) {
    && (v.Str? && MeansYes(x.folded(v.s)) ==> r == Bool(true))
    && (v.Str? && MeansNo(x.folded(v.s)) ==> r == Bool(false))
    && (!v.Str? || !(MeansYes(x.folded(v.s)) || MeansNo(x.folded(v.s))) ==> r == v)
  }

  ghost predicate WrittenAsText(x: Lexer, v: Json, r: Json) {
    match v
    case Num(n) => r == Str(x.show(n))
    case Bool(b) => r == Str(if b then "true" else "false")
    case _ => r == v
  }

  // ---- Objects and arrays ----

  function Declared(s: Json): (r: Fields)
    ensures forall i :: 0 <= i < |r| ==> r[i].value < s
  {
    var p := Member(s, "properties");
    if p.Some? && p.value.Obj? then p.value.fields else []
  }

  /** The name of the type asked for; without a single name it is an object. */
  function TypeAsked(s: Json): string {
    var t := Member(s, "type");
    if t.Some? && t.value.Str? then t.value.s else "object"
  }

  /** The declared names that are missing are appended as null, in the order in which they are declared. */
  ghost predicate MissingAppended(before: Fields, added: Fields, props: Fields) {
    AllMissing(before, added, props) && InDeclaredOrder(added, props) && NoneForgotten(before, added, props)
  }

  ghost predicate AllMissing(before: Fields, added: Fields, props: Fields) {
    forall e <- added :: e.value == Null && Has(props, e.key) && !Has(before, e.key)
  }

  ghost predicate InDeclaredOrder(added: Fields, props: Fields) {
    forall i, j :: 0 <= i < j < |added| ==> IndexOf(props, added[i].key) < IndexOf(props, added[j].key)
  }

  ghost predicate NoneForgotten(before: Fields, added: Fields, props: Fields) {
    forall p <- props :: !Has(before, p.key) ==> Has(added, p.key)
  }

  /** `r` is what coercing `v` towards `s` gives. */
  ghost predicate Coerced(x: Lexer, v: Json, s: Json, mode: Missing, r: Json)
    decreases s, 1
  {
    if !s.Obj? then r == v
    else
      var name := TypeAsked(s);
      if name == "object" then ObjectCoerced(x, if v.Obj? then v.fields else [], s, mode, r)
      else if name == "array" then ArrayCoerced(x, if v.Arr? then v.items else [v], s, mode, r)
      else if name == "number" then ReadAsNumber(x, v, r)
      else if name == "integer" then ReadAsInteger(x, v, r)
      else if name == "boolean" then ReadAsBoolean(x, v, r)
      else if name == "string" then WrittenAsText(x, v, r)
      else r == v
  }

  /** The fields stay in their places, declared ones coerced; under `AsNull` the missing ones follow. */
  ghost predicate ObjectCoerced(x: Lexer, fields: Fields, s: Json, mode: Missing, r: Json)
    decreases s, 0
  {
    var props := Declared(s);
    && r.Obj? && |fields| <= |r.fields|
    && (forall i :: 0 <= i < |fields| ==>
          && r.fields[i].key == fields[i].key
          && var j := IndexOf(props, fields[i].key);
             if j < |props| then Coerced(x, fields[i].value, props[j].value, mode, r.fields[i].value)
             else r.fields[i] == fields[i])
    && if mode == AsNull then MissingAppended(fields, r.fields[|fields|..], props) else |r.fields| == |fields|
  }

  ghost predicate ArrayCoerced(x: Lexer, items: seq<Json>, s: Json, mode: Missing, r: Json)
    decreases s, 0
  {
    var sub := Member(s, "items");
    && r.Arr? && |r.items| == |items|
    && forall i :: 0 <= i < |items| ==>
         if sub.Some? then Coerced(x, items[i], sub.value, mode, r.items[i]) else r.items[i] == items[i]
  }

  // ---- Coercion gives what the relation says ----

  lemma RoundIsNearest(q: real)
    ensures Nearest(q, RoundToI64(q))
  {
  }

  lemma ScalarCoerced(x: Lexer, v: Json, s: Json, mode: Missing)
    requires s.Obj? && KindOf(s) != ObjectKind && KindOf(s) != ArrayKind
    ensures Coerced(x, v, s, mode, Coerce(x, v, s, mode))
  {
    CoerceScalar(x, v, s, mode);
    if v.Num? && v.n.Float? { RoundIsNearest(v.n.r); }
    hide Coerce, Member, Nearest, RoundToI64, ObjectCoerced, ArrayCoerced;
  }

  lemma PropsAreDeclared(s: Json)
    requires s.Obj?
    ensures PropsOf(s) == Declared(s)
    ensures KindOf(s) == ObjectKind <==> TypeAsked(s) == "object"
    ensures KindOf(s) == ArrayKind <==> TypeAsked(s) == "array"
    ensures WellFormed(s) ==> NamesDistinct(Declared(s))
  {
    if Member(s, "properties").Some? && WellFormed(s) { MemberWellFormed(s, "properties"); }
    hide Member;
  }

  lemma {:induction false} NullsAppended(before: Fields, props: Fields, mode: Missing)
    requires NamesDistinct(props) && mode == AsNull
    ensures MissingAppended(before, NullsFor(before, props, mode), props)
  {
    if props != [] {
      NullsAppended(before, props[..|props| - 1], mode);
      OneMoreDeclared(before, NullsFor(before, props[..|props| - 1], mode), props);
      hide MissingAppended, NamesDistinct;
    }
  }

  lemma HasKey(fields: Fields, e: Entry<Json>)
    requires e in fields
    ensures Has(fields, e.key)
  {
  }

  /** A name keeps its place when a declaration is added at the end. */
  lemma {:induction false} PlaceKept(front: Fields, last: Entry<Json>, name: string)
    requires Has(front, name)
    ensures IndexOf(front + [last], name) == IndexOf(front, name)
  {
    var props := front + [last];
    if front[0].key != name {
      assert props[1..] == front[1..] + [last];
      PlaceKept(front[1..], last, name);
    }
  }

  lemma {:induction false} PlaceLast(front: Fields, last: Entry<Json>)
    requires !Has(front, last.key)
    ensures IndexOf(front + [last], last.key) == |front|
  {
    if front != [] {
      assert (front + [last])[1..] == front[1..] + [last];
      PlaceLast(front[1..], last);
    }
  }

  lemma OneMoreDeclared(before: Fields, added: Fields, props: Fields)
    requires NamesDistinct(props) && props != [] && MissingAppended(before, added, props[..|props| - 1])
    ensures var last := props[|props| - 1].key;
      MissingAppended(before, added + if Has(before, last) then [] else [Entry(last, Null)], props)
  {
    var front, last := props[..|props| - 1], props[|props| - 1];
    assert props == front + [last];
    assert !Has(front, last.key);
    hide IndexOf, NamesDistinct;
    PlaceLast(front, last);
    forall e | e in added ensures IndexOf(props, e.key) == IndexOf(front, e.key) < |front| {
      PlaceKept(front, last, e.key);
    }
    var longer := added + if Has(before, last.key) then [] else [Entry(last.key, Null)];
    StillInOrder(added, longer, front, props);
    hide InDeclaredOrder;
    StillNoneForgotten(before, added, longer, front, last);
  }

  lemma StillNoneForgotten(before: Fields, added: Fields, longer: Fields, front: Fields, last: Entry<Json>)
    requires NoneForgotten(before, added, front)
    requires longer == added + if Has(before, last.key) then [] else [Entry(last.key, Null)]
    ensures NoneForgotten(before, longer, front + [last])
  {
    forall p | p in front + [last] && !Has(before, p.key) ensures Has(longer, p.key) {
      if p in front {
        var e := added[IndexOf(added, p.key)];
        hide IndexOf;
        assert e in longer && e.key == p.key;
        HasKey(longer, e);
      } else {
        hide IndexOf;
        assert Entry(last.key, Null) in longer;
        HasKey(longer, Entry(last.key, Null));
      }
    }
  }

  lemma StillInOrder(added: Fields, longer: Fields, front: Fields, props: Fields)
    requires InDeclaredOrder(added, front) && added <= longer && |longer| <= |added| + 1
    requires forall e <- added :: IndexOf(props, e.key) == IndexOf(front, e.key) < |front|
    requires |longer| > |added| ==> IndexOf(props, longer[|added|].key) == |front|
    ensures InDeclaredOrder(longer, props)
  {
    hide IndexOf, InDeclaredOrder;
    InOrderRanks(added, front);
    InOrderRanks(longer, props);
    var a, b := Ranks(added, front), Ranks(longer, props);
    forall i | 0 <= i < |a| ensures b[i] == a[i] < |front| {
      assert longer[i] == added[i] && added[i] in added;
    }
    hide *;
    IncreasingNext(a, b, |front|);
  }

  ghost predicate Increasing(ranks: seq<nat>) { forall i, j :: 0 <= i < j < |ranks| ==> ranks[i] < ranks[j] }

  function Ranks(fields: Fields, props: Fields): (r: seq<nat>)
    ensures |r| == |fields| && forall i :: 0 <= i < |fields| ==> r[i] == IndexOf(props, fields[i].key)
  {
    seq(|fields|, i requires 0 <= i < |fields| => IndexOf(props, fields[i].key))
  }

  lemma InOrderRanks(fields: Fields, props: Fields)
    ensures InDeclaredOrder(fields, props) <==> Increasing(Ranks(fields, props))
  {
    hide IndexOf;
  }

  lemma IncreasingNext(a: seq<nat>, b: seq<nat>, n: nat)
    requires Increasing(a) && |a| <= |b| <= |a| + 1
    requires (forall i :: 0 <= i < |a| ==> b[i] == a[i] < n) && (|b| > |a| ==> b[|a|] == n)
    ensures Increasing(b)
  {
  }

  /** Coercion satisfies the relation, for every value, schema and mode. */
  lemma {:induction false} CoerceIsCoerced(x: Lexer, v: Json, s: Json, mode: Missing)
    requires WellFormed(s)
    ensures Coerced(x, v, s, mode, Coerce(x, v, s, mode))
    decreases s, 1
  {
    if s.Obj? {
      PropsAreDeclared(s);
      if KindOf(s) == ObjectKind {
        ObjectIsCoerced(x, v, s, mode);
      } else if KindOf(s) == ArrayKind {
        ArrayIsCoerced(x, v, s, mode);
      } else {
        ScalarCoerced(x, v, s, mode);
      }
      hide Coerce, KindOf, WellFormed, ObjectCoerced, ArrayCoerced;
    }
  }

  lemma {:induction false} ObjectIsCoerced(x: Lexer, v: Json, s: Json, mode: Missing)
    requires WellFormed(s) && s.Obj? && KindOf(s) == ObjectKind
    ensures ObjectCoerced(x, if v.Obj? then v.fields else [], s, mode, Coerce(x, v, s, mode))
    decreases s, 0
  {
    PropsAreDeclared(s);
    CoerceObject(x, v, s, mode);
    var fields, props := FieldsOf(v), Declared(s);
    var c, nulls := CoerceFields(x, fields, props, mode), NullsFor(fields, props, mode);
    assert mode != AsNull ==> nulls == [];
    assert (c + nulls)[|fields|..] == nulls;
    if mode == AsNull { NullsAppended(fields, props, mode); }
    forall i | 0 <= i < |fields|
      ensures var j := IndexOf(props, fields[i].key);
        c[i].key == fields[i].key
        && if j < |props| then Coerced(x, fields[i].value, props[j].value, mode, c[i].value) else c[i] == fields[i]
    {
      CoercedField(x, fields, props, mode, i);
      var j := IndexOf(props, fields[i].key);
      if j < |props| {
        PropWellFormed(s, j);
        CoerceIsCoerced(x, fields[i].value, props[j].value, mode);
      }
    }
    hide Coerce, CoerceFields, NullsFor, KindOf, MissingAppended, Coerced, Declared, WellFormed;
  }

  lemma PropWellFormed(s: Json, j: nat)
    requires WellFormed(s) && j < |Declared(s)|
    ensures WellFormed(Declared(s)[j].value)
  {
    MemberWellFormed(s, "properties");
  }

  lemma {:induction false} ArrayIsCoerced(x: Lexer, v: Json, s: Json, mode: Missing)
    requires WellFormed(s) && s.Obj? && KindOf(s) == ArrayKind
    ensures ArrayCoerced(x, if v.Arr? then v.items else [v], s, mode, Coerce(x, v, s, mode))
    decreases s, 0
  {
    CoerceArray(x, v, s, mode);
    var items, sub := ItemsOf(v), Member(s, "items");
    if sub.Some? {
      MemberWellFormed(s, "items");
      forall i | 0 <= i < |items|
        ensures Coerced(x, items[i], sub.value, mode, CoerceItems(x, items, sub.value, mode)[i])
      {
        CoerceIsCoerced(x, items[i], sub.value, mode);
      }
    }
    hide Coerce, KindOf, Coerced, WellFormed, Member;
  }

  // ---- The relation leaves nothing open ----

  lemma NearestIsUnique(q: real, m: int, n: int)
    requires Nearest(q, m) && Nearest(q, n)
    ensures m == n
  {
    if MIN_I64 as real < q < MAX_I64 as real {
      assert -1.0 <= (m - n) as real <= 1.0;
    }
  }

  /** Two strictly ascending lists over the same names are one list. */
  lemma {:induction false} OneOrder(a: Fields, b: Fields, props: Fields)
    requires InDeclaredOrder(a, props) && InDeclaredOrder(b, props)
    requires (forall e <- a :: e.value == Null && Has(b, e.key)) && (forall e <- b :: e.value == Null && Has(a, e.key))
    ensures a == b
  {
    assert (a != [] ==> a[0] in a) && (b != [] ==> b[0] in b);
    if a != [] {
      var i, j := IndexOf(b, a[0].key), IndexOf(a, b[0].key);
      hide IndexOf;
      assert a[0] == b[0];
      forall e | e in a[1..] ensures Has(b[1..], e.key) { RestHas(a, b, props, e); }
      forall e | e in b[1..] ensures Has(a[1..], e.key) { RestHas(b, a, props, e); }
      OneOrder(a[1..], b[1..], props);
    }
  }

  lemma RestHas(a: Fields, b: Fields, props: Fields, e: Entry<Json>)
    requires a != [] && b != [] && a[0] == b[0] && InDeclaredOrder(a, props)
    requires e in a[1..] && Has(b, e.key)
    ensures Has(b[1..], e.key)
  {
    var k :| 0 <= k < |a[1..]| && a[1..][k] == e;
    assert a[k + 1] == e;
    assert a[0].key != e.key;
    var i := IndexOf(b, e.key);
    assert b[i] == b[1..][i - 1];
    HasKey(b[1..], b[i]);
  }

  lemma AppendedOnce(before: Fields, a: Fields, b: Fields, props: Fields)
    requires MissingAppended(before, a, props) && MissingAppended(before, b, props)
    ensures a == b
  {
    forall e | e in a ensures Has(b, e.key) { assert props[IndexOf(props, e.key)] in props; }
    forall e | e in b ensures Has(a, e.key) { assert props[IndexOf(props, e.key)] in props; }
    hide IndexOf, InDeclaredOrder;
    OneOrder(a, b, props);
  }

  /** At most one result satisfies the relation. */
  lemma {:induction false} CoercedIsUnique(x: Lexer, v: Json, s: Json, mode: Missing, q: Json, r: Json)
    requires Coerced(x, v, s, mode, q) && Coerced(x, v, s, mode, r)
    ensures q == r
    decreases s, 1
  {
    hide TypeAsked, Member, ObjectCoerced, ArrayCoerced;
    if s.Obj? {
      if TypeAsked(s) == "object" {
        hide ReadAsNumber, ReadAsInteger, ReadAsBoolean, WrittenAsText;
        ObjectIsUnique(x, if v.Obj? then v.fields else [], s, mode, q, r);
      } else if TypeAsked(s) == "array" {
        hide ReadAsNumber, ReadAsInteger, ReadAsBoolean, WrittenAsText;
        ArrayIsUnique(x, if v.Arr? then v.items else [v], s, mode, q, r);
      } else {
        ScalarIsUnique(x, v, s, mode, q, r);
        hide ReadAsNumber, ReadAsInteger, ReadAsBoolean, WrittenAsText;
      }
    }
  }

  lemma ScalarIsUnique(x: Lexer, v: Json, s: Json, mode: Missing, q: Json, r: Json)
    requires s.Obj? && TypeAsked(s) != "object" && TypeAsked(s) != "array"
    requires Coerced(x, v, s, mode, q) && Coerced(x, v, s, mode, r)
    ensures q == r
  {
    hide TypeAsked, Member, ObjectCoerced, ArrayCoerced, Nearest, MeansYes, MeansNo;
    if TypeAsked(s) == "integer" && v.Num? && v.n.Float? {
      NearestIsUnique(v.n.r, q.n.i, r.n.i);
    }
  }

  lemma SameInTwoParts(a: Fields, b: Fields, n: nat)
    requires n <= |a| && n <= |b| && a[n..] == b[n..] && forall i :: 0 <= i < n ==> a[i] == b[i]
    ensures a == b
  {
    assert a == a[..n] + a[n..] && b == b[..n] + b[n..];
    assert a[..n] == b[..n];
  }

  lemma {:induction false} ObjectIsUnique(x: Lexer, fields: Fields, s: Json, mode: Missing, q: Json, r: Json)
    requires ObjectCoerced(x, fields, s, mode, q) && ObjectCoerced(x, fields, s, mode, r)
    ensures q == r
    decreases s, 0
  {
    var props, n := Declared(s), |fields|;
    hide IndexOf, Member, MissingAppended;
    if mode == AsNull { AppendedOnce(fields, q.fields[n..], r.fields[n..], props); }
    forall i | 0 <= i < n ensures q.fields[i] == r.fields[i] {
      var j := IndexOf(props, fields[i].key);
      if j < |props| {
        CoercedIsUnique(x, fields[i].value, props[j].value, mode, q.fields[i].value, r.fields[i].value);
      }
    }
    hide Coerced, Declared;
    assert q.fields[n..] == r.fields[n..];
    hide *;
    SameInTwoParts(q.fields, r.fields, n);
  }

  lemma {:induction false} ArrayIsUnique(x: Lexer, items: seq<Json>, s: Json, mode: Missing, q: Json, r: Json)
    requires ArrayCoerced(x, items, s, mode, q) && ArrayCoerced(x, items, s, mode, r)
    ensures q == r
    decreases s, 0
  {
    var sub := Member(s, "items");
    forall i | 0 <= i < |items| ensures q.items[i] == r.items[i] {
      if sub.Some? { CoercedIsUnique(x, items[i], sub.value, mode, q.items[i], r.items[i]); }
    }
    hide Coerced, Member;
  }

  /** The relation holds of exactly one result, the coercion. */
  lemma CoerceMeaning(x: Lexer, v: Json, s: Json, mode: Missing, r: Json)
    requires WellFormed(s)
    ensures r == Coerce(x, v, s, mode) <==> Coerced(x, v, s, mode, r)
  {
    CoerceIsCoerced(x, v, s, mode);
    hide Coerce, Coerced, WellFormed;
    if Coerced(x, v, s, mode, r) {
      CoercedIsUnique(x, v, s, mode, r, Coerce(x, v, s, mode));
    }
  }

  // ---- Readings that undo writings ----

  ghost predicate Asks(s: Json, name: string) { s.Obj? && Member(s, "type") == Some(Str(name)) }

  /** What is written as text and read again is what it was, if the words, and the numbers, can be read back. */
  lemma TextReadsBack(x: Lexer, v: Json, text: Json, s: Json, mode: Missing)
    requires WellFormed(text) && WellFormed(s) && Asks(text, "string")
    ensures v.Bool? && Asks(s, "boolean") && x.folded("true") == "true" && x.folded("false") == "false" ==>
      Coerce(x, Coerce(x, v, text, mode), s, mode) == v
    ensures v.Num? && v.n.Int? && Asks(s, "integer") && x.intOf(x.show(v.n)) == Some(v.n.i) ==>
      Coerce(x, Coerce(x, v, text, mode), s, mode) == v
    ensures v.Num? && v.n.Float? && Asks(s, "number") && x.floatOf(x.show(v.n)) == Some(v.n.r) ==>
      Coerce(x, Coerce(x, v, text, mode), s, mode) == v
  {
    var written := Coerce(x, v, text, mode);
    CoerceIsCoerced(x, v, text, mode);
    CoerceIsCoerced(x, written, s, mode);
    hide Coerce, Member, ObjectCoerced, ArrayCoerced, Nearest, WellFormed;
  }

  /** A value that is no array is kept as the one item of the array that it becomes. */
  lemma SingleBecomesList(x: Lexer, v: Json, s: Json, mode: Missing)
    requires WellFormed(s) && Asks(s, "array") && !v.Arr?
    ensures var r := Coerce(x, v, s, mode);
      && r.Arr? && |r.items| == 1
      && r.items[0] == if Member(s, "items").Some? then Coerce(x, v, Member(s, "items").value, mode) else v
  {
    CoerceIsCoerced(x, v, s, mode);
    if Member(s, "items").Some? {
      MemberWellFormed(s, "items");
      CoerceMeaning(x, v, Member(s, "items").value, mode, Coerce(x, v, s, mode).items[0]);
    }
    hide Coerce, Member, ObjectCoerced, WellFormed;
  }
}
