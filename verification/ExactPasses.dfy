/**
 How many passes of coercion under `AsNull` a schema needs, exactly, and for which schemas one pass is enough.
 A declared property that is missing becomes null in one pass; a null under an object or array schema is expanded only
 by the next.
 */
module ExactPasses {
  import opened Prelude
  import opened SortedMap
  import opened Json
  import opened Validation
  import opened Coercion
  import opened CoercionPasses

  /** Coercion expands a null under this schema. */
  predicate Grows(s: Json) { s.Obj? && (KindOf(s) == ObjectKind || KindOf(s) == ArrayKind) }

  /** The passes after which a null stops changing. */
  function FromNull(s: Json): nat {
    if !s.Obj? then 0
    else match KindOf(s)
      case ObjectKind =>
        var props := PropsOf(s);
        1 + Deepest(seq(|props|, i requires 0 <= i < |props| => FromNull(props[i].value)))
      case ArrayKind =>
        var sub := Member(s, "items");
        if sub.Some? then Max(1, FromNull(sub.value)) else 1
      case _ => 0
  }

  /** The passes, at least one, after which every value stops changing. */
  function Needed(s: Json): nat {
    if !s.Obj? then 1
    else match KindOf(s)
      case ObjectKind =>
        var props := PropsOf(s);
        Max(1, Deepest(seq(|props|, i requires 0 <= i < |props| => PropNeed(Needed(props[i].value), props[i].value))))
      case ArrayKind =>
        var sub := Member(s, "items");
        if sub.Some? then Needed(sub.value) else 1
      case _ => 1
  }

  /** A property may be there from the start, or be filled in as null by the first pass. */
  function PropNeed(needed: nat, prop: Json): nat { Max(needed, 1 + FromNull(prop)) }

  function NullNeeds(props: Fields): seq<nat> { seq(|props|, i requires 0 <= i < |props| => FromNull(props[i].value)) }

  function PropNeeds(props: Fields): seq<nat> {
    seq(|props|, i requires 0 <= i < |props| => PropNeed(Needed(props[i].value), props[i].value))
  }

  lemma ObjectNeeds(s: Json)
    requires s.Obj? && KindOf(s) == ObjectKind
    ensures FromNull(s) == 1 + Deepest(NullNeeds(PropsOf(s))) && |NullNeeds(PropsOf(s))| == |PropsOf(s)|
    ensures Needed(s) == Max(1, Deepest(PropNeeds(PropsOf(s)))) && |PropNeeds(PropsOf(s))| == |PropsOf(s)|
  {
    hide PropsOf, Deepest, PropNeed;
  }

  /** Through arrays, no object schema declares a property that grows from null. */
  predicate Settles(s: Json) {
    s.Obj? ==>
      match KindOf(s)
      case ObjectKind => forall i :: 0 <= i < |PropsOf(s)| ==> !Grows(PropsOf(s)[i].value)
      case ArrayKind => Member(s, "items").Some? ==> Settles(Member(s, "items").value)
      case _ => true
  }

  lemma {:induction false} DeepestAttained(xs: seq<nat>) returns (i: nat)
    requires xs != []
    ensures i < |xs| && xs[i] == Deepest(xs)
  {
    i := |xs| - 1;
    if |xs| > 1 && Deepest(xs) != xs[i] { i := DeepestAttained(xs[..|xs| - 1]); }
  }

  /** Two further passes differ exactly when some field still changes. */
  lemma FieldsDiffer(x: Lexer, n: nat, m: nat, fields: Fields, props: Fields, i: nat, j: nat)
    requires i < |fields| && j < |props| && IndexOf(props, fields[i].key) == j
    requires Pass(x, n, fields[i].value, props[j].value, AsNull) != Pass(x, m, fields[i].value, props[j].value, AsNull)
    ensures PassFields(x, n, fields, props, AsNull) != PassFields(x, m, fields, props, AsNull)
  {
    hide Pass, IndexOf;
    assert PassFields(x, n, fields, props, AsNull)[i] == PassField(x, n, fields[i], props, AsNull);
    assert PassFields(x, m, fields, props, AsNull)[i] == PassField(x, m, fields[i], props, AsNull);
  }

  /** The fields of an object after its first pass. */
  function Completed(x: Lexer, fields: Fields, props: Fields): Fields {
    CoerceFields(x, fields, props, AsNull) + NullsFor(fields, props, AsNull)
  }

  lemma PassObject(x: Lexer, n: nat, v: Json, s: Json)
    requires s.Obj? && KindOf(s) == ObjectKind
    ensures Pass(x, n + 1, v, s, AsNull)
         == Obj(PassFields(x, n, Completed(x, FieldsOf(v), PropsOf(s)), PropsOf(s), AsNull))
  {
    CompletedOnce(x, v, s, n);
    hide CoerceFields, NullsFor, PassFields, PropsOf, KindOf, Pass, FieldsOf;
  }

  lemma PassAgain(x: Lexer, n: nat, v: Json, s: Json)
    ensures Pass(x, n + 1, v, s, AsNull) == Pass(x, n, Coerce(x, v, s, AsNull), s, AsNull)
  {
    hide Coerce;
  }

  // ---- The passes that a null needs ----

  lemma NullFields(fields: Fields, props: Fields)
    ensures forall e <- NullsFor(fields, props, AsNull) :: e.value == Null
  {
  }

  lemma ChildFromNull(s: Json, j: nat)
    requires s.Obj? && KindOf(s) == ObjectKind && j < |PropsOf(s)|
    ensures FromNull(PropsOf(s)[j].value) < FromNull(s)
  {
    ObjectNeeds(s);
    DeepestIsBound(NullNeeds(PropsOf(s)), j);
    hide KindOf, PropsOf, Deepest, FromNull, Needed;
  }

  lemma {:induction false} NullSettles(x: Lexer, n: nat, s: Json)
    requires n >= FromNull(s)
    ensures Pass(x, n + 1, Null, s, AsNull) == Pass(x, n, Null, s, AsNull)
    decreases s, 3
  {
    hide Coerce, Pass, Deepest, PropsOf;
    if !s.Obj? {
      PassNonSchema(x, n, Null, s);
      PassNonSchema(x, n + 1, Null, s);
    } else if KindOf(s) == ObjectKind {
      ObjectNeeds(s);
      var m: nat := n - 1;
      assert m + 2 == n + 1 && m + 1 == n;
      NullObjectSettles(x, m, Null, s);
    } else if KindOf(s) == ArrayKind {
      NullArraySettles(x, n, s);
    } else {
      NullScalar(x, n, s);
      NullScalar(x, n + 1, s);
    }
  }

  lemma NullScalar(x: Lexer, n: nat, s: Json)
    requires s.Obj? && KindOf(s) != ObjectKind && KindOf(s) != ArrayKind
    ensures Pass(x, n, Null, s, AsNull) == Null
  {
    if n > 0 { ScalarSettles(x, n, Null, s); }
    hide KindOf, Pass;
  }

  /** The field that stands for a missing property, one pass after it was filled in. */
  ghost predicate FieldSettled(x: Lexer, n: nat, f: Entry<Json>, props: Fields) {
    IndexOf(props, f.key) < |props| ==>
      Pass(x, n + 1, f.value, props[IndexOf(props, f.key)].value, AsNull)
      == Pass(x, n, f.value, props[IndexOf(props, f.key)].value, AsNull)
  }

  lemma AllSettled(x: Lexer, n: nat, fields: Fields, props: Fields)
    requires forall i :: 0 <= i < |fields| ==> FieldSettled(x, n, fields[i], props)
    ensures PassFields(x, n + 1, fields, props, AsNull) == PassFields(x, n, fields, props, AsNull)
  {
    forall i | 0 <= i < |fields| && IndexOf(props, fields[i].key) < |props|
      ensures Pass(x, n + 1, fields[i].value, props[IndexOf(props, fields[i].key)].value, AsNull)
           == Pass(x, n, fields[i].value, props[IndexOf(props, fields[i].key)].value, AsNull)
    {
      assert FieldSettled(x, n, fields[i], props);
    }
    hide Pass, IndexOf, PassFields, FieldSettled;
    SettledFields(x, n, fields, props);
  }

  lemma {:induction false} NullFieldSettles(x: Lexer, n: nat, name: string, s: Json)
    requires s.Obj? && KindOf(s) == ObjectKind && n + 1 >= FromNull(s)
    ensures FieldSettled(x, n, Entry(name, Null), PropsOf(s))
    decreases s, 0
  {
    var j := IndexOf(PropsOf(s), name);
    if j < |PropsOf(s)| {
      ChildFromNull(s, j);
      hide Pass, FromNull, PropsOf, KindOf;
      NullSettles(x, n, PropsOf(s)[j].value);
    }
  }

  lemma FilledFrom(x: Lexer, none: Fields, props: Fields)
    requires none == []
    ensures Completed(x, none, props) == NullsFor(none, props, AsNull)
  {
    hide NullsFor, Coerce;
  }

  lemma {:induction false} FilledSettle(x: Lexer, n: nat, filled: Fields, s: Json)
    requires s.Obj? && KindOf(s) == ObjectKind && n + 1 >= FromNull(s) && forall e <- filled :: e.value == Null
    ensures PassFields(x, n + 1, filled, PropsOf(s), AsNull) == PassFields(x, n, filled, PropsOf(s), AsNull)
    decreases s, 1
  {
    hide *;
    forall i | 0 <= i < |filled| ensures FieldSettled(x, n, filled[i], PropsOf(s)) {
      assert filled[i] in filled && filled[i] == Entry(filled[i].key, Null);
      NullFieldSettles(x, n, filled[i].key, s);
    }
    AllSettled(x, n, filled, PropsOf(s));
  }

  lemma {:induction false} NullObjectSettles(x: Lexer, n: nat, v: Json, s: Json)
    requires v == Null && s.Obj? && KindOf(s) == ObjectKind && n + 1 >= FromNull(s)
    ensures Pass(x, n + 2, v, s, AsNull) == Pass(x, n + 1, v, s, AsNull)
    decreases s, 2
  {
    var none := FieldsOf(v);
    assert none == [];
    hide *;
    FilledFrom(x, none, PropsOf(s));
    NullFields(none, PropsOf(s));
    PassObject(x, n + 1, v, s);
    PassObject(x, n, v, s);
    FilledSettle(x, n, NullsFor(none, PropsOf(s), AsNull), s);
  }

  /** A null under an array schema becomes a list holding what the null becomes under the item schema. */
  lemma NullArray(x: Lexer, n: nat, s: Json)
    requires s.Obj? && KindOf(s) == ArrayKind && n > 0
    ensures Pass(x, n, Null, s, AsNull)
         == Arr(if Member(s, "items").Some? then [Pass(x, n, Null, Member(s, "items").value, AsNull)] else [Null])
  {
    var sub := Member(s, "items");
    CoerceArray(x, Null, s, AsNull);
    PassAgain(x, n - 1, Null, s);
    hide KindOf, Member, Coerce, Pass;
    if sub.None? {
      PassBareArray(x, n - 1, [Null], s);
    } else {
      var once := CoerceItems(x, [Null], sub.value, AsNull);
      assert once == [Coerce(x, Null, sub.value, AsNull)];
      PassArray(x, n - 1, once, s);
      PassAgain(x, n - 1, Null, sub.value);
      assert PassItems(x, n - 1, once, sub.value) == [Pass(x, n, Null, sub.value, AsNull)];
    }
  }

  lemma {:induction false} NullArraySettles(x: Lexer, n: nat, s: Json)
    requires s.Obj? && KindOf(s) == ArrayKind && n >= FromNull(s)
    ensures Pass(x, n + 1, Null, s, AsNull) == Pass(x, n, Null, s, AsNull)
    decreases s, 1
  {
    NullArray(x, n, s);
    NullArray(x, n + 1, s);
    if Member(s, "items").Some? {
      NullSettles(x, n, Member(s, "items").value);
    }
    hide Pass, KindOf;
  }

  // ---- Enough passes ----

  lemma ChildNeeded(s: Json, j: nat)
    requires s.Obj? && KindOf(s) == ObjectKind && j < |PropsOf(s)|
    ensures Needed(PropsOf(s)[j].value) <= Needed(s) && 1 + FromNull(PropsOf(s)[j].value) <= Needed(s)
  {
    ObjectNeeds(s);
    DeepestIsBound(PropNeeds(PropsOf(s)), j);
    hide KindOf, PropsOf, Deepest, FromNull, Needed;
  }

  lemma NeededIsPositive(s: Json)
    ensures Needed(s) >= 1
  {
    hide PropsOf, PropNeed, KindOf, Deepest, FromNull;
    if s.Obj? && KindOf(s) == ArrayKind && Member(s, "items").Some? {
      NeededIsPositive(Member(s, "items").value);
    }
  }

  lemma {:induction false} NeededSettles(x: Lexer, n: nat, v: Json, s: Json)
    requires n >= Needed(s)
    ensures Pass(x, n + 1, v, s, AsNull) == Pass(x, n, v, s, AsNull)
    decreases s, 2
  {
    NeededIsPositive(s);
    if !s.Obj? {
      PassNonSchema(x, n, v, s);
      PassNonSchema(x, n + 1, v, s);
    } else if KindOf(s) == ObjectKind {
      NeededSettlesObject(x, n, v, s);
    } else if KindOf(s) == ArrayKind {
      NeededSettlesArray(x, n, v, s);
    } else {
      ScalarSettles(x, n, v, s);
      ScalarSettles(x, n + 1, v, s);
    }
  }

  /** A field that was there, after its first coercion. */
  lemma {:induction false} CoercedFieldSettles(x: Lexer, n: nat, fields: Fields, i: nat, s: Json)
    requires s.Obj? && KindOf(s) == ObjectKind && n + 1 >= Needed(s) && i < |fields|
    ensures FieldSettled(x, n, CoerceFields(x, fields, PropsOf(s), AsNull)[i], PropsOf(s))
    decreases s, 0
  {
    var props, w := PropsOf(s), fields[i].value;
    var j := IndexOf(props, fields[i].key);
    CoercedField(x, fields, props, AsNull, i);
    if j < |props| {
      ChildNeeded(s, j);
      hide Pass, Needed, FromNull, PropsOf, KindOf, CoerceFields, Coerce;
      NeededSettles(x, n + 1, w, props[j].value);
      PassAgain(x, n + 1, w, props[j].value);
      PassAgain(x, n, w, props[j].value);
    }
  }

  lemma {:induction false} NeededSettlesObject(x: Lexer, n: nat, v: Json, s: Json)
    requires s.Obj? && KindOf(s) == ObjectKind && n >= Needed(s) && n >= 1
    ensures Pass(x, n + 1, v, s, AsNull) == Pass(x, n, v, s, AsNull)
    decreases s, 1
  {
    var props, was := PropsOf(s), FieldsOf(v);
    var f := Completed(x, was, props);
    hide PropsOf, KindOf, FromNull, Needed, Pass, FieldSettled, PassFields, NullsFor, CoerceFields, FieldsOf;
    PassObject(x, n, v, s);
    PassObject(x, n - 1, v, s);
    NullFields(was, props);
    forall i | 0 <= i < |f| ensures FieldSettled(x, n - 1, f[i], props) {
      if i < |was| {
        CoercedFieldSettles(x, n - 1, was, i, s);
      } else {
        assert f[i] in NullsFor(was, props, AsNull) && f[i] == Entry(f[i].key, Null);
        NullNeedsNoMore(s);
        NullFieldSettles(x, n - 1, f[i].key, s);
      }
    }
    AllSettled(x, n - 1, f, props);
  }

  /** An object schema needs at least as many passes for all values as for null. */
  lemma NullNeedsNoMore(s: Json)
    requires s.Obj? && KindOf(s) == ObjectKind
    ensures FromNull(s) <= Needed(s)
  {
    var props := PropsOf(s);
    ObjectNeeds(s);
    if props != [] {
      var j := DeepestAttained(NullNeeds(props));
      ChildNeeded(s, j);
    }
    hide KindOf, PropsOf, FromNull, Needed;
  }

  lemma {:induction false} NeededSettlesArray(x: Lexer, n: nat, v: Json, s: Json)
    requires s.Obj? && KindOf(s) == ArrayKind && n >= Needed(s) && n >= 1
    ensures Pass(x, n + 1, v, s, AsNull) == Pass(x, n, v, s, AsNull)
    decreases s, 1
  {
    var sub := Member(s, "items");
    PassList(x, n, v, s);
    PassList(x, n + 1, v, s);
    hide Pass, Coerce;
    if sub.Some? {
      forall i | 0 <= i < |ItemsOf(v)|
        ensures Pass(x, n + 1, ItemsOf(v)[i], sub.value, AsNull) == Pass(x, n, ItemsOf(v)[i], sub.value, AsNull)
      {
        NeededSettles(x, n, ItemsOf(v)[i], sub.value);
      }
      hide KindOf, Member;
      assert PassItems(x, n + 1, ItemsOf(v), sub.value) == PassItems(x, n, ItemsOf(v), sub.value);
    }
  }

  /** From the first pass on, a list is coerced item by item. */
  lemma PassList(x: Lexer, n: nat, v: Json, s: Json)
    requires s.Obj? && KindOf(s) == ArrayKind && n > 0
    ensures Pass(x, n, v, s, AsNull)
         == Arr(if Member(s, "items").Some? then PassItems(x, n, ItemsOf(v), Member(s, "items").value) else ItemsOf(v))
  {
    var items, sub := ItemsOf(v), Member(s, "items");
    CoerceArray(x, v, s, AsNull);
    PassAgain(x, n - 1, v, s);
    hide KindOf, Member, Coerce, Pass, ItemsOf;
    if sub.None? {
      PassBareArray(x, n - 1, items, s);
    } else {
      var once := CoerceItems(x, items, sub.value, AsNull);
      PassArray(x, n - 1, once, s);
      forall i | 0 <= i < |items| { PassAgain(x, n - 1, items[i], sub.value); }
      assert PassItems(x, n - 1, once, sub.value) == PassItems(x, n, items, sub.value);
    }
  }

  // ---- No fewer passes ----

  lemma {:induction false} NullsNames(fields: Fields, props: Fields, j: nat) returns (i: nat)
    requires NamesDistinct(props) && j < |props| && !Has(fields, props[j].key)
    ensures i < |NullsFor(fields, props, AsNull)| && NullsFor(fields, props, AsNull)[i] == Entry(props[j].key, Null)
  {
    var n := |props| - 1;
    var front := NullsFor(fields, props[..n], AsNull);
    hide Has;
    if j < n {
      i := NullsNames(fields, props[..n], j);
    } else {
      i := |front|;
    }
  }

  /** The property that a missing field takes longest to settle under still changes. */
  lemma NullFieldChanges(x: Lexer, n: nat, fields: Fields, s: Json, j: nat)
    requires WellFormed(s) && s.Obj? && KindOf(s) == ObjectKind && NamesDistinct(PropsOf(s))
    requires j < |PropsOf(s)| && !Has(fields, PropsOf(s)[j].key)
    requires Pass(x, n + 1, Null, PropsOf(s)[j].value, AsNull) != Pass(x, n, Null, PropsOf(s)[j].value, AsNull)
    ensures var f := Completed(x, fields, PropsOf(s));
      PassFields(x, n + 1, f, PropsOf(s), AsNull) != PassFields(x, n, f, PropsOf(s), AsNull)
  {
    var props := PropsOf(s);
    hide PropsOf, KindOf, Pass, WellFormed;
    var i := NullsNames(fields, props, j);
    var f, c := Completed(x, fields, props), CoerceFields(x, fields, props, AsNull);
    assert f[|c| + i] == Entry(props[j].key, Null);
    IndexOfField(props, j);
    hide CoerceFields, NullsFor, Completed, NamesDistinct, Has, IndexOf;
    FieldsDiffer(x, n + 1, n, f, props, |c| + i, j);
  }

  lemma PropsDistinct(s: Json, j: nat)
    requires WellFormed(s) && s.Obj?
    ensures NamesDistinct(PropsOf(s))
    ensures j < |PropsOf(s)| ==> WellFormed(PropsOf(s)[j].value)
  {
    var p := Member(s, "properties");
    if p.Some? { MemberWellFormed(s, "properties"); }
    hide Member;
  }

  lemma {:induction false} NullUnsettled(x: Lexer, n: nat, s: Json)
    requires WellFormed(s) && n < FromNull(s)
    ensures Pass(x, n + 1, Null, s, AsNull) != Pass(x, n, Null, s, AsNull)
    decreases s, 1
  {
    GrowsFromNull(s);
    assert s.Obj? && (KindOf(s) == ObjectKind || KindOf(s) == ArrayKind);
    var m: nat := if n == 0 then 0 else n - 1;
    assert n > 0 ==> m + 2 == n + 1 && m + 1 == n;
    hide *;
    if KindOf(s) == ArrayKind {
      NullArrayUnsettled(x, n, Null, s);
    } else if n == 0 {
      NullOnceObject(x, s);
    } else {
      NullObjectUnsettled(x, m, Null, s);
    }
  }

  lemma {:induction false} NullArrayUnsettled(x: Lexer, n: nat, v: Json, s: Json)
    requires v == Null && WellFormed(s) && s.Obj? && KindOf(s) == ArrayKind && n < FromNull(s)
    ensures Pass(x, n + 1, v, s, AsNull) != Pass(x, n, v, s, AsNull)
    decreases s, 0
  {
    NullArray(x, n + 1, s);
    if n == 0 {
      PassNone(x, v, s);
      hide Pass, WellFormed, KindOf;
    } else {
      NullArray(x, n, s);
      MemberWellFormed(s, "items");
      hide Pass, WellFormed, KindOf;
      NullUnsettled(x, n, Member(s, "items").value);
    }
  }

  lemma NullOnceObject(x: Lexer, s: Json)
    requires s.Obj? && KindOf(s) == ObjectKind
    ensures Pass(x, 1, Null, s, AsNull) != Pass(x, 0, Null, s, AsNull)
  {
    PassObject(x, 0, Null, s);
    PassNone(x, Null, s);
    hide Pass, PassFields, KindOf;
  }

  lemma PassNone(x: Lexer, v: Json, s: Json)
    ensures Pass(x, 0, v, s, AsNull) == v
  {
  }

  lemma {:induction false} NullObjectUnsettled(x: Lexer, n: nat, v: Json, s: Json)
    requires v == Null && WellFormed(s) && s.Obj? && KindOf(s) == ObjectKind && n + 1 < FromNull(s)
    ensures Pass(x, n + 2, v, s, AsNull) != Pass(x, n + 1, v, s, AsNull)
    decreases s, 0
  {
    var m := n + 1;
    assert m + 1 == n + 2;
    PassObject(x, m, v, s);
    PassObject(x, n, v, s);
    var j := SlowestFromNull(s);
    PropsDistinct(s, j);
    var none := FieldsOf(v);
    assert !Has(none, PropsOf(s)[j].key);
    hide *;
    NullUnsettled(x, n, PropsOf(s)[j].value);
    NullFieldChanges(x, n, none, s, j);
    assert PassFields(x, m, Completed(x, none, PropsOf(s)), PropsOf(s), AsNull)
        != PassFields(x, n, Completed(x, none, PropsOf(s)), PropsOf(s), AsNull);
  }

  /** The property that a null takes longest to settle under. */
  lemma SlowestFromNull(s: Json) returns (j: nat)
    requires s.Obj? && KindOf(s) == ObjectKind && FromNull(s) > 1
    ensures j < |PropsOf(s)| && FromNull(s) == 1 + FromNull(PropsOf(s)[j].value)
  {
    ObjectNeeds(s);
    NoDepth();
    hide PropsOf, KindOf, FromNull, Needed, Deepest;
    var needs := NullNeeds(PropsOf(s));
    assert needs != [];
    j := DeepestAttained(needs);
  }

  lemma SlowestProperty(s: Json) returns (j: nat)
    requires s.Obj? && KindOf(s) == ObjectKind && Needed(s) > 1
    ensures j < |PropsOf(s)|
    ensures Needed(s) == Needed(PropsOf(s)[j].value) || Needed(s) == 1 + FromNull(PropsOf(s)[j].value)
  {
    ObjectNeeds(s);
    NoDepth();
    hide PropsOf, KindOf, FromNull, Needed, Deepest;
    var needs := PropNeeds(PropsOf(s));
    assert needs != [];
    j := DeepestAttained(needs);
  }

  lemma NoDepth()
    ensures Deepest([]) == 0
  {
  }

  /** Below the number of passes needed, some value still changes. */
  lemma {:induction false} Unsettled(x: Lexer, n: nat, s: Json) returns (v: Json)
    requires WellFormed(s) && n + 1 < Needed(s)
    ensures Pass(x, n + 2, v, s, AsNull) != Pass(x, n + 1, v, s, AsNull)
    decreases s, 1
  {
    if KindOf(s) == ObjectKind {
      hide *;
      v := UnsettledObject(x, n, s);
    } else {
      var sub := Member(s, "items").value;
      MemberWellFormed(s, "items");
      hide WellFormed, Pass, Coerce;
      v := UnsettledArray(x, n, s, sub);
    }
  }

  lemma {:induction false} UnsettledArray(x: Lexer, n: nat, s: Json, sub: Json) returns (v: Json)
    requires s.Obj? && KindOf(s) == ArrayKind && Member(s, "items") == Some(sub) && sub < s
    requires WellFormed(sub) && n + 1 < Needed(sub)
    ensures Pass(x, n + 2, v, s, AsNull) != Pass(x, n + 1, v, s, AsNull)
    decreases s, 0
  {
    hide KindOf, Member, WellFormed, Needed, Pass, Coerce;
    var w := Unsettled(x, n, sub);
    var items := [w];
    v := Arr(items);
    PassList(x, n + 1, v, s);
    PassList(x, n + 2, v, s);
    assert ItemsOf(v) == items;
    assert PassItems(x, n + 1, items, sub)[0] == Pass(x, n + 1, items[0], sub, AsNull);
    assert PassItems(x, n + 2, items, sub)[0] == Pass(x, n + 2, items[0], sub, AsNull);
  }

  lemma {:induction false} UnsettledObject(x: Lexer, n: nat, s: Json) returns (v: Json)
    requires WellFormed(s) && s.Obj? && KindOf(s) == ObjectKind && n + 1 < Needed(s)
    ensures Pass(x, n + 2, v, s, AsNull) != Pass(x, n + 1, v, s, AsNull)
    decreases s, 0
  {
    var j := SlowestProperty(s);
    PropsDistinct(s, j);
    var props := PropsOf(s);
    hide *;
    if n < FromNull(props[j].value) {
      NullUnsettled(x, n, props[j].value);
      v := UnsettledByAbsence(x, n, s, j);
    } else {
      var w := Unsettled(x, n, props[j].value);
      v := UnsettledByPresence(x, n, w, s, j);
    }
  }

  lemma UnsettledByAbsence(x: Lexer, n: nat, s: Json, j: nat) returns (v: Json)
    requires WellFormed(s) && s.Obj? && KindOf(s) == ObjectKind && NamesDistinct(PropsOf(s)) && j < |PropsOf(s)|
    requires Pass(x, n + 1, Null, PropsOf(s)[j].value, AsNull) != Pass(x, n, Null, PropsOf(s)[j].value, AsNull)
    ensures Pass(x, n + 2, v, s, AsNull) != Pass(x, n + 1, v, s, AsNull)
  {
    hide *;
    v := Obj([]);
    var none := FieldsOf(v);
    NoFields(PropsOf(s)[j].key);
    NullFieldChanges(x, n, none, s, j);
    PassObject(x, n + 1, v, s);
    PassObject(x, n, v, s);
  }

  lemma NoFields(key: string)
    ensures !Has(FieldsOf(Obj([])), key)
  {
  }

  lemma UnsettledByPresence(x: Lexer, n: nat, w: Json, s: Json, j: nat) returns (v: Json)
    requires s.Obj? && KindOf(s) == ObjectKind && NamesDistinct(PropsOf(s)) && j < |PropsOf(s)|
    requires Pass(x, n + 2, w, PropsOf(s)[j].value, AsNull) != Pass(x, n + 1, w, PropsOf(s)[j].value, AsNull)
    ensures Pass(x, n + 2, v, s, AsNull) != Pass(x, n + 1, v, s, AsNull)
  {
    v := Obj([Entry(PropsOf(s)[j].key, w)]);
    assert FieldsOf(v) == [Entry(PropsOf(s)[j].key, w)];
    hide *;
    PresentFieldChanges(x, n, w, s, j);
    PassObject(x, n + 1, v, s);
    PassObject(x, n, v, s);
  }

  lemma PresentFieldChanges(x: Lexer, n: nat, w: Json, s: Json, j: nat)
    requires s.Obj? && KindOf(s) == ObjectKind && NamesDistinct(PropsOf(s)) && j < |PropsOf(s)|
    requires Pass(x, n + 2, w, PropsOf(s)[j].value, AsNull) != Pass(x, n + 1, w, PropsOf(s)[j].value, AsNull)
    ensures var f := Completed(x, [Entry(PropsOf(s)[j].key, w)], PropsOf(s));
      PassFields(x, n + 1, f, PropsOf(s), AsNull) != PassFields(x, n, f, PropsOf(s), AsNull)
  {
    var props := PropsOf(s);
    var fields := [Entry(props[j].key, w)];
    hide PropsOf, KindOf;
    IndexOfField(props, j);
    CoercedField(x, fields, props, AsNull, 0);
    PassAgain(x, n + 1, w, props[j].value);
    PassAgain(x, n, w, props[j].value);
    var f := Completed(x, fields, props);
    hide Pass, Coerce, IndexOf, NamesDistinct, NullsFor;
    assert f[0] == CoerceFields(x, fields, props, AsNull)[0];
    hide CoerceFields, Completed;
    FieldsDiffer(x, n + 1, n, f, props, 0, j);
  }

  // ---- The exact number of passes ----

  /** `n` passes reach a fixed point whatever the value if and only if `n` is at least the number the schema needs. */
  lemma PassesAreExact(x: Lexer, s: Json, n: nat)
    requires WellFormed(s) && n >= 1
    ensures (forall v :: Coerce(x, Pass(x, n, v, s, AsNull), s, AsNull) == Pass(x, n, v, s, AsNull)) <==> n >= Needed(s)
  {
    hide Coerce, Pass, WellFormed, Needed;
    if n >= Needed(s) {
      forall v ensures Coerce(x, Pass(x, n, v, s, AsNull), s, AsNull) == Pass(x, n, v, s, AsNull) {
        NeededSettles(x, n, v, s);
        PassThenCoerce(x, n, v, s);
      }
    } else {
      var m: nat := n - 1;
      assert m + 1 == n && m + 2 == n + 1;
      var v := Unsettled(x, m, s);
      PassThenCoerce(x, n, v, s);
    }
  }

  /** A null grows exactly under the schemas that need passes for it. */
  lemma GrowsFromNull(s: Json)
    ensures Grows(s) <==> FromNull(s) > 0
    ensures !Grows(s) ==> Needed(s) == 1
  {
    hide PropsOf, Member, Deepest, KindOf;
  }

  /** One pass is all that is needed exactly for the schemas that settle. */
  lemma {:induction false} SettlesNeedsOne(s: Json)
    ensures Settles(s) <==> Needed(s) == 1
  {
    if s.Obj? && KindOf(s) == ObjectKind {
      var props := PropsOf(s);
      ObjectNeeds(s);
      hide PropsOf, KindOf, Needed, FromNull, Grows, Deepest, NullNeeds;
      if Needed(s) == 1 {
        forall i | 0 <= i < |props| ensures !Grows(props[i].value) {
          ChildNeeded(s, i);
          GrowsFromNull(props[i].value);
        }
      } else {
        NoDepth();
        var j := DeepestAttained(PropNeeds(props));
        GrowsFromNull(props[j].value);
      }
    } else if s.Obj? && KindOf(s) == ArrayKind && Member(s, "items").Some? {
      SettlesNeedsOne(Member(s, "items").value);
      hide KindOf, Member;
    }
  }

  /**
   Under `AsNull` coercion is idempotent on every value if and only if the schema settles: going through arrays, no
   object schema declares a property whose own schema is an object or an array.
   */
  lemma IdempotentIffSettles(x: Lexer, s: Json)
    requires WellFormed(s)
    ensures (forall v :: Coerce(x, Coerce(x, v, s, AsNull), s, AsNull) == Coerce(x, v, s, AsNull)) <==> Settles(s)
  {
    hide Coerce, Pass, Settles, Needed, WellFormed;
    SettlesNeedsOne(s);
    NeededIsPositive(s);
    OnePass(x, s);
    if Settles(s) {
      PassesAreExact(x, s, 1);
      forall v ensures Coerce(x, Coerce(x, v, s, AsNull), s, AsNull) == Coerce(x, v, s, AsNull) {
        assert Coerce(x, Pass(x, 1, v, s, AsNull), s, AsNull) == Pass(x, 1, v, s, AsNull);
      }
    } else {
      var v := Unsettled(x, 0, s);
      PassThenCoerce(x, 1, v, s);
      assert Coerce(x, Coerce(x, v, s, AsNull), s, AsNull) != Coerce(x, v, s, AsNull);
    }
  }

  lemma OnePass(x: Lexer, s: Json)
    ensures forall v :: Pass(x, 1, v, s, AsNull) == Coerce(x, v, s, AsNull)
  {
    forall v ensures Pass(x, 1, v, s, AsNull) == Coerce(x, v, s, AsNull) {
      PassAgain(x, 0, v, s);
      PassNone(x, Coerce(x, v, s, AsNull), s);
      hide Coerce, Pass;
    }
    hide Coerce, Pass;
  }
}
