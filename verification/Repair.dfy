/** Coercion as it runs, when it leaves a value alone, and the repair pipeline around it. */
module Repair {
  import opened Prelude
  import opened SortedMap
  import opened Json
  import opened Validation
  import opened Coercion
  import CoercionLaws
  import Validator

  // ---- Values that already conform ----

  /** Every node names exactly one type, in the spelling the validator knows. */
  ghost predicate SimplyTyped(s: Json) {
    s.Obj? ==>
      && Member(s, "type").Some? && Member(s, "type").value.Str?
      && (KindOf(s) != OtherKind || Member(s, "type").value.s == "null")
      && (forall i :: 0 <= i < |PropsOf(s)| ==> SimplyTyped(PropsOf(s)[i].value))
      && (Member(s, "items").Some? ==> SimplyTyped(Member(s, "items").value))
  }

  /** Wherever the schema says integer, the value holds an integer rather than a whole float. */
  ghost predicate IntegersHeld(v: Json, s: Json)
    decreases s
  {
    s.Obj? ==>
      && (KindOf(s) == IntegerKind && v.Num? ==> v.n.Int?)
      && (KindOf(s) == ObjectKind && v.Obj? ==>
            forall i :: 0 <= i < |v.fields| && Has(PropsOf(s), v.fields[i].key) ==>
              IntegersHeld(v.fields[i].value, PropsOf(s)[IndexOf(PropsOf(s), v.fields[i].key)].value))
      && (KindOf(s) == ArrayKind && v.Arr? && Member(s, "items").Some? ==>
            forall i :: 0 <= i < |v.items| ==> IntegersHeld(v.items[i], Member(s, "items").value))
  }

  lemma NoNulls(fields: Fields, props: Fields, mode: Missing)
    requires mode != AsNull
    ensures NullsFor(fields, props, mode) == []
  {
  }

  /** A conforming value under a single type name is of that type. */
  lemma ConformingKind(v: Json, s: Json)
    requires s.Obj? && Conforms(v, s) && SimplyTyped(s)
    ensures KindOf(s) == ObjectKind ==> v.Obj?
    ensures KindOf(s) == ArrayKind ==> v.Arr?
    ensures KindOf(s) == NumberKind || KindOf(s) == IntegerKind ==> v.Num?
    ensures KindOf(s) == StringKind ==> v.Str?
    ensures KindOf(s) == BooleanKind ==> v.Bool?
  {
    hide EnumAllows, FieldsConform, AboveMin, BelowMax, LongEnough, ShortEnough, PropsOf;
    assert TypeMatches(s, v);
  }

  lemma {:induction false} ConformingUnchanged(x: Lexer, v: Json, s: Json, mode: Missing)
    requires mode != AsNull && WellFormed(v) && WellFormed(s) && SimplyTyped(s) && Conforms(v, s)
    ensures Coerce(x, v, s, mode) == v <==> IntegersHeld(v, s)
    decreases s, 1
  {
    if s.Obj? {
      ConformingKind(v, s);
      if KindOf(s) == ObjectKind {
        ConformingObject(x, v, s, mode);
      } else if KindOf(s) == ArrayKind {
        ConformingArray(x, v, s, mode);
      } else {
        CoerceScalar(x, v, s, mode);
        hide Coerce, KindOf, Member, Conforms, SimplyTyped;
      }
    }
  }

  /** The schema of a declared field accepts the field's value. */
  lemma FieldConforms(v: Json, s: Json, i: nat)
    requires WellFormed(v) && WellFormed(s) && s.Obj? && v.Obj? && Conforms(v, s)
    requires i < |v.fields| && Has(PropsOf(s), v.fields[i].key)
    ensures
      var p := PropsOf(s)[IndexOf(PropsOf(s), v.fields[i].key)].value;
      Conforms(v.fields[i].value, p) && WellFormed(p)
  {
    var props := PropsOf(s);
    var j := IndexOf(props, v.fields[i].key);
    assert FieldsConform(v.fields, s) by { hide TypeMatches, EnumAllows, PropsOf, FieldsConform; }
    IndexOfField(v.fields, i);
    assert PropertyFields(s).Some?;
    MemberWellFormed(s, "properties");
    hide Member, TypeMatches, EnumAllows, RequiredNames, Closed, Present;
    assert Conforms(Get(v.fields, props[j].key).value, props[j].value);
  }

  lemma {:induction false} ConformingObject(x: Lexer, v: Json, s: Json, mode: Missing)
    requires mode != AsNull && WellFormed(v) && WellFormed(s) && SimplyTyped(s) && Conforms(v, s)
    requires s.Obj? && KindOf(s) == ObjectKind && v.Obj?
    ensures Coerce(x, v, s, mode) == v <==> IntegersHeld(v, s)
    decreases s, 0
  {
    var props, fields := PropsOf(s), v.fields;
    var c := CoerceFields(x, fields, props, mode);
    CoerceObject(x, v, s, mode);
    NoNulls(fields, props, mode);
    forall i | 0 <= i < |fields|
      ensures c[i] == fields[i] <==>
        (Has(props, fields[i].key) ==> IntegersHeld(fields[i].value, props[IndexOf(props, fields[i].key)].value))
    {
      CoercedField(x, fields, props, mode, i);
      if Has(props, fields[i].key) {
        FieldConforms(v, s, i);
        PropSimplyTyped(s, IndexOf(props, fields[i].key));
        hide Coerce, CoerceFields, Conforms, KindOf, PropsOf, SimplyTyped, NullsFor;
        ConformingUnchanged(x, fields[i].value, props[IndexOf(props, fields[i].key)].value, mode);
      }
    }
    hide Coerce, CoerceFields, Conforms, PropsOf, SimplyTyped, NullsFor, WellFormed, Has, IndexOf, Member;
    assert c == fields <==> forall i :: 0 <= i < |fields| ==> c[i] == fields[i];
  }

  lemma PropSimplyTyped(s: Json, j: nat)
    requires s.Obj? && SimplyTyped(s) && j < |PropsOf(s)|
    ensures SimplyTyped(PropsOf(s)[j].value)
  {
    hide KindOf, Member, PropsOf;
  }

  lemma {:induction false} ConformingArray(x: Lexer, v: Json, s: Json, mode: Missing)
    requires mode != AsNull && WellFormed(v) && WellFormed(s) && SimplyTyped(s) && Conforms(v, s)
    requires s.Obj? && KindOf(s) == ArrayKind && v.Arr?
    ensures Coerce(x, v, s, mode) == v <==> IntegersHeld(v, s)
    decreases s, 0
  {
    var sub := Member(s, "items");
    CoerceArray(x, v, s, mode);
    if sub.Some? {
      MemberWellFormed(s, "items");
      assert SimplyTyped(sub.value) by { hide KindOf, PropsOf, Conforms; }
      forall i | 0 <= i < |v.items| ensures Conforms(v.items[i], sub.value) {
        hide TypeMatches, EnumAllows, FieldsConform, KindOf, PropsOf;
      }
      var c := CoerceItems(x, v.items, sub.value, mode);
      forall i | 0 <= i < |v.items| ensures c[i] == v.items[i] <==> IntegersHeld(v.items[i], sub.value) {
        ConformingUnchanged(x, v.items[i], sub.value, mode);
      }
      hide Coerce, Conforms, PropsOf, SimplyTyped, WellFormed, CoerceItems;
      assert c == v.items <==> forall i :: 0 <= i < |v.items| ==> c[i] == v.items[i];
    }
  }

  // ---- Coercion as it runs ----

  /** The map after the first `n` declared properties have been dealt with. */
  function Partial(x: Lexer, fields: Fields, props: Fields, n: nat, mode: Missing): Fields
    requires n <= |props|
  {
    CoerceFields(x, fields, props[..n], mode) + NullsFor(fields, props[..n], mode)
  }

  lemma {:induction false} IndexInPrefix(props: Fields, n: nat, name: string)
    requires n <= |props|
    ensures IndexOf(props[..n], name) == Min(IndexOf(props, name), n)
  {
    if n > 0 && props[0].key != name {
      assert props[..n][1..] == props[1..][..n - 1];
      IndexInPrefix(props[1..], n - 1, name);
    }
  }

  lemma {:induction false} NullNames(fields: Fields, props: Fields, mode: Missing)
    ensures forall e <- NullsFor(fields, props, mode) ::
      !Has(fields, e.key) && exists j :: 0 <= j < |props| && props[j].key == e.key
  {
    if props != [] && mode == AsNull {
      var n := |props| - 1;
      NullNames(fields, props[..n], mode);
      assert forall j :: 0 <= j < n ==> props[..n][j] == props[j];
      hide Has;
    }
  }

  lemma {:induction false} IndexInConcat(a: Fields, b: Fields, name: string)
    ensures IndexOf(a + b, name) == if Has(a, name) then IndexOf(a, name) else |a| + IndexOf(b, name)
  {
    if a == [] {
      assert a + b == b;
    } else if a[0].key != name {
      assert (a + b)[1..] == a[1..] + b;
      IndexInConcat(a[1..], b, name);
    }
  }

  /** Where the next declared property is in the map so far: where it was in the value, or nowhere. */
  lemma NextPropertyIndex(x: Lexer, fields: Fields, props: Fields, n: nat, mode: Missing)
    requires NamesDistinct(props) && n < |props|
    ensures var m, k := Partial(x, fields, props, n, mode), IndexOf(fields, props[n].key);
      if k < |fields| then IndexOf(m, props[n].key) == k && m[k] == fields[k] else IndexOf(m, props[n].key) == |m|
  {
    var c, nulls := CoerceFields(x, fields, props[..n], mode), NullsFor(fields, props[..n], mode);
    var name := props[n].key;
    hide Coerce, CoerceFields, NullsFor, IndexOf, NamesDistinct;
    NullNames(fields, props[..n], mode);
    assert forall j :: 0 <= j < n ==> props[..n][j] == props[j];
    SameNamesAsCoerced(x, fields, props[..n], mode, name);
    IndexInConcat(c, nulls, name);
    var k := IndexOf(fields, name);
    if k < |fields| {
      IndexInPrefix(props, n, name);
      IndexOfField(props, n);
      CoercedField(x, fields, props[..n], mode, k);
    }
  }

  lemma {:induction false} SameIndex(a: Fields, b: Fields, name: string)
    requires |a| == |b| && forall i :: 0 <= i < |a| ==> a[i].key == b[i].key
    ensures IndexOf(a, name) == IndexOf(b, name)
  {
    if a != [] { SameIndex(a[1..], b[1..], name); }
  }

  lemma SameNamesAsCoerced(x: Lexer, fields: Fields, props: Fields, mode: Missing, name: string)
    ensures IndexOf(CoerceFields(x, fields, props, mode), name) == IndexOf(fields, name)
  {
    SameIndex(CoerceFields(x, fields, props, mode), fields, name);
  }

  /** Dealing with one more property changes only its own field, or adds a null for it. */
  lemma NextPartial(x: Lexer, fields: Fields, props: Fields, n: nat, mode: Missing)
    requires NamesDistinct(props) && NamesDistinct(fields) && n < |props|
    ensures var m, p, k := Partial(x, fields, props, n, mode), props[n], IndexOf(fields, props[n].key);
      Partial(x, fields, props, n + 1, mode)
      == if k < |fields| then m[k := Entry(p.key, Coerce(x, fields[k].value, p.value, mode))]
         else if mode == AsNull then m + [Entry(p.key, Null)]
         else m
  {
    NextFields(x, fields, props, n, mode);
    NextNulls(fields, props, n, mode);
    var c, c' := CoerceFields(x, fields, props[..n], mode), CoerceFields(x, fields, props[..n + 1], mode);
    var k := IndexOf(fields, props[n].key);
    hide Coerce, CoerceFields, NullsFor, IndexOf, NamesDistinct;
    var nulls, nulls' := NullsFor(fields, props[..n], mode), NullsFor(fields, props[..n + 1], mode);
    if k < |fields| {
      ConcatUpdate(c, nulls, k, Entry(props[n].key, Coerce(x, fields[k].value, props[n].value, mode)));
      assert nulls' == nulls;
    } else {
      assert c' + nulls' == c + nulls + if mode == AsNull then [Entry(props[n].key, Null)] else [];
    }
  }

  lemma ConcatUpdate(a: Fields, b: Fields, k: nat, e: Entry<Json>)
    requires k < |a|
    ensures (a + b)[k := e] == a[k := e] + b
  {
  }

  lemma NextFields(x: Lexer, fields: Fields, props: Fields, n: nat, mode: Missing)
    requires NamesDistinct(props) && NamesDistinct(fields) && n < |props|
    ensures var c, k := CoerceFields(x, fields, props[..n], mode), IndexOf(fields, props[n].key);
      CoerceFields(x, fields, props[..n + 1], mode)
      == if k < |fields| then c[k := Entry(props[n].key, Coerce(x, fields[k].value, props[n].value, mode))] else c
  {
    var c, c' := CoerceFields(x, fields, props[..n], mode), CoerceFields(x, fields, props[..n + 1], mode);
    var p, k := props[n], IndexOf(fields, props[n].key);
    forall i | 0 <= i < |fields|
      ensures c'[i] == if i == k then Entry(p.key, Coerce(x, fields[k].value, p.value, mode)) else c[i]
    {
      if i == k {
        NextFieldHere(x, fields, props, n, mode, i);
      } else {
        NextFieldElsewhere(x, fields, props, n, mode, i);
      }
    }
    hide Coerce, CoerceFields, NullsFor, IndexOf, NamesDistinct;
  }

  lemma NextNulls(fields: Fields, props: Fields, n: nat, mode: Missing)
    requires n < |props|
    ensures NullsFor(fields, props[..n + 1], mode)
         == NullsFor(fields, props[..n], mode)
            + if mode == AsNull && !Has(fields, props[n].key) then [Entry(props[n].key, Null)] else []
  {
    assert props[..n + 1][..n] == props[..n];
  }

  /** The property that is next coerces the field of its name, which no earlier property has touched. */
  lemma NextFieldHere(x: Lexer, fields: Fields, props: Fields, n: nat, mode: Missing, i: nat)
    requires NamesDistinct(props) && NamesDistinct(fields) && n < |props| && i < |fields|
    requires i == IndexOf(fields, props[n].key)
    ensures CoerceFields(x, fields, props[..n + 1], mode)[i]
         == Entry(props[n].key, Coerce(x, fields[i].value, props[n].value, mode))
  {
    CoercedField(x, fields, props[..n + 1], mode, i);
    IndexInPrefix(props, n + 1, fields[i].key);
    IndexOfField(fields, i);
    IndexOfField(props, n);
    hide Coerce, CoerceFields, NamesDistinct;
  }

  lemma NextFieldElsewhere(x: Lexer, fields: Fields, props: Fields, n: nat, mode: Missing, i: nat)
    requires NamesDistinct(fields) && n < |props| && i < |fields| && i != IndexOf(fields, props[n].key)
    ensures CoerceFields(x, fields, props[..n + 1], mode)[i] == CoerceFields(x, fields, props[..n], mode)[i]
  {
    CoercedField(x, fields, props[..n + 1], mode, i);
    CoercedField(x, fields, props[..n], mode, i);
    IndexInPrefix(props, n + 1, fields[i].key);
    IndexInPrefix(props, n, fields[i].key);
    IndexOfField(fields, i);
    hide Coerce, CoerceFields, NamesDistinct;
  }

  /** Walks over the declared properties, updating a copy of the map in place. */
  method CoerceProperties(x: Lexer, fields: Fields, props: Fields, mode: Missing) returns (m: Fields)
    requires NamesDistinct(fields) && NamesDistinct(props)
    requires forall i :: 0 <= i < |fields| ==> WellFormed(fields[i].value)
    requires forall i :: 0 <= i < |props| ==> WellFormed(props[i].value)
    ensures m == CoerceFields(x, fields, props, mode) + NullsFor(fields, props, mode)
    decreases props, 0
  {
    hide Coerce, CoerceFields, NullsFor, WellFormed;
    m := fields;
    NoProperties(x, fields, props, mode);
    for n := 0 to |props|
      invariant m == Partial(x, fields, props, n, mode)
    {
      NextPropertyIndex(x, fields, props, n, mode);
      NextPartial(x, fields, props, n, mode);
      hide Partial;
      var k := IndexOf(m, props[n].key);
      if k < |m| {
        var child := DeterministicCoerce(x, m[k].value, props[n].value, mode);
        m := m[k := Entry(props[n].key, child)];
      } else if mode == AsNull {
        m := m + [Entry(props[n].key, Null)];
      }
    }
    assert props[..|props|] == props;
  }

  lemma NoProperties(x: Lexer, fields: Fields, props: Fields, mode: Missing)
    ensures Partial(x, fields, props, 0, mode) == fields
  {
    assert CoerceFields(x, fields, props[..0], mode) == fields;
  }

  method CoerceItemsInOrder(x: Lexer, items: seq<Json>, sub: Json, mode: Missing) returns (r: seq<Json>)
    requires WellFormed(sub) && forall i :: 0 <= i < |items| ==> WellFormed(items[i])
    ensures r == CoerceItems(x, items, sub, mode)
    decreases sub, 2
  {
    hide Coerce, WellFormed;
    r := [];
    for i := 0 to |items|
      invariant r == CoerceItems(x, items, sub, mode)[..i]
    {
      var item := DeterministicCoerce(x, items[i], sub, mode);
      r := r + [item];
    }
  }

  /** Computes the coercion of a value that serde_json could hold, which is the one result that the relation allows. */
  method DeterministicCoerce(x: Lexer, v: Json, s: Json, mode: Missing) returns (r: Json)
    requires WellFormed(v) && WellFormed(s)
    ensures r == Coerce(x, v, s, mode) && CoercionLaws.Coerced(x, v, s, mode, r)
    decreases s, 1
  {
    CoercionLaws.CoerceIsCoerced(x, v, s, mode);
    hide CoercionLaws.Coerced;
    if !s.Obj? {
      return v;
    }
    match KindOf(s)
    case ObjectKind =>
      var props := PropertyFields(s);
      if props.None? {
        return Obj(FieldsOf(v));
      }
      MemberWellFormed(s, "properties");
      var fields := CoerceProperties(x, FieldsOf(v), props.value, mode);
      return Obj(fields);
    case ArrayKind =>
      CoerceArray(x, v, s, mode);
      var sub := Member(s, "items");
      if sub.None? {
        return Arr(ItemsOf(v));
      }
      MemberWellFormed(s, "items");
      var items := CoerceItemsInOrder(x, ItemsOf(v), sub.value, mode);
      return Arr(items);
    case kind =>
      return ToScalar(x, v, kind);
  }

  // ---- The pipeline ----

  /** A provider answered with JSON, and a repair is permitted. */
  predicate Repaired(provider: Option<Option<Json>>, maxRepairAttempts: nat) {
    maxRepairAttempts > 0 && provider.Some? && provider.value.Some?
  }

  /**
   Coerces and validates; if that fails and a repair is permitted, asks once for a repaired value and tries again.
   `answer` is what the provider returns: no provider, a failed call, or some JSON. The problems reported are those of
   the value tried last.
   */
  method RepairAndValidate(x: Lexer, raw: Json, s: Json, mode: Missing, provider: Option<Option<Json>>,
      maxRepairAttempts: nat)
      returns (r: Result<(Json, bool), seq<Problem>>)
    requires WellFormed(raw) && WellFormed(s)
    requires provider.Some? && provider.value.Some? ==> WellFormed(provider.value.value)
    ensures r.Ok? ==> Conforms(r.value.0, s)
    ensures r.Ok? && r.value.1 ==> Repaired(provider, maxRepairAttempts)
    ensures r.Ok? ==>
      CoercionLaws.Coerced(x, if r.value.1 then provider.value.value else raw, s, mode, r.value.0)
    ensures r.Ok? && !r.value.1 ==> r.value.0 == Coerce(x, raw, s, mode)
    ensures r.Ok? && r.value.1 ==>
      (Repaired(provider, maxRepairAttempts)
       && r.value.0 == Coerce(x, provider.value.value, s, mode) && !Conforms(Coerce(x, raw, s, mode), s))
    ensures r.Ok? <==>
      (Conforms(Coerce(x, raw, s, mode), s)
       || (Repaired(provider, maxRepairAttempts) && Conforms(Coerce(x, provider.value.value, s, mode), s)))
    ensures r.Err? ==>
      var last := if Repaired(provider, maxRepairAttempts) then provider.value.value else raw;
      r.error == Problems(Coerce(x, last, s, mode), s, []) != []
  {
    hide Coerce, Conforms, WellFormed, Problems, CoercionLaws.Coerced;
    var coerced := DeterministicCoerce(x, raw, s, mode);
    var first := Validator.Validate(coerced, s);
    if first.Ok? {
      return Ok((coerced, false));
    }
    if Repaired(provider, maxRepairAttempts) {
      coerced := DeterministicCoerce(x, provider.value.value, s, mode);
      var second := Validator.Validate(coerced, s);
      if second.Ok? {
        return Ok((coerced, true));
      }
    }
    var last := Validator.Validate(coerced, s);
    match last
    case Ok(_) => return Ok((coerced, false));
    case Err(problems) => return Err(problems);
  }
}
