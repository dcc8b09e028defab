/**
 Repeated coercion. A missing property filled in as null may itself be expanded by the next pass, so under `AsNull`
 one pass need not be enough; one pass more than the nesting depth of `properties` always is, and no fewer will do.
 */
module CoercionPasses {
  import opened Prelude
  import opened SortedMap
  import opened Json
  import opened Validation
  import opened Coercion

  /** The value after `n` coercions. */
  function Pass(x: Lexer, n: nat, v: Json, s: Json, mode: Missing): Json {
    if n == 0 then v else Pass(x, n - 1, Coerce(x, v, s, mode), s, mode)
  }

  function Deepest(xs: seq<nat>): nat {
    if xs == [] then 0 else Max(Deepest(xs[..|xs| - 1]), xs[|xs| - 1])
  }

  /** How deeply `properties` nest in the part of a schema that coercion follows. */
  function PropDepth(s: Json): nat {
    if !s.Obj? then 0
    else match KindOf(s)
      case ObjectKind =>
        var props := PropsOf(s);
        Deepest(seq(|props|, i requires 0 <= i < |props| => 1 + PropDepth(props[i].value)))
      case ArrayKind =>
        var sub := Member(s, "items");
        if sub.Some? then PropDepth(sub.value) else 0
      case _ => 0
  }

  lemma {:induction false} DeepestIsBound(xs: seq<nat>, i: nat)
    requires i < |xs|
    ensures xs[i] <= Deepest(xs)
  {
    if i < |xs| - 1 { DeepestIsBound(xs[..|xs| - 1], i); }
  }

  lemma ChildDepth(s: Json, i: nat)
    requires s.Obj? && KindOf(s) == ObjectKind && i < |PropsOf(s)|
    ensures PropDepth(PropsOf(s)[i].value) < PropDepth(s)
  {
    var props := PropsOf(s);
    var depths := seq(|props|, i requires 0 <= i < |props| => 1 + PropDepth(props[i].value));
    DeepestIsBound(depths, i);
    assert depths[i] == 1 + PropDepth(props[i].value);
    assert PropDepth(s) == Deepest(depths) by { hide PropsOf, KindOf, Deepest; }
  }

  // ---- Objects that already have every declared property ----

  ghost predicate Complete(fields: Fields, props: Fields) {
    forall j :: 0 <= j < |props| ==> Has(fields, props[j].key)
  }

  lemma {:induction false} NothingToAdd(fields: Fields, props: Fields, mode: Missing)
    requires Complete(fields, props)
    ensures NullsFor(fields, props, mode) == []
  {
    hide Has;
    if props != [] && mode == AsNull {
      NothingToAdd(fields, props[..|props| - 1], mode);
      assert Has(fields, props[|props| - 1].key);
    }
  }

  lemma {:induction false} SameNames(a: Fields, b: Fields, name: string)
    requires |a| == |b| && forall i :: 0 <= i < |a| ==> a[i].key == b[i].key
    ensures IndexOf(a, name) == IndexOf(b, name)
  {
    if a != [] { SameNames(a[1..], b[1..], name); }
  }

  lemma CoercedStaysComplete(x: Lexer, fields: Fields, props: Fields, mode: Missing)
    requires Complete(fields, props)
    ensures Complete(CoerceFields(x, fields, props, mode), props)
  {
    var c := CoerceFields(x, fields, props, mode);
    forall j | 0 <= j < |props| ensures Has(c, props[j].key) { SameNames(c, fields, props[j].key); }
  }

  /** Each field after `n` passes, coerced by itself. */
  function PassFields(x: Lexer, n: nat, fields: Fields, props: Fields, mode: Missing): (r: Fields)
    ensures |r| == |fields|
  {
    seq(|fields|, i requires 0 <= i < |fields| => PassField(x, n, fields[i], props, mode))
  }

  function PassField(x: Lexer, n: nat, f: Entry<Json>, props: Fields, mode: Missing): Entry<Json> {
    var j := IndexOf(props, f.key);
    if j < |props| then Entry(f.key, Pass(x, n, f.value, props[j].value, mode)) else f
  }

  lemma PassFieldStep(x: Lexer, n: nat, fields: Fields, props: Fields, mode: Missing)
    ensures PassFields(x, n, CoerceFields(x, fields, props, mode), props, mode)
         == PassFields(x, n + 1, fields, props, mode)
  {
    var c := CoerceFields(x, fields, props, mode);
    forall i | 0 <= i < |fields|
      ensures PassField(x, n, c[i], props, mode) == PassField(x, n + 1, fields[i], props, mode)
    {
      CoercedField(x, fields, props, mode, i);
      hide CoerceFields, Coerce;
    }
    hide PassField, CoerceFields;
  }

  lemma {:induction false} PassComplete(x: Lexer, n: nat, fields: Fields, s: Json, mode: Missing)
    requires s.Obj? && KindOf(s) == ObjectKind && Complete(fields, PropsOf(s))
    ensures Pass(x, n, Obj(fields), s, mode) == Obj(PassFields(x, n, fields, PropsOf(s), mode))
  {
    hide CoerceFields, KindOf, PropsOf, Complete, Coerce;
    var props := PropsOf(s);
    if n == 0 {
      assert PassFields(x, 0, fields, props, mode) == fields;
    } else {
      hide PassFields;
      var c := CoerceFields(x, fields, props, mode);
      CoerceObject(x, Obj(fields), s, mode);
      NothingToAdd(fields, props, mode);
      assert Coerce(x, Obj(fields), s, mode) == Obj(c);
      CoercedStaysComplete(x, fields, props, mode);
      PassComplete(x, n - 1, c, s, mode);
      PassFieldStep(x, n - 1, fields, props, mode);
    }
  }

  lemma {:induction false} NullsAreThere(fields: Fields, props: Fields, j: nat)
    requires j < |props|
    ensures Has(fields + NullsFor(fields, props, AsNull), props[j].key)
  {
    var n := |props| - 1;
    var front := NullsFor(fields, props[..n], AsNull);
    var extra := if Has(fields, props[n].key) then [] else [Entry(props[n].key, Null)];
    assert fields + NullsFor(fields, props, AsNull) == fields + front + extra;
    if j < n {
      NullsAreThere(fields, props[..n], j);
      HasInLonger(fields + front, extra, props[j].key);
    } else if Has(fields, props[n].key) {
      HasInLonger(fields, front + extra, props[n].key);
      assert fields + front + extra == fields + (front + extra);
    } else {
      HasLast(fields + front, extra[0]);
    }
  }

  lemma {:induction false} HasInLonger(a: Fields, b: Fields, name: string)
    requires Has(a, name)
    ensures Has(a + b, name)
  {
    if a[0].key != name {
      assert (a + b)[1..] == a[1..] + b;
      HasInLonger(a[1..], b, name);
    }
  }

  lemma {:induction false} HasLast(a: Fields, f: Entry<Json>)
    ensures Has(a + [f], f.key)
  {
    if a != [] && a[0].key != f.key {
      assert (a + [f])[1..] == a[1..] + [f];
      HasLast(a[1..], f);
    }
  }

  /** After one pass under `AsNull`, every declared property is there. */
  lemma OnePassCompletes(x: Lexer, fields: Fields, props: Fields)
    ensures Complete(CoerceFields(x, fields, props, AsNull) + NullsFor(fields, props, AsNull), props)
  {
    var c, nulls := CoerceFields(x, fields, props, AsNull), NullsFor(fields, props, AsNull);
    hide CoerceFields, NullsFor;
    forall j | 0 <= j < |props| ensures Has(c + nulls, props[j].key) {
      NullsAreThere(fields, props, j);
      SameNames(c + nulls, fields + nulls, props[j].key);
    }
  }

  // ---- Enough passes ----

  /** More than `PropDepth` passes reach a value that coercion no longer changes. */
  lemma {:induction false} PassesSettle(x: Lexer, n: nat, v: Json, s: Json)
    requires n > PropDepth(s)
    ensures Pass(x, n + 1, v, s, AsNull) == Pass(x, n, v, s, AsNull)
    decreases s, 2
  {
    if !s.Obj? {
      PassNonSchema(x, n, v, s);
      PassNonSchema(x, n + 1, v, s);
    } else if KindOf(s) == ObjectKind {
      ObjectSettles(x, n, v, s);
    } else if KindOf(s) == ArrayKind {
      ArraySettles(x, n, v, s);
    } else {
      ScalarSettles(x, n, v, s);
      ScalarSettles(x, n + 1, v, s);
    }
  }

  lemma {:induction false} PassNonSchema(x: Lexer, n: nat, v: Json, s: Json)
    requires !s.Obj?
    ensures Pass(x, n, v, s, AsNull) == v
  {
    if n > 0 { PassNonSchema(x, n - 1, v, s); }
  }

  lemma {:induction false} ScalarSettles(x: Lexer, n: nat, v: Json, s: Json)
    requires s.Obj? && KindOf(s) != ObjectKind && KindOf(s) != ArrayKind && n > 0
    ensures Pass(x, n, v, s, AsNull) == ToScalar(x, v, KindOf(s))
  {
    hide ToScalar, KindOf, Coerce;
    var v' := ToScalar(x, v, KindOf(s));
    CoerceScalar(x, v, s, AsNull);
    if n > 1 {
      ScalarSettles(x, n - 1, v', s);
      ScalarIdempotent(x, v, KindOf(s));
    }
  }

  lemma SettledFields(x: Lexer, n: nat, fields: Fields, props: Fields)
    requires forall i :: 0 <= i < |fields| && IndexOf(props, fields[i].key) < |props| ==>
      Pass(x, n + 1, fields[i].value, props[IndexOf(props, fields[i].key)].value, AsNull)
      == Pass(x, n, fields[i].value, props[IndexOf(props, fields[i].key)].value, AsNull)
    ensures PassFields(x, n + 1, fields, props, AsNull) == PassFields(x, n, fields, props, AsNull)
  {
    hide Pass;
    forall i | 0 <= i < |fields|
      ensures PassField(x, n + 1, fields[i], props, AsNull) == PassField(x, n, fields[i], props, AsNull)
    {
    }
    hide PassField;
  }

  lemma {:induction false} ChildrenSettle(x: Lexer, n: nat, s: Json, fields: Fields)
    requires s.Obj? && KindOf(s) == ObjectKind && n >= PropDepth(s)
    ensures PassFields(x, n + 1, fields, PropsOf(s), AsNull) == PassFields(x, n, fields, PropsOf(s), AsNull)
    decreases s, 0
  {
    var props := PropsOf(s);
    forall i | 0 <= i < |fields| && IndexOf(props, fields[i].key) < |props|
      ensures Pass(x, n + 1, fields[i].value, props[IndexOf(props, fields[i].key)].value, AsNull)
           == Pass(x, n, fields[i].value, props[IndexOf(props, fields[i].key)].value, AsNull)
    {
      hide Pass, Coerce;
      var j := IndexOf(props, fields[i].key);
      ChildDepth(s, j);
      PassesSettle(x, n, fields[i].value, props[j].value);
    }
    hide Pass, PropDepth, KindOf, PropsOf, IndexOf, PassFields;
    SettledFields(x, n, fields, props);
  }

  lemma {:induction false} ObjectSettles(x: Lexer, n: nat, v: Json, s: Json)
    requires s.Obj? && KindOf(s) == ObjectKind && n > PropDepth(s)
    ensures Pass(x, n + 1, v, s, AsNull) == Pass(x, n, v, s, AsNull)
    decreases s, 1
  {
    hide *;
    var props := PropsOf(s);
    var f1 := CoerceFields(x, FieldsOf(v), props, AsNull) + NullsFor(FieldsOf(v), props, AsNull);
    CompletedOnce(x, v, s, n);
    CompletedOnce(x, v, s, n - 1);
    ChildrenSettle(x, n - 1, s, f1);
  }

  /** From the second pass on, an object is coerced field by field. */
  lemma CompletedOnce(x: Lexer, v: Json, s: Json, n: nat)
    requires s.Obj? && KindOf(s) == ObjectKind
    ensures var props := PropsOf(s);
      var f1 := CoerceFields(x, FieldsOf(v), props, AsNull) + NullsFor(FieldsOf(v), props, AsNull);
      Pass(x, n + 1, v, s, AsNull) == Obj(PassFields(x, n, f1, props, AsNull))
  {
    CoerceObject(x, v, s, AsNull);
    OnePassCompletes(x, FieldsOf(v), PropsOf(s));
    hide CoerceFields, NullsFor, KindOf, PropsOf, Coerce, Complete, FieldsOf, PassFields;
    var props := PropsOf(s);
    var f1 := CoerceFields(x, FieldsOf(v), props, AsNull) + NullsFor(FieldsOf(v), props, AsNull);
    PassComplete(x, n, f1, s, AsNull);
  }

  function PassItems(x: Lexer, n: nat, items: seq<Json>, sub: Json): (r: seq<Json>)
    ensures |r| == |items|
  {
    seq(|items|, i requires 0 <= i < |items| => Pass(x, n, items[i], sub, AsNull))
  }

  lemma {:induction false} PassArray(x: Lexer, n: nat, items: seq<Json>, s: Json)
    requires s.Obj? && KindOf(s) == ArrayKind && Member(s, "items").Some?
    ensures Pass(x, n, Arr(items), s, AsNull) == Arr(PassItems(x, n, items, Member(s, "items").value))
  {
    var sub := Member(s, "items").value;
    hide KindOf, Coerce, Member;
    if n == 0 {
      assert PassItems(x, 0, items, sub) == items;
    } else {
      CoerceArray(x, Arr(items), s, AsNull);
      var once := CoerceItems(x, items, sub, AsNull);
      PassArray(x, n - 1, once, s);
      assert PassItems(x, n - 1, once, sub) == PassItems(x, n, items, sub);
    }
  }

  lemma {:induction false} PassBareArray(x: Lexer, n: nat, items: seq<Json>, s: Json)
    requires s.Obj? && KindOf(s) == ArrayKind && Member(s, "items").None?
    ensures Pass(x, n, Arr(items), s, AsNull) == Arr(items)
  {
    hide KindOf, Coerce, Member;
    if n > 0 {
      CoerceArray(x, Arr(items), s, AsNull);
      PassBareArray(x, n - 1, items, s);
    }
  }

  lemma {:induction false} ArraySettles(x: Lexer, n: nat, v: Json, s: Json)
    requires s.Obj? && KindOf(s) == ArrayKind && n > PropDepth(s)
    ensures Pass(x, n + 1, v, s, AsNull) == Pass(x, n, v, s, AsNull)
    decreases s, 0
  {
    var items, sub := ItemsOf(v), Member(s, "items");
    CoerceArray(x, v, s, AsNull);
    assert Pass(x, n + 1, v, s, AsNull) == Pass(x, n, Coerce(x, v, s, AsNull), s, AsNull);
    assert Pass(x, n, v, s, AsNull) == Pass(x, n - 1, Coerce(x, v, s, AsNull), s, AsNull);
    if sub.None? {
      PassBareArray(x, n, items, s);
      PassBareArray(x, n - 1, items, s);
    } else {
      var once := CoerceItems(x, items, sub.value, AsNull);
      PassArray(x, n, once, s);
      PassArray(x, n - 1, once, s);
      forall i | 0 <= i < |items|
        ensures Pass(x, n, once[i], sub.value, AsNull) == Pass(x, n - 1, once[i], sub.value, AsNull)
      {
        PassesSettle(x, n, items[i], sub.value);
      }
      hide Pass, Coerce, KindOf, Member, CoerceItems;
      assert PassItems(x, n, once, sub.value) == PassItems(x, n - 1, once, sub.value);
    }
  }

  /** After `PropDepth + 1` passes a further coercion changes nothing, for every value and every schema. */
  lemma FixedPointReached(x: Lexer, v: Json, s: Json)
    ensures var settled := Pass(x, PropDepth(s) + 1, v, s, AsNull);
      Coerce(x, settled, s, AsNull) == settled
  {
    hide *;
    PassesSettle(x, PropDepth(s) + 1, v, s);
    PassThenCoerce(x, PropDepth(s) + 1, v, s);
  }

  lemma {:induction false} PassThenCoerce(x: Lexer, n: nat, v: Json, s: Json)
    ensures Pass(x, n + 1, v, s, AsNull) == Coerce(x, Pass(x, n, v, s, AsNull), s, AsNull)
  {
    hide Coerce;
    if n > 0 { PassThenCoerce(x, n - 1, Coerce(x, v, s, AsNull), s); }
  }

  // ---- No fewer passes ----

  /** Objects nested `d` deep around an array. */
  function Tower(d: nat): Json {
    if d == 0 then Obj([Entry("type", Str("array"))])
    else Obj([Entry("type", Str("object")), Entry("properties", Obj([Entry("p", Tower(d - 1))]))])
  }

  lemma TowerShape(d: nat)
    requires d > 0
    ensures Tower(d).Obj? && KindOf(Tower(d)) == ObjectKind && PropsOf(Tower(d)) == [Entry("p", Tower(d - 1))]
  {
    var s := Tower(d);
    assert s.fields[1..][0] == s.fields[1];
    assert IndexOf(s.fields, "type") == 0;
    assert IndexOf(s.fields, "properties") == 1 + IndexOf(s.fields[1..], "properties") == 1;
  }

  lemma TowerBase()
    ensures Tower(0).Obj? && KindOf(Tower(0)) == ArrayKind && Member(Tower(0), "items").None?
  {
    var s := Tower(0);
    assert s.fields[1..] == [];
    assert IndexOf(s.fields, "type") == 0;
    assert IndexOf(s.fields, "items") == 1 + IndexOf([], "items") == 1;
  }

  lemma DepthOfSingle(s: Json, name: string, sub: Json)
    requires s.Obj? && KindOf(s) == ObjectKind && PropsOf(s) == [Entry(name, sub)]
    ensures PropDepth(s) == 1 + PropDepth(sub)
  {
    var props := [Entry(name, sub)];
    var depths := seq(|props|, i requires 0 <= i < |props| => 1 + PropDepth(props[i].value));
    assert depths == [1 + PropDepth(sub)];
    assert Deepest(depths) == Max(Deepest(depths[..0]), 1 + PropDepth(sub));
    assert PropDepth(s) == Deepest(depths) by { hide Deepest, KindOf, PropsOf; }
  }

  lemma {:induction false} TowerDepth(d: nat)
    ensures PropDepth(Tower(d)) == d
  {
    if d == 0 {
      TowerBase();
      hide Tower, KindOf;
    } else {
      hide *;
      TowerDepth(d - 1);
      TowerShape(d);
      DepthOfSingle(Tower(d), "p", Tower(d - 1));
    }
  }

  lemma FillsOneNull(x: Lexer, s: Json, name: string, sub: Json)
    requires s.Obj? && KindOf(s) == ObjectKind && PropsOf(s) == [Entry(name, sub)]
    ensures Coerce(x, Null, s, AsNull) == Obj([Entry(name, Null)])
  {
    CoerceObject(x, Null, s, AsNull);
    hide KindOf, PropsOf, Coerce;
    var props := [Entry(name, sub)];
    assert CoerceFields(x, [], props, AsNull) == [];
    assert NullsFor([], props[..0], AsNull) == [];
    assert NullsFor([], props, AsNull) == [Entry(name, Null)];
    hide CoerceFields, NullsFor;
  }

  lemma PassOneField(x: Lexer, n: nat, v: Json, s: Json, name: string, sub: Json)
    requires s.Obj? && KindOf(s) == ObjectKind && PropsOf(s) == [Entry(name, sub)]
    ensures Pass(x, n, Obj([Entry(name, v)]), s, AsNull) == Obj([Entry(name, Pass(x, n, v, sub, AsNull))])
  {
    var props, fields := [Entry(name, sub)], [Entry(name, v)];
    assert Complete(fields, props);
    PassComplete(x, n, fields, s, AsNull);
    hide KindOf, PropsOf, Pass, Complete;
    assert IndexOf(props, name) == 0;
    assert PassField(x, n, fields[0], props, AsNull) == Entry(name, Pass(x, n, v, sub, AsNull));
    assert PassFields(x, n, fields, props, AsNull) == [Entry(name, Pass(x, n, v, sub, AsNull))];
  }

  lemma PassFromNull(x: Lexer, n: nat, s: Json, name: string, sub: Json)
    requires s.Obj? && KindOf(s) == ObjectKind && PropsOf(s) == [Entry(name, sub)]
    ensures Pass(x, n + 1, Null, s, AsNull) == Obj([Entry(name, Pass(x, n, Null, sub, AsNull))])
  {
    hide KindOf, PropsOf, Coerce;
    FillsOneNull(x, s, name, sub);
    assert Pass(x, n + 1, Null, s, AsNull) == Pass(x, n, Obj([Entry(name, Null)]), s, AsNull);
    hide Pass;
    PassOneField(x, n, Null, s, name, sub);
  }

  lemma TowerPass(x: Lexer, d: nat, n: nat)
    requires d > 0
    ensures Pass(x, n + 1, Null, Tower(d), AsNull) == Obj([Entry("p", Pass(x, n, Null, Tower(d - 1), AsNull))])
  {
    TowerShape(d);
    hide Tower, KindOf, PropsOf, Pass;
    PassFromNull(x, n, Tower(d), "p", Tower(d - 1));
  }

  lemma NullToArray(x: Lexer)
    ensures Pass(x, 1, Null, Tower(0), AsNull) == Arr([Null])
  {
    TowerBase();
    CoerceArray(x, Null, Tower(0), AsNull);
    hide Tower, KindOf, Member, Coerce;
    assert Pass(x, 1, Null, Tower(0), AsNull) == Pass(x, 0, Coerce(x, Null, Tower(0), AsNull), Tower(0), AsNull);
  }

  /** For every depth there is a schema on which exactly `PropDepth` passes still leave something to change. */
  lemma {:induction false} BoundIsTight(x: Lexer, d: nat)
    ensures PropDepth(Tower(d)) == d
    ensures Pass(x, d + 1, Null, Tower(d), AsNull) != Pass(x, d, Null, Tower(d), AsNull)
  {
    TowerDepth(d);
    hide Coerce, PropDepth, Tower;
    if d == 0 {
      NullToArray(x);
    } else {
      hide Pass;
      BoundIsTight(x, d - 1);
      TowerPass(x, d, d);
      TowerPass(x, d, d - 1);
    }
  }
}
