/**
 What a schema asks for, keyword by keyword, and what a reported problem says: the same relation as the validator's,
 told without its helpers.
 */
module SchemaMeaning {
  import opened Prelude
  import opened SortedMap
  import opened Json
  import opened Validation
  import Canonical
  import Utf8

  // ---- The keywords ----

  ghost predicate SameNumber(k: int, r: real) { k as real == r }

  /** The value is of the type of this name. */
  ghost predicate OfType(v: Json, name: string) {
    match v
    case Null => name == "null"
    case Bool(_) => name == "boolean"
    case Num(Int(_)) => name == "number" || name == "integer"
    case Num(Float(r)) => name == "number" || (name == "integer" && exists k: int :: SameNumber(k, r))
    case Str(_) => name == "string"
    case Arr(_) => name == "array"
    case Obj(_) => name == "object"
  }

  /** `type` is absent, or it is the name of the value's type, or a list with that name. */
  ghost predicate TypeAllows(s: Json, v: Json) {
    var t := Member(s, "type");
    || t.None?
    || (t.value.Str? && OfType(v, t.value.s))
    || (t.value.Arr? && exists n :: n in t.value.items && n.Str? && OfType(v, n.s))
  }

  /** `enum` is no list, or a list with the value, up to the order of object keys. */
  ghost predicate Listed(s: Json, v: Json) {
    var e := Member(s, "enum");
    e.Some? && e.value.Arr? ==> exists w :: w in e.value.items && Canonical.SameUpToOrder(w, v)
  }

  function Value(n: Number): real { match n case Int(i) => i as real case Float(r) => r }

  function Bound(s: Json, name: string): Option<real> {
    var m := Member(s, name);
    if m.Some? && m.value.Num? then Some(Value(m.value.n)) else None
  }

  /** A length is a whole number that is not negative; anything else is ignored. */
  function Length(s: Json, name: string): Option<nat> {
    var m := Member(s, name);
    if m.Some? && m.value.Num? && m.value.n.Int? && m.value.n.i >= 0 then Some(m.value.n.i) else None
  }

  ghost predicate TooLow(s: Json, v: Json) {
    v.Num? && Bound(s, "minimum").Some? && Value(v.n) < Bound(s, "minimum").value
  }

  ghost predicate TooHigh(s: Json, v: Json) {
    v.Num? && Bound(s, "maximum").Some? && Value(v.n) > Bound(s, "maximum").value
  }

  ghost predicate IsTooShort(s: Json, v: Json) {
    v.Str? && Length(s, "minLength").Some? && |Utf8.Encode(v.s)| < Length(s, "minLength").value
  }

  ghost predicate IsTooLong(s: Json, v: Json) {
    v.Str? && Length(s, "maxLength").Some? && |Utf8.Encode(v.s)| > Length(s, "maxLength").value
  }

  /** The field is there, with a value other than null. */
  ghost predicate Given(fields: Fields, name: string) { exists f :: f in fields && f.key == name && f.value != Null }

  /** `required` names a field that is not given. */
  ghost predicate Lacks(s: Json, v: Json, name: string) {
    var r := Member(s, "required");
    v.Obj? && r.Some? && r.value.Arr? && Str(name) in r.value.items && !Given(v.fields, name)
  }

  ghost predicate Declares(s: Json, name: string) {
    var p := Member(s, "properties");
    p.Some? && p.value.Obj? && exists d :: d in p.value.fields && d.key == name
  }

  /** `additionalProperties` is false beside `properties`, and the field is not among those. */
  ghost predicate Exceeds(s: Json, v: Json, name: string) {
    && v.Obj? && (exists f :: f in v.fields && f.key == name) && !Declares(s, name)
    && Member(s, "properties").Some? && Member(s, "properties").value.Obj?
    && Member(s, "additionalProperties") == Some(Bool(false))
  }

  // ---- The helpers of the validator mean these ----

  lemma TypeMeaning(s: Json, v: Json)
    ensures TypeMatches(s, v) <==> TypeAllows(s, v)
  {
    var t := Member(s, "type");
    hide Member;
    forall name ensures NameAccepts(name, v) <==> OfType(v, name) { NameMeaning(name, v); }
    hide NameAccepts, OfType;
    if t.Some? && t.value.Arr? {
      var names := t.value.items;
      if i :| 0 <= i < |names| && names[i].Str? && NameAccepts(names[i].s, v) { assert names[i] in names; }
    }
  }

  lemma NameMeaning(name: string, v: Json)
    ensures NameAccepts(name, v) <==> OfType(v, name)
  {
    if v.Num? && v.n.Float? {
      var r := v.n.r;
      assert IsWhole(v.n) <==> exists k: int :: SameNumber(k, r) by {
        if k: int :| SameNumber(k, r) { assert r.Floor == k; }
        if IsWhole(v.n) { assert SameNumber(r.Floor, r); }
      }
      hide IsWhole;
    }
  }

  lemma EnumMeaning(s: Json, v: Json)
    ensures EnumAllows(s, v) <==> Listed(s, v)
  {
    var e := Member(s, "enum");
    hide Member, Canonical.SameUpToOrder;
    if e.Some? && e.value.Arr? {
      var values := e.value.items;
      if i :| 0 <= i < |values| && Canonical.SameUpToOrder(values[i], v) { assert values[i] in values; }
    }
  }

  lemma RangeMeaning(s: Json, v: Json)
    requires v.Num?
    ensures AboveMin(s, AsReal(v.n)) <==> !TooLow(s, v)
    ensures BelowMax(s, AsReal(v.n)) <==> !TooHigh(s, v)
  {
    hide Member;
  }

  lemma LengthMeaning(s: Json, v: Json)
    requires v.Str?
    ensures LongEnough(s, v.s) <==> !IsTooShort(s, v)
    ensures ShortEnough(s, v.s) <==> !IsTooLong(s, v)
  {
    hide Member, Utf8.Encode;
  }

  lemma HasMeaning(fields: Fields, name: string)
    ensures Has(fields, name) <==> exists f :: f in fields && f.key == name
  {
    var i := IndexOf(fields, name);
    if i < |fields| { assert fields[i] in fields; }
    hide IndexOf;
  }

  /** In an object that names each field once, looking up a name gives the field of that name. */
  lemma GetMeaning(fields: Fields, f: Entry<Json>)
    requires NamesDistinct(fields) && f in fields
    ensures Get(fields, f.key) == Some(f.value)
  {
    var i :| 0 <= i < |fields| && fields[i] == f;
    IndexOfField(fields, i);
  }

  lemma PresentMeaning(fields: Fields, name: string)
    requires NamesDistinct(fields)
    ensures Present(fields, Str(name)) <==> Given(fields, name)
  {
    if f :| f in fields && f.key == name && f.value != Null { GetMeaning(fields, f); }
    if Has(fields, name) { assert fields[IndexOf(fields, name)] in fields; }
    hide IndexOf;
    HasMeaning(fields, name);
    hide Has;
  }

  // ---- Meeting a schema ----

  /** The value meets every keyword of the schema, and so do its parts. */
  ghost predicate Meets(v: Json, s: Json)
    decreases s, 1
  {
    s.Obj? ==>
      && TypeAllows(s, v) && Listed(s, v)
      && !TooLow(s, v) && !TooHigh(s, v) && !IsTooShort(s, v) && !IsTooLong(s, v)
      && (forall name :: !Lacks(s, v, name) && !Exceeds(s, v, name))
      && FieldsMeet(v, s) && ItemsMeet(v, s)
  }

  ghost predicate FieldsMeet(v: Json, s: Json)
    requires s.Obj?
    decreases s, 0
  {
    v.Obj? && Member(s, "properties").Some? && Member(s, "properties").value.Obj? ==>
      var props := Member(s, "properties").value.fields;
      forall i, j :: 0 <= i < |v.fields| && 0 <= j < |props| && v.fields[i].key == props[j].key ==>
        Meets(v.fields[i].value, props[j].value)
  }

  ghost predicate ItemsMeet(v: Json, s: Json)
    requires s.Obj?
    decreases s, 0
  {
    v.Arr? && Member(s, "items").Some? ==>
      forall i :: 0 <= i < |v.items| ==> Meets(v.items[i], Member(s, "items").value)
  }

  lemma RequiredMeaning(v: Json, s: Json)
    requires v.Obj? && NamesDistinct(v.fields)
    ensures (forall i :: 0 <= i < |RequiredNames(s)| ==> Present(v.fields, RequiredNames(s)[i]))
       <==> forall name :: !Lacks(s, v, name)
  {
    var names := RequiredNames(s);
    forall name ensures Present(v.fields, Str(name)) <==> Given(v.fields, name) { PresentMeaning(v.fields, name); }
    hide Given, Member, Has, Get;
    if i :| 0 <= i < |names| && !Present(v.fields, names[i]) {
      assert Str(names[i].s) in names;
      assert Lacks(s, v, names[i].s);
    }
    if name :| Lacks(s, v, name) {
      var i :| 0 <= i < |names| && names[i] == Str(name);
    }
  }

  lemma ClosedMeaning(v: Json, s: Json)
    requires v.Obj?
    ensures (Closed(s) ==> forall i :: 0 <= i < |v.fields| ==> Has(PropertyFields(s).value, v.fields[i].key))
       <==> forall name :: !Exceeds(s, v, name)
  {
    if PropertyFields(s).Some? {
      forall name ensures Has(PropertyFields(s).value, name) <==> Declares(s, name) {
        HasMeaning(PropertyFields(s).value, name);
      }
    }
    hide Has, Declares, Member;
    if i :| Closed(s) && 0 <= i < |v.fields| && !Has(PropertyFields(s).value, v.fields[i].key) {
      assert v.fields[i] in v.fields;
      assert Exceeds(s, v, v.fields[i].key);
    }
    if name :| Exceeds(s, v, name) {
      var f :| f in v.fields && f.key == name;
      var i :| 0 <= i < |v.fields| && v.fields[i] == f;
      assert Closed(s) && !Has(PropertyFields(s).value, v.fields[i].key);
    }
  }

  /** The validator's relation is the meaning of the keywords, for values and schemas that name each field once. */
  lemma {:induction false} ConformsMeaning(v: Json, s: Json)
    requires WellFormed(v) && WellFormed(s)
    ensures Conforms(v, s) <==> Meets(v, s)
    decreases s, 2
  {
    if s.Obj? {
      FieldsMeaning(v, s);
      ItemsMeaning(v, s);
      hide WellFormed, Member, FieldsConform, FieldsMeet, ItemsMeet, TypeMatches, EnumAllows, TypeAllows, Listed;
      hide AboveMin, BelowMax, LongEnough, ShortEnough, TooLow, TooHigh, IsTooShort, IsTooLong, Lacks, Exceeds;
      ScalarMeaning(v, s);
    }
  }

  lemma ScalarMeaning(v: Json, s: Json)
    ensures TypeMatches(s, v) <==> TypeAllows(s, v)
    ensures EnumAllows(s, v) <==> Listed(s, v)
    ensures (v.Num? ==> AboveMin(s, AsReal(v.n)) && BelowMax(s, AsReal(v.n))) <==> !TooLow(s, v) && !TooHigh(s, v)
    ensures (v.Str? ==> LongEnough(s, v.s) && ShortEnough(s, v.s)) <==> !IsTooShort(s, v) && !IsTooLong(s, v)
  {
    hide TypeMatches, EnumAllows, TypeAllows, Listed, AboveMin, BelowMax, LongEnough, ShortEnough;
    TypeMeaning(s, v);
    EnumMeaning(s, v);
    if v.Num? { RangeMeaning(s, v); }
    if v.Str? { LengthMeaning(s, v); }
  }

  lemma {:induction false} FieldsMeaning(v: Json, s: Json)
    requires WellFormed(v) && WellFormed(s) && s.Obj?
    ensures (v.Obj? ==> FieldsConform(v.fields, s))
       <==> FieldsMeet(v, s) && forall name :: !Lacks(s, v, name) && !Exceeds(s, v, name)
    decreases s, 1
  {
    if v.Obj? {
      RequiredMeaning(v, s);
      ClosedMeaning(v, s);
      PropertiesMeaning(v, s);
    }
    hide Member, WellFormed, Meets, Conforms, RequiredNames, Present, Has, Closed, Get;
  }

  lemma {:induction false} PropertiesMeaning(v: Json, s: Json)
    requires WellFormed(v) && WellFormed(s) && s.Obj? && v.Obj?
    ensures FieldsMeet(v, s)
       <==> (PropertyFields(s).Some? ==>
               var props := PropertyFields(s).value;
               forall i :: 0 <= i < |props| && Has(v.fields, props[i].key) ==>
                 Conforms(Get(v.fields, props[i].key).value, props[i].value))
    decreases s, 0
  {
    if PropertyFields(s).Some? {
      var props := PropertyFields(s).value;
      MemberWellFormed(s, "properties");
      forall i, j | 0 <= i < |v.fields| && 0 <= j < |props| && v.fields[i].key == props[j].key
        ensures Has(v.fields, props[j].key) && Get(v.fields, props[j].key) == Some(v.fields[i].value)
        ensures Conforms(v.fields[i].value, props[j].value) <==> Meets(v.fields[i].value, props[j].value)
      {
        IndexOfField(v.fields, i);
        ConformsMeaning(v.fields[i].value, props[j].value);
      }
      hide Member, Meets, Conforms, WellFormed;
      forall j | 0 <= j < |props| && Has(v.fields, props[j].key)
        ensures exists i :: 0 <= i < |v.fields| && v.fields[i].key == props[j].key
      {
        assert v.fields[IndexOf(v.fields, props[j].key)].key == props[j].key;
      }
      hide IndexOf;
    }
  }

  lemma {:induction false} ItemsMeaning(v: Json, s: Json)
    requires WellFormed(v) && WellFormed(s) && s.Obj?
    ensures (v.Arr? && Member(s, "items").Some? ==>
               forall i :: 0 <= i < |v.items| ==> Conforms(v.items[i], Member(s, "items").value))
       <==> ItemsMeet(v, s)
    decreases s, 0
  {
    if v.Arr? && Member(s, "items").Some? {
      MemberWellFormed(s, "items");
      forall i | 0 <= i < |v.items|
        ensures Conforms(v.items[i], Member(s, "items").value) <==> Meets(v.items[i], Member(s, "items").value)
      {
        ConformsMeaning(v.items[i], Member(s, "items").value);
      }
      hide Member, Conforms, Meets, WellFormed;
    }
  }

  // ---- What a reported problem says ----

  /** The problem, as seen from one step further in. */
  function Inner(p: Problem): (r: Problem)
    requires p.path != []
    ensures |r.path| < |p.path|
  {
    p.(path := p.path[1..])
  }

  /** The problem, reported at this path from the value on, is there. */
  ghost predicate Told(v: Json, s: Json, p: Problem)
    decreases |p.path|, 2
  {
    s.Obj? &&
    if !TypeAllows(s, v) then p == WrongType([])
    else ToldOfValue(v, s, p) || ToldOfNames(v, s, p) || (p.path != [] && (ToldOfField(v, s, p) || ToldOfItem(v, s, p)))
  }

  ghost predicate ToldOfValue(v: Json, s: Json, p: Problem) {
    || (p == NotInEnum([]) && !Listed(s, v))
    || (p == BelowMinimum([]) && TooLow(s, v))
    || (p == AboveMaximum([]) && TooHigh(s, v))
    || (p == TooShort([]) && IsTooShort(s, v))
    || (p == TooLong([]) && IsTooLong(s, v))
  }

  ghost predicate ToldOfNames(v: Json, s: Json, p: Problem) {
    || (exists name :: p == MissingRequired([Name(name)]) && Lacks(s, v, name))
    || (exists name :: p == Disallowed([Name(name)]) && Exceeds(s, v, name))
  }

  /** The path starts with a declared field, and the problem is there in the field's value. */
  ghost predicate ToldOfField(v: Json, s: Json, p: Problem)
    requires p.path != []
    decreases |p.path|, 1
  {
    var props := Member(s, "properties");
    && p.path[0].Name? && v.Obj? && props.Some? && props.value.Obj?
    && exists i, j ::
         && 0 <= i < |v.fields| && 0 <= j < |props.value.fields|
         && v.fields[i].key == props.value.fields[j].key == p.path[0].name
         && Told(v.fields[i].value, props.value.fields[j].value, Inner(p))
  }

  ghost predicate ToldOfItem(v: Json, s: Json, p: Problem)
    requires p.path != []
    decreases |p.path|, 1
  {
    && p.path[0].Index? && v.Arr? && Member(s, "items").Some? && p.path[0].index < |v.items|
    && Told(v.items[p.path[0].index], Member(s, "items").value, Inner(p))
  }

  /** The problem, as seen from this path on. */
  function From(p: Problem, path: Path): Problem
    requires path <= p.path
  {
    p.(path := p.path[|path|..])
  }

  /** The i-th required name is missing, and this says so. */
  ghost predicate MissesAt(fields: Fields, names: seq<Json>, i: nat, path: Path, p: Problem)
    requires i < |names|
  {
    names[i].Str? && !Present(fields, names[i]) && p == MissingRequired(path + [Name(names[i].s)])
  }

  lemma {:induction false} RequiredListed(fields: Fields, names: seq<Json>, path: Path, p: Problem)
    ensures p in RequiredProblems(fields, names, path)
       <==> exists i :: 0 <= i < |names| && MissesAt(fields, names, i, path, p)
  {
    hide Has, Get;
    if names != [] {
      var n := |names| - 1;
      var init := names[..n];
      RequiredListed(fields, init, path, p);
      forall i | 0 <= i < n ensures MissesAt(fields, init, i, path, p) <==> MissesAt(fields, names, i, path, p) {
        assert names[i] == init[i];
      }
      assert p in RequiredProblems(fields, names, path)
        <==> p in RequiredProblems(fields, init, path) || MissesAt(fields, names, n, path, p);
      hide RequiredProblems, MissesAt;
    }
  }

  ghost predicate ExceedsAt(fields: Fields, props: Fields, i: nat, path: Path, p: Problem)
    requires i < |fields|
  {
    !Has(props, fields[i].key) && p == Disallowed(path + [Name(fields[i].key)])
  }

  lemma {:induction false} ExtraListed(fields: Fields, props: Fields, path: Path, p: Problem)
    ensures p in ExtraProblems(fields, props, path)
       <==> exists i :: 0 <= i < |fields| && ExceedsAt(fields, props, i, path, p)
  {
    hide Has;
    if fields != [] {
      var n := |fields| - 1;
      var init := fields[..n];
      ExtraListed(init, props, path, p);
      forall i | 0 <= i < n ensures ExceedsAt(init, props, i, path, p) <==> ExceedsAt(fields, props, i, path, p) {
        assert fields[i] == init[i];
      }
      assert p in ExtraProblems(fields, props, path)
        <==> p in ExtraProblems(init, props, path) || ExceedsAt(fields, props, n, path, p);
      hide ExtraProblems, ExceedsAt;
    }
  }

  ghost predicate PropertyAt(fields: Fields, props: Fields, j: nat, path: Path, p: Problem)
    requires j < |props|
  {
    && Has(fields, props[j].key)
    && p in Problems(Get(fields, props[j].key).value, props[j].value, path + [Name(props[j].key)])
  }

  lemma {:induction false} PropertiesListed(fields: Fields, props: Fields, path: Path, p: Problem)
    ensures p in PropertyProblems(fields, props, path)
       <==> exists j :: 0 <= j < |props| && PropertyAt(fields, props, j, path, p)
  {
    hide Problems;
    if props != [] {
      var n := |props| - 1;
      var init := props[..n];
      PropertiesListed(fields, init, path, p);
      forall j | 0 <= j < n ensures PropertyAt(fields, init, j, path, p) <==> PropertyAt(fields, props, j, path, p) {
        assert props[j] == init[j];
      }
      assert p in PropertyProblems(fields, props, path)
        <==> p in PropertyProblems(fields, init, path) || PropertyAt(fields, props, n, path, p);
      hide PropertyProblems, PropertyAt;
    }
  }

  lemma {:induction false} ItemsListed(items: seq<Json>, s: Json, path: Path, p: Problem)
    ensures p in ItemProblems(items, s, path)
       <==> exists i :: 0 <= i < |items| && p in Problems(items[i], s, path + [Index(i)])
  {
    hide Problems;
    if items != [] {
      var n := |items| - 1;
      var init := items[..n];
      ItemsListed(init, s, path, p);
      assert forall i :: 0 <= i < n ==> init[i] == items[i];
      assert p in ItemProblems(items, s, path)
        <==> p in ItemProblems(init, s, path) || p in Problems(items[n], s, path + [Index(n)]);
      hide ItemProblems;
    }
  }

  // ---- Every reported problem is there, and every problem is reported ----

  lemma PathAfter(p: Problem, path: Path, step: Step)
    requires path <= p.path
    ensures path + [step] <= p.path <==> From(p, path).path != [] && From(p, path).path[0] == step
    ensures path + [step] <= p.path ==>
      From(p, path + [step]) == Inner(From(p, path))
    ensures p.path == path + [step] <==> From(p, path).path == [step]
  {
    var rest := p.path[|path|..];
    assert p.path == path + rest;
    if path + [step] <= p.path { assert rest[0] == p.path[|path|] == step; }
    if rest != [] && rest[0] == step { assert path + [step] == p.path[..|path| + 1]; }
  }

  lemma {:induction false} PathsStart(v: Json, s: Json, path: Path, p: Problem)
    requires p in Problems(v, s, path)
    ensures path <= p.path
    decreases s, 1
  {
    hide TypeMatches, EnumAllows, AboveMin, BelowMax, LongEnough, ShortEnough, Member, Closed;
    if v.Obj? && p in ObjectProblems(v.fields, s, path) {
      FieldPathsStart(v.fields, s, path, p);
    } else if p in ArrayProblems(v, s, path) {
      ItemPathsStart(v, s, path, p);
    }
    hide ObjectProblems, ArrayProblems;
  }

  lemma {:induction false} FieldPathsStart(fields: Fields, s: Json, path: Path, p: Problem)
    requires s.Obj? && p in ObjectProblems(fields, s, path)
    ensures path <= p.path
    decreases s, 0
  {
    var props := PropertyFields(s);
    NamePathsStart(fields, RequiredNames(s), if props.Some? then props.value else [], path, p);
    if props.Some? && p in PropertyProblems(fields, props.value, path) {
      PropertiesListed(fields, props.value, path, p);
      hide Member, PropertyProblems, Problems;
      var j :| 0 <= j < |props.value| && PropertyAt(fields, props.value, j, path, p);
      var k := props.value[j].key;
      PathsStart(Get(fields, k).value, props.value[j].value, path + [Name(k)], p);
    } else {
      hide RequiredProblems, ExtraProblems, PropertyProblems, RequiredNames, Member;
    }
  }

  lemma NamePathsStart(fields: Fields, names: seq<Json>, props: Fields, path: Path, p: Problem)
    ensures p in RequiredProblems(fields, names, path) || p in ExtraProblems(fields, props, path) ==> path <= p.path
  {
    RequiredListed(fields, names, path, p);
    ExtraListed(fields, props, path, p);
    hide RequiredProblems, ExtraProblems, Present, Has;
  }

  lemma {:induction false} ItemPathsStart(v: Json, s: Json, path: Path, p: Problem)
    requires s.Obj? && p in ArrayProblems(v, s, path)
    ensures path <= p.path
    decreases s, 0
  {
    var sub := Member(s, "items").value;
    ItemsListed(v.items, sub, path, p);
    var i :| 0 <= i < |v.items| && p in Problems(v.items[i], sub, path + [Index(i)]);
    PathsStart(v.items[i], sub, path + [Index(i)], p);
    hide ItemProblems, Problems, Member;
  }

  lemma {:induction false} ReportedIsTold(v: Json, s: Json, path: Path, p: Problem)
    requires WellFormed(v) && WellFormed(s)
    ensures p in Problems(v, s, path) <==> path <= p.path && Told(v, s, From(p, path))
    decreases s, 3
  {
    if p in Problems(v, s, path) { PathsStart(v, s, path, p); }
    if s.Obj? && path <= p.path {
      TypeMeaning(s, v);
      EnumMeaning(s, v);
      if v.Num? { RangeMeaning(s, v); }
      if v.Str? { LengthMeaning(s, v); }
      var q := From(p, path);
      assert p == WrongType(path) <==> q == WrongType([]);
      if TypeMatches(s, v) {
        ValueReported(v, s, path, p);
        NamesReported(v, s, path, p);
        PropertiesReported(v, s, path, p);
        ItemsReported(v, s, path, p);
        Assembled(v, s, path, p);
      }
    }
    hide *;
  }

  lemma Assembled(v: Json, s: Json, path: Path, p: Problem)
    requires s.Obj? && TypeMatches(s, v)
    ensures p in Problems(v, s, path)
       <==> || p in If(!EnumAllows(s, v), NotInEnum(path)) + RangeProblems(v, s, path) + LengthProblems(v, s, path)
            || p in NamesProblems(v, s, path)
            || p in DeclaredProblems(v, s, path)
            || p in ArrayProblems(v, s, path)
  {
    hide TypeMatches, EnumAllows, If, RangeProblems, LengthProblems, ArrayProblems;
    hide RequiredProblems, ExtraProblems, PropertyProblems, RequiredNames, Closed;
  }

  /** The problems with the names of the fields. */
  function NamesProblems(v: Json, s: Json, path: Path): seq<Problem> {
    if !v.Obj? then []
    else
      RequiredProblems(v.fields, RequiredNames(s), path)
      + if Closed(s) then ExtraProblems(v.fields, PropertyFields(s).value, path) else []
  }

  function DeclaredProblems(v: Json, s: Json, path: Path): seq<Problem> {
    if v.Obj? && PropertyFields(s).Some? then PropertyProblems(v.fields, PropertyFields(s).value, path) else []
  }

  lemma ValueReported(v: Json, s: Json, path: Path, p: Problem)
    requires path <= p.path
    ensures p in If(!EnumAllows(s, v), NotInEnum(path)) + RangeProblems(v, s, path) + LengthProblems(v, s, path)
       <==> ToldOfValue(v, s, From(p, path))
  {
    EnumReported(v, s, path, p);
    RangeReported(v, s, path, p);
    LengthReported(v, s, path, p);
    hide EnumAllows, If, RangeProblems, LengthProblems, Listed, TooLow, TooHigh, IsTooShort, IsTooLong, From;
  }

  lemma PathAll(p: Problem, path: Path)
    requires path <= p.path
    ensures p.path == path <==> From(p, path).path == []
  {
  }

  lemma EnumReported(v: Json, s: Json, path: Path, p: Problem)
    requires path <= p.path
    ensures p in If(!EnumAllows(s, v), NotInEnum(path)) <==> From(p, path) == NotInEnum([]) && !Listed(s, v)
  {
    EnumMeaning(s, v);
    PathAll(p, path);
    hide EnumAllows, Listed;
  }

  lemma RangeReported(v: Json, s: Json, path: Path, p: Problem)
    requires path <= p.path
    ensures var q := From(p, path);
      p in RangeProblems(v, s, path)
      <==> (q == BelowMinimum([]) && TooLow(s, v)) || (q == AboveMaximum([]) && TooHigh(s, v))
  {
    PathAll(p, path);
    if v.Num? {
      RangeMeaning(s, v);
      hide AboveMin, BelowMax, TooLow, TooHigh;
    } else {
      hide Bound;
    }
  }

  lemma LengthReported(v: Json, s: Json, path: Path, p: Problem)
    requires path <= p.path
    ensures var q := From(p, path);
      p in LengthProblems(v, s, path)
      <==> (q == TooShort([]) && IsTooShort(s, v)) || (q == TooLong([]) && IsTooLong(s, v))
  {
    PathAll(p, path);
    if v.Str? {
      LengthMeaning(s, v);
      hide LongEnough, ShortEnough, IsTooShort, IsTooLong;
    } else {
      hide Length;
    }
  }

  lemma NamesReported(v: Json, s: Json, path: Path, p: Problem)
    requires WellFormed(v) && path <= p.path
    ensures p in NamesProblems(v, s, path) <==> ToldOfNames(v, s, From(p, path))
  {
    if v.Obj? {
      MissingReported(v, s, path, p);
      ExceedingReported(v, s, path, p);
    }
    hide RequiredProblems, ExtraProblems, RequiredNames, Closed, WellFormed, Given, Declares, Member;
  }

  lemma MissingReported(v: Json, s: Json, path: Path, p: Problem)
    requires v.Obj? && NamesDistinct(v.fields) && path <= p.path
    ensures p in RequiredProblems(v.fields, RequiredNames(s), path)
       <==> exists name :: From(p, path) == MissingRequired([Name(name)]) && Lacks(s, v, name)
  {
    var names := RequiredNames(s);
    RequiredListed(v.fields, names, path, p);
    forall name
      ensures Present(v.fields, Str(name)) <==> Given(v.fields, name)
      ensures p == MissingRequired(path + [Name(name)]) <==> From(p, path) == MissingRequired([Name(name)])
    {
      PresentMeaning(v.fields, name);
      PathAfter(p, path, Name(name));
    }
    hide RequiredProblems, Given, Member, Has, Get;
    if i :| 0 <= i < |names| && MissesAt(v.fields, names, i, path, p) {
      assert names[i] in names && names[i] == Str(names[i].s);
      assert Lacks(s, v, names[i].s);
    }
    if name :| From(p, path) == MissingRequired([Name(name)]) && Lacks(s, v, name) {
      var i :| 0 <= i < |names| && names[i] == Str(name);
      assert MissesAt(v.fields, names, i, path, p);
    }
  }

  lemma ExceedingReported(v: Json, s: Json, path: Path, p: Problem)
    requires v.Obj? && path <= p.path
    ensures Closed(s) && p in ExtraProblems(v.fields, PropertyFields(s).value, path)
       <==> exists name :: From(p, path) == Disallowed([Name(name)]) && Exceeds(s, v, name)
  {
    if PropertyFields(s).Some? {
      var props := PropertyFields(s).value;
      ExtraListed(v.fields, props, path, p);
      forall name
        ensures Has(props, name) <==> Declares(s, name)
        ensures p == Disallowed(path + [Name(name)]) <==> From(p, path) == Disallowed([Name(name)])
      {
        HasMeaning(props, name);
        PathAfter(p, path, Name(name));
      }
      hide ExtraProblems, Has, Declares, Member;
      if i :| 0 <= i < |v.fields| && ExceedsAt(v.fields, props, i, path, p) && Closed(s) {
        assert v.fields[i] in v.fields;
        assert Exceeds(s, v, v.fields[i].key);
      }
      if name :| From(p, path) == Disallowed([Name(name)]) && Exceeds(s, v, name) {
        var f :| f in v.fields && f.key == name;
        var i :| 0 <= i < |v.fields| && v.fields[i] == f;
        assert ExceedsAt(v.fields, props, i, path, p);
      }
    }
  }

  lemma {:induction false} PropertiesReported(v: Json, s: Json, path: Path, p: Problem)
    requires WellFormed(v) && WellFormed(s) && s.Obj? && path <= p.path
    ensures p in DeclaredProblems(v, s, path) <==> From(p, path).path != [] && ToldOfField(v, s, From(p, path))
    decreases s, 2
  {
    var q := From(p, path);
    if v.Obj? && PropertyFields(s).Some? {
      var props := PropertyFields(s).value;
      MemberWellFormed(s, "properties");
      PropertiesListed(v.fields, props, path, p);
      assert forall j :: 0 <= j < |props| ==> WellFormed(props[j].value);
      if q.path != [] { FieldTold(v, s, props, q); }
      hide PropertyAt, PropertyProblems, Told, Member, ToldOfField, FieldHit;
      forall i, j | 0 <= i < |v.fields| && 0 <= j < |props| && v.fields[i].key == props[j].key
        ensures PropertyAt(v.fields, props, j, path, p) <==> q.path != [] && FieldHit(v.fields, props, i, j, q)
      {
        PropertyReported(v, props, i, j, path, p);
      }
      hide WellFormed, From;
      forall j | 0 <= j < |props| && PropertyAt(v.fields, props, j, path, p)
        ensures q.path != [] && exists i :: FieldHit(v.fields, props, i, j, q)
      {
        PropertyIsThere(v.fields, props, j, path, p);
        var i :| 0 <= i < |v.fields| && v.fields[i].key == props[j].key;
        assert FieldHit(v.fields, props, i, j, q);
      }
      if q.path != [] {
        forall i, j | FieldHit(v.fields, props, i, j, q)
          ensures 0 <= j < |props| && PropertyAt(v.fields, props, j, path, p)
        {
          FieldHitAt(v.fields, props, i, j, q);
        }
      }
    }
  }

  lemma FieldTold(v: Json, s: Json, props: Fields, q: Problem)
    requires v.Obj? && PropertyFields(s) == Some(props) && q.path != []
    ensures ToldOfField(v, s, q) <==> exists i, j :: FieldHit(v.fields, props, i, j, q)
  {
    hide *;
    if ToldOfField(v, s, q) {
      var i, j := SomeHit(v, s, props, q);
    }
    forall i, j | FieldHit(v.fields, props, i, j, q) ensures ToldOfField(v, s, q) { HitTold(v, s, props, q, i, j); }
  }

  lemma SomeHit(v: Json, s: Json, props: Fields, q: Problem) returns (i: int, j: int)
    requires v.Obj? && PropertyFields(s) == Some(props) && q.path != [] && ToldOfField(v, s, q)
    ensures FieldHit(v.fields, props, i, j, q)
  {
    hide Member, Inner, Told;
    i, j :| 0 <= i < |v.fields| && 0 <= j < |props| && v.fields[i].key == props[j].key == q.path[0].name
      && Told(v.fields[i].value, props[j].value, Inner(q));
  }

  lemma HitTold(v: Json, s: Json, props: Fields, q: Problem, i: int, j: int)
    requires v.Obj? && PropertyFields(s) == Some(props) && q.path != [] && FieldHit(v.fields, props, i, j, q)
    ensures ToldOfField(v, s, q)
  {
    hide Member, Inner, Told;
  }

  /** The problem is that of the field at `i`, which is declared at `j`. */
  ghost predicate FieldHit(fields: Fields, props: Fields, i: int, j: int, p: Problem)
    requires p.path != []
  {
    && 0 <= i < |fields| && 0 <= j < |props| && fields[i].key == props[j].key
    && p.path[0] == Name(props[j].key)
    && Told(fields[i].value, props[j].value, Inner(p))
  }

  lemma FieldHitAt(fields: Fields, props: Fields, i: int, j: int, q: Problem)
    requires q.path != [] && FieldHit(fields, props, i, j, q)
    ensures 0 <= i < |fields| && 0 <= j < |props| && fields[i].key == props[j].key
  {
    hide Told;
  }

  lemma PropertyIsThere(fields: Fields, props: Fields, j: nat, path: Path, p: Problem)
    requires j < |props| && PropertyAt(fields, props, j, path, p)
    ensures exists i :: 0 <= i < |fields| && fields[i].key == props[j].key
  {
    hide Problems;
    assert fields[IndexOf(fields, props[j].key)].key == props[j].key;
  }

  lemma {:induction false} PropertyReported(v: Json, props: Fields, i: nat, j: nat, path: Path, p: Problem)
    requires v.Obj? && WellFormed(v) && i < |v.fields| && j < |props| && v.fields[i].key == props[j].key
    requires WellFormed(props[j].value) && path <= p.path
    ensures var q := From(p, path);
      PropertyAt(v.fields, props, j, path, p) <==> q.path != [] && FieldHit(v.fields, props, i, j, q)
    decreases props[j].value, 4
  {
    IndexOfField(v.fields, i);
    PathAfter(p, path, Name(props[j].key));
    ReportedIsTold(v.fields[i].value, props[j].value, path + [Name(props[j].key)], p);
    hide Problems, Told, WellFormed, IndexOf;
  }

  lemma {:induction false} ItemsReported(v: Json, s: Json, path: Path, p: Problem)
    requires WellFormed(v) && WellFormed(s) && s.Obj? && path <= p.path
    ensures p in ArrayProblems(v, s, path) <==> From(p, path).path != [] && ToldOfItem(v, s, From(p, path))
    decreases s, 2
  {
    var q := From(p, path);
    if v.Arr? && Member(s, "items").Some? {
      var sub := Member(s, "items").value;
      MemberWellFormed(s, "items");
      ItemsListed(v.items, sub, path, p);
      forall i | 0 <= i < |v.items|
        ensures p in Problems(v.items[i], sub, path + [Index(i)])
           <==> q.path != [] && q.path[0] == Index(i) && Told(v.items[i], sub, Inner(q))
      {
        PathAfter(p, path, Index(i));
        ReportedIsTold(v.items[i], sub, path + [Index(i)], p);
      }
      hide Problems, Told, WellFormed, ItemProblems, Member;
    }
  }

  /** From the root, the problems reported are exactly those that are there. */
  lemma AllReported(v: Json, s: Json, root: Path)
    requires WellFormed(v) && WellFormed(s) && root == []
    ensures forall p :: p in Problems(v, s, root) <==> Told(v, s, p)
  {
    hide Problems, Told, WellFormed;
    forall p ensures p in Problems(v, s, root) <==> Told(v, s, p) {
      ReportedIsTold(v, s, root, p);
      assert From(p, root) == p;
    }
  }
}
