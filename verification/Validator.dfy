/** The validator as it runs: one shared error list, nested loops, and an early return on a type mismatch. */
module Validator {
  import opened Prelude
  import opened SortedMap
  import opened Json
  import opened Validation
  import SchemaMeaning

  // ---- The list of problems is empty exactly for conforming values ----

  lemma {:induction false} NoRequiredProblems(fields: Fields, names: seq<Json>, path: Path)
    ensures RequiredProblems(fields, names, path) == []
       <==> forall i :: 0 <= i < |names| ==> Present(fields, names[i])
  {
    hide Present;
    if names != [] {
      var n := |names| - 1;
      var front := names[..n];
      NoRequiredProblems(fields, front, path);
      assert forall i :: 0 <= i < n ==> front[i] == names[i];
      assert RequiredProblems(fields, names, path) == []
        <==> (RequiredProblems(fields, front, path) == [] && Present(fields, names[n]));
      hide RequiredProblems;
    }
  }

  lemma {:induction false} NoExtraProblems(fields: Fields, props: Fields, path: Path)
    ensures ExtraProblems(fields, props, path) == [] <==> forall i :: 0 <= i < |fields| ==> Has(props, fields[i].key)
  {
    hide Has;
    if fields != [] {
      var n := |fields| - 1;
      var front := fields[..n];
      NoExtraProblems(front, props, path);
      assert forall i :: 0 <= i < n ==> front[i] == fields[i];
      assert ExtraProblems(fields, props, path) == []
        <==> (ExtraProblems(front, props, path) == [] && Has(props, fields[n].key));
      hide ExtraProblems;
    }
  }

  lemma {:induction false} NoPropertyProblems(fields: Fields, props: Fields, path: Path)
    ensures PropertyProblems(fields, props, path) == []
       <==> forall i :: 0 <= i < |props| && Has(fields, props[i].key) ==>
              Conforms(Get(fields, props[i].key).value, props[i].value)
    decreases props, 1
  {
    hide Problems, Conforms;
    if props != [] {
      var last := props[|props| - 1];
      NoPropertyProblems(fields, props[..|props| - 1], path);
      if Has(fields, last.key) {
        ConformsIffNoProblems(Get(fields, last.key).value, last.value, path + [Name(last.key)]);
      }
    }
  }

  lemma {:induction false} NoItemProblems(items: seq<Json>, s: Json, path: Path)
    ensures ItemProblems(items, s, path) == [] <==> forall i :: 0 <= i < |items| ==> Conforms(items[i], s)
    decreases s, 3, |items|
  {
    hide Problems, Conforms;
    if items != [] {
      var n := |items| - 1;
      NoItemProblems(items[..n], s, path);
      ConformsIffNoProblems(items[n], s, path + [Index(n)]);
    }
  }

  lemma {:induction false} NoObjectProblems(fields: Fields, s: Json, path: Path)
    ensures ObjectProblems(fields, s, path) == [] <==> FieldsConform(fields, s)
    decreases s, 1
  {
    hide RequiredNames, Conforms, Present, RequiredProblems, PropertyProblems, ExtraProblems;
    var props := PropertyFields(s);
    NoRequiredProblems(fields, RequiredNames(s), path);
    if props.Some? {
      NoPropertyProblems(fields, props.value, path);
      NoExtraProblems(fields, props.value, path);
    }
    ClosedHasProperties(s);
  }

  lemma ClosedHasProperties(s: Json)
    ensures Closed(s) ==> PropertyFields(s).Some?
  {
  }

  lemma NoArrayProblems(v: Json, s: Json, path: Path)
    ensures ArrayProblems(v, s, path) == []
      <==> (v.Arr? && Member(s, "items").Some? ==>
              forall i :: 0 <= i < |v.items| ==> Conforms(v.items[i], Member(s, "items").value))
    decreases s, 1
  {
    hide Conforms, ItemProblems;
    var items := Member(s, "items");
    if v.Arr? && items.Some? {
      NoItemProblems(v.items, items.value, path);
    }
  }

  /** Despite the shared list and the early return, no problem is reported exactly when the value conforms. */
  lemma {:induction false} ConformsIffNoProblems(v: Json, s: Json, path: Path)
    ensures Problems(v, s, path) == [] <==> Conforms(v, s)
    decreases s, 2
  {
    hide TypeMatches, EnumAllows, ObjectProblems, ArrayProblems, FieldsConform;
    hide AboveMin, BelowMax, LongEnough, ShortEnough;
    if s.Obj? {
      if v.Obj? { NoObjectProblems(v.fields, s, path); }
      NoArrayProblems(v, s, path);
    }
    hide Member;
  }

  // ---- The validator ----

  class ErrorLog {
    var entries: seq<Problem>

    constructor ()
      ensures entries == []
    {
      entries := [];
    }
  }

  /** Tries each type name in turn. */
  method MatchType(t: Json, v: Json) returns (matched: bool)
    ensures matched <==> TypeAccepts(t, v)
  {
    hide NameAccepts;
    var names := if t.Str? then [t] else if t.Arr? then t.items else [];
    matched := false;
    for i := 0 to |names|
      invariant matched <==> exists j :: 0 <= j < i && names[j].Str? && NameAccepts(names[j].s, v)
    {
      if names[i].Str? && NameAccepts(names[i].s, v) {
        matched := true;
      }
    }
    if t.Str? {
      assert names[0] == t;
    }
  }

  method ValidateRequired(fields: Fields, names: seq<Json>, path: Path, log: ErrorLog)
    modifies log
    ensures log.entries == old(log.entries) + RequiredProblems(fields, names, path)
  {
    hide Present;
    for i := 0 to |names|
      invariant log.entries == old(log.entries) + RequiredProblems(fields, names[..i], path)
    {
      assert names[..i + 1][..i] == names[..i];
      if names[i].Str? && !Present(fields, names[i]) {
        log.entries := log.entries + [MissingRequired(path + [Name(names[i].s)])];
      }
      PresentUnlessNamed(fields, names[i]);
    }
    assert names[..|names|] == names;
  }

  lemma PresentUnlessNamed(fields: Fields, name: Json)
    ensures !name.Str? ==> Present(fields, name)
  {
  }

  method ValidateExtras(fields: Fields, props: Fields, path: Path, log: ErrorLog)
    modifies log
    ensures log.entries == old(log.entries) + ExtraProblems(fields, props, path)
  {
    hide Has;
    for i := 0 to |fields|
      invariant log.entries == old(log.entries) + ExtraProblems(fields[..i], props, path)
    {
      assert fields[..i + 1][..i] == fields[..i];
      if !Has(props, fields[i].key) {
        log.entries := log.entries + [Disallowed(path + [Name(fields[i].key)])];
      }
    }
    assert fields[..|fields|] == fields;
  }

  method ValidateProperties(fields: Fields, props: Fields, path: Path, log: ErrorLog)
    modifies log
    ensures log.entries == old(log.entries) + PropertyProblems(fields, props, path)
    decreases props, 1
  {
    hide Problems;
    for i := 0 to |props|
      invariant log.entries == old(log.entries) + PropertyProblems(fields, props[..i], path)
    {
      assert props[..i + 1][..i] == props[..i];
      if Has(fields, props[i].key) {
        ValidateNode(Get(fields, props[i].key).value, props[i].value, path + [Name(props[i].key)], log);
      }
    }
    assert props[..|props|] == props;
  }

  method ValidateItems(items: seq<Json>, s: Json, path: Path, log: ErrorLog)
    modifies log
    ensures log.entries == old(log.entries) + ItemProblems(items, s, path)
    decreases s, 3
  {
    hide Problems;
    for i := 0 to |items|
      invariant log.entries == old(log.entries) + ItemProblems(items[..i], s, path)
    {
      assert items[..i + 1][..i] == items[..i];
      ValidateNode(items[i], s, path + [Index(i)], log);
    }
    assert items[..|items|] == items;
  }

  method ValidateObject(fields: Fields, s: Json, path: Path, log: ErrorLog)
    modifies log
    ensures log.entries == old(log.entries) + ObjectProblems(fields, s, path)
    decreases s, 1
  {
    ClosedHasProperties(s);
    hide RequiredProblems, PropertyProblems, ExtraProblems, RequiredNames, Closed;
    ValidateRequired(fields, RequiredNames(s), path, log);
    var props := PropertyFields(s);
    if props.Some? {
      ValidateProperties(fields, props.value, path, log);
      if Closed(s) {
        ValidateExtras(fields, props.value, path, log);
      }
    }
  }

  method ValidateScalars(v: Json, s: Json, path: Path, log: ErrorLog)
    modifies log
    ensures log.entries == old(log.entries) + RangeProblems(v, s, path) + LengthProblems(v, s, path)
  {
    hide AboveMin, BelowMax, LongEnough, ShortEnough;
    if v.Num? {
      if !AboveMin(s, AsReal(v.n)) {
        log.entries := log.entries + [BelowMinimum(path)];
      }
      if !BelowMax(s, AsReal(v.n)) {
        log.entries := log.entries + [AboveMaximum(path)];
      }
    }
    if v.Str? {
      if !LongEnough(s, v.s) {
        log.entries := log.entries + [TooShort(path)];
      }
      if !ShortEnough(s, v.s) {
        log.entries := log.entries + [TooLong(path)];
      }
    }
  }

  /** Appends the problems of one node; a type mismatch ends the visit at once. */
  method ValidateNode(v: Json, s: Json, path: Path, log: ErrorLog)
    modifies log
    ensures log.entries == old(log.entries) + Problems(v, s, path)
    decreases s, 2
  {
    hide *;
    NodeProblems(v, s, path);
    if !s.Obj? {
      return;
    }
    var t := Member(s, "type");
    if t.Some? {
      var matched := MatchType(t.value, v);
      if !matched {
        log.entries := log.entries + [WrongType(path)];
        return;
      }
    }
    CheckEnum(v, s, path, log);
    if v.Obj? {
      ValidateObject(v.fields, s, path, log);
    }
    ValidateArray(v, s, path, log);
    ValidateScalars(v, s, path, log);
  }

  lemma NodeProblems(v: Json, s: Json, path: Path)
    ensures Problems(v, s, path)
         == if !s.Obj? then []
            else if Member(s, "type").Some? && !TypeAccepts(Member(s, "type").value, v) then [WrongType(path)]
            else
              If(!EnumAllows(s, v), NotInEnum(path))
              + (if v.Obj? then ObjectProblems(v.fields, s, path) else [])
              + ArrayProblems(v, s, path)
              + (RangeProblems(v, s, path) + LengthProblems(v, s, path))
  {
    hide TypeAccepts, EnumAllows, ObjectProblems, ItemProblems, RangeProblems, LengthProblems, If, ArrayProblems;
  }

  method CheckEnum(v: Json, s: Json, path: Path, log: ErrorLog)
    modifies log
    ensures log.entries == old(log.entries) + If(!EnumAllows(s, v), NotInEnum(path))
  {
    hide EnumAllows;
    if !EnumAllows(s, v) {
      log.entries := log.entries + [NotInEnum(path)];
    }
  }

  method ValidateArray(v: Json, s: Json, path: Path, log: ErrorLog)
    modifies log
    ensures log.entries == old(log.entries) + ArrayProblems(v, s, path)
    decreases s, 1
  {
    hide ItemProblems;
    var items := Member(s, "items");
    if v.Arr? && items.Some? {
      ValidateItems(v.items, items.value, path, log);
    }
  }

  /**
   Accepts exactly the conforming values, and otherwise lists every problem. For values and schemas that name each field
   once, as parsed JSON does, that is: it accepts what meets every keyword, and lists exactly the problems there are.
   */
  method Validate(v: Json, s: Json) returns (r: Result<(), seq<Problem>>)
    ensures r.Ok? <==> Conforms(v, s)
    ensures r.Err? ==> r.error == Problems(v, s, []) != []
    ensures WellFormed(v) && WellFormed(s) ==>
      && (r.Ok? <==> SchemaMeaning.Meets(v, s))
      && (r.Err? ==> forall p :: p in r.error <==> SchemaMeaning.Told(v, s, p))
  {
    hide *;
    var log := new ErrorLog();
    ValidateNode(v, s, [], log);
    ConformsIffNoProblems(v, s, []);
    if WellFormed(v) && WellFormed(s) {
      SchemaMeaning.ConformsMeaning(v, s);
      SchemaMeaning.AllReported(v, s, []);
    }
    assert [] + Problems(v, s, []) == Problems(v, s, []);
    r := if log.entries == [] then Ok(()) else Err(log.entries);
  }
}
