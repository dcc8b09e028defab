/** The error-accumulating JSON schema validator, and the declarative conformance relation it decides. */
module Validation {
  import opened Prelude
  import opened SortedMap
  import opened Json
  import Canonical
  import Utf8

  datatype Step = Name(name: string) | Index(index: nat)

  type Path = seq<Step>

  datatype Problem =
    | WrongType(path: Path)
    | NotInEnum(path: Path)
    | MissingRequired(path: Path)
    | Disallowed(path: Path)
    | BelowMinimum(path: Path)
    | AboveMaximum(path: Path)
    | TooShort(path: Path)
    | TooLong(path: Path)

  function AsReal(n: Number): real { if n.Int? then n.i as real else n.r }

  predicate IsWhole(n: Number) { n.Int? || n.r.Floor as real == n.r }

  /** A JSON type name accepts a value; names are compared exactly, and unknown names accept nothing. */
  predicate NameAccepts(name: string, v: Json) {
    || (name == "object" && v.Obj?)
    || (name == "array" && v.Arr?)
    || (name == "string" && v.Str?)
    || (name == "number" && v.Num?)
    || (name == "integer" && v.Num? && IsWhole(v.n))
    || (name == "boolean" && v.Bool?)
    || (name == "null" && v.Null?)
  }

  predicate TypeAccepts(t: Json, v: Json) {
    match t
    case Str(name) => NameAccepts(name, v)
    case Arr(names) => exists i :: 0 <= i < |names| && names[i].Str? && NameAccepts(names[i].s, v)
    case _ => false
  }

  /** A missing `type` accepts everything. */
  predicate TypeMatches(s: Json, v: Json) {
    var t := Member(s, "type");
    t.Some? ==> TypeAccepts(t.value, v)
  }

  predicate EnumAllows(s: Json, v: Json) {
    var e := Member(s, "enum");
    e.Some? && e.value.Arr? ==> exists i :: 0 <= i < |e.value.items| && Canonical.SameUpToOrder(e.value.items[i], v)
  }

  function RequiredNames(s: Json): seq<Json> {
    var r := Member(s, "required");
    if r.Some? && r.value.Arr? then r.value.items else []
  }

  /** A required field must be there and must not be null. */
  predicate Present(fields: Fields, name: Json) {
    name.Str? ==> Has(fields, name.s) && !Get(fields, name.s).value.Null?
  }

  function PropertyFields(s: Json): (r: Option<Fields>)
    ensures r.Some? ==> forall i :: 0 <= i < |r.value| ==> r.value[i].value < s
  {
    var p := Member(s, "properties");
    if p.Some? && p.value.Obj? then Some(p.value.fields) else None
  }

  /** Extra fields are forbidden only by a literal `false`, and only beside `properties`. */
  predicate Closed(s: Json) {
    PropertyFields(s).Some? && Member(s, "additionalProperties") == Some(Bool(false))
  }

  function NumberMember(s: Json, name: string): Option<real> {
    var m := Member(s, name);
    if m.Some? && m.value.Num? then Some(AsReal(m.value.n)) else None
  }

  function LengthMember(s: Json, name: string): Option<int> {
    var m := Member(s, name);
    if m.Some? && m.value.Num? && m.value.n.Int? && m.value.n.i >= 0 then Some(m.value.n.i) else None
  }

  predicate AboveMin(s: Json, x: real) {
    var m := NumberMember(s, "minimum");
    m.Some? ==> m.value <= x
  }

  predicate BelowMax(s: Json, x: real) {
    var m := NumberMember(s, "maximum");
    m.Some? ==> x <= m.value
  }

  /** Lengths count UTF-8 bytes. */
  predicate LongEnough(s: Json, text: string) {
    var m := LengthMember(s, "minLength");
    m.Some? ==> m.value <= |Utf8.Encode(text)|
  }

  predicate ShortEnough(s: Json, text: string) {
    var m := LengthMember(s, "maxLength");
    m.Some? ==> |Utf8.Encode(text)| <= m.value
  }

  /** The value meets every constraint of the schema, at every depth. */
  ghost predicate Conforms(v: Json, s: Json)
    decreases s
  {
    s.Obj? ==>
      && TypeMatches(s, v)
      && EnumAllows(s, v)
      && (v.Obj? ==> FieldsConform(v.fields, s))
      && (v.Arr? && Member(s, "items").Some? ==>
            forall i :: 0 <= i < |v.items| ==> Conforms(v.items[i], Member(s, "items").value))
      && (v.Num? ==> AboveMin(s, AsReal(v.n)) && BelowMax(s, AsReal(v.n)))
      && (v.Str? ==> LongEnough(s, v.s) && ShortEnough(s, v.s))
  }

  ghost predicate FieldsConform(fields: Fields, s: Json)
    decreases s, 0
  {
    && (forall i :: 0 <= i < |RequiredNames(s)| ==> Present(fields, RequiredNames(s)[i]))
    && (PropertyFields(s).Some? ==>
          var props := PropertyFields(s).value;
          forall i :: 0 <= i < |props| && Has(fields, props[i].key) ==>
            Conforms(Get(fields, props[i].key).value, props[i].value))
    && (Closed(s) ==> forall i :: 0 <= i < |fields| ==> Has(PropertyFields(s).value, fields[i].key))
  }

  // ---- The list of problems, in the order the validator finds them ----

  function If(problem: bool, p: Problem): seq<Problem> { if problem then [p] else [] }

  function RequiredProblems(fields: Fields, names: seq<Json>, path: Path): seq<Problem> {
    if names == [] then []
    else
      var last := names[|names| - 1];
      RequiredProblems(fields, names[..|names| - 1], path)
      + if Present(fields, last) then [] else [MissingRequired(path + [Name(last.s)])]
  }

  function PropertyProblems(fields: Fields, props: Fields, path: Path): seq<Problem>
    decreases props, 1
  {
    if props == [] then []
    else
      var last := props[|props| - 1];
      PropertyProblems(fields, props[..|props| - 1], path)
      + if Has(fields, last.key) then Problems(Get(fields, last.key).value, last.value, path + [Name(last.key)]) else []
  }

  function ExtraProblems(fields: Fields, props: Fields, path: Path): seq<Problem> {
    if fields == [] then []
    else
      var last := fields[|fields| - 1];
      ExtraProblems(fields[..|fields| - 1], props, path)
      + If(!Has(props, last.key), Disallowed(path + [Name(last.key)]))
  }

  function ItemProblems(items: seq<Json>, s: Json, path: Path): seq<Problem>
    decreases s, 3, |items|
  {
    if items == [] then []
    else
      var n := |items| - 1;
      ItemProblems(items[..n], s, path) + Problems(items[n], s, path + [Index(n)])
  }

  function ObjectProblems(fields: Fields, s: Json, path: Path): seq<Problem>
    decreases s, 1
  {
    var props := PropertyFields(s);
    RequiredProblems(fields, RequiredNames(s), path)
    + (if props.Some? then PropertyProblems(fields, props.value, path) else [])
    + (if Closed(s) then ExtraProblems(fields, props.value, path) else [])
  }

  function RangeProblems(v: Json, s: Json, path: Path): seq<Problem> {
    if v.Num? then
      If(!AboveMin(s, AsReal(v.n)), BelowMinimum(path)) + If(!BelowMax(s, AsReal(v.n)), AboveMaximum(path))
    else []
  }

  function LengthProblems(v: Json, s: Json, path: Path): seq<Problem> {
    if v.Str? then If(!LongEnough(s, v.s), TooShort(path)) + If(!ShortEnough(s, v.s), TooLong(path)) else []
  }

  function ArrayProblems(v: Json, s: Json, path: Path): seq<Problem>
    decreases s, 1
  {
    var items := Member(s, "items");
    if v.Arr? && items.Some? then ItemProblems(v.items, items.value, path) else []
  }

  function Problems(v: Json, s: Json, path: Path): seq<Problem>
    decreases s, 2
  {
    if !s.Obj? then []
    else if !TypeMatches(s, v) then [WrongType(path)]
    else
      If(!EnumAllows(s, v), NotInEnum(path))
      + (if v.Obj? then ObjectProblems(v.fields, s, path) else [])
      + ArrayProblems(v, s, path)
      + RangeProblems(v, s, path)
      + LengthProblems(v, s, path)
  }
}
