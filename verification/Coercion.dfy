/** Deterministic coercion of a JSON value towards a schema, as a function of the value and the schema. */
module Coercion {
  import opened Prelude
  import opened SortedMap
  import opened Json
  import opened Validation

  /** What the standard library makes of text: trimming, number parsing, case folding and number printing. */
  datatype Lexer = Lexer(
    floatOf: string -> Option<real>,
    intOf: string -> Option<int>,
    folded: string -> string,
    show: Number -> string)

  datatype Missing = Omit | AsNull | AsError

  const MIN_I64: int := -0x8000_0000_0000_0000
  const MAX_I64: int := 0x7FFF_FFFF_FFFF_FFFF

  /** Rounds half away from zero, then saturates to 64 bits. */
  function RoundToI64(r: real): int {
    var n := if r >= 0.0 then (r + 0.5).Floor else -((0.5 - r).Floor);
    Max(MIN_I64, Min(MAX_I64, n))
  }

  const TRUE_WORDS: set<string> := {"true", "yes", "1", "in_stock", "instock"}
  const FALSE_WORDS: set<string> := {"false", "no", "0", "out_of_stock", "outofstock"}

  datatype Kind = ObjectKind | ArrayKind | NumberKind | IntegerKind | BooleanKind | StringKind | OtherKind

  /** What a schema asks for; without a single type name it asks for an object. */
  function KindOf(s: Json): Kind {
    var t := Member(s, "type");
    var name := if t.Some? && t.value.Str? then t.value.s else "object";
    if name == "object" then ObjectKind
    else if name == "array" then ArrayKind
    else if name == "number" then NumberKind
    else if name == "integer" then IntegerKind
    else if name == "boolean" then BooleanKind
    else if name == "string" then StringKind
    else OtherKind
  }

  function ToNumber(x: Lexer, v: Json): Json {
    if v.Str? && x.floatOf(v.s).Some? then Num(Float(x.floatOf(v.s).value)) else v
  }

  function ToInteger(x: Lexer, v: Json): Json {
    if v.Num? && v.n.Float? then Num(Int(RoundToI64(v.n.r)))
    else if v.Str? && x.intOf(v.s).Some? then Num(Int(x.intOf(v.s).value))
    else v
  }

  function ToBoolean(x: Lexer, v: Json): Json {
    if v.Str? && x.folded(v.s) in TRUE_WORDS then Bool(true)
    else if v.Str? && x.folded(v.s) in FALSE_WORDS then Bool(false)
    else v
  }

  function ToText(x: Lexer, v: Json): Json {
    if v.Num? then Str(x.show(v.n)) else if v.Bool? then Str(if v.b then "true" else "false") else v
  }

  function ToScalar(x: Lexer, v: Json, kind: Kind): Json {
    match kind
    case NumberKind => ToNumber(x, v)
    case IntegerKind => ToInteger(x, v)
    case BooleanKind => ToBoolean(x, v)
    case StringKind => ToText(x, v)
    case _ => v
  }

  /** The fields to start from: a value that is not an object has none. */
  function FieldsOf(v: Json): Fields { if v.Obj? then v.fields else [] }

  /** The items to start from: a value that is not an array is a list of itself. */
  function ItemsOf(v: Json): seq<Json> { if v.Arr? then v.items else [v] }

  function PropsOf(s: Json): (r: Fields)
    ensures forall i :: 0 <= i < |r| ==> r[i].value < s
  {
    var p := PropertyFields(s);
    if p.Some? then p.value else []
  }

  /** Null fields for the declared properties that are not there. */
  function NullsFor(fields: Fields, props: Fields, mode: Missing): Fields {
    if props == [] || mode != AsNull then []
    else
      var last := props[|props| - 1].key;
      NullsFor(fields, props[..|props| - 1], mode) + if Has(fields, last) then [] else [Entry(last, Null)]
  }

  function Coerce(x: Lexer, v: Json, s: Json, mode: Missing): Json
    decreases s, 1
  {
    if !s.Obj? then v
    else match KindOf(s)
      case ObjectKind =>
        var fields, props := FieldsOf(v), PropertyFields(s);
        Obj(if props.None? then fields
            else CoerceFields(x, fields, props.value, mode) + NullsFor(fields, props.value, mode))
      case ArrayKind =>
        var items, sub := ItemsOf(v), Member(s, "items");
        Arr(if sub.None? then items
            else seq(|items|, i requires 0 <= i < |items| => Coerce(x, items[i], sub.value, mode)))
      case kind => ToScalar(x, v, kind)
  }

  /** Declared fields are coerced where they stand; other fields stay as they are. */
  function CoerceFields(x: Lexer, fields: Fields, props: Fields, mode: Missing): (r: Fields)
    ensures |r| == |fields|
    ensures forall i :: 0 <= i < |fields| ==> r[i].key == fields[i].key
    decreases props, 0
  {
    seq(|fields|, i requires 0 <= i < |fields| =>
      var j := IndexOf(props, fields[i].key);
      if j < |props| then Entry(fields[i].key, Coerce(x, fields[i].value, props[j].value, mode)) else fields[i])
  }

  function CoerceItems(x: Lexer, items: seq<Json>, sub: Json, mode: Missing): seq<Json> {
    seq(|items|, i requires 0 <= i < |items| => Coerce(x, items[i], sub, mode))
  }

  lemma CoerceArray(x: Lexer, v: Json, s: Json, mode: Missing)
    requires s.Obj? && KindOf(s) == ArrayKind
    ensures Coerce(x, v, s, mode) == Arr(if Member(s, "items").None? then ItemsOf(v)
                                         else CoerceItems(x, ItemsOf(v), Member(s, "items").value, mode))
  {
  }

  lemma CoerceObject(x: Lexer, v: Json, s: Json, mode: Missing)
    requires s.Obj? && KindOf(s) == ObjectKind
    ensures Coerce(x, v, s, mode)
         == Obj(CoerceFields(x, FieldsOf(v), PropsOf(s), mode) + NullsFor(FieldsOf(v), PropsOf(s), mode))
  {
    if PropertyFields(s).None? {
      assert CoerceFields(x, FieldsOf(v), [], mode) == FieldsOf(v);
    }
  }

  lemma CoerceScalar(x: Lexer, v: Json, s: Json, mode: Missing)
    requires s.Obj? && KindOf(s) != ObjectKind && KindOf(s) != ArrayKind
    ensures Coerce(x, v, s, mode) == ToScalar(x, v, KindOf(s))
  {
  }

  /** The field at a position of a coerced object. */
  lemma CoercedField(x: Lexer, fields: Fields, props: Fields, mode: Missing, i: nat)
    requires i < |fields|
    ensures var j := IndexOf(props, fields[i].key);
      CoerceFields(x, fields, props, mode)[i] ==
        if j < |props| then Entry(fields[i].key, Coerce(x, fields[i].value, props[j].value, mode)) else fields[i]
  {
  }

  lemma ScalarIdempotent(x: Lexer, v: Json, kind: Kind)
    ensures ToScalar(x, ToScalar(x, v, kind), kind) == ToScalar(x, v, kind)
  {
  }

  // ---- One pass is enough when missing properties are not filled in ----

  lemma CoerceAgain(x: Lexer, fields: Fields, props: Fields, mode: Missing)
    requires forall i, j :: 0 <= i < |fields| && j == IndexOf(props, fields[i].key) && j < |props| ==>
      Coerce(x, Coerce(x, fields[i].value, props[j].value, mode), props[j].value, mode)
      == Coerce(x, fields[i].value, props[j].value, mode)
    ensures var once := CoerceFields(x, fields, props, mode); CoerceFields(x, once, props, mode) == once
  {
    var once := CoerceFields(x, fields, props, mode);
    var twice := CoerceFields(x, once, props, mode);
    hide Coerce;
    forall i | 0 <= i < |fields| ensures twice[i] == once[i] {
      hide CoerceFields;
      CoercedField(x, fields, props, mode, i);
      CoercedField(x, once, props, mode, i);
    }
  }

  /** Under `Omit` and `AsError` a second coercion changes nothing, for every value and every schema. */
  lemma {:induction false} CoerceIdempotent(x: Lexer, v: Json, s: Json, mode: Missing)
    requires mode != AsNull
    ensures Coerce(x, Coerce(x, v, s, mode), s, mode) == Coerce(x, v, s, mode)
    decreases s
  {
    if s.Obj? {
      if KindOf(s) == ObjectKind {
        ObjectIdempotent(x, v, s, mode);
      } else if KindOf(s) == ArrayKind {
        ArrayIdempotent(x, v, s, mode);
      } else {
        CoerceScalar(x, v, s, mode);
        CoerceScalar(x, ToScalar(x, v, KindOf(s)), s, mode);
        ScalarIdempotent(x, v, KindOf(s));
        hide ToScalar, KindOf, Coerce;
      }
    }
  }

  lemma CoercePlainObject(x: Lexer, v: Json, s: Json, mode: Missing)
    requires s.Obj? && KindOf(s) == ObjectKind && mode != AsNull
    ensures Coerce(x, v, s, mode) == Obj(CoerceFields(x, FieldsOf(v), PropsOf(s), mode))
  {
    CoerceObject(x, v, s, mode);
    hide Coerce, CoerceFields, KindOf, PropsOf, FieldsOf;
    var c := CoerceFields(x, FieldsOf(v), PropsOf(s), mode);
    assert c + [] == c;
  }

  lemma {:induction false} ObjectIdempotent(x: Lexer, v: Json, s: Json, mode: Missing)
    requires mode != AsNull && s.Obj? && KindOf(s) == ObjectKind
    ensures Coerce(x, Coerce(x, v, s, mode), s, mode) == Coerce(x, v, s, mode)
    decreases s, 0
  {
    hide Coerce, CoerceFields, KindOf, PropsOf, IndexOf;
    var fields, props := FieldsOf(v), PropsOf(s);
    forall i, j | 0 <= i < |fields| && j == IndexOf(props, fields[i].key) && j < |props|
      ensures Coerce(x, Coerce(x, fields[i].value, props[j].value, mode), props[j].value, mode)
           == Coerce(x, fields[i].value, props[j].value, mode)
    {
      CoerceIdempotent(x, fields[i].value, props[j].value, mode);
    }
    CoerceAgain(x, fields, props, mode);
    var once := CoerceFields(x, fields, props, mode);
    CoercePlainObject(x, v, s, mode);
    CoercePlainObject(x, Obj(once), s, mode);
  }

  lemma {:induction false} ArrayIdempotent(x: Lexer, v: Json, s: Json, mode: Missing)
    requires mode != AsNull && s.Obj? && KindOf(s) == ArrayKind
    ensures Coerce(x, Coerce(x, v, s, mode), s, mode) == Coerce(x, v, s, mode)
    decreases s, 0
  {
    var items, sub := ItemsOf(v), Member(s, "items");
    CoerceArray(x, v, s, mode);
    if sub.Some? {
      var once := CoerceItems(x, items, sub.value, mode);
      CoerceArray(x, Arr(once), s, mode);
      forall i | 0 <= i < |items|
        ensures Coerce(x, once[i], sub.value, mode) == once[i]
      {
        CoerceIdempotent(x, items[i], sub.value, mode);
      }
      assert CoerceItems(x, once, sub.value, mode) == once;
    } else {
      CoerceArray(x, Arr(items), s, mode);
    }
    hide Coerce, KindOf, Member, CoerceItems;
  }
}
