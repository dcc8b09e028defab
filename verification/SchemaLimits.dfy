/** The structural check of a user-supplied JSON schema against a depth limit and a property limit. */
module SchemaLimits {
  import opened Prelude
  import opened Json
  import Text

  const TYPE_NAMES: set<string> := {"object", "array", "string", "number", "integer", "boolean", "bool", "null"}

  predicate IsTypeName(s: string) { Text.Lower(s) in TYPE_NAMES }

  predicate TypeIsValid(t: Json) {
    match t
    case Str(s) => IsTypeName(s)
    case Arr(items) => forall i :: 0 <= i < |items| ==> items[i].Str? && IsTypeName(items[i].s)
    case _ => false
  }

  /** The subschemas under `properties`, in order. */
  function PropertySchemas(s: Json): (r: seq<Json>)
    ensures forall i :: 0 <= i < |r| ==> r[i] < s
  {
    var p := Member(s, "properties");
    if p.Some? && p.value.Obj? then
      seq(|p.value.fields|, i requires 0 <= i < |p.value.fields| => p.value.fields[i].value)
    else []
  }

  /** The subschemas under `items`: one schema, or a list of them. */
  function ItemSchemas(s: Json): (r: seq<Json>)
    ensures forall i :: 0 <= i < |r| ==> r[i] < s
  {
    var items := Member(s, "items");
    if items.None? then []
    else if items.value.Obj? then [items.value]
    else if items.value.Arr? then items.value.items
    else []
  }

  predicate TypeKeywordIsValid(s: Json) {
    var t := Member(s, "type");
    t.Some? ==> TypeIsValid(t.value)
  }

  predicate PropertiesKeywordIsValid(s: Json) {
    var p := Member(s, "properties");
    p.Some? ==> p.value.Obj?
  }

  predicate ItemsKeywordIsValid(s: Json) {
    var i := Member(s, "items");
    i.Some? ==> i.value.Obj? || i.value.Arr? || i.value.Bool?
  }

  predicate ListKeywordsAreValid(s: Json) {
    var r, e := Member(s, "required"), Member(s, "enum");
    (r.Some? ==> r.value.Arr?) && (e.Some? ==> e.value.Arr?)
  }

  /** What a schema node may look like, apart from its subschemas. */
  predicate NodeIsValid(s: Json) {
    && s.Obj?
    && TypeKeywordIsValid(s)
    && PropertiesKeywordIsValid(s)
    && ItemsKeywordIsValid(s)
    && ListKeywordsAreValid(s)
  }

  ghost predicate SchemaIsValid(s: Json) {
    && NodeIsValid(s)
    && (forall i :: 0 <= i < |PropertySchemas(s)| ==> SchemaIsValid(PropertySchemas(s)[i]))
    && (forall i :: 0 <= i < |ItemSchemas(s)| ==> SchemaIsValid(ItemSchemas(s)[i]))
  }

  function Total(xs: seq<nat>): nat {
    if xs == [] then 0 else Total(xs[..|xs| - 1]) + xs[|xs| - 1]
  }

  function Greatest(xs: seq<nat>): nat {
    if xs == [] then 0 else Max(Greatest(xs[..|xs| - 1]), xs[|xs| - 1])
  }

  /** How many levels of subschemas lie below a schema. */
  function Depth(s: Json): nat {
    var ps, xs := PropertySchemas(s), ItemSchemas(s);
    Max(Greatest(seq(|ps|, i requires 0 <= i < |ps| => 1 + Depth(ps[i]))),
        Greatest(seq(|xs|, i requires 0 <= i < |xs| => 1 + Depth(xs[i]))))
  }

  /** How many properties a schema declares, at any depth: each property counts itself and what it declares. */
  function PropertyCount(s: Json): nat {
    var ps, xs := PropertySchemas(s), ItemSchemas(s);
    Total(seq(|ps|, i requires 0 <= i < |ps| => 1 + PropertyCount(ps[i])))
    + Total(seq(|xs|, i requires 0 <= i < |xs| => 0 + PropertyCount(xs[i])))
  }

  function Depths(subs: seq<Json>): seq<nat> { seq(|subs|, i requires 0 <= i < |subs| => 1 + Depth(subs[i])) }

  function Counts(subs: seq<Json>, each: nat): seq<nat> {
    seq(|subs|, i requires 0 <= i < |subs| => each + PropertyCount(subs[i]))
  }

  /** The schema may be used at this depth when this many properties were already counted. */
  ghost predicate Fits(s: Json, depth: nat, counted: nat, maxDepth: nat, maxProperties: nat) {
    SchemaIsValid(s) && depth + Depth(s) <= maxDepth && counted + PropertyCount(s) <= maxProperties
  }

  /** All of a list of subschemas fit one level down, one after the other; each adds `each` to the count itself. */
  ghost predicate AllFit(subs: seq<Json>, each: nat, depth: nat, counted: nat, maxDepth: nat, maxProperties: nat) {
    && (forall i :: 0 <= i < |subs| ==> SchemaIsValid(subs[i]))
    && depth + Greatest(Depths(subs)) <= maxDepth
    && counted + Total(Counts(subs, each)) <= maxProperties
  }

  lemma TotalsExtend(subs: seq<Json>, x: Json, each: nat)
    ensures Total(Counts(subs + [x], each)) == Total(Counts(subs, each)) + each + PropertyCount(x)
    ensures Greatest(Depths(subs + [x])) == Max(Greatest(Depths(subs)), 1 + Depth(x))
  {
    hide Depth, PropertyCount, PropertySchemas, ItemSchemas;
    CountsExtend(subs, x, each);
    assert Depths(subs + [x])[..|subs|] == Depths(subs);
    hide Total, Counts;
  }

  lemma CountsExtend(subs: seq<Json>, x: Json, each: nat)
    ensures Total(Counts(subs + [x], each)) == Total(Counts(subs, each)) + each + PropertyCount(x)
  {
    hide Depth, PropertyCount, PropertySchemas, ItemSchemas;
    assert Counts(subs + [x], each)[..|subs|] == Counts(subs, each);
  }

  lemma AllFitExtends(subs: seq<Json>, x: Json, each: nat, depth: nat, counted: nat, maxDepth: nat, maxProperties: nat)
    ensures AllFit(subs + [x], each, depth, counted, maxDepth, maxProperties)
      <==> (AllFit(subs, each, depth, counted, maxDepth, maxProperties)
            && Fits(x, depth + 1, counted + Total(Counts(subs, each)) + each, maxDepth, maxProperties))
  {
    TotalsExtend(subs, x, each);
    hide SchemaIsValid, Depth, PropertyCount, Depths, Counts, Total, Greatest;
    var all := subs + [x];
    assert all[|subs|] == x && forall i :: 0 <= i < |subs| ==> all[i] == subs[i];
  }

  lemma {:induction false} AllFitPrefix(subs: seq<Json>, n: nat, each: nat, depth: nat, counted: nat, maxDepth: nat,
      maxProperties: nat)
    requires n <= |subs| && AllFit(subs, each, depth, counted, maxDepth, maxProperties)
    ensures AllFit(subs[..n], each, depth, counted, maxDepth, maxProperties)
    decreases |subs|
  {
    hide AllFit, Fits, Counts, Total;
    if n < |subs| {
      var last := |subs| - 1;
      assert subs[..last] + [subs[last]] == subs;
      AllFitExtends(subs[..last], subs[last], each, depth, counted, maxDepth, maxProperties);
      AllFitPrefix(subs[..last], n, each, depth, counted, maxDepth, maxProperties);
      assert subs[..last][..n] == subs[..n];
    } else {
      assert subs[..n] == subs;
    }
  }

  lemma PartsOf(s: Json)
    ensures Depth(s) == Max(Greatest(Depths(PropertySchemas(s))), Greatest(Depths(ItemSchemas(s))))
    ensures PropertyCount(s) == Total(Counts(PropertySchemas(s), 1)) + Total(Counts(ItemSchemas(s), 0))
  {
    hide Greatest, Total, PropertySchemas, ItemSchemas;
    var ps, xs := PropertySchemas(s), ItemSchemas(s);
    assert Depths(ps) == seq(|ps|, i requires 0 <= i < |ps| => 1 + Depth(ps[i]));
    assert Depths(xs) == seq(|xs|, i requires 0 <= i < |xs| => 1 + Depth(xs[i]));
    assert Counts(ps, 1) == seq(|ps|, i requires 0 <= i < |ps| => 1 + PropertyCount(ps[i]));
    assert Counts(xs, 0) == seq(|xs|, i requires 0 <= i < |xs| => 0 + PropertyCount(xs[i]));
  }

  /** A schema fits exactly when its node is valid and its properties, then its items, fit. */
  lemma FitsByParts(s: Json, depth: nat, counted: nat, maxDepth: nat, maxProperties: nat)
    ensures var ps, xs := PropertySchemas(s), ItemSchemas(s);
      && PropertyCount(s) == Total(Counts(ps, 1)) + Total(Counts(xs, 0))
      && (Fits(s, depth, counted, maxDepth, maxProperties)
          <==> (NodeIsValid(s) && depth <= maxDepth && counted <= maxProperties
                && AllFit(ps, 1, depth, counted, maxDepth, maxProperties)
                && AllFit(xs, 0, depth, counted + Total(Counts(ps, 1)), maxDepth, maxProperties)))
  {
    PartsOf(s);
    hide Depth, PropertyCount, Depths, Counts, Total, Greatest, NodeIsValid, PropertySchemas, ItemSchemas;
  }

  // ---- The checker ----

  datatype SchemaError = TooDeep(depth: nat) | TooLarge(properties: nat) | Invalid

  /** The error names what is wrong with the schema: the level or the count is the first one beyond its limit. */
  ghost predicate Justified(e: SchemaError, s: Json, depth: nat, counted: nat, maxDepth: nat, maxProperties: nat) {
    match e
    case TooDeep(d) => d == Max(depth, maxDepth + 1) && depth + Depth(s) > maxDepth
    case TooLarge(n) => n == Max(counted, maxProperties + 1) && counted + PropertyCount(s) > maxProperties
    case Invalid => !SchemaIsValid(s)
  }

  /** The same for a list of subschemas. */
  ghost predicate ListJustified(e: SchemaError, subs: seq<Json>, each: nat, depth: nat, counted: nat, maxDepth: nat,
      maxProperties: nat)
  {
    match e
    case TooDeep(d) => d == maxDepth + 1 && depth + Greatest(Depths(subs)) > maxDepth
    case TooLarge(n) => n == maxProperties + 1 && counted + Total(Counts(subs, each)) > maxProperties
    case Invalid => exists i :: 0 <= i < |subs| && !SchemaIsValid(subs[i])
  }

  lemma {:induction false} GreatestMeaning(xs: seq<nat>)
    ensures forall x <- xs :: x <= Greatest(xs)
    ensures xs != [] ==> Greatest(xs) in xs
    ensures xs == [] ==> Greatest(xs) == 0
  {
    if xs != [] {
      GreatestMeaning(xs[..|xs| - 1]);
      assert xs == xs[..|xs| - 1] + [xs[|xs| - 1]];
    }
  }

  lemma DepthUnder(subs: seq<Json>, i: nat)
    requires i < |subs|
    ensures 1 + Depth(subs[i]) <= Greatest(Depths(subs))
  {
    GreatestMeaning(Depths(subs));
    hide Depth, Greatest;
    assert Depths(subs)[i] in Depths(subs);
  }

  lemma {:induction false} TotalGrows(subs: seq<Json>, n: nat, each: nat)
    requires n <= |subs|
    ensures Total(Counts(subs[..n], each)) <= Total(Counts(subs, each))
    decreases |subs|
  {
    hide Total, Counts, PropertyCount, Depth;
    if n < |subs| {
      var last := |subs| - 1;
      assert subs[..last] + [subs[last]] == subs && subs[..last][..n] == subs[..n];
      TotalsExtend(subs[..last], subs[last], each);
      TotalGrows(subs[..last], n, each);
    } else {
      assert subs[..n] == subs;
    }
  }

  /** What is wrong with one subschema is wrong with the list. */
  lemma ListFails(e: SchemaError, subs: seq<Json>, i: nat, each: nat, depth: nat, counted: nat, maxDepth: nat,
      maxProperties: nat)
    requires i < |subs| && depth <= maxDepth
    requires var before := counted + Total(Counts(subs[..i], each)) + each;
      before <= maxProperties && Justified(e, subs[i], depth + 1, before, maxDepth, maxProperties)
    ensures ListJustified(e, subs, each, depth, counted, maxDepth, maxProperties)
  {
    hide Total, Counts, PropertyCount, Depth, Depths, Greatest, SchemaIsValid, PropertySchemas, ItemSchemas;
    match e {
      case TooDeep(_) => DepthUnder(subs, i);
      case TooLarge(_) =>
        TotalsExtend(subs[..i], subs[i], each);
        assert subs[..i] + [subs[i]] == subs[..i + 1];
        TotalGrows(subs, i + 1, each);
      case Invalid =>
    }
  }

  /** One property too many. */
  lemma ListTooLarge(subs: seq<Json>, i: nat, depth: nat, counted: nat, maxDepth: nat, maxProperties: nat)
    requires i < |subs| && counted + Total(Counts(subs[..i], 1)) == maxProperties
    ensures ListJustified(TooLarge(maxProperties + 1), subs, 1, depth, counted, maxDepth, maxProperties)
  {
    VisitNext(subs, i, 1, depth, counted, maxDepth, maxProperties);
    TotalGrows(subs, i + 1, 1);
    hide Total, Counts, PropertyCount, AllFit, Fits;
  }

  /** What is wrong with a list of subschemas is wrong with the schema. */
  lemma SchemaFails(e: SchemaError, s: Json, depth: nat, counted: nat, maxDepth: nat, maxProperties: nat)
    requires depth <= maxDepth && counted <= maxProperties
    requires
      || ListJustified(e, PropertySchemas(s), 1, depth, counted, maxDepth, maxProperties)
      || ListJustified(e, ItemSchemas(s), 0, depth, counted + Total(Counts(PropertySchemas(s), 1)), maxDepth,
           maxProperties)
    ensures Justified(e, s, depth, counted, maxDepth, maxProperties)
  {
    PartsOf(s);
    hide Depth, PropertyCount, Depths, Counts, Total, Greatest, NodeIsValid, PropertySchemas, ItemSchemas;
  }

  /** What the node itself may have wrong. */
  lemma NodeFails(s: Json, depth: nat, counted: nat, maxDepth: nat, maxProperties: nat)
    ensures depth > maxDepth ==> Justified(TooDeep(depth), s, depth, counted, maxDepth, maxProperties)
    ensures counted > maxProperties ==> Justified(TooLarge(counted), s, depth, counted, maxDepth, maxProperties)
    ensures !NodeIsValid(s) ==> Justified(Invalid, s, depth, counted, maxDepth, maxProperties)
  {
    hide Depth, PropertyCount, NodeIsValid;
  }

  /** The running property count, shared by the whole recursion. */
  class PropertyCounter {
    var count: nat

    constructor ()
      ensures count == 0
    {
      count := 0;
    }
  }

  method ValidateType(t: Json) returns (ok: bool)
    ensures ok <==> TypeIsValid(t)
  {
    match t {
      case Str(s) => return IsTypeName(s);
      case Arr(items) =>
        for i := 0 to |items|
          invariant forall j :: 0 <= j < i ==> items[j].Str? && IsTypeName(items[j].s)
        {
          if !items[i].Str? || !IsTypeName(items[i].s) {
            return false;
          }
        }
        return true;
      case _ => return false;
    }
  }

  method CheckTypeKeyword(schema: Json) returns (ok: bool)
    ensures ok <==> TypeKeywordIsValid(schema)
  {
    hide TypeIsValid;
    var t := Member(schema, "type");
    if t.None? {
      return true;
    }
    ok := ValidateType(t.value);
  }

  lemma EmptyFits(each: nat, depth: nat, counted: nat, maxDepth: nat, maxProperties: nat)
    requires depth <= maxDepth && counted <= maxProperties
    ensures AllFit([], each, depth, counted, maxDepth, maxProperties)
    ensures Total(Counts([], each)) == 0
  {
  }

  /** What visiting the first `i` subschemas establishes about the next one. */
  lemma VisitNext(subs: seq<Json>, i: nat, each: nat, depth: nat, counted: nat, maxDepth: nat, maxProperties: nat)
    requires i < |subs|
    ensures Total(Counts(subs[..i + 1], each)) == Total(Counts(subs[..i], each)) + each + PropertyCount(subs[i])
    ensures AllFit(subs[..i + 1], each, depth, counted, maxDepth, maxProperties)
      <==> (AllFit(subs[..i], each, depth, counted, maxDepth, maxProperties)
            && Fits(subs[i], depth + 1, counted + Total(Counts(subs[..i], each)) + each, maxDepth, maxProperties))
    ensures AllFit(subs, each, depth, counted, maxDepth, maxProperties)
        ==> AllFit(subs[..i + 1], each, depth, counted, maxDepth, maxProperties)
  {
    hide AllFit, Fits, Counts, Total, PropertyCount, Depth;
    assert subs[..i] + [subs[i]] == subs[..i + 1];
    TotalsExtend(subs[..i], subs[i], each);
    AllFitExtends(subs[..i], subs[i], each, depth, counted, maxDepth, maxProperties);
    if AllFit(subs, each, depth, counted, maxDepth, maxProperties) {
      AllFitPrefix(subs, i + 1, each, depth, counted, maxDepth, maxProperties);
    }
  }

  /** Visits the subschemas under `properties`, counting each before visiting it. */
  method ValidateProperties(schema: Json, depth: nat, maxDepth: nat, counter: PropertyCounter, maxProperties: nat)
      returns (r: Result<(), SchemaError>)
    requires counter.count <= maxProperties && depth <= maxDepth
    modifies counter
    ensures r.Ok? <==> AllFit(PropertySchemas(schema), 1, depth, old(counter.count), maxDepth, maxProperties)
    ensures r.Ok? ==> counter.count == old(counter.count) + Total(Counts(PropertySchemas(schema), 1)) <= maxProperties
    ensures r.Err? ==>
      ListJustified(r.error, PropertySchemas(schema), 1, depth, old(counter.count), maxDepth, maxProperties)
    decreases schema, 0
  {
    var subs := PropertySchemas(schema);
    hide AllFit, ListJustified, Counts, Total, PropertyCount, PropertySchemas;
    EmptyFits(1, depth, counter.count, maxDepth, maxProperties);
    assert subs[..0] == [];
    for i := 0 to |subs|
      invariant counter.count == old(counter.count) + Total(Counts(subs[..i], 1)) <= maxProperties
      invariant AllFit(subs[..i], 1, depth, old(counter.count), maxDepth, maxProperties)
    {
      VisitNext(subs, i, 1, depth, old(counter.count), maxDepth, maxProperties);
      counter.count := counter.count + 1;
      if counter.count > maxProperties {
        ListTooLarge(subs, i, depth, old(counter.count), maxDepth, maxProperties);
        return Err(TooLarge(counter.count));
      }
      hide Fits, Justified;
      r := ValidateSubschema(subs[i], depth + 1, maxDepth, counter, maxProperties);
      if r.Err? {
        ListFails(r.error, subs, i, 1, depth, old(counter.count), maxDepth, maxProperties);
        return;
      }
    }
    assert subs[..|subs|] == subs;
    return Ok(());
  }

  /** Visits the subschemas under `items`. */
  method ValidateItems(schema: Json, depth: nat, maxDepth: nat, counter: PropertyCounter, maxProperties: nat)
      returns (r: Result<(), SchemaError>)
    requires counter.count <= maxProperties && depth <= maxDepth
    modifies counter
    ensures r.Ok? <==> AllFit(ItemSchemas(schema), 0, depth, old(counter.count), maxDepth, maxProperties)
    ensures r.Ok? ==> counter.count == old(counter.count) + Total(Counts(ItemSchemas(schema), 0)) <= maxProperties
    ensures r.Err? ==>
      ListJustified(r.error, ItemSchemas(schema), 0, depth, old(counter.count), maxDepth, maxProperties)
    decreases schema, 0
  {
    var subs := ItemSchemas(schema);
    hide AllFit, Justified, ListJustified, Counts, Total, PropertyCount, Fits, ItemSchemas;
    EmptyFits(0, depth, counter.count, maxDepth, maxProperties);
    assert subs[..0] == [];
    for i := 0 to |subs|
      invariant counter.count == old(counter.count) + Total(Counts(subs[..i], 0)) <= maxProperties
      invariant AllFit(subs[..i], 0, depth, old(counter.count), maxDepth, maxProperties)
    {
      VisitNext(subs, i, 0, depth, old(counter.count), maxDepth, maxProperties);
      r := ValidateSubschema(subs[i], depth + 1, maxDepth, counter, maxProperties);
      if r.Err? {
        ListFails(r.error, subs, i, 0, depth, old(counter.count), maxDepth, maxProperties);
        return;
      }
    }
    assert subs[..|subs|] == subs;
    return Ok(());
  }

  lemma NodeByKeywords(s: Json)
    ensures NodeIsValid(s)
       <==> (s.Obj? && TypeKeywordIsValid(s) && PropertiesKeywordIsValid(s) && ItemsKeywordIsValid(s)
             && ListKeywordsAreValid(s))
  {
    hide TypeKeywordIsValid, PropertiesKeywordIsValid, ItemsKeywordIsValid, ListKeywordsAreValid;
  }

  method ValidateSubschema(schema: Json, depth: nat, maxDepth: nat, counter: PropertyCounter, maxProperties: nat)
      returns (r: Result<(), SchemaError>)
    modifies counter
    ensures r.Ok? <==> Fits(schema, depth, old(counter.count), maxDepth, maxProperties)
    ensures r.Ok? ==> counter.count == old(counter.count) + PropertyCount(schema) <= maxProperties
    ensures r.Err? ==> Justified(r.error, schema, depth, old(counter.count), maxDepth, maxProperties)
    decreases schema, 1
  {
    hide *;
    FitsByParts(schema, depth, counter.count, maxDepth, maxProperties);
    NodeByKeywords(schema);
    NodeFails(schema, depth, counter.count, maxDepth, maxProperties);
    if depth > maxDepth {
      return Err(TooDeep(depth));
    }
    if counter.count > maxProperties {
      return Err(TooLarge(counter.count));
    }
    if !schema.Obj? {
      return Err(Invalid);
    }
    var typeOk := CheckTypeKeyword(schema);
    if !typeOk || !PropertiesKeywordIsValid(schema) {
      return Err(Invalid);
    }
    r := ValidateProperties(schema, depth, maxDepth, counter, maxProperties);
    if r.Err? {
      SchemaFails(r.error, schema, depth, old(counter.count), maxDepth, maxProperties);
      return;
    }
    if !ItemsKeywordIsValid(schema) {
      return Err(Invalid);
    }
    r := ValidateItems(schema, depth, maxDepth, counter, maxProperties);
    if r.Err? {
      SchemaFails(r.error, schema, depth, old(counter.count), maxDepth, maxProperties);
      return;
    }
    if !ListKeywordsAreValid(schema) {
      return Err(Invalid);
    }
    return Ok(());
  }

  /** Accepts exactly the valid schemas within both limits. */
  method ValidateSchema(schema: Json, maxDepth: nat, maxProperties: nat) returns (r: Result<(), SchemaError>)
    ensures r.Ok? <==> SchemaIsValid(schema) && Depth(schema) <= maxDepth && PropertyCount(schema) <= maxProperties
    ensures r.Err? ==> Justified(r.error, schema, 0, 0, maxDepth, maxProperties)
  {
    if !schema.Obj? {
      NodeFails(schema, 0, 0, maxDepth, maxProperties);
      return Err(Invalid);
    }
    var counter := new PropertyCounter();
    r := ValidateSubschema(schema, 0, maxDepth, counter, maxProperties);
  }
}
