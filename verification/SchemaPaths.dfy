/** The two limits and the validity of a schema, told by the paths to its subschemas. */
module SchemaPaths {
  import opened Prelude
  import opened Json
  import opened SchemaLimits
  import Text

  /** A declared property, or a schema under `items`, by position. */
  datatype Step = Property(i: nat) | ItemAt(i: nat)

  type Path = seq<Step>

  /** The subschema one step down. */
  function Below(s: Json, step: Step): (r: Option<Json>)
    ensures r.Some? ==> r.value < s
  {
    match step
    case Property(i) =>
      var p := Member(s, "properties");
      if p.Some? && p.value.Obj? && i < |p.value.fields| then Some(p.value.fields[i].value) else None
    case ItemAt(i) =>
      var m := Member(s, "items");
      if m.Some? && m.value.Obj? && i == 0 then m
      else if m.Some? && m.value.Arr? && i < |m.value.items| then Some(m.value.items[i])
      else None
  }

  function SubAt(s: Json, path: Path): Option<Json> {
    if path == [] then Some(s)
    else
      var sub := Below(s, path[0]);
      if sub.None? then None else SubAt(sub.value, path[1..])
  }

  /** A name of a type, in any case of letters. */
  ghost predicate NamesType(t: Json) {
    t.Str? && Text.Lower(t.s) in {"object", "array", "string", "number", "integer", "boolean", "bool", "null"}
  }

  /** One schema, apart from those below it: every keyword is absent or of the right shape. */
  ghost predicate Shaped(s: Json) {
    && s.Obj?
    && (Member(s, "type").Some? ==>
          var t := Member(s, "type").value; NamesType(t) || (t.Arr? && forall n <- t.items :: NamesType(n)))
    && (Member(s, "properties").Some? ==> Member(s, "properties").value.Obj?)
    && (Member(s, "items").Some? ==> var m := Member(s, "items").value; m.Obj? || m.Arr? || m.Bool?)
    && (Member(s, "required").Some? ==> Member(s, "required").value.Arr?)
    && (Member(s, "enum").Some? ==> Member(s, "enum").value.Arr?)
  }

  lemma NodeMeaning(s: Json)
    ensures NodeIsValid(s) <==> Shaped(s)
  {
    var t := Member(s, "type");
    hide Member, Text.Lower;
    if t.Some? && t.value.Arr? {
      assert forall i :: 0 <= i < |t.value.items| ==> t.value.items[i] in t.value.items;
    }
  }

  /** The schemas under `properties`, or those under `items`. */
  function Subs(s: Json, declared: bool): (r: seq<Json>)
    ensures forall i :: 0 <= i < |r| ==> r[i] < s
  {
    if declared then PropertySchemas(s) else ItemSchemas(s)
  }

  lemma SubsMeaning(s: Json)
    ensures Subs(s, true) == PropertySchemas(s) && Subs(s, false) == ItemSchemas(s)
  {
  }

  /** The schemas one step down are those under `properties` and those under `items`. */
  lemma BelowMeaning(s: Json, step: Step)
    ensures step.Property? ==>
      Below(s, step) == if step.i < |PropertySchemas(s)| then Some(PropertySchemas(s)[step.i]) else None
    ensures step.ItemAt? ==>
      Below(s, step) == if step.i < |ItemSchemas(s)| then Some(ItemSchemas(s)[step.i]) else None
  {
    hide Member;
  }

  // ---- Validity ----

  ghost predicate AllShaped(s: Json) {
    forall path :: SubAt(s, path).Some? ==> Shaped(SubAt(s, path).value)
  }

  lemma ShapedBelow(s: Json)
    ensures AllShaped(s) <==> Shaped(s) && forall step :: Below(s, step).Some? ==> AllShaped(Below(s, step).value)
  {
    hide Shaped, Below;
    if AllShaped(s) {
      assert SubAt(s, []) == Some(s);
      forall step | Below(s, step).Some? ensures AllShaped(Below(s, step).value) {
        forall path | SubAt(Below(s, step).value, path).Some? ensures Shaped(SubAt(Below(s, step).value, path).value) {
          var longer := [step] + path;
          assert longer[1..] == path;
          assert SubAt(s, longer) == SubAt(Below(s, step).value, path);
        }
      }
    }
    if Shaped(s) && forall step :: Below(s, step).Some? ==> AllShaped(Below(s, step).value) {
      forall path | SubAt(s, path).Some? ensures Shaped(SubAt(s, path).value) {
        if path != [] {
          assert AllShaped(Below(s, path[0]).value);
          assert SubAt(s, path) == SubAt(Below(s, path[0]).value, path[1..]);
        }
      }
    }
  }

  /** A schema is valid if and only if every schema that a path leads to is of the right shape. */
  lemma {:induction false} ValidMeaning(s: Json)
    ensures SchemaIsValid(s) <==> AllShaped(s)
    decreases s
  {
    var ps, xs := PropertySchemas(s), ItemSchemas(s);
    NodeMeaning(s);
    ShapedBelow(s);
    forall step: Step
      ensures step.Property? ==> Below(s, step) == if step.i < |ps| then Some(ps[step.i]) else None
      ensures step.ItemAt? ==> Below(s, step) == if step.i < |xs| then Some(xs[step.i]) else None
    {
      BelowMeaning(s, step);
    }
    forall i | 0 <= i < |ps|
      ensures SchemaIsValid(ps[i]) <==> AllShaped(ps[i])
      ensures Below(s, Property(i)) == Some(ps[i])
    {
      ValidMeaning(ps[i]);
    }
    forall i | 0 <= i < |xs|
      ensures SchemaIsValid(xs[i]) <==> AllShaped(xs[i])
      ensures Below(s, ItemAt(i)) == Some(xs[i])
    {
      ValidMeaning(xs[i]);
    }
    hide NodeIsValid, Shaped, AllShaped, PropertySchemas, ItemSchemas, Below;
  }

  // ---- Depth ----

  /** The depth is the length of a longest path. */
  ghost predicate IsDepth(s: Json, d: nat) {
    && (forall path :: SubAt(s, path).Some? ==> |path| <= d)
    && exists path :: SubAt(s, path).Some? && |path| == d
  }

  lemma {:induction false} DepthMeaning(s: Json)
    ensures IsDepth(s, Depth(s))
    decreases s
  {
    var ps, xs := PropertySchemas(s), ItemSchemas(s);
    PartsOf(s);
    GreatestMeaning(Depths(ps));
    GreatestMeaning(Depths(xs));
    forall i | 0 <= i < |ps| ensures IsDepth(ps[i], Depth(ps[i])) {
      DepthMeaning(ps[i]);
    }
    forall i | 0 <= i < |xs| ensures IsDepth(xs[i], Depth(xs[i])) {
      DepthMeaning(xs[i]);
    }
    hide Depth, Greatest, PropertySchemas, ItemSchemas, IsDepth;
    forall path | SubAt(s, path).Some? ensures |path| <= Depth(s) {
      if path != [] { PathFits(s, path); }
    }
    if Depth(s) == 0 {
      assert SubAt(s, []) == Some(s);
    } else if Greatest(Depths(ps)) == Depth(s) {
      var i :| 0 <= i < |Depths(ps)| && Depths(ps)[i] == Depth(s);
      LongestUnder(s, Property(i), ps[i]);
    } else {
      var i :| 0 <= i < |Depths(xs)| && Depths(xs)[i] == Depth(s);
      LongestUnder(s, ItemAt(i), xs[i]);
    }
    assert IsDepth(s, Depth(s)) by { DepthFound(s); }
  }

  lemma DepthFound(s: Json)
    requires forall path :: SubAt(s, path).Some? ==> |path| <= Depth(s)
    requires exists path :: SubAt(s, path).Some? && |path| == Depth(s)
    ensures IsDepth(s, Depth(s))
  {
    hide Depth, SubAt;
  }

  lemma ShorterThan(s: Json, path: Path, sub: Json)
    requires SubAt(s, path).Some? && path != [] && Below(s, path[0]) == Some(sub) && IsDepth(sub, Depth(sub))
    ensures |path| <= 1 + Depth(sub)
  {
    hide Depth, Below;
    assert SubAt(sub, path[1..]).Some?;
  }

  lemma PathFits(s: Json, path: Path)
    requires SubAt(s, path).Some? && path != []
    requires forall i :: 0 <= i < |PropertySchemas(s)| ==> IsDepth(PropertySchemas(s)[i], Depth(PropertySchemas(s)[i]))
    requires forall i :: 0 <= i < |ItemSchemas(s)| ==> IsDepth(ItemSchemas(s)[i], Depth(ItemSchemas(s)[i]))
    ensures |path| <= Depth(s)
  {
    hide *;
    PartsOf(s);
    BelowMeaning(s, path[0]);
    var i, subs := path[0].i, Subs(s, path[0].Property?);
    SubsMeaning(s);
    StepTaken(s, path);
    DepthUnder(subs, i);
    ShorterThan(s, path, subs[i]);
    GreaterOf(Greatest(Depths(PropertySchemas(s))), Greatest(Depths(ItemSchemas(s))));
  }

  lemma GreaterOf(a: nat, b: nat)
    ensures a <= Max(a, b) && b <= Max(a, b)
  {
  }

  lemma StepTaken(s: Json, path: Path)
    requires SubAt(s, path).Some? && path != []
    ensures Below(s, path[0]).Some?
  {
  }

  lemma LongestUnder(s: Json, step: Step, sub: Json)
    requires IsDepth(sub, Depth(sub)) && Depth(s) == 1 + Depth(sub)
    requires step.Property? ==> step.i < |PropertySchemas(s)| && PropertySchemas(s)[step.i] == sub
    requires step.ItemAt? ==> step.i < |ItemSchemas(s)| && ItemSchemas(s)[step.i] == sub
    ensures exists path :: SubAt(s, path).Some? && |path| == Depth(s)
  {
    BelowMeaning(s, step);
    hide Depth, PropertySchemas, ItemSchemas, Below;
    var path :| SubAt(sub, path).Some? && |path| == Depth(sub);
    var longer := [step] + path;
    assert longer[1..] == path;
    assert SubAt(s, longer) == SubAt(sub, path);
  }

  // ---- The number of properties ----

  /** Paths that start with this step. */
  function Prefixed(step: Step, paths: seq<Path>): seq<Path> {
    seq(|paths|, i requires 0 <= i < |paths| => [step] + paths[i])
  }

  function StepTo(i: nat, declared: bool): Step { if declared then Property(i) else ItemAt(i) }

  /** The paths to the declared properties of a schema, at any depth. */
  function Positions(s: Json): seq<Path>
    decreases s, |Subs(s, true)| + |Subs(s, false)| + 1
  {
    Under(s, |Subs(s, true)|, true) + Under(s, |Subs(s, false)|, false)
  }

  /** Those that go through the first schemas under `properties`, or under `items`. */
  function Under(s: Json, n: nat, declared: bool): seq<Path>
    requires n <= |Subs(s, declared)|
    decreases s, n
  {
    if n == 0 then []
    else
      var step := StepTo(n - 1, declared);
      Under(s, n - 1, declared) + (Own(step) + Prefixed(step, Positions(Subs(s, declared)[n - 1])))
  }

  /** The step itself leads to a declared property if it goes through `properties`. */
  function Own(step: Step): seq<Path> { if step.Property? then [[step]] else [] }

  lemma UnderNext(s: Json, n: nat, declared: bool)
    requires n < |Subs(s, declared)|
    ensures var step := StepTo(n, declared);
      Under(s, n + 1, declared) == Under(s, n, declared) + (Own(step) + Prefixed(step, Positions(Subs(s, declared)[n])))
  {
    hide Positions, Subs, Prefixed, StepTo, Own;
  }

  lemma {:induction false} CountUnder(s: Json, n: nat, declared: bool)
    requires n <= |Subs(s, declared)|
    ensures |Under(s, n, declared)| == Total(Counts(Subs(s, declared)[..n], if declared then 1 else 0))
    decreases s, n
  {
    if n == 0 {
      hide *;
      EmptyUnder(s, declared);
      assert Subs(s, declared)[..0] == [];
    } else {
      var m: nat := n - 1;
      assert m + 1 == n;
      CountUnder(s, m, declared);
      CountIsPositions(Subs(s, declared)[m]);
      hide *;
      CountNext(s, m, declared);
    }
  }

  lemma CountNext(s: Json, n: nat, declared: bool)
    requires n < |Subs(s, declared)|
    requires PropertyCount(Subs(s, declared)[n]) == |Positions(Subs(s, declared)[n])|
    requires |Under(s, n, declared)| == Total(Counts(Subs(s, declared)[..n], if declared then 1 else 0))
    ensures |Under(s, n + 1, declared)| == Total(Counts(Subs(s, declared)[..n + 1], if declared then 1 else 0))
  {
    hide *;
    var subs, step := Subs(s, declared), StepTo(n, declared);
    TotalsExtend(subs[..n], subs[n], if declared then 1 else 0);
    UnderNext(s, n, declared);
    OneMoreLength(step, Positions(subs[n]));
    StepIs(step, n, declared);
    assert subs[..n] + [subs[n]] == subs[..n + 1];
  }

  lemma OneMoreLength(step: Step, paths: seq<Path>)
    ensures |Own(step) + Prefixed(step, paths)| == (if step.Property? then 1 else 0) + |paths|
  {
  }

  lemma EmptyUnder(s: Json, declared: bool)
    ensures Under(s, 0, declared) == [] && forall each: nat :: Total(Counts([], each)) == 0
  {
    forall each: nat ensures Total(Counts([], each)) == 0 { assert Counts([], each) == []; }
    hide Subs;
  }

  /** The property count is the number of paths to declared properties. */
  lemma {:induction false} CountIsPositions(s: Json)
    ensures PropertyCount(s) == |Positions(s)|
    decreases s, |Subs(s, true)| + |Subs(s, false)| + 1
  {
    var ps, xs := Subs(s, true), Subs(s, false);
    PartsOf(s);
    SubsMeaning(s);
    CountUnder(s, |ps|, true);
    CountUnder(s, |xs|, false);
    assert ps[..|ps|] == ps && xs[..|xs|] == xs;
    hide PropertyCount, Under, Total, Counts, PropertySchemas, ItemSchemas, Subs;
  }

  /** The path leads to a declared property. */
  ghost predicate IsPosition(s: Json, path: Path) {
    path != [] && path[|path| - 1].Property? && SubAt(s, path).Some?
  }

  lemma IsPositionBelow(s: Json, path: Path)
    requires path != []
    ensures IsPosition(s, path)
       <==> var sub := Below(s, path[0]);
            sub.Some? && if |path| == 1 then path[0].Property? else IsPosition(sub.value, path[1..])
  {
    hide Below;
    var rest := path[1..];
    assert |path| > 1 ==> rest[|rest| - 1] == path[|path| - 1];
    assert |path| == 1 ==> rest == [];
    var sub := Below(s, path[0]);
    assert SubAt(s, path) == if sub.None? then None else SubAt(sub.value, rest);
  }

  lemma PrefixedMeaning(step: Step, paths: seq<Path>, path: Path)
    ensures path in Prefixed(step, paths) <==> path != [] && path[0] == step && path[1..] in paths
    ensures Distinct(paths) ==> Distinct(Prefixed(step, paths))
  {
    var all := Prefixed(step, paths);
    if path in all {
      var i :| 0 <= i < |all| && all[i] == path;
      assert ([step] + paths[i])[1..] == paths[i];
    }
    if path != [] && path[0] == step && path[1..] in paths {
      var i :| 0 <= i < |paths| && paths[i] == path[1..];
      assert all[i] == [step] + path[1..] == path;
    }
    forall i, j | 0 <= i < j < |all| && all[i] == all[j] ensures paths[i] == paths[j] {
      assert all[i][1..] == paths[i] && all[j][1..] == paths[j];
    }
  }

  lemma NoEmptyPosition(s: Json)
    ensures !IsPosition(s, [])
  {
  }

  /** The positions that begin with one step. */
  lemma OneMoreUnder(s: Json, step: Step, sub: Json, path: Path)
    requires Below(s, step) == Some(sub)
    requires path != [] ==> (path[1..] in Positions(sub) <==> IsPosition(sub, path[1..]))
    ensures path in Own(step) + Prefixed(step, Positions(sub)) <==> IsPosition(s, path) && path[0] == step
  {
    PrefixedMeaning(step, Positions(sub), path);
    NoEmptyPosition(s);
    NoEmptyPosition(sub);
    if path != [] { IsPositionBelow(s, path); }
    hide IsPosition, Positions, Prefixed, Below;
    assert |path| == 1 ==> path == [path[0]] && path[1..] == [];
  }

  lemma StepMeaning(s: Json, i: nat, declared: bool)
    requires i < |Subs(s, declared)|
    ensures StepTo(i, declared).Property? == declared && StepTo(i, declared).i == i
    ensures Below(s, StepTo(i, declared)) == Some(Subs(s, declared)[i])
  {
    BelowMeaning(s, StepTo(i, declared));
    hide Below, PropertySchemas, ItemSchemas;
  }

  lemma StepIs(step: Step, i: nat, declared: bool)
    ensures step == StepTo(i, declared) <==> step.Property? == declared && step.i == i
  {
  }

  lemma {:induction false} PositionsUnder(s: Json, n: nat, declared: bool, path: Path)
    requires n <= |Subs(s, declared)|
    ensures path in Under(s, n, declared) <==> IsPosition(s, path) && path[0].Property? == declared && path[0].i < n
    decreases s, n
  {
    NoEmptyPosition(s);
    if n == 0 {
      EmptyUnder(s, declared);
      hide IsPosition, Subs, Under;
    } else {
      var m: nat, rest := n - 1, if path == [] then [] else path[1..];
      assert m + 1 == n;
      PositionsUnder(s, m, declared, path);
      PositionsMeaning(Subs(s, declared)[m], rest);
      hide *;
      UnderNext(s, m, declared);
      StepMeaning(s, m, declared);
      OneMoreUnder(s, StepTo(m, declared), Subs(s, declared)[m], path);
      if path != [] { StepIs(path[0], m, declared); }
    }
  }

  /** The positions are exactly the paths that lead to a declared property. */
  lemma {:induction false} PositionsMeaning(s: Json, path: Path)
    ensures path in Positions(s) <==> IsPosition(s, path)
    decreases s, |Subs(s, true)| + |Subs(s, false)| + 1
  {
    NoEmptyPosition(s);
    PositionsUnder(s, |Subs(s, true)|, true, path);
    PositionsUnder(s, |Subs(s, false)|, false, path);
    SubsMeaning(s);
    if path != [] {
      BelowMeaning(s, path[0]);
      IsPositionBelow(s, path);
    }
    hide Under, PropertySchemas, ItemSchemas, IsPosition, Below, Subs;
  }

  lemma AppendDistinct(a: seq<Path>, b: seq<Path>)
    requires Distinct(a) && Distinct(b) && forall p <- a :: p !in b
    ensures Distinct(a + b)
  {
    var all := a + b;
    forall i, j | 0 <= i < j < |all| ensures all[i] != all[j] {
      if i < |a| <= j { assert all[i] in a && all[j] in b; }
    }
  }

  /** What begins with one step and what begins with earlier steps. */
  lemma PositionsApart(s: Json, m: nat, declared: bool)
    requires m < |Subs(s, declared)|
    ensures var step := StepTo(m, declared);
      forall p <- Under(s, m, declared) :: p !in Own(step) + Prefixed(step, Positions(Subs(s, declared)[m]))
  {
    var step, sub := StepTo(m, declared), Subs(s, declared)[m];
    StepMeaning(s, m, declared);
    hide *;
    forall p | p in Under(s, m, declared) ensures p !in Own(step) + Prefixed(step, Positions(sub)) {
      PositionsUnder(s, m, declared, p);
      PositionsMeaning(sub, if p == [] then [] else p[1..]);
      OneMoreUnder(s, step, sub, p);
    }
  }

  lemma OneMoreDistinct(step: Step, sub: Json)
    requires Distinct(Positions(sub))
    ensures Distinct(Own(step) + Prefixed(step, Positions(sub)))
  {
    PrefixedMeaning(step, Positions(sub), [step]);
    PositionsMeaning(sub, []);
    NoEmptyPosition(sub);
    assert [step][1..] == [];
    hide IsPosition, Positions, Prefixed;
    AppendDistinct(Own(step), Prefixed(step, Positions(sub)));
  }

  lemma {:induction false} DistinctUnder(s: Json, n: nat, declared: bool)
    requires n <= |Subs(s, declared)|
    ensures Distinct(Under(s, n, declared))
    decreases s, n
  {
    if n == 0 {
      EmptyUnder(s, declared);
      hide Subs, Under;
    } else {
      var m: nat := n - 1;
      assert m + 1 == n;
      var step, sub := StepTo(m, declared), Subs(s, declared)[m];
      DistinctUnder(s, m, declared);
      DistinctPositions(sub);
      hide *;
      UnderNext(s, m, declared);
      OneMoreDistinct(step, sub);
      PositionsApart(s, m, declared);
      AppendDistinct(Under(s, m, declared), Own(step) + Prefixed(step, Positions(sub)));
    }
  }

  /** No position is listed twice. */
  lemma {:induction false} DistinctPositions(s: Json)
    ensures Distinct(Positions(s))
    decreases s, |Subs(s, true)| + |Subs(s, false)| + 1
  {
    var a, b := Under(s, |Subs(s, true)|, true), Under(s, |Subs(s, false)|, false);
    DistinctUnder(s, |Subs(s, true)|, true);
    DistinctUnder(s, |Subs(s, false)|, false);
    forall p | p in a ensures p !in b {
      PositionsUnder(s, |Subs(s, true)|, true, p);
      PositionsUnder(s, |Subs(s, false)|, false, p);
    }
    hide Under, Subs, IsPosition;
    AppendDistinct(a, b);
  }

  /** The property count is the number of paths that lead to a declared property. */
  lemma CountMeaning(s: Json)
    ensures PropertyCount(s) == |Positions(s)| && Distinct(Positions(s))
    ensures forall path :: path in Positions(s) <==> IsPosition(s, path)
  {
    CountIsPositions(s);
    DistinctPositions(s);
    forall path ensures path in Positions(s) <==> IsPosition(s, path) { PositionsMeaning(s, path); }
    hide PropertyCount, Positions, IsPosition;
  }
}
