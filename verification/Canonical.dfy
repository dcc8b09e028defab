/** The canonical form of a JSON value: object keys sorted at every depth. */
module Canonical {
  import opened Prelude
  import opened Text
  import opened SortedMap
  import opened Json

  /** Fields entered one by one into an ordered map. */
  function Arrange(fields: Fields): Fields {
    if fields == [] then []
    else
      var last := fields[|fields| - 1];
      Insert(Arrange(fields[..|fields| - 1]), last.key, last.value)
  }

  function Canonicalize(v: Json): Json {
    match v
    case Arr(items) => Arr(seq(|items|, i requires 0 <= i < |items| => Canonicalize(items[i])))
    case Obj(fields) => Obj(Arrange(seq(|fields|, i requires 0 <= i < |fields| =>
                                          Entry(fields[i].key, Canonicalize(fields[i].value)))))
    case _ => v
  }

  function CanonicalFields(fields: Fields): Fields {
    seq(|fields|, i requires 0 <= i < |fields| => Entry(fields[i].key, Canonicalize(fields[i].value)))
  }

  /** Equal except for the order in which objects list their fields, at any depth. */
  predicate SameUpToOrder(a: Json, b: Json) {
    match (a, b)
    case (Arr(x), Arr(y)) => |x| == |y| && forall i :: 0 <= i < |x| ==> SameUpToOrder(x[i], y[i])
    case (Obj(x), Obj(y)) =>
      && (forall i :: 0 <= i < |x| ==> Has(y, x[i].key) && SameUpToOrder(x[i].value, y[IndexOf(y, x[i].key)].value))
      && (forall j :: 0 <= j < |y| ==> Has(x, y[j].key))
    case _ => a == b
  }

  /** Every object lists its fields in strictly ascending key order. */
  ghost predicate KeysSorted(v: Json) {
    match v
    case Arr(items) => forall i :: 0 <= i < |items| ==> KeysSorted(items[i])
    case Obj(fields) => Ascending(fields) && forall i :: 0 <= i < |fields| ==> KeysSorted(fields[i].value)
    case _ => true
  }

  // ---- Arranging fields ----

  lemma {:induction false} ArrangeSorts(fields: Fields)
    ensures Ascending(Arrange(fields)) && View(Arrange(fields)) == View(fields)
  {
    if fields != [] {
      var front, last := fields[..|fields| - 1], fields[|fields| - 1];
      ArrangeSorts(front);
      InsertAscending(Arrange(front), last.key, last.value);
      InsertView(Arrange(front), last.key, last.value);
    }
  }

  lemma ArrangeSorted(fields: Fields)
    requires Ascending(fields)
    ensures Arrange(fields) == fields
  {
    ArrangeSorts(fields);
    ListingUnique(Arrange(fields), fields);
  }

  lemma {:induction false} ViewOfDistinct(fields: Fields, i: nat)
    requires NamesDistinct(fields) && i < |fields|
    ensures fields[i].key in View(fields) && View(fields)[fields[i].key] == fields[i].value
  {
    var n := |fields| - 1;
    if i < n {
      ViewOfDistinct(fields[..n], i);
    }
  }

  lemma CanonicalFieldAt(fields: Fields, i: nat)
    requires NamesDistinct(fields) && i < |fields|
    ensures var m := View(CanonicalFields(fields));
      fields[i].key in m && m[fields[i].key] == Canonicalize(fields[i].value)
  {
    var c := CanonicalFields(fields);
    forall j, k | 0 <= j < k < |c| ensures c[j].key != c[k].key {
      assert c[j].key == fields[j].key && c[k].key == fields[k].key;
    }
    ViewOfDistinct(c, i);
  }

  lemma CanonicalKey(fields: Fields, k: string)
    requires k in View(CanonicalFields(fields))
    ensures exists i :: 0 <= i < |fields| && fields[i].key == k
  {
    var c := CanonicalFields(fields);
    ViewKeys(c);
    var i :| 0 <= i < |c| && c[i].key == k;
    assert fields[i].key == k;
  }

  lemma CanonicalObject(x: Fields, y: Fields)
    ensures Canonicalize(Obj(x)) == Canonicalize(Obj(y)) <==> View(CanonicalFields(x)) == View(CanonicalFields(y))
  {
    ArrangeSorts(CanonicalFields(x));
    ArrangeSorts(CanonicalFields(y));
    assert Canonicalize(Obj(x)) == Obj(Arrange(CanonicalFields(x)));
    assert Canonicalize(Obj(y)) == Obj(Arrange(CanonicalFields(y)));
    if View(CanonicalFields(x)) == View(CanonicalFields(y)) {
      ListingUnique(Arrange(CanonicalFields(x)), Arrange(CanonicalFields(y)));
    }
  }

  // ---- Deciding equality up to order ----

  /** Canonical forms are equal exactly when the values differ only in field order. */
  lemma {:induction false} CanonicalDecidesOrder(a: Json, b: Json)
    requires WellFormed(a) && WellFormed(b)
    ensures Canonicalize(a) == Canonicalize(b) <==> SameUpToOrder(a, b)
    decreases a
  {
    if a.Obj? && b.Obj? {
      ObjectsDecided(a, b);
    } else if a.Arr? && b.Arr? {
      ArraysDecided(a, b);
    }
  }

  lemma {:induction false} ArraysDecided(a: Json, b: Json)
    requires WellFormed(a) && WellFormed(b) && a.Arr? && b.Arr?
    ensures Canonicalize(a) == Canonicalize(b) <==> SameUpToOrder(a, b)
    decreases a, 0
  {
    var x, y := a.items, b.items;
    var cx, cy := Canonicalize(a).items, Canonicalize(b).items;
    assert |cx| == |x| && |cy| == |y|;
    forall i | 0 <= i < |x| && i < |y| ensures cx[i] == cy[i] <==> SameUpToOrder(x[i], y[i]) {
      CanonicalDecidesOrder(x[i], y[i]);
    }
  }

  /** Fields of the same name have equal canonical values exactly when they are equal up to order. */
  ghost predicate FieldsDecided(x: Fields, y: Fields) {
    forall i, j :: 0 <= i < |x| && 0 <= j < |y| && x[i].key == y[j].key ==>
      (Canonicalize(x[i].value) == Canonicalize(y[j].value) <==> SameUpToOrder(x[i].value, y[j].value))
  }

  lemma {:induction false} ObjectsDecided(a: Json, b: Json)
    requires WellFormed(a) && WellFormed(b) && a.Obj? && b.Obj?
    ensures Canonicalize(a) == Canonicalize(b) <==> SameUpToOrder(a, b)
    decreases a, 0
  {
    var x, y := a.fields, b.fields;
    assert FieldsDecided(x, y) by {
      forall i, j | 0 <= i < |x| && 0 <= j < |y| && x[i].key == y[j].key
        ensures Canonicalize(x[i].value) == Canonicalize(y[j].value) <==> SameUpToOrder(x[i].value, y[j].value)
      {
        CanonicalDecidesOrder(x[i].value, y[j].value);
      }
    }
    CanonicalObject(x, y);
    hide Canonicalize, CanonicalFields, FieldsDecided, SameUpToOrder;
    if View(CanonicalFields(x)) == View(CanonicalFields(y)) { SameFromViews(x, y); }
    if SameUpToOrder(a, b) { ViewsFromSame(x, y); }
  }

  lemma CanonicalKeyIndex(fields: Fields, k: string)
    requires NamesDistinct(fields)
    ensures var m := View(CanonicalFields(fields)); var i := IndexOf(fields, k);
      (k in m <==> Has(fields, k)) && (k in m ==> m[k] == Canonicalize(fields[i].value))
  {
    var m := View(CanonicalFields(fields));
    if k in m { CanonicalKey(fields, k); }
    if Has(fields, k) { CanonicalFieldAt(fields, IndexOf(fields, k)); }
    hide View, CanonicalFields, Canonicalize, NamesDistinct;
  }

  lemma SameFromViews(x: Fields, y: Fields)
    requires NamesDistinct(x) && NamesDistinct(y) && FieldsDecided(x, y)
    requires View(CanonicalFields(x)) == View(CanonicalFields(y))
    ensures SameUpToOrder(Obj(x), Obj(y))
  {
    hide View, CanonicalFields, Canonicalize;
    forall i | 0 <= i < |x|
      ensures Has(y, x[i].key) && SameUpToOrder(x[i].value, y[IndexOf(y, x[i].key)].value)
    {
      hide SameUpToOrder;
      IndexOfField(x, i);
      CanonicalKeyIndex(x, x[i].key);
      CanonicalKeyIndex(y, x[i].key);
    }
    forall j | 0 <= j < |y| ensures Has(x, y[j].key) {
      hide SameUpToOrder;
      IndexOfField(y, j);
      CanonicalKeyIndex(x, y[j].key);
      CanonicalKeyIndex(y, y[j].key);
    }
    hide NamesDistinct, FieldsDecided, IndexOf, Has;
  }

  lemma ViewsFromSame(x: Fields, y: Fields)
    requires NamesDistinct(x) && NamesDistinct(y) && FieldsDecided(x, y)
    requires SameUpToOrder(Obj(x), Obj(y))
    ensures View(CanonicalFields(x)) == View(CanonicalFields(y))
  {
    var mx, my := View(CanonicalFields(x)), View(CanonicalFields(y));
    assert forall i :: 0 <= i < |x| ==> Has(y, x[i].key) && SameUpToOrder(x[i].value, y[IndexOf(y, x[i].key)].value);
    assert forall j :: 0 <= j < |y| ==> Has(x, y[j].key);
    hide View, CanonicalFields, Canonicalize, SameUpToOrder;
    forall k ensures k in mx <==> k in my {
      CanonicalKeyIndex(x, k);
      CanonicalKeyIndex(y, k);
    }
    forall k | k in mx ensures mx[k] == my[k] {
      CanonicalKeyIndex(x, k);
      CanonicalKeyIndex(y, k);
    }
  }

  // ---- The shape of the canonical form ----

  lemma {:induction false} ArrangeKeeps(fields: Fields)
    ensures forall e <- Arrange(fields) :: e in fields
  {
    if fields != [] {
      var front, last := fields[..|fields| - 1], fields[|fields| - 1];
      ArrangeKeeps(front);
      InsertKeeps(Arrange(front), last.key, last.value);
    }
  }

  lemma {:induction false} InsertKeeps(m: Fields, key: string, value: Json)
    ensures forall e <- Insert(m, key, value) :: e in m || e == Entry(key, value)
  {
    if m != [] && !Less(m[|m| - 1].key, key) && m[|m| - 1].key != key {
      InsertKeeps(m[..|m| - 1], key, value);
    }
  }

  /** Every object of a canonical form is strictly key-sorted. */
  lemma {:induction false} CanonicalIsSorted(v: Json)
    ensures KeysSorted(Canonicalize(v))
  {
    match v
    case Arr(items) =>
      var c := Canonicalize(v).items;
      forall i | 0 <= i < |c| ensures KeysSorted(c[i]) { CanonicalIsSorted(items[i]); }
    case Obj(fields) =>
      var c := Canonicalize(v).fields;
      assert c == Arrange(CanonicalFields(fields));
      ArrangeSorts(CanonicalFields(fields));
      ArrangeKeeps(CanonicalFields(fields));
      forall i | 0 <= i < |c| ensures KeysSorted(c[i].value) {
        assert c[i] in CanonicalFields(fields);
        var j :| 0 <= j < |fields| && CanonicalFields(fields)[j] == c[i];
        CanonicalIsSorted(fields[j].value);
      }
    case _ =>
  }

  /** A value that is already sorted is its own canonical form. */
  lemma {:induction false} SortedIsCanonical(v: Json)
    requires KeysSorted(v)
    ensures Canonicalize(v) == v
  {
    match v
    case Arr(items) =>
      forall i | 0 <= i < |items| ensures Canonicalize(items[i]) == items[i] { SortedIsCanonical(items[i]); }
      assert Canonicalize(v).items == items;
    case Obj(fields) =>
      forall i | 0 <= i < |fields| ensures Canonicalize(fields[i].value) == fields[i].value {
        SortedIsCanonical(fields[i].value);
      }
      assert CanonicalFields(fields) == fields;
      ArrangeSorted(fields);
    case _ =>
  }

  lemma CanonicalizeIdempotent(v: Json)
    ensures Canonicalize(Canonicalize(v)) == Canonicalize(v)
  {
    CanonicalIsSorted(v);
    SortedIsCanonical(Canonicalize(v));
  }
}
