/** The ordered map of the Rust standard library: entries in strictly ascending key order. */
module SortedMap {
  import opened Text

  datatype Entry<V> = Entry(key: string, value: V)

  ghost predicate Ascending<V>(m: seq<Entry<V>>) {
    forall i, j :: 0 <= i < j < |m| ==> Less(m[i].key, m[j].key)
  }

  /** The finite map that a list of entries stands for; a later entry wins over an earlier one. */
  function View<V>(m: seq<Entry<V>>): map<string, V> {
    if m == [] then map[]
    else View(m[..|m| - 1])[m[|m| - 1].key := m[|m| - 1].value]
  }

  function Insert<V>(m: seq<Entry<V>>, key: string, value: V): seq<Entry<V>> {
    if m == [] || Less(m[|m| - 1].key, key) then m + [Entry(key, value)]
    else
      var front, last := m[..|m| - 1], m[|m| - 1];
      if last.key == key then front + [Entry(key, value)]
      else Insert(front, key, value) + [last]
  }

  lemma {:induction false} ViewKeys<V>(m: seq<Entry<V>>)
    ensures forall k :: k in View(m) <==> exists i :: 0 <= i < |m| && m[i].key == k
  {
    if m != [] {
      ViewKeys(m[..|m| - 1]);
    }
  }

  lemma {:induction false} InsertView<V>(m: seq<Entry<V>>, key: string, value: V)
    ensures View(Insert(m, key, value)) == View(m)[key := value]
  {
    var r := Insert(m, key, value);
    if m == [] || Less(m[|m| - 1].key, key) {
      assert r[..|r| - 1] == m;
    } else {
      var front, last := m[..|m| - 1], m[|m| - 1];
      assert r[..|r| - 1] == if last.key == key then front else Insert(front, key, value);
      InsertView(front, key, value);
    }
  }

  lemma {:induction false} InsertAscending<V>(m: seq<Entry<V>>, key: string, value: V)
    requires Ascending(m)
    ensures Ascending(Insert(m, key, value))
  {
    if m == [] {
    } else if Less(m[|m| - 1].key, key) {
      forall i | 0 <= i < |m| ensures Less(m[i].key, key) {
        if i < |m| - 1 { LessTransitive(m[i].key, m[|m| - 1].key, key); }
      }
    } else if m[|m| - 1].key != key {
      var front, last := m[..|m| - 1], m[|m| - 1];
      var inner := Insert(front, key, value);
      InsertAscending(front, key, value);
      LessTotal(key, last.key);
      InsertView(front, key, value);
      hide Insert, View, Less;
      forall i | 0 <= i < |inner| ensures Less(inner[i].key, last.key) {
        ViewKeys(inner);
        ViewKeys(front);
        assert inner[i].key in View(inner);
      }
      AppendAscending(inner, last);
    }
  }

  lemma AppendAscending<V>(m: seq<Entry<V>>, e: Entry<V>)
    requires Ascending(m) && forall i :: 0 <= i < |m| ==> Less(m[i].key, e.key)
    ensures Ascending(m + [e])
  {
    hide Less;
  }

  lemma WithoutLast<V>(m: seq<Entry<V>>)
    requires m != [] && Ascending(m)
    ensures m[|m| - 1].key !in View(m[..|m| - 1])
  {
    var front, last := m[..|m| - 1], m[|m| - 1];
    ViewKeys(front);
    if last.key in View(front) {
      var i :| 0 <= i < |front| && front[i].key == last.key;
      LessTotal(m[i].key, last.key);
    }
  }

  /** The last key of an ascending listing is the greatest key of its map. */
  lemma LastIsGreatest<V>(m: seq<Entry<V>>, key: string)
    requires m != [] && Ascending(m) && key in View(m)
    ensures key == m[|m| - 1].key || Less(key, m[|m| - 1].key)
  {
    ViewKeys(m);
  }

  lemma ViewNonEmpty<V>(m: seq<Entry<V>>)
    ensures m != [] ==> View(m) != map[]
  {
    if m != [] { assert m[|m| - 1].key in View(m); }
  }

  /** A finite map has only one ascending listing. */
  lemma {:induction false} ListingUnique<V>(a: seq<Entry<V>>, b: seq<Entry<V>>)
    requires Ascending(a) && Ascending(b) && View(a) == View(b)
    ensures a == b
  {
    ViewNonEmpty(a);
    ViewNonEmpty(b);
    if a != [] && b != [] {
      var x, y := a[|a| - 1], b[|b| - 1];
      assert x.key in View(a) && y.key in View(b);
      WithoutLast(a);
      WithoutLast(b);
      LastIsGreatest(b, x.key);
      LastIsGreatest(a, y.key);
      LessTotal(x.key, y.key);
      hide View, Ascending, Less;
      var a', b' := a[..|a| - 1], b[..|b| - 1];
      assert View(a') == View(a) - {x.key} && View(b') == View(b) - {x.key};
      ListingUnique(a', b');
      assert a == a' + [x] && b == b' + [y];
    }
  }
}
