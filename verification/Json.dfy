/** JSON values. Objects keep their fields in insertion order; a well-formed object names each field once. */
module Json {
  import opened Prelude
  import opened SortedMap

  datatype Number = Int(i: int) | Float(r: real)

  datatype Json =
    | Null
    | Bool(b: bool)
    | Num(n: Number)
    | Str(s: string)
    | Arr(items: seq<Json>)
    | Obj(fields: seq<Entry<Json>>)

  type Fields = seq<Entry<Json>>

  ghost predicate NamesDistinct(fields: Fields) {
    forall i, j :: 0 <= i < j < |fields| ==> fields[i].key != fields[j].key
  }

  ghost predicate WellFormed(v: Json) {
    match v
    case Arr(items) => forall i :: 0 <= i < |items| ==> WellFormed(items[i])
    case Obj(fields) => NamesDistinct(fields) && forall i :: 0 <= i < |fields| ==> WellFormed(fields[i].value)
    case _ => true
  }

  /** Where a field is, or the number of fields if there is none of that name. */
  function IndexOf(fields: Fields, name: string): (i: nat)
    ensures i <= |fields|
    ensures i < |fields| ==> fields[i].key == name
    ensures forall j :: 0 <= j < i ==> fields[j].key != name
  {
    if fields == [] || fields[0].key == name then 0 else 1 + IndexOf(fields[1..], name)
  }

  predicate Has(fields: Fields, name: string) { IndexOf(fields, name) < |fields| }

  function Get(fields: Fields, name: string): Option<Json> {
    var i := IndexOf(fields, name);
    if i < |fields| then Some(fields[i].value) else None
  }

  /** A field of an object; other values have no fields. */
  function Member(v: Json, name: string): (r: Option<Json>)
    ensures r.Some? ==> r.value < v
  {
    if v.Obj? then
      var i := IndexOf(v.fields, name);
      if i < |v.fields| then Some(v.fields[i].value) else None
    else None
  }

  lemma MemberWellFormed(v: Json, name: string)
    requires WellFormed(v) && Member(v, name).Some?
    ensures WellFormed(Member(v, name).value)
  {
  }

  /** In a list that names each field once, a field is found at its own position. */
  lemma IndexOfField(fields: Fields, i: nat)
    requires NamesDistinct(fields) && i < |fields|
    ensures IndexOf(fields, fields[i].key) == i
  {
  }
}
