/** The URL normal form used for deduplication, and the set of normal forms already seen. */
module Dedupe {
  import opened Prelude
  import opened SortedMap
  import Text
  import Utf8
  import FormUrlencoded

  /** A parsed URL. A value of this type stands for its serialization, which determines it. */
  datatype Url = Url(
    scheme: string,
    userinfo: string,
    host: Option<string>,
    port: Option<nat>,
    path: string,
    query: Option<seq<Utf8.Byte>>,
    fragment: Option<string>)

  type Pair = FormUrlencoded.Pair

  const TRACKING_PARAMS: set<string> := {
    "utm_source", "utm_medium", "utm_campaign", "utm_term", "utm_content", "utm_id", "gclid",
    "fbclid", "msclkid", "mc_eid", "ref", "ref_src", "igshid", "yclid"
  }

  predicate IsTracking(key: string) { Text.Lower(key) in TRACKING_PARAMS }

  function QueryPairs(u: Url): seq<Pair> {
    if u.query.None? then [] else FormUrlencoded.Parse(u.query.value)
  }

  /** The ordered map that the filtering loop fills, parameter by parameter. */
  function Filtered(pairs: seq<Pair>, removeTracking: bool): seq<Pair> {
    if pairs == [] then []
    else
      var rest, p := Filtered(pairs[..|pairs| - 1], removeTracking), pairs[|pairs| - 1];
      if removeTracking && IsTracking(p.key) then rest else Insert(rest, p.key, p.value)
  }

  predicate HasDefaultPort(u: Url) {
    (u.port == Some(80) && u.scheme == "http") || (u.port == Some(443) && u.scheme == "https")
  }

  function NormalQuery(u: Url, ignoreQuery: bool, removeTracking: bool): Option<seq<Utf8.Byte>> {
    var kept := Filtered(QueryPairs(u), removeTracking);
    if ignoreQuery || kept == [] then None else Some(FormUrlencoded.Serialize(kept))
  }

  /** An empty path means the root. */
  function NormalPath(u: Url): string { if u.path == "" then "/" else u.path }

  function Normalize(u: Url, ignoreQuery: bool, removeTracking: bool): Url {
    u.(fragment := None,
       port := if HasDefaultPort(u) then None else u.port,
       path := NormalPath(u),
       query := NormalQuery(u, ignoreQuery, removeTracking))
  }

  /** Fills the ordered map: a later parameter overwrites an earlier one of the same name. */
  method FilterPairs(pairs: seq<Pair>, removeTracking: bool) returns (filtered: seq<Pair>)
    ensures filtered == Filtered(pairs, removeTracking)
  {
    filtered := [];
    for i := 0 to |pairs|
      invariant filtered == Filtered(pairs[..i], removeTracking)
    {
      assert pairs[..i + 1][..i] == pairs[..i];
      if removeTracking && IsTracking(pairs[i].key) {
        continue;
      }
      filtered := Insert(filtered, pairs[i].key, pairs[i].value);
    }
    assert pairs[..|pairs|] == pairs;
  }

  /** Rewrites a copy of the URL component by component. */
  method NormalizeCrawlUrl(u: Url, ignoreQuery: bool, removeTracking: bool) returns (normalized: Url)
    ensures normalized == Normalize(u, ignoreQuery, removeTracking)
  {
    normalized := u.(fragment := None);
    if HasDefaultPort(normalized) {
      normalized := normalized.(port := None);
    }
    if normalized.path == "" {
      normalized := normalized.(path := "/");
    }
    var query := None;
    if !ignoreQuery {
      var pairs := QueryPairs(normalized);
      var filtered := FilterPairs(pairs, removeTracking);
      if filtered != [] {
        query := Some(FormUrlencoded.Serialize(filtered));
      }
    }
    normalized := normalized.(query := query);
  }

  // ---- What the normal form means ----

  /** The parameters a URL carries once tracking keys are dropped; the last value of a key wins. */
  function Parameters(pairs: seq<Pair>, removeTracking: bool): map<string, string> {
    if pairs == [] then map[]
    else
      var rest, p := Parameters(pairs[..|pairs| - 1], removeTracking), pairs[|pairs| - 1];
      if removeTracking && IsTracking(p.key) then rest else rest[p.key := p.value]
  }

  function EffectivePort(u: Url): Option<nat> {
    if u.port.Some? then u.port
    else if u.scheme == "http" then Some(80)
    else if u.scheme == "https" then Some(443)
    else None
  }

  /** The same letters, up to ASCII capitals in the first. */
  ghost predicate SameLetters(s: string, lower: string) {
    |s| == |lower| && forall i :: 0 <= i < |s| ==> SameLetter(s[i], lower[i])
  }

  predicate SameLetter(c: char, d: char) {
    c == d || ('A' <= c <= 'Z' && d as int == c as int + 32)
  }

  /** The key is one of the listed words, whatever its ASCII case. */
  ghost predicate NamesTracking(key: string) { exists word <- TRACKING_PARAMS :: SameLetters(key, word) }

  /** The last parameter of this name has this value, and the name is one that is kept. */
  ghost predicate Keeps(pairs: seq<Pair>, removeTracking: bool, key: string, value: string) {
    Carries(pairs, key, value) && !(removeTracking && NamesTracking(key))
  }

  ghost predicate Carries(pairs: seq<Pair>, key: string, value: string) {
    exists i :: 0 <= i < |pairs| && LastOfName(pairs, i) && pairs[i] == Entry(key, value)
  }

  ghost predicate LastOfName(pairs: seq<Pair>, i: nat)
    requires i < |pairs|
  {
    forall j :: i < j < |pairs| ==> pairs[j].key != pairs[i].key
  }

  ghost predicate SameParameters(a: seq<Pair>, b: seq<Pair>, removeTracking: bool) {
    forall key, value :: Keeps(a, removeTracking, key, value) <==> Keeps(b, removeTracking, key, value)
  }

  ghost predicate SamePath(p: string, q: string) { p == q || (p in {"", "/"} && q in {"", "/"}) }

  /** The two URLs name the same page as far as the crawler is concerned. */
  ghost predicate SamePage(u: Url, v: Url, ignoreQuery: bool, removeTracking: bool) {
    && u.scheme == v.scheme
    && u.userinfo == v.userinfo
    && u.host == v.host
    && EffectivePort(u) == EffectivePort(v)
    && SamePath(u.path, v.path)
    && (ignoreQuery || SameParameters(QueryPairs(u), QueryPairs(v), removeTracking))
  }

  /** The words of the list are in small letters. */
  lemma TrackingWordsAreLower()
    ensures forall word <- TRACKING_PARAMS, c <- word :: !('A' <= c <= 'Z')
  {
  }

  lemma LowerMeaning(s: string, lower: string)
    requires forall c <- lower :: !('A' <= c <= 'Z')
    ensures Text.Lower(s) == lower <==> SameLetters(s, lower)
  {
    assert forall i :: 0 <= i < |lower| ==> lower[i] in lower;
    if SameLetters(s, lower) {
      assert Text.Lower(s) == lower;
    }
  }

  lemma TrackingMeaning(key: string)
    ensures IsTracking(key) <==> NamesTracking(key)
  {
    TrackingWordsAreLower();
    forall word | word in TRACKING_PARAMS ensures Text.Lower(key) == word <==> SameLetters(key, word) {
      LowerMeaning(key, word);
    }
    hide SameLetters, Text.Lower;
  }

  ghost predicate Maps(m: map<string, string>, key: string, value: string) { key in m && m[key] == value }

  /** The map of parameters holds the last value of every key that is kept. */
  lemma {:induction false} ParametersMeaning(pairs: seq<Pair>, removeTracking: bool, key: string, value: string)
    ensures Maps(Parameters(pairs, removeTracking), key, value) <==> Keeps(pairs, removeTracking, key, value)
  {
    TrackingMeaning(key);
    hide NamesTracking, IsTracking;
    if pairs != [] {
      var init, last := pairs[..|pairs| - 1], pairs[|pairs| - 1];
      ParametersMeaning(init, removeTracking, key, value);
      CarriesLast(pairs, key, value);
      hide Carries;
    }
  }

  lemma CarriesLast(pairs: seq<Pair>, key: string, value: string)
    requires pairs != []
    ensures var last := pairs[|pairs| - 1];
      Carries(pairs, key, value)
      <==> if last.key == key then last.value == value else Carries(pairs[..|pairs| - 1], key, value)
  {
    var n := |pairs| - 1;
    var init := pairs[..n];
    assert LastOfName(pairs, n);
    forall i | 0 <= i < n ensures LastOfName(pairs, i) <==> LastOfName(init, i) && pairs[n].key != pairs[i].key {
      assert forall j :: i < j < n ==> pairs[j] == init[j];
    }
    hide LastOfName;
    if pairs[n].key != key && Carries(init, key, value) {
      var i :| 0 <= i < |init| && LastOfName(init, i) && init[i] == Entry(key, value);
      assert pairs[i] == init[i];
    }
    if Carries(pairs, key, value) {
      var i :| 0 <= i < |pairs| && LastOfName(pairs, i) && pairs[i] == Entry(key, value);
      if i < n { assert init[i] == pairs[i]; }
    }
  }

  /** Two lists have the same map of parameters if and only if they carry the same parameters that are kept. */
  lemma ParametersQuotient(a: seq<Pair>, b: seq<Pair>, removeTracking: bool)
    ensures Parameters(a, removeTracking) == Parameters(b, removeTracking) <==> SameParameters(a, b, removeTracking)
  {
    var m, n := Parameters(a, removeTracking), Parameters(b, removeTracking);
    forall key, value
      ensures Maps(m, key, value) <==> Keeps(a, removeTracking, key, value)
      ensures Maps(n, key, value) <==> Keeps(b, removeTracking, key, value)
    {
      ParametersMeaning(a, removeTracking, key, value);
      ParametersMeaning(b, removeTracking, key, value);
    }
    hide Parameters, Keeps;
    if SameParameters(a, b, removeTracking) {
      assert forall key, value :: Maps(m, key, value) <==> Maps(n, key, value);
      SameMaps(m, n);
    }
  }

  lemma SameMaps(m: map<string, string>, n: map<string, string>)
    requires forall key, value :: Maps(m, key, value) <==> Maps(n, key, value)
    ensures m == n
  {
    forall key | key in m ensures key in n && n[key] == m[key] { assert Maps(m, key, m[key]); }
    forall key | key in n ensures key in m { assert Maps(n, key, n[key]); }
  }

  lemma {:induction false} FilteredIsSorted(pairs: seq<Pair>, removeTracking: bool)
    ensures Ascending(Filtered(pairs, removeTracking))
    ensures View(Filtered(pairs, removeTracking)) == Parameters(pairs, removeTracking)
    ensures removeTracking ==> forall k <- Parameters(pairs, removeTracking) :: !IsTracking(k)
  {
    if pairs != [] {
      var rest, p := Filtered(pairs[..|pairs| - 1], removeTracking), pairs[|pairs| - 1];
      FilteredIsSorted(pairs[..|pairs| - 1], removeTracking);
      InsertAscending(rest, p.key, p.value);
      InsertView(rest, p.key, p.value);
    }
  }

  /** The serialized query of the normal form carries exactly the parameters of the original. */
  lemma {:induction false} NormalQueryParameters(u: Url, removeTracking: bool)
    ensures Parameters(QueryPairs(Normalize(u, false, removeTracking)), removeTracking)
         == Parameters(QueryPairs(u), removeTracking)
  {
    var kept := Filtered(QueryPairs(u), removeTracking);
    FilteredIsSorted(QueryPairs(u), removeTracking);
    FormUrlencoded.ParseSerialize(kept);
    assert QueryPairs(Normalize(u, false, removeTracking)) == kept;
    ParametersOfListing(kept, removeTracking);
  }

  lemma {:induction false} ParametersOfListing(m: seq<Pair>, removeTracking: bool)
    requires removeTracking ==> forall k <- View(m) :: !IsTracking(k)
    ensures Parameters(m, removeTracking) == View(m)
  {
    if m != [] {
      ViewKeys(m);
      ViewKeys(m[..|m| - 1]);
      assert m[|m| - 1].key in View(m);
      ParametersOfListing(m[..|m| - 1], removeTracking);
    }
  }

  lemma NormalQueryQuotient(a: seq<Pair>, b: seq<Pair>, removeTracking: bool)
    ensures var ka, kb := Filtered(a, removeTracking), Filtered(b, removeTracking);
      && ((ka == [] && kb == [])
          || (ka != [] && kb != [] && FormUrlencoded.Serialize(ka) == FormUrlencoded.Serialize(kb))
          <==> Parameters(a, removeTracking) == Parameters(b, removeTracking))
  {
    var ka, kb := Filtered(a, removeTracking), Filtered(b, removeTracking);
    FilteredIsSorted(a, removeTracking);
    FilteredIsSorted(b, removeTracking);
    if View(ka) == View(kb) {
      ListingUnique(ka, kb);
    }
    FormUrlencoded.ParseSerialize(ka);
    FormUrlencoded.ParseSerialize(kb);
  }

  /** Two URLs have the same normal form exactly when they name the same page. */
  lemma NormalFormIsQuotient(u: Url, v: Url, ignoreQuery: bool, removeTracking: bool)
    ensures Normalize(u, ignoreQuery, removeTracking) == Normalize(v, ignoreQuery, removeTracking)
       <==> SamePage(u, v, ignoreQuery, removeTracking)
  {
    NormalQueryQuotient(QueryPairs(u), QueryPairs(v), removeTracking);
    ParametersQuotient(QueryPairs(u), QueryPairs(v), removeTracking);
    hide Parameters, SameParameters, Filtered, QueryPairs;
  }

  /**
   What the rewriting leaves alone and what it takes away: scheme, userinfo, host, every path that is not empty and
   every port that is not the scheme's own stay; the fragment and an ignored query are gone; a query that is kept lists
   its parameters in strictly ascending order, and there is one exactly when there are parameters to keep.
   */
  lemma NormalizeKeeps(u: Url, ignoreQuery: bool, removeTracking: bool)
    ensures var n := Normalize(u, ignoreQuery, removeTracking);
      && n.scheme == u.scheme && n.userinfo == u.userinfo && n.host == u.host
      && n.path == (if u.path == "" then "/" else u.path)
      && (n.port == u.port || (n.port == None && EffectivePort(u) == u.port == EffectivePort(n)))
      && (n.scheme == "http" ==> n.port != Some(80)) && (n.scheme == "https" ==> n.port != Some(443))
      && n.fragment == None
      && (ignoreQuery ==> n.query == None)
      && (!ignoreQuery ==> Ascending(QueryPairs(n)))
      && (!ignoreQuery ==> (n.query == None <==> NothingKept(QueryPairs(u), removeTracking)))
  {
    var kept := Filtered(QueryPairs(u), removeTracking);
    FilteredIsSorted(QueryPairs(u), removeTracking);
    FormUrlencoded.ParseSerialize(kept);
    FilteredIsEmpty(QueryPairs(u), removeTracking);
    hide Filtered, Parameters, FormUrlencoded.Parse, FormUrlencoded.Serialize, NothingKept;
  }

  ghost predicate NothingKept(pairs: seq<Pair>, removeTracking: bool) {
    forall key, value :: !Keeps(pairs, removeTracking, key, value)
  }

  lemma FilteredIsEmpty(pairs: seq<Pair>, removeTracking: bool)
    ensures Filtered(pairs, removeTracking) == [] <==> NothingKept(pairs, removeTracking)
  {
    var kept, m := Filtered(pairs, removeTracking), Parameters(pairs, removeTracking);
    FilteredIsSorted(pairs, removeTracking);
    ViewKeys(kept);
    forall key, value ensures Maps(m, key, value) <==> Keeps(pairs, removeTracking, key, value) {
      ParametersMeaning(pairs, removeTracking, key, value);
    }
    hide Filtered, Parameters, Keeps, View, Ascending;
    if kept != [] {
      assert kept[0].key in m;
      assert Maps(m, kept[0].key, m[kept[0].key]);
    }
  }

  /** The normal form of a URL names the same page as the URL. */
  lemma NormalFormSamePage(u: Url, ignoreQuery: bool, removeTracking: bool)
    ensures SamePage(u, Normalize(u, ignoreQuery, removeTracking), ignoreQuery, removeTracking)
  {
    if !ignoreQuery {
      NormalQueryParameters(u, removeTracking);
      ParametersQuotient(QueryPairs(u), QueryPairs(Normalize(u, false, removeTracking)), removeTracking);
    }
    hide Parameters, SameParameters, QueryPairs, NormalQuery;
  }

  lemma NormalizeIdempotent(u: Url, ignoreQuery: bool, removeTracking: bool)
    ensures var n := Normalize(u, ignoreQuery, removeTracking); Normalize(n, ignoreQuery, removeTracking) == n
  {
    NormalFormSamePage(u, ignoreQuery, removeTracking);
    NormalFormIsQuotient(u, Normalize(u, ignoreQuery, removeTracking), ignoreQuery, removeTracking);
  }

  lemma QueryRewrite(u: Url, x: seq<Utf8.Byte>, y: seq<Utf8.Byte>, fragment: Option<string>, ignoreQuery: bool,
      removeTracking: bool)
    requires Parameters(FormUrlencoded.Parse(x), removeTracking) == Parameters(FormUrlencoded.Parse(y), removeTracking)
    ensures Normalize(u.(query := Some(x)), ignoreQuery, removeTracking)
         == Normalize(u.(query := Some(y), fragment := fragment), ignoreQuery, removeTracking)
  {
    var v, w := u.(query := Some(x)), u.(query := Some(y), fragment := fragment);
    ParametersQuotient(QueryPairs(v), QueryPairs(w), removeTracking);
    hide Normalize, Parameters, FormUrlencoded.Parse, SameParameters;
    assert SamePage(v, w, ignoreQuery, removeTracking);
    hide SamePage;
    NormalFormIsQuotient(v, w, ignoreQuery, removeTracking);
  }

  /** Reordering parameters with different names, and changing the fragment, never changes the normal form. */
  lemma OrderAndFragmentIrrelevant(
      u: Url, a: seq<Pair>, p: Pair, q: Pair, b: seq<Pair>, fragment: Option<string>, ignoreQuery: bool,
      removeTracking: bool)
    requires p.key != q.key
    ensures var x, y := FormUrlencoded.Serialize(a + [p, q] + b), FormUrlencoded.Serialize(a + [q, p] + b);
      Normalize(u.(query := Some(x)), ignoreQuery, removeTracking)
      == Normalize(u.(query := Some(y), fragment := fragment), ignoreQuery, removeTracking)
  {
    FormUrlencoded.ParseSerialize(a + [p, q] + b);
    FormUrlencoded.ParseSerialize(a + [q, p] + b);
    SwapParameters(a, p, q, b, removeTracking);
    QueryRewrite(u, FormUrlencoded.Serialize(a + [p, q] + b), FormUrlencoded.Serialize(a + [q, p] + b),
                 fragment, ignoreQuery, removeTracking);
  }

  lemma {:induction false} SwapParameters(a: seq<Pair>, p: Pair, q: Pair, b: seq<Pair>, removeTracking: bool)
    requires p.key != q.key
    ensures Parameters(a + [p, q] + b, removeTracking) == Parameters(a + [q, p] + b, removeTracking)
  {
    var s, t := a + [p, q] + b, a + [q, p] + b;
    if b == [] {
      assert s[..|s| - 1] == a + [p] && (a + [p])[..|a|] == a;
      assert t[..|t| - 1] == a + [q] && (a + [q])[..|a|] == a;
    } else {
      assert s[..|s| - 1] == a + [p, q] + b[..|b| - 1];
      assert t[..|t| - 1] == a + [q, p] + b[..|b| - 1];
      SwapParameters(a, p, q, b[..|b| - 1], removeTracking);
    }
  }

  // ---- The visited set ----

  /** Remembers every normal form it was ever given. */
  class UrlDeduplicator {
    var visited: set<Url>

    constructor ()
      ensures visited == {}
    {
      visited := {};
    }

    /** Tells whether the key was new; afterwards it no longer is. */
    method Insert(key: Url) returns (fresh_: bool)
      modifies this
      ensures fresh_ <==> key !in old(visited)
      ensures visited == old(visited) + {key}
    {
      fresh_ := key !in visited;
      visited := visited + {key};
    }
  }
}
