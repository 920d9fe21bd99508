/**
 * JSON values as the application sees them after `JSON.parse`, and the parts of
 * JavaScript object semantics it relies on: `Object.entries`, property
 * assignment `obj[k] = v`, and object spread `{ ...a, ...b }`.
 *
 * `JSON.parse` and `JSON.stringify(v, null, 2)` are not modelled character by
 * character: they are the two fields of a `JsonCodec` that callers pass in, and
 * `ValidCodec` states the only facts the model relies on (printing then
 * parsing a value gives the value back, and parsing only yields values whose
 * objects have distinct keys).
 */
module Json {
  import opened Wrappers
  import opened Text

  /** A parsed JSON value; numbers are restricted to integers. An object keeps its properties in order. */
  datatype Json =
    | JNull
    | JBool(b: bool)
    | JNumber(n: int)
    | JString(s: string)
    | JArray(items: seq<Json>)
    | JObject(entries: seq<(string, Json)>)

  type Entries = seq<(string, Json)>

  predicate DistinctKeys(es: Entries) {
    forall i, j :: 0 <= i < j < |es| ==> es[i].0 != es[j].0
  }

  /** Every object inside the value has distinct keys, as every JavaScript object does. */
  predicate WellFormed(v: Json) {
    match v
    case JArray(items) => forall i :: 0 <= i < |items| ==> WellFormed(items[i])
    case JObject(es) => DistinctKeys(es) && forall i :: 0 <= i < |es| ==> WellFormed(es[i].1)
    case _ => true
  }

  /** `JSON.parse` (the error is the SyntaxError message) and `JSON.stringify(v, null, 2)`. */
  datatype JsonCodec = JsonCodec(parse: string -> Result<Json, string>, stringify: Json -> string)

  ghost predicate ValidCodec(c: JsonCodec) {
    && (forall v :: WellFormed(v) ==> c.parse(c.stringify(v)) == Success(v))
    && (forall s :: c.parse(s).Success? ==> WellFormed(c.parse(s).value))
  }

  function Keys(es: Entries): (ks: seq<string>)
    ensures |ks| == |es|
    ensures forall i :: 0 <= i < |es| ==> ks[i] == es[i].0
  {
    seq(|es|, i requires 0 <= i < |es| => es[i].0)
  }

  /** The decimal indices "0", "1", ... of a sequence of length `n`. */
  function Indices(n: nat): (r: seq<string>)
    ensures |r| == n
  {
    seq(n, i requires 0 <= i < n => NatToString(i))
  }

  /**
   * `Object.keys(v)`: the properties of an object, the indices of an array or
   * of a string's characters, none for a number or a boolean; `null` makes it
   * throw, which is `None` here.
   */
  function ObjectKeys(v: Json): (r: Option<seq<string>>)
    ensures r.None? <==> v.JNull?
  {
    match v
    case JNull => None
    case JObject(es) => Some(Keys(es))
    case JArray(items) => Some(Indices(|items|))
    case JString(s) => Some(Indices(|s|))
    case _ => Some([])
  }

  /** The value stored under `k`, if any. */
  function Lookup(es: Entries, k: string): Option<Json> {
    if es == [] then None
    else if es[0].0 == k then Some(es[0].1)
    else Lookup(es[1..], k)
  }

  /** The value of the LAST entry with key `k`: what an object literal with repeated keys keeps. */
  function LookupLast(es: Entries, k: string): Option<Json> {
    if es == [] then None
    else if es[|es| - 1].0 == k then Some(es[|es| - 1].1)
    else LookupLast(es[..|es| - 1], k)
  }

  lemma {:induction false} LookupFound(es: Entries, k: string)
    ensures Lookup(es, k).Some? <==> k in Keys(es)
    ensures Lookup(es, k).Some? ==> exists i :: 0 <= i < |es| && es[i] == (k, Lookup(es, k).value)
    decreases |es|
  {
    if es != [] && es[0].0 != k {
      LookupFound(es[1..], k);
      assert Keys(es) == [es[0].0] + Keys(es[1..]);
      if Lookup(es, k).Some? {
        var i :| 0 <= i < |es[1..]| && es[1..][i] == (k, Lookup(es, k).value);
        assert es[i + 1] == (k, Lookup(es, k).value);
      }
    } else if es != [] {
      assert es[0] == (k, Lookup(es, k).value);
    }
  }

  /** With distinct keys, the entry at index `i` is what a lookup of its key finds. */
  lemma {:induction false} LookupAt(es: Entries, i: nat)
    requires DistinctKeys(es) && i < |es|
    ensures Lookup(es, es[i].0) == Some(es[i].1)
    decreases i
  {
    if i > 0 {
      assert es[0].0 != es[i].0;
      LookupAt(es[1..], i - 1);
    }
  }

  /** `obj[k] = v`: an existing property is overwritten where it stands, a new one goes last. */
  function Set(es: Entries, k: string, v: Json): (r: Entries)
    ensures |r| == |es| || |r| == |es| + 1
  {
    if es == [] then [(k, v)]
    else if es[0].0 == k then [(k, v)] + es[1..]
    else [es[0]] + Set(es[1..], k, v)
  }

  /** Assignment keeps every existing key where it was and puts a new key last. */
  lemma {:induction false} SetKeys(es: Entries, k: string, v: Json)
    ensures Keys(Set(es, k, v)) == if k in Keys(es) then Keys(es) else Keys(es) + [k]
    decreases |es|
  {
    if es != [] {
      var r := Set(es, k, v);
      var tail := Keys(es[1..]);
      assert Keys(es) == [es[0].0] + tail;
      if es[0].0 == k {
        assert Keys(r) == [k] + tail;
        assert k in Keys(es);
      } else {
        SetKeys(es[1..], k, v);
        var rest := Set(es[1..], k, v);
        assert r == [es[0]] + rest;
        assert Keys(r) == [es[0].0] + Keys(rest);
        assert k in Keys(es) <==> k in tail;
        if k !in tail {
          assert [es[0].0] + (tail + [k]) == ([es[0].0] + tail) + [k];
        }
      }
    }
  }

  /** After assignment the key reads back as the new value and every other key as before. */
  lemma {:induction false} SetLookup(es: Entries, k: string, v: Json)
    ensures Lookup(Set(es, k, v), k) == Some(v)
    ensures forall k' :: k' != k ==> Lookup(Set(es, k, v), k') == Lookup(es, k')
    decreases |es|
  {
    if es != [] {
      var r := Set(es, k, v);
      if es[0].0 == k {
        assert r[1..] == es[1..];
      } else {
        SetLookup(es[1..], k, v);
        assert r[1..] == Set(es[1..], k, v);
      }
    }
  }

  /**
   * Assignment keeps the keys distinct, keeps every existing key where it was,
   * makes the key read back as the new value and leaves every other key alone.
   */
  lemma SetProperties(es: Entries, k: string, v: Json)
    requires DistinctKeys(es)
    ensures DistinctKeys(Set(es, k, v))
    ensures Lookup(Set(es, k, v), k) == Some(v)
    ensures forall k' :: k' != k ==> Lookup(Set(es, k, v), k') == Lookup(es, k')
    ensures Keys(Set(es, k, v)) == if k in Keys(es) then Keys(es) else Keys(es) + [k]
  {
    SetKeys(es, k, v);
    SetLookup(es, k, v);
    var r := Set(es, k, v);
    forall i, j | 0 <= i < j < |r| ensures r[i].0 != r[j].0 {
      assert r[i].0 == Keys(r)[i] && r[j].0 == Keys(r)[j];
      if k !in Keys(es) && j == |es| {
        assert Keys(r)[i] == Keys(es)[i];
      }
    }
  }

  predicate WellFormedValues(es: Entries) {
    forall i :: 0 <= i < |es| ==> WellFormed(es[i].1)
  }

  lemma {:induction false} SetWellFormed(es: Entries, k: string, v: Json)
    requires WellFormedValues(es) && WellFormed(v)
    ensures WellFormedValues(Set(es, k, v))
    decreases |es|
  {
    if es != [] && es[0].0 != k {
      SetWellFormed(es[1..], k, v);
      var r := Set(es, k, v);
      assert r[1..] == Set(es[1..], k, v);
    }
  }

  /** `Object.assign(target, src)` and the spread `{ ...target-entries, ...src }`: each source entry assigned in order. */
  function Assign(es: Entries, src: Entries): Entries
    decreases |src|
  {
    if src == [] then es else Set(Assign(es, src[..|src| - 1]), src[|src| - 1].0, src[|src| - 1].1)
  }

  /**
   * After spreading `src` over `es`: a key of `src` reads as the last value
   * `src` gives it, any other key reads as before, the keys stay distinct and
   * the keys of `es` keep their places at the front.
   */
  lemma {:induction false} AssignProperties(es: Entries, src: Entries)
    requires DistinctKeys(es)
    ensures DistinctKeys(Assign(es, src))
    ensures forall k :: Lookup(Assign(es, src), k) == if LookupLast(src, k).Some? then LookupLast(src, k) else Lookup(es, k)
    ensures Keys(es) <= Keys(Assign(es, src))
    decreases |src|
  {
    if src != [] {
      var init := src[..|src| - 1];
      var (k, v) := src[|src| - 1];
      AssignProperties(es, init);
      SetProperties(Assign(es, init), k, v);
    }
  }

  lemma {:induction false} AssignWellFormed(es: Entries, src: Entries)
    requires WellFormedValues(es) && WellFormedValues(src)
    ensures WellFormedValues(Assign(es, src))
    decreases |src|
  {
    if src != [] {
      AssignWellFormed(es, src[..|src| - 1]);
      SetWellFormed(Assign(es, src[..|src| - 1]), src[|src| - 1].0, src[|src| - 1].1);
    }
  }

  /**
   * `Object.entries(v)`: an object gives its properties, an array its items and
   * a string its characters under the decimal indices, a number or a boolean
   * nothing; `null` throws (`None`).
   */
  function ObjectEntries(v: Json): (r: Option<Entries>)
    ensures r.None? <==> v == JNull
    ensures v.JObject? ==> r == Some(v.entries)
  {
    match v
    case JNull => None
    case JBool(_) => Some([])
    case JNumber(_) => Some([])
    case JString(s) => Some(seq(|s|, i requires 0 <= i < |s| => (NatToString(i), JString([s[i]]))))
    case JArray(items) => Some(seq(|items|, i requires 0 <= i < |items| => (NatToString(i), items[i])))
    case JObject(es) => Some(es)
  }

  /** The entries `{ ...v }` copies: as `Object.entries`, except that spreading `null` copies nothing. */
  function SpreadSource(v: Json): Entries {
    ObjectEntries(v).GetOr([])
  }

  lemma SpreadSourceWellFormed(v: Json)
    requires WellFormed(v)
    ensures WellFormedValues(SpreadSource(v))
  {
  }

  /** `{ ...v }` */
  function Spread(v: Json): Entries {
    Assign([], SpreadSource(v))
  }

  /** Spreading an object with distinct keys copies it exactly. */
  lemma {:induction false} SpreadObjectCopies(es: Entries)
    requires DistinctKeys(es)
    ensures Spread(JObject(es)) == es
  {
    AssignFreshKeys([], es);
  }

  /** Assigning keys that are all new appends them in order. */
  lemma {:induction false} AssignFreshKeys(es: Entries, src: Entries)
    requires DistinctKeys(src)
    requires forall i, j :: 0 <= i < |es| && 0 <= j < |src| ==> es[i].0 != src[j].0
    ensures Assign(es, src) == es + src
    decreases |src|
  {
    if src != [] {
      var init := src[..|src| - 1];
      AssignFreshKeys(es, init);
      SetAppendsFresh(es + init, src[|src| - 1].0, src[|src| - 1].1);
      assert es + init + [src[|src| - 1]] == es + src;
    }
  }

  lemma {:induction false} SetAppendsFresh(es: Entries, k: string, v: Json)
    requires forall i :: 0 <= i < |es| ==> es[i].0 != k
    ensures Set(es, k, v) == es + [(k, v)]
    decreases |es|
  {
    if es != [] {
      SetAppendsFresh(es[1..], k, v);
      assert es == [es[0]] + es[1..];
    }
  }
}
