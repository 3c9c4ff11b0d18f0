/**
 * Plain JavaScript objects as the client handles them: an ordered list of
 * key/value pairs (the order `Object.keys` reports), the values the forms and the
 * backend exchange, object spread with one computed key, and the `cleanEmpty`
 * helper that RelativesTab and GeneralDataTab apply before a PATCH or POST.
 */
module JsRecords {
  import opened Text
  import opened Seqs

  /** The JavaScript values that appear in form state and payloads. */
  datatype JsValue =
    | JStr(s: string)
    | JNum(n: real)
    | JBool(b: bool)
    | JNull
    | JUndefined
    | JNaN
    | JObject   // any array or object: always truthy, never cleaned

  /** JavaScript truthiness. */
  predicate Truthy(v: JsValue) {
    match v
    case JStr(s) => s != []
    case JNum(n) => n != 0.0
    case JBool(b) => b
    case JObject => true
    case _ => false
  }

  /** `a || b`. */
  function Or(a: JsValue, b: JsValue): (r: JsValue)
    ensures Truthy(a) ==> r == a
    ensures !Truthy(a) ==> r == b
  {
    if Truthy(a) then a else b
  }

  /** `v || ''`: the value when truthy, otherwise the empty string. */
  function OrEmpty(v: JsValue): (r: JsValue)
    ensures Truthy(v) ==> r == v
    ensures !Truthy(v) ==> r == JStr("")
  {
    Or(v, JStr(""))
  }

  type Record = seq<(string, JsValue)>

  function Keys(r: Record): (ks: seq<string>)
    ensures |ks| == |r|
    ensures forall i :: 0 <= i < |r| ==> ks[i] == r[i].0
  {
    if r == [] then [] else [r[0].0] + Keys(r[1..])
  }

  /** No key occurs twice, as in every JavaScript object. */
  predicate Keyed(r: Record) {
    forall i, j :: 0 <= i < j < |r| ==> r[i].0 != r[j].0
  }

  /** `r[k]`: the value stored under the first occurrence of `k`, `undefined` when there is none. */
  function Get(r: Record, k: string): (v: JsValue)
    ensures k !in Keys(r) ==> v == JUndefined
  {
    if r == [] then JUndefined
    else if r[0].0 == k then r[0].1
    else Get(r[1..], k)
  }

  /** In an object, the value under `k` is the one stored in the pair that carries `k`. */
  lemma {:induction false} GetKeyed(r: Record, i: int)
    requires Keyed(r) && 0 <= i < |r|
    ensures Get(r, r[i].0) == r[i].1
    decreases |r|
  {
    if i > 0 {
      GetKeyed(r[1..], i - 1);
    }
  }

  /** `{...r, [k]: v}`: overwrites `k` in place, or appends it when absent. */
  function Set(r: Record, k: string, v: JsValue): (r': Record)
    ensures k in Keys(r) ==> Keys(r') == Keys(r)
    ensures k !in Keys(r) ==> r' == r + [(k, v)]
  {
    if r == [] then [(k, v)]
    else if r[0].0 == k then [(k, v)] + r[1..]
    else [r[0]] + Set(r[1..], k, v)
  }

  /** After the spread, `k` holds the new value and every other key its old one. */
  lemma {:induction false} GetSet(r: Record, k: string, v: JsValue, k': string)
    ensures Get(Set(r, k, v), k') == if k' == k then v else Get(r, k')
    decreases |r|
  {
    if r != [] && r[0].0 != k {
      GetSet(r[1..], k, v, k');
    }
  }

  /** `GetSet` for every key at once. */
  lemma SetOnlyChanges(r: Record, k: string, v: JsValue)
    ensures Get(Set(r, k, v), k) == v
    ensures forall k' :: k' != k ==> Get(Set(r, k, v), k') == Get(r, k')
  {
    GetSet(r, k, v, k);
    forall k' | k' != k
      ensures Get(Set(r, k, v), k') == Get(r, k')
    {
      GetSet(r, k, v, k');
    }
  }

  /** The spread keeps keys distinct. */
  lemma {:induction false} SetKeyed(r: Record, k: string, v: JsValue)
    requires Keyed(r)
    ensures Keyed(Set(r, k, v))
  {
    var r' := Set(r, k, v);
    if k in Keys(r) {
      assert Keys(r') == Keys(r);
      forall i, j | 0 <= i < j < |r'|
        ensures r'[i].0 != r'[j].0
      {
        assert Keys(r')[i] == Keys(r)[i] && Keys(r')[j] == Keys(r)[j];
      }
    } else {
      forall i | 0 <= i < |r|
        ensures r[i].0 != k
      {
        assert Keys(r)[i] == r[i].0;
      }
    }
  }

  // ---------------------------------------------------------------------------
  // Forms loaded from an object.

  /** `{ f: source.f || '' }` for every field in `fields`. */
  function FormOf(source: Record, fields: seq<string>): (f: Record)
    ensures Keys(f) == fields
    ensures forall i :: 0 <= i < |f| ==> f[i].1 == OrEmpty(Get(source, fields[i]))
  {
    if fields == [] then [] else [(fields[0], OrEmpty(Get(source, fields[0])))] + FormOf(source, fields[1..])
  }

  /** Loaded from an empty object, every field is `''`. */
  lemma FormOfNothing(fields: seq<string>)
    ensures forall i :: 0 <= i < |fields| ==> FormOf([], fields)[i].1 == JStr("")
  {
    var f := FormOf([], fields);
    forall i | 0 <= i < |fields|
      ensures f[i].1 == JStr("")
    {
      assert Get([], fields[i]) == JUndefined;
    }
  }

  predicate Distinct(names: seq<string>) {
    forall i, j :: 0 <= i < j < |names| ==> names[i] != names[j]
  }

  /** A form over distinct field names is a proper object. */
  lemma FormOfKeyed(source: Record, fields: seq<string>)
    requires Distinct(fields)
    ensures Keyed(FormOf(source, fields))
  {
    var f := FormOf(source, fields);
    assert forall i :: 0 <= i < |f| ==> f[i].0 == Keys(f)[i];
  }

  /** Each field of the form holds the source's value, or `''` when that is falsy or absent. */
  lemma {:induction false} FormOfGet(source: Record, fields: seq<string>, k: string)
    requires k in fields
    ensures Get(FormOf(source, fields), k) == OrEmpty(Get(source, k))
    decreases |fields|
  {
    if fields[0] != k {
      FormOfGet(source, fields[1..], k);
    }
  }

  /** Strings are trimmed; every other value passes through untouched. */
  function CleanValue(v: JsValue): JsValue {
    if v.JStr? then JStr(Trim(v.s)) else v
  }

  /** The values `cleanEmpty` keeps: not `null`, not `undefined`, not `''`. */
  predicate Kept(v: JsValue) {
    !v.JNull? && !v.JUndefined? && v != JStr("")
  }

  predicate Trimmed(v: JsValue) {
    v.JStr? ==> Trim(v.s) == v.s
  }

  lemma CleanValueTrimmed(v: JsValue)
    ensures Trimmed(CleanValue(v))
  {
    if v.JStr? {
      TrimIdempotent(v.s);
    }
  }

  /**
   * What `cleanEmpty(r)` returns: every pair of `r`, in order, with its value
   * cleaned, dropping those whose cleaned value is empty.
   */
  function Cleaned(r: Record): (c: Record)
    ensures |c| <= |r|
    ensures forall i :: 0 <= i < |c| ==> Kept(c[i].1) && Trimmed(c[i].1)
  {
    if r == [] then []
    else
      var w := CleanValue(r[0].1);
      CleanValueTrimmed(r[0].1);
      (if Kept(w) then [(r[0].0, w)] else []) + Cleaned(r[1..])
  }

  lemma {:induction false} CleanedConcat(a: Record, b: Record)
    ensures Cleaned(a + b) == Cleaned(a) + Cleaned(b)
    decreases |a|
  {
    if a == [] {
      assert a + b == b;
    } else {
      assert (a + b)[0] == a[0] && (a + b)[1..] == a[1..] + b;
      CleanedConcat(a[1..], b);
    }
  }

  /** Cleaning introduces no key the input did not have. */
  lemma {:induction false} CleanedNoNewKey(r: Record, k: string)
    requires k !in Keys(r)
    ensures k !in Keys(Cleaned(r))
    decreases |r|
  {
    if r != [] {
      assert Keys(r[1..]) == Keys(r)[1..];
      CleanedNoNewKey(r[1..], k);
    }
  }

  /** One step of `cleanEmpty`: the pair at `i` is cleaned, and its key is new to what was kept before it. */
  lemma CleanedStep(obj: Record, i: int)
    requires Keyed(obj) && 0 <= i < |obj|
    ensures var w := CleanValue(obj[i].1);
            Cleaned(obj[..i + 1]) == Cleaned(obj[..i]) + (if Kept(w) then [(obj[i].0, w)] else [])
    ensures obj[i].0 !in Keys(Cleaned(obj[..i]))
  {
    assert obj[..i + 1] == obj[..i] + [obj[i]];
    CleanedConcat(obj[..i], [obj[i]]);
    forall j | 0 <= j < i
      ensures Keys(obj[..i])[j] != obj[i].0
    {
    }
    CleanedNoNewKey(obj[..i], obj[i].0);
  }

  /** One turn of `cleanEmpty`'s loop: a kept value is written under a key not yet present. */
  lemma CleanEmptyStep(obj: Record, i: int, cleaned: Record)
    requires Keyed(obj) && 0 <= i < |obj| && cleaned == Cleaned(obj[..i])
    ensures var w := CleanValue(obj[i].1);
            Cleaned(obj[..i + 1]) == if Kept(w) then Set(cleaned, obj[i].0, w) else cleaned
  {
    CleanedStep(obj, i);
  }

  /**
   * `cleanEmpty`: walks `Object.keys(obj)`, trims string values and writes the
   * non-empty ones into a fresh object.
   */
  method CleanEmpty(obj: Record) returns (cleaned: Record)
    requires Keyed(obj)
    ensures cleaned == Cleaned(obj)
  {
    cleaned := [];
    var i := 0;
    while i < |obj|
      invariant 0 <= i <= |obj|
      invariant cleaned == Cleaned(obj[..i])
    {
      var key := obj[i].0;
      var value := CleanValue(obj[i].1);
      CleanEmptyStep(obj, i, cleaned);
      if value != JNull && value != JUndefined && value != JStr("") {
        cleaned := Set(cleaned, key, value);
      }
      i := i + 1;
    }
    assert obj[..i] == obj;
  }

  /** The keys of the cleaned object are among the keys of the input, in the same order. */
  lemma {:induction false} CleanedKeysSubsequence(r: Record)
    ensures IsSubsequence(Keys(Cleaned(r)), Keys(r))
    decreases |r|
  {
    if r != [] {
      CleanedKeysSubsequence(r[1..]);
      var rest := Cleaned(r[1..]);
      assert Keys(r[1..]) == Keys(r)[1..];
      var w := CleanValue(r[0].1);
      if Kept(w) {
        assert Keys(Cleaned(r)) == [r[0].0] + Keys(rest);
      } else {
        assert Cleaned(r) == rest;
        if rest != [] {
          SkipHead(Keys(rest), Keys(r));
        }
      }
    }
  }

  /**
   * Key by key: a cleaned object holds the cleaned value of the input under the
   * same key when that value is not empty, and nothing otherwise.
   */
  lemma {:induction false} GetCleaned(r: Record, k: string)
    requires Keyed(r)
    ensures var w := CleanValue(Get(r, k));
            Get(Cleaned(r), k) == if Kept(w) then w else JUndefined
    decreases |r|
  {
    if r != [] {
      var w0 := CleanValue(r[0].1);
      var rest := Cleaned(r[1..]);
      var head: Record := if Kept(w0) then [(r[0].0, w0)] else [];
      assert Cleaned(r) == head + rest;
      assert Keyed(r[1..]);
      GetCleaned(r[1..], k);
      if r[0].0 == k {
        NotInTail(r);
        if !Kept(w0) {
          assert Cleaned(r) == rest;
        }
      } else {
        assert Get(r, k) == Get(r[1..], k);
        if Kept(w0) {
          var c := head + rest;
          assert c[0].0 != k && c[1..] == rest;
          assert Get(c, k) == Get(rest, k);
        }
      }
    }
  }

  /** In an object, the first key does not occur again. */
  lemma NotInTail(r: Record)
    requires Keyed(r) && r != []
    ensures r[0].0 !in Keys(r[1..])
  {
    forall j | 0 <= j < |r| - 1
      ensures Keys(r[1..])[j] != r[0].0
    {
      assert r[1..][j] == r[j + 1];
    }
  }

  /** An object that is already clean is left as it is. */
  lemma {:induction false} CleanedOfClean(r: Record)
    requires forall i :: 0 <= i < |r| ==> Kept(r[i].1) && Trimmed(r[i].1)
    ensures Cleaned(r) == r
    decreases |r|
  {
    if r != [] {
      CleanedOfClean(r[1..]);
    }
  }

  /** `cleanEmpty` is idempotent. */
  lemma CleanedIdempotent(r: Record)
    ensures Cleaned(Cleaned(r)) == Cleaned(r)
  {
    CleanedOfClean(Cleaned(r));
  }
}
