/**
 * The Python values that YAML front matter, JSON payloads and the mini YAML
 * parser produce, with the dictionary operations, truthiness and `str()`
 * the tooling applies to them.  Dictionaries keep insertion order and unique keys.
 */
module Values {
  import opened Wrappers
  import opened Str

  datatype Value =
    | VNone
    | VBool(b: bool)
    | VInt(i: int)
    | VFloat(text: string)
    | VStr(s: string)
    | VList(items: seq<Value>)
    | VDict(entries: seq<(string, Value)>)
      /** a value of another Python type (tuple, set, ...) with its `repr` and truth value */
    | VOther(repr: string, truthy: bool)

  function Keys<V>(entries: seq<(string, V)>): (ks: seq<string>)
    ensures |ks| == |entries|
    ensures forall i :: 0 <= i < |entries| ==> ks[i] == entries[i].0
  {
    if entries == [] then [] else [entries[0].0] + Keys(entries[1..])
  }

  predicate UniqueKeys<V>(entries: seq<(string, V)>)
  {
    forall i, j :: 0 <= i < j < |entries| ==> entries[i].0 != entries[j].0
  }

  /** `d.get(k)` on a dictionary given by its entries. */
  function Lookup<V>(entries: seq<(string, V)>, k: string): (r: Option<V>)
    ensures r.None? <==> k !in Keys(entries)
    ensures r.Some? ==> exists i :: 0 <= i < |entries| && entries[i] == (k, r.value)
  {
    if entries == [] then None
    else if entries[0].0 == k then Some(entries[0].1)
    else
      var r := Lookup(entries[1..], k);
      assert r.Some? ==> exists i :: 0 <= i < |entries| && entries[i] == (k, r.value) by {
        if r.Some? {
          var i :| 0 <= i < |entries| - 1 && entries[1..][i] == (k, r.value);
          assert entries[i + 1] == (k, r.value);
        }
      }
      r
  }

  /** `d[k] = v`: an existing key keeps its position, a new key goes last. */
  function Update<V>(entries: seq<(string, V)>, k: string, v: V): (r: seq<(string, V)>)
    ensures k in Keys(entries) ==> Keys(r) == Keys(entries)
    ensures k !in Keys(entries) ==> Keys(r) == Keys(entries) + [k]
  {
    if entries == [] then [(k, v)]
    else if entries[0].0 == k then [(k, v)] + entries[1..]
    else
      var r := [entries[0]] + Update(entries[1..], k, v);
      assert Keys(r) == [entries[0].0] + Keys(Update(entries[1..], k, v));
      assert Keys(entries) == [entries[0].0] + Keys(entries[1..]);
      r
  }

  /** After `d[k] = v`, `k` maps to `v` and every other key keeps its value. */
  lemma {:induction false} LookupUpdate<V>(entries: seq<(string, V)>, k: string, v: V, k': string)
    ensures Lookup(Update(entries, k, v), k') == if k' == k then Some(v) else Lookup(entries, k')
  {
    if entries != [] && entries[0].0 != k {
      LookupUpdate(entries[1..], k, v, k');
    }
  }

  /** Setting a key the dictionary does not hold appends it. */
  lemma {:induction false} UpdateNew<V>(entries: seq<(string, V)>, k: string, v: V)
    requires k !in Keys(entries)
    ensures Update(entries, k, v) == entries + [(k, v)]
  {
    if entries != [] {
      assert entries[0].0 != k && Keys(entries)[1..] == Keys(entries[1..]);
      UpdateNew(entries[1..], k, v);
      assert Update(entries, k, v) == [entries[0]] + (entries[1..] + [(k, v)]);
      assert [entries[0]] + (entries[1..] + [(k, v)]) == ([entries[0]] + entries[1..]) + [(k, v)];
    }
  }

  /** Looking a key up in entries with one more at the end finds the earlier entry first. */
  lemma {:induction false} LookupSnoc<V>(entries: seq<(string, V)>, e: (string, V), k: string)
    ensures Lookup(entries + [e], k) == if k in Keys(entries) then Lookup(entries, k)
                                       else if k == e.0 then Some(e.1) else None
  {
    if entries != [] {
      assert (entries + [e])[1..] == entries[1..] + [e];
      LookupSnoc(entries[1..], e, k);
    }
  }

  /** `d.get(k)` when `d` may not be a dictionary at all. */
  function Get(d: Value, k: string): Option<Value>
  {
    if d.VDict? then Lookup(d.entries, k) else None
  }

  /** The mantissa of a float literal holds no non-zero digit. */
  predicate FloatTextIsZero(t: string)
  {
    forall i :: 0 <= i < |t| && !(exists j :: 0 <= j <= i && (t[j] == 'e' || t[j] == 'E'))
      ==> t[i] in {'+', '-', '.', '_', '0'}
  }

  /** Python truthiness (`bool(v)`). */
  predicate Truthy(v: Value)
  {
    match v
    case VNone => false
    case VBool(b) => b
    case VInt(i) => i != 0
    case VFloat(t) => !FloatTextIsZero(t)
    case VStr(s) => s != []
    case VList(items) => items != []
    case VDict(entries) => entries != []
    case VOther(_, t) => t
  }

  /** `str(v)`. */
  function PyStr(v: Value): string
    decreases v, 1
  {
    match v
    case VNone => "None"
    case VBool(b) => if b then "True" else "False"
    case VInt(i) => IntToString(i)
    case VFloat(t) => t
    case VStr(s) => s
    case VList(items) => "[" + ReprItems(items) + "]"
    case VDict(entries) => "{" + ReprEntries(entries) + "}"
    case VOther(r, _) => r
  }

  /** `repr(v)`. */
  function Repr(v: Value): string
    decreases v, 2
  {
    if v.VStr? then "'" + v.s + "'" else PyStr(v)
  }

  function ReprItems(items: seq<Value>): string
    decreases items, 3
  {
    if items == [] then ""
    else if |items| == 1 then Repr(items[0])
    else Repr(items[0]) + ", " + ReprItems(items[1..])
  }

  function ReprEntries(entries: seq<(string, Value)>): string
    decreases entries, 3
  {
    if entries == [] then ""
    else
      var e := entries[0];
      assert e in entries && e.1 < e;
      var kv := "'" + e.0 + "': " + Repr(e.1);
      if |entries| == 1 then kv else kv + ", " + ReprEntries(entries[1..])
  }
}
