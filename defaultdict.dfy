/**
  The dictionaries the vocabulary is built from: a finite map paired with the
  value a lookup of a missing key falls back to, and the loop that fills such a
  map from two parallel lists of keys and values (later pairs overwrite earlier
  ones with the same key).
 */
module DefaultDicts {

  /** `m[k]` when `k` is a key of `m`, and `unknown` otherwise. */
  function GetOr<K, V>(m: map<K, V>, k: K, unknown: V): V
  {
    if k in m then m[k] else unknown
  }

  /** A dictionary with a default value for missing keys. Reading a missing
      key does not insert it: every key read in the model is either present
      or only looked up through `Get`. */
  datatype DefaultDict<K, V> = DefaultDict(entries: map<K, V>, default: V)
  {
    function Get(k: K): V
    {
      GetOr(entries, k, default)
    }
  }

  /** The index of the last occurrence of `x` in `s`, or -1 when `x` does not
      occur in `s`. */
  function LastIndexOf<T(==)>(s: seq<T>, x: T): (r: int)
    ensures -1 <= r < |s|
    ensures r == -1 <==> x !in s
    ensures 0 <= r ==> s[r] == x && forall j :: r < j < |s| ==> s[j] != x
  {
    if |s| == 0 then -1
    else if s[|s| - 1] == x then |s| - 1
    else LastIndexOf(s[..|s| - 1], x)
  }

  /** Position `i` holds the last occurrence of its element in `s`. */
  predicate IsLastOccurrence<T(==)>(s: seq<T>, i: int)
    requires 0 <= i < |s|
  {
    forall j :: i < j < |s| ==> s[j] != s[i]
  }

  lemma LastIndexOfAt<T>(s: seq<T>, i: int)
    requires 0 <= i < |s|
    ensures LastIndexOf(s, s[i]) == i <==> IsLastOccurrence(s, i)
  {
  }

  /** The dictionary that pairing `keys[i]` with `values[i]` for every `i`,
      later pairs overwriting earlier ones, produces: each key is sent to the
      value at its last occurrence. */
  function LastWriteMap<K(==), V>(keys: seq<K>, values: seq<V>): map<K, V>
    requires |keys| == |values|
  {
    map k | k in keys :: values[LastIndexOf(keys, k)]
  }

  /** Assigning one more pair extends the dictionary built so far. */
  lemma LastWriteMapSnoc<K, V>(keys: seq<K>, values: seq<V>, k: K, v: V)
    requires |keys| == |values|
    ensures LastWriteMap(keys + [k], values + [v]) == LastWriteMap(keys, values)[k := v]
  {
  }

  /** Fills a dictionary with the pairs of `keys` and `values` taken in order,
      stopping at the end of the shorter list, each assignment replacing what an
      earlier pair with the same key wrote. */
  method MakeDefaultDict<K(==), V>(keys: seq<K>, values: seq<V>, defaultValue: V)
    returns (d: DefaultDict<K, V>)
    ensures var n := if |keys| < |values| then |keys| else |values|;
      d.entries == LastWriteMap(keys[..n], values[..n])
    ensures d.default == defaultValue
  {
    var dict: map<K, V> := map[];
    var n := if |keys| < |values| then |keys| else |values|;
    for i := 0 to n
      invariant dict == LastWriteMap(keys[..i], values[..i])
    {
      LastWriteMapSnoc(keys[..i], values[..i], keys[i], values[i]);
      assert keys[..i + 1] == keys[..i] + [keys[i]];
      assert values[..i + 1] == values[..i] + [values[i]];
      dict := dict[keys[i] := values[i]];
    }
    d := DefaultDict(dict, defaultValue);
  }

  /** Each key of the filled dictionary is one of the keys, every key is
      present, and the key at a last occurrence carries the value paired with
      it there. */
  lemma LastWriteMapAt<K, V>(keys: seq<K>, values: seq<V>, i: int)
    requires |keys| == |values| && 0 <= i < |keys|
    ensures keys[i] in LastWriteMap(keys, values)
    ensures IsLastOccurrence(keys, i) ==> LastWriteMap(keys, values)[keys[i]] == values[i]
  {
    LastIndexOfAt(keys, i);
  }
}
