/**
 * The Python values json.loads produces (None, bool, int, str, list, dict)
 * and the few operations the application applies to them: dict lookup,
 * the dict display {"task": prompt, **data}, iteration, and str().
 * A dict is a sequence of (key, value) entries; as with json.loads, a key
 * that occurs twice keeps the value of its last occurrence.
 */
module PyJson {
  import opened Wrappers
  import Text

  datatype Json =
    | JNull
    | JBool(b: bool)
    | JInt(i: int)
    | JStr(s: string)
    | JArr(items: seq<Json>)
    | JObj(entries: Dict)

  type Dict = seq<(string, Json)>

  /** d[k]: the value of the last entry with key k, or None (KeyError). */
  function Lookup(d: Dict, k: string): (r: Option<Json>)
    ensures r.Some? ==> (k, r.value) in d
    ensures r.None? <==> forall i :: 0 <= i < |d| ==> d[i].0 != k
    ensures r.Some? ==> exists i :: 0 <= i < |d| && d[i] == (k, r.value)
                                  && forall j :: i < j < |d| ==> d[j].0 != k
  {
    if d == [] then None
    else if d[|d| - 1].0 == k then Some(d[|d| - 1].1)
    else
      var p := d[..|d| - 1];
      var r := Lookup(p, k);
      if r.Some? then
        var i :| 0 <= i < |p| && p[i] == (k, r.value) && forall j :: i < j < |p| ==> p[j].0 != k;
        assert d[i] == (k, r.value) && forall j :: i < j < |d| ==> d[j].0 != k;
        r
      else r
  }

  predicate HasKey(d: Dict, k: string)
  {
    Lookup(d, k).Some?
  }

  /** Sets the value of every entry with key k to v, keeping the order. */
  function Overwrite(d: Dict, k: string, v: Json): (r: Dict)
    ensures |r| == |d|
    ensures forall i :: 0 <= i < |d| ==> r[i].0 == d[i].0
    ensures forall i :: 0 <= i < |d| ==> r[i].1 == if d[i].0 == k then v else d[i].1
  {
    if d == [] then [] else [if d[0].0 == k then (k, v) else d[0]] + Overwrite(d[1..], k, v)
  }

  lemma {:induction false} OverwriteLookup(d: Dict, k: string, v: Json, k': string)
    ensures Lookup(Overwrite(d, k, v), k') == if k' == k && HasKey(d, k) then Some(v) else Lookup(d, k')
  {
    if d != [] {
      var r := Overwrite(d, k, v);
      assert r[..|r| - 1] == Overwrite(d[..|d| - 1], k, v);
      OverwriteLookup(d[..|d| - 1], k, v, k');
    }
  }

  /** Python's d[k] = v: an existing key keeps its place, a new key goes last. */
  function Put(d: Dict, k: string, v: Json): (r: Dict)
    ensures Lookup(r, k) == Some(v)
    ensures forall k' :: k' != k ==> Lookup(r, k') == Lookup(d, k')
    ensures |d| <= |r| && forall i :: 0 <= i < |d| ==> r[i].0 == d[i].0
  {
    if HasKey(d, k) then
      var r := Overwrite(d, k, v);
      OverwriteLookup(d, k, v, k);
      forall k' | k' != k ensures Lookup(r, k') == Lookup(d, k') {
        OverwriteLookup(d, k, v, k');
      }
      r
    else
      d + [(k, v)]
  }

  predicate DistinctKeys(d: Dict)
  {
    forall i, j :: 0 <= i < j < |d| ==> d[i].0 != d[j].0
  }

  /** In a dict without repeated keys each entry is what its key finds. */
  lemma {:induction false} LookupDistinct(d: Dict, i: nat)
    requires DistinctKeys(d) && i < |d|
    ensures Lookup(d, d[i].0) == Some(d[i].1)
  {
    if i < |d| - 1 {
      LookupDistinct(d[..|d| - 1], i);
    }
  }

  /** Puts the entries of d into m one after another, as dict unpacking does. */
  function PutAll(m: Dict, d: Dict): Dict
  {
    if d == [] then m else Put(PutAll(m, d[..|d| - 1]), d[|d| - 1].0, d[|d| - 1].1)
  }

  lemma {:induction false} PutAllLookup(m: Dict, d: Dict, k: string)
    ensures Lookup(PutAll(m, d), k) == if HasKey(d, k) then Lookup(d, k) else Lookup(m, k)
  {
    if d != [] {
      PutAllLookup(m, d[..|d| - 1], k);
    }
  }

  lemma {:induction false} PutAllKeepsOrder(m: Dict, d: Dict)
    ensures |m| <= |PutAll(m, d)|
    ensures forall i :: 0 <= i < |m| ==> PutAll(m, d)[i].0 == m[i].0
  {
    if d != [] {
      PutAllKeepsOrder(m, d[..|d| - 1]);
    }
  }

  /** The dict display {"task": prompt, **data}. */
  function Merge(prompt: string, data: Dict): Dict
  {
    PutAll([("task", JStr(prompt))], data)
  }

  /** "task" stays the first key; it holds the prompt unless data has its own
      "task", which then wins; every other key holds exactly data's value. */
  lemma MergeSpec(prompt: string, data: Dict)
    ensures |Merge(prompt, data)| >= 1 && Merge(prompt, data)[0].0 == "task"
    ensures Lookup(Merge(prompt, data), "task")
            == if HasKey(data, "task") then Lookup(data, "task") else Some(JStr(prompt))
    ensures forall k :: k != "task" ==> Lookup(Merge(prompt, data), k) == Lookup(data, k)
  {
    PutAllKeepsOrder([("task", JStr(prompt))], data);
    PutAllLookup([("task", JStr(prompt))], data, "task");
    forall k | k != "task" ensures Lookup(Merge(prompt, data), k) == Lookup(data, k) {
      PutAllLookup([("task", JStr(prompt))], data, k);
    }
  }

  /** The index of the first entry with key k, or |d| when there is none. */
  function FirstIndex(d: Dict, k: string): (n: nat)
    ensures n <= |d|
    ensures forall i :: 0 <= i < n ==> d[i].0 != k
    ensures n < |d| ==> d[n].0 == k
  {
    if d == [] || d[0].0 == k then 0 else 1 + FirstIndex(d[1..], k)
  }

  /** The keys of a dict in iteration order: each key once, the keys ordered
      by the place where each first occurs. */
  function Keys(d: Dict): (r: seq<string>)
    ensures forall i, j :: 0 <= i < j < |r| ==> r[i] != r[j]
    ensures forall k :: k in r <==> HasKey(d, k)
    ensures forall i, j :: 0 <= i < j < |r| ==> FirstIndex(d, r[i]) < FirstIndex(d, r[j])
  {
    if d == [] then []
    else
      var p := d[..|d| - 1];
      var ks := Keys(p);
      var k := d[|d| - 1].0;
      forall x | x in ks ensures FirstIndex(d, x) == FirstIndex(p, x) < |p| {
        FirstIndexPrefix(d, x);
      }
      if k in ks then ks
      else
        FirstIndexPrefix(d, k);
        ks + [k]
  }

  /** Dropping the last entry keeps the first index of a key that occurs
      before it, and makes it |d| - 1 for a key that occurs only last. */
  lemma FirstIndexPrefix(d: Dict, k: string)
    requires d != []
    ensures var p := d[..|d| - 1];
            if HasKey(p, k) then FirstIndex(d, k) == FirstIndex(p, k) < |p|
            else FirstIndex(d, k) >= |p|
  {
    var p := d[..|d| - 1];
    var n, m := FirstIndex(d, k), FirstIndex(p, k);
    if m < |p| {
      assert p[m] == d[m];
      assert n == m;
    }
  }

  /** The name Python gives the type of a value, as in its error messages. */
  function TypeName(j: Json): string
  {
    match j
    case JNull => "NoneType"
    case JBool(_) => "bool"
    case JInt(_) => "int"
    case JStr(_) => "str"
    case JArr(_) => "list"
    case JObj(_) => "dict"
  }

  /** str(j) for a scalar; None for a list or dict, whose repr is not modelled. */
  function Str(j: Json): (r: Option<string>)
    ensures r.Some? <==> !j.JArr? && !j.JObj?
    ensures j.JNull? ==> r == Some("None")
    ensures j.JBool? ==> r == Some(if j.b then "True" else "False")
    ensures j.JInt? ==> r == Some(Text.IntToString(j.i))
    ensures j.JStr? ==> r == Some(j.s)
  {
    match j
    case JNull => Some("None")
    case JBool(b) => Some(if b then "True" else "False")
    case JInt(i) => Some(Text.IntToString(i))
    case JStr(s) => Some(s)
    case _ => None
  }

  /** What a for loop over j visits: a list's items, a string's characters,
      a dict's keys; None (TypeError) for None, bools and ints. */
  function Iterate(j: Json): (r: Option<seq<Json>>)
    ensures r.Some? <==> j.JArr? || j.JStr? || j.JObj?
    ensures j.JArr? ==> r == Some(j.items)
    ensures j.JStr? ==> |r.value| == |j.s|
                        && forall i :: 0 <= i < |j.s| ==> r.value[i] == JStr([j.s[i]])
    ensures j.JObj? ==> |r.value| == |Keys(j.entries)|
                        && forall i :: 0 <= i < |r.value| ==> r.value[i] == JStr(Keys(j.entries)[i])
  {
    match j
    case JArr(items) => Some(items)
    case JStr(s) => Some(seq(|s|, i requires 0 <= i < |s| => JStr([s[i]])))
    case JObj(entries) =>
      var ks := Keys(entries);
      Some(seq(|ks|, i requires 0 <= i < |ks| => JStr(ks[i])))
    case _ => None
  }

  /** j[k] with a string key: a dict lookup; None (KeyError or TypeError)
      when the key is missing or j is not a dict. */
  function Subscript(j: Json, k: string): (r: Option<Json>)
    ensures r.Some? <==> j.JObj? && HasKey(j.entries, k)
    ensures r.Some? ==> r == Lookup(j.entries, k)
  {
    if j.JObj? then Lookup(j.entries, k) else None
  }
}
