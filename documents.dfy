/**
 * Store documents as the handlers see them (an insertion-ordered
 * dictionary from field name to value) and the identifier normaliser
 * `serialize`, which every handler applies to what it returns.
 */
module Documents {
  import opened Wrappers
  import opened ObjectIds

  /** A field value. Timestamps are modelled as integers. */
  datatype Value =
    | Null
    | Bool(b: bool)
    | Int(i: int)
    | Str(s: string)
    | Oid(oid: ObjectId)
    | Array(items: seq<Value>)

  /** A dictionary keeps its items in insertion order. */
  type Doc = seq<(string, Value)>

  function KeySet(d: Doc): set<string> {
    set p | p in d :: p.0
  }

  /** A dictionary never holds the same key twice. */
  predicate WellFormed(d: Doc) {
    forall i, j :: 0 <= i < j < |d| ==> d[i].0 != d[j].0
  }

  /** `d.get(k)`. */
  function Get(d: Doc, k: string): (r: Option<Value>)
    ensures r.Some? <==> k in KeySet(d)
    ensures r.Some? ==> (k, r.value) in d
  {
    if d == [] then None
    else if d[0].0 == k then Some(d[0].1)
    else
      assert KeySet(d) == {d[0].0} + KeySet(d[1..]);
      Get(d[1..], k)
  }

  lemma KeySetCons(x: (string, Value), s: Doc)
    ensures KeySet([x] + s) == {x.0} + KeySet(s)
  {
    var d := [x] + s;
    forall y | y in d ensures y == x || y in s { }
    forall y | y in s ensures y in d { }
    assert d[0] == x;
  }

  /** `d[k] = v` on a dictionary: an existing key keeps its place, a new key goes last. */
  function Put(d: Doc, k: string, v: Value): (r: Doc)
    ensures KeySet(r) == KeySet(d) + {k}
    ensures k !in KeySet(d) ==> r == d + [(k, v)]
    ensures k in KeySet(d) ==> |r| == |d| && forall i :: 0 <= i < |d| ==> r[i].0 == d[i].0
  {
    if d == [] then [(k, v)]
    else
      assert d == [d[0]] + d[1..];
      KeySetCons(d[0], d[1..]);
      if d[0].0 == k then
        KeySetCons((k, v), d[1..]);
        [(k, v)] + d[1..]
      else
        var rest := Put(d[1..], k, v);
        KeySetCons(d[0], rest);
        [d[0]] + rest
  }

  /** After `d[k] = v`, k maps to v and every other key to what it mapped to before. */
  lemma {:induction false} PutGet(d: Doc, k: string, v: Value, k': string)
    ensures Get(Put(d, k, v), k') == if k' == k then Some(v) else Get(d, k')
  {
    if d != [] && d[0].0 != k {
      PutGet(d[1..], k, v, k');
      assert Put(d, k, v)[1..] == Put(d[1..], k, v);
    }
  }

  /** `d[k] = v` never duplicates a key. */
  lemma {:induction false} PutWellFormed(d: Doc, k: string, v: Value)
    requires WellFormed(d)
    ensures WellFormed(Put(d, k, v))
  {
    if d != [] && d[0].0 != k {
      PutWellFormed(d[1..], k, v);
      var rest := Put(d[1..], k, v);
      assert KeySet(d) == {d[0].0} + KeySet(d[1..]);
      assert forall j :: 0 <= j < |rest| ==> rest[j] in rest;
      assert forall j :: 1 <= j < |d| ==> d[j] in d[1..];
    }
  }

  /** In a well-formed dictionary, looking up the key at position i yields the value at position i. */
  lemma {:induction false} GetAt(d: Doc, i: int)
    requires WellFormed(d) && 0 <= i < |d|
    ensures Get(d, d[i].0) == Some(d[i].1)
  {
    if i > 0 {
      GetAt(d[1..], i - 1);
    }
  }

  // ---------- serialize ----------

  /** `oid_str(value)`: an ObjectId becomes its string form, anything else is left alone. */
  function OidStrValue(v: Value): (r: Value)
    ensures !r.Oid?
    ensures v.Oid? ==> r.Str? && ParseOid(r.s) == Some(v.oid)
    ensures !v.Oid? ==> r == v
  {
    if v.Oid? then
      ParseOidStr(v.oid);
      Str(OidStr(v.oid))
    else v
  }

  /** The key an input key is written under: `_id` becomes `id`, every other key stays. */
  function OutKey(k: string): string {
    if k == "_id" then "id" else k
  }

  /** One iteration of the loop body: the three branches on key and value type. */
  function SerializeItem(k: string, v: Value): (item: (string, Value))
    ensures item == (OutKey(k), OidStrValue(v))
  {
    if k == "_id" then ("id", OidStrValue(v))
    else if v.Oid? then (k, OidStrValue(v))
    else (k, v)
  }

  /** The dictionary `out` after the loop has visited `items` in order. */
  function SerializeItems(items: Doc): (out: Doc)
    ensures |out| <= |items|
    decreases |items|
  {
    if items == [] then []
    else
      var last := items[|items| - 1];
      var item := SerializeItem(last.0, last.1);
      Put(SerializeItems(items[..|items| - 1]), item.0, item.1)
  }

  /** `serialize(doc)`: an absent or empty document comes back unchanged. */
  function Serialized(doc: Option<Doc>): (r: Option<Doc>)
    ensures doc == None || doc == Some([]) ==> r == doc
    ensures doc.Some? ==> r.Some?
  {
    if doc.None? || doc.value == [] then doc
    else Some(SerializeItems(doc.value))
  }

  /** One more iteration of the loop writes the next item into `out`. */
  lemma SerializeStep(d: Doc, i: int)
    requires 0 <= i < |d|
    ensures SerializeItems(d[..i + 1]) == Put(SerializeItems(d[..i]), OutKey(d[i].0), OidStrValue(d[i].1))
  {
    var q := d[..i + 1];
    assert q[..i] == d[..i] && q[i] == d[i];
  }

  /** `serialize`, as the source writes it: a loop that fills a fresh dictionary. */
  method Serialize(doc: Option<Doc>) returns (out: Option<Doc>)
    ensures out == Serialized(doc)
  {
    if doc.None? || |doc.value| == 0 {
      return doc;
    }
    var d := doc.value;
    var o: Doc := [];
    for i := 0 to |d|
      invariant o == SerializeItems(d[..i])
    {
      var (k, v) := d[i];
      SerializeStep(d, i);
      if k == "_id" {
        o := Put(o, "id", OidStrValue(v));
      } else if v.Oid? {
        o := Put(o, k, OidStrValue(v));
      } else {
        o := Put(o, k, v);
      }
    }
    assert d[..|d|] == d;
    out := Some(o);
  }

  // ---------- what serialize guarantees ----------

  /** The output is always a well-formed dictionary. */
  lemma {:induction false} SerializeWellFormed(d: Doc)
    ensures WellFormed(SerializeItems(d))
    decreases |d|
  {
    if d != [] {
      var last := d[|d| - 1];
      SerializeWellFormed(d[..|d| - 1]);
      PutWellFormed(SerializeItems(d[..|d| - 1]), OutKey(last.0), OidStrValue(last.1));
    }
  }

  function OutKeys(keys: set<string>): set<string> {
    set k | k in keys :: OutKey(k)
  }

  lemma KeySetLast(d: Doc)
    requires d != []
    ensures KeySet(d) == KeySet(d[..|d| - 1]) + {d[|d| - 1].0}
  {
    var p, x := d[..|d| - 1], d[|d| - 1];
    assert d == p + [x];
    forall y | y in d ensures y in p || y == x { }
    forall y | y in p ensures y in d { }
  }

  lemma OutKeysAdd(keys: set<string>, k: string)
    ensures OutKeys(keys + {k}) == OutKeys(keys) + {OutKey(k)}
  {
  }

  /** The output's keys are the input's keys with `_id` renamed. */
  lemma {:induction false} SerializeKeys(d: Doc)
    ensures KeySet(SerializeItems(d)) == set k | k in KeySet(d) :: OutKey(k)
    decreases |d|
  {
    if d != [] {
      var p := d[..|d| - 1];
      var last := d[|d| - 1];
      SerializeKeys(p);
      var item := SerializeItem(last.0, last.1);
      assert KeySet(SerializeItems(d)) == KeySet(SerializeItems(p)) + {OutKey(last.0)};
      KeySetLast(d);
      OutKeysAdd(KeySet(p), last.0);
      assert OutKeys(KeySet(d)) == OutKeys(KeySet(p)) + {OutKey(last.0)};
    }
  }

  /** The output never holds `_id`. */
  lemma SerializeDropsUnderscoreId(d: Doc)
    ensures "_id" !in KeySet(SerializeItems(d))
  {
    SerializeKeys(d);
  }

  /**
   * Under an output key k, the output holds the converted value of the LAST
   * input item written under k (later assignments to `out[k]` win).
   */
  lemma {:induction false} GetSerializedLast(d: Doc, k: string, i: int)
    requires 0 <= i < |d| && OutKey(d[i].0) == k
    requires forall j :: i < j < |d| ==> OutKey(d[j].0) != k
    ensures Get(SerializeItems(d), k) == Some(OidStrValue(d[i].1))
    decreases |d|
  {
    var p, last := d[..|d| - 1], d[|d| - 1];
    PutGet(SerializeItems(p), OutKey(last.0), OidStrValue(last.1), k);
    if i < |d| - 1 {
      GetSerializedLast(p, k, i);
    }
  }

  /** An output key no input item is written under is absent. */
  lemma {:induction false} GetSerializedAbsent(d: Doc, k: string)
    requires forall j :: 0 <= j < |d| ==> OutKey(d[j].0) != k
    ensures Get(SerializeItems(d), k) == None
    decreases |d|
  {
    if d != [] {
      var p, last := d[..|d| - 1], d[|d| - 1];
      PutGet(SerializeItems(p), OutKey(last.0), OidStrValue(last.1), k);
      GetSerializedAbsent(p, k);
    }
  }

  /** Every key other than `_id` and `id` keeps its name, and its value goes through `oid_str`. */
  lemma SerializeKeepsKey(d: Doc, k: string)
    requires WellFormed(d) && k != "_id" && k != "id"
    ensures Get(SerializeItems(d), k) ==
      match Get(d, k)
      case None => None
      case Some(v) => Some(OidStrValue(v))
  {
    if k in KeySet(d) {
      var i :| 0 <= i < |d| && d[i].0 == k;
      GetAt(d, i);
      GetSerializedLast(d, k, i);
    } else {
      GetSerializedAbsent(d, k);
    }
  }

  /** With no `id` key in the input, `id` holds the string form of the `_id` value. */
  lemma SerializeRenamesId(d: Doc, i: int)
    requires WellFormed(d) && "id" !in KeySet(d)
    requires 0 <= i < |d| && d[i].0 == "_id"
    ensures Get(SerializeItems(d), "id") == Some(OidStrValue(d[i].1))
    ensures d[i].1.Oid? ==> Get(SerializeItems(d), "id") == Some(Str(OidStr(d[i].1.oid)))
  {
    forall j | i < j < |d| ensures OutKey(d[j].0) != "id" {
      assert d[j] in d;
    }
    GetSerializedLast(d, "id", i);
  }

  /** An input holding both `_id` and `id`: whichever comes later decides the output's `id`, and the two keys merge into one. */
  lemma SerializeIdCollision(d: Doc, i: int, j: int)
    requires WellFormed(d)
    requires 0 <= i < |d| && d[i].0 == "_id" && 0 <= j < |d| && d[j].0 == "id"
    ensures Get(SerializeItems(d), "id") == Some(OidStrValue(d[if i < j then j else i].1))
    ensures KeySet(SerializeItems(d)) == KeySet(d) - {"_id"}
  {
    var last := if i < j then j else i;
    forall m | last < m < |d| ensures OutKey(d[m].0) != "id" {
      assert d[m].0 != d[i].0 && d[m].0 != d[j].0;
    }
    GetSerializedLast(d, "id", last);
    SerializeMergesIdKeys(d, i, j);
  }

  lemma SerializeMergesIdKeys(d: Doc, i: int, j: int)
    requires 0 <= i < |d| && d[i].0 == "_id" && 0 <= j < |d| && d[j].0 == "id"
    ensures KeySet(SerializeItems(d)) == KeySet(d) - {"_id"}
  {
    SerializeKeys(d);
    var outKeys := set k | k in KeySet(d) :: OutKey(k);
    assert "id" in KeySet(d) by { assert d[j] in d; }
    forall k | k in outKeys ensures k in KeySet(d) - {"_id"} { }
    forall k | k in KeySet(d) - {"_id"} ensures k in outKeys {
      assert OutKey(k) == k;
    }
  }

  /** The reference form of the output when `id` is not already a key: rename in place, convert values. */
  function Renamed(d: Doc): (r: Doc)
    ensures |r| == |d|
  {
    seq(|d|, i requires 0 <= i < |d| => (OutKey(d[i].0), OidStrValue(d[i].1)))
  }

  /** The key of a new last item is not among the keys the earlier items were written under. */
  lemma FreshOutKey(d: Doc)
    requires WellFormed(d) && "id" !in KeySet(d) && d != []
    ensures OutKey(d[|d| - 1].0) !in KeySet(SerializeItems(d[..|d| - 1]))
  {
    var n := |d| - 1;
    var p := d[..n];
    SerializeKeys(p);
    assert forall j :: 0 <= j < n ==> p[j] == d[j];
  }

  lemma PrefixWellFormed(d: Doc, n: int)
    requires WellFormed(d) && 0 <= n <= |d|
    ensures WellFormed(d[..n]) && KeySet(d[..n]) <= KeySet(d)
  {
    var p := d[..n];
    forall x | x in p ensures x in d { }
    forall i, j | 0 <= i < j < |p| ensures p[i].0 != p[j].0 {
      assert p[i] == d[i] && p[j] == d[j];
    }
  }

  lemma RenamedSnoc(d: Doc)
    requires d != []
    ensures Renamed(d) == Renamed(d[..|d| - 1]) + [(OutKey(d[|d| - 1].0), OidStrValue(d[|d| - 1].1))]
  {
    var n := |d| - 1;
    var a := Renamed(d);
    var b := Renamed(d[..n]) + [(OutKey(d[n].0), OidStrValue(d[n].1))];
    forall i | 0 <= i < |a| ensures a[i] == b[i] {
      if i < n {
        assert d[..n][i] == d[i];
      }
    }
  }

  /** With no `id` key in the input, serialize keeps every item in place. */
  lemma {:induction false} SerializeInOrder(d: Doc)
    requires WellFormed(d) && "id" !in KeySet(d)
    ensures SerializeItems(d) == Renamed(d)
    decreases |d|
  {
    if d != [] {
      var n := |d| - 1;
      var p := d[..n];
      PrefixWellFormed(d, n);
      SerializeInOrder(p);
      FreshOutKey(d);
      RenamedSnoc(d);
      var item := SerializeItem(d[n].0, d[n].1);
      assert SerializeItems(d) == Put(SerializeItems(p), item.0, item.1);
    }
  }
}
