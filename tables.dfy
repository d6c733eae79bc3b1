/**
 * An abstract collection of the document store: records under their ids,
 * in the store's natural (insertion) order. `find_one` by id, `find` with a
 * filter, `insert_one` and `update_one`.
 */
module Tables {
  import opened Wrappers
  import opened ObjectIds

  datatype Entry<R> = Entry(id: ObjectId, rec: R)

  type Table<R> = seq<Entry<R>>

  function Ids<R(==)>(t: Table<R>): set<ObjectId> {
    set e | e in t :: e.id
  }

  /** `_id` is the collection's unique key. */
  predicate UniqueIds<R(==)>(t: Table<R>) {
    forall i, j :: 0 <= i < j < |t| ==> t[i].id != t[j].id
  }

  /** `find_one({"_id": id})`: the first record under id. */
  function Find<R(==)>(t: Table<R>, id: ObjectId): (r: Option<R>)
    ensures r.Some? <==> id in Ids(t)
    ensures r.Some? ==> Entry(id, r.value) in t
  {
    if t == [] then None
    else if t[0].id == id then Some(t[0].rec)
    else
      assert Ids(t) == {t[0].id} + Ids(t[1..]);
      Find(t[1..], id)
  }

  /** With unique ids, an entry of the table is what `find_one` returns for its id. */
  lemma {:induction false} FindEntry<R>(t: Table<R>, e: Entry<R>)
    requires UniqueIds(t) && e in t
    ensures Find(t, e.id) == Some(e.rec)
  {
    if t[0] != e {
      assert t[0].id != e.id by {
        var j :| 0 <= j < |t| && t[j] == e;
      }
      FindEntry(t[1..], e);
    }
  }

  /** `insert_one` of a record under a fresh id: every other lookup is unaffected. */
  lemma {:induction false} FindAppend<R>(t: Table<R>, e: Entry<R>, id: ObjectId)
    ensures Find(t + [e], id) == if id in Ids(t) then Find(t, id) else if id == e.id then Some(e.rec) else None
  {
    if t == [] {
      assert [e][1..] == [];
    } else {
      assert (t + [e])[1..] == t[1..] + [e];
      assert Ids(t) == {t[0].id} + Ids(t[1..]);
      FindAppend(t[1..], e, id);
    }
  }

  lemma AppendUnique<R>(t: Table<R>, e: Entry<R>)
    requires UniqueIds(t) && e.id !in Ids(t)
    ensures UniqueIds(t + [e]) && Ids(t + [e]) == Ids(t) + {e.id}
  {
    assert forall i :: 0 <= i < |t| ==> t[i] in t;
  }

  /** `find(filter)`: the records the filter accepts, in natural order. */
  function Where<R(==,!new)>(t: Table<R>, p: R -> bool): (r: Table<R>)
    ensures forall e :: e in r <==> e in t && p(e.rec)
    ensures |r| <= |t|
  {
    if t == [] then []
    else
      var rest := Where(t[1..], p);
      assert forall e :: e in t <==> e == t[0] || e in t[1..];
      (if p(t[0].rec) then [t[0]] else []) + rest
  }

  /** A record inserted last is found last, and only if the filter accepts it. */
  lemma {:induction false} WhereAppend<R(!new)>(t: Table<R>, e: Entry<R>, p: R -> bool)
    ensures Where(t + [e], p) == Where(t, p) + (if p(e.rec) then [e] else [])
  {
    if t == [] {
      assert [e][1..] == [];
    } else {
      var u := t + [e];
      var head := if p(t[0].rec) then [t[0]] else [];
      var last := if p(e.rec) then [e] else [];
      assert u[0] == t[0] && u[1..] == t[1..] + [e];
      WhereAppend(t[1..], e, p);
      assert Where(u, p) == head + (Where(t[1..], p) + last);
      assert Where(t, p) == head + Where(t[1..], p);
    }
  }

  /**
   * `update_one({"_id": id}, ...)`: the first record under id is replaced,
   * in place; with no record under id nothing changes.
   */
  function Replace<R(==)>(t: Table<R>, id: ObjectId, rec: R): (r: Table<R>)
    ensures |r| == |t| && forall i :: 0 <= i < |t| ==> r[i].id == t[i].id
    ensures forall i :: 0 <= i < |t| ==> r[i] == t[i] || r[i] == Entry(id, rec)
    ensures Ids(r) == Ids(t)
    ensures Find(r, id) == if id in Ids(t) then Some(rec) else None
    ensures forall x :: x != id ==> Find(r, x) == Find(t, x)
    ensures id in Ids(t) ==> Entry(id, rec) in r
    ensures UniqueIds(t) ==> UniqueIds(r)
  {
    if t == [] then []
    else
      assert Ids(t) == {t[0].id} + Ids(t[1..]);
      if t[0].id == id then
        var r := [Entry(id, rec)] + t[1..];
        assert r[1..] == t[1..];
        assert Ids(r) == {id} + Ids(t[1..]);
        r
      else
        var rest := Replace(t[1..], id, rec);
        var r := [t[0]] + rest;
        assert r[1..] == rest;
        assert Ids(r) == {t[0].id} + Ids(rest);
        r
  }
}
