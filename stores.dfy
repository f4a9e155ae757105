/**
 * The two stores a multi-vector retriever pairs, and the id source that links them:
 * an insertion-ordered `str -> str` dict (the in-memory document store), the vector store
 * as the list of documents added to it, and uuid4 as a supply of ids never handed out before.
 */
module Stores {
  import opened Wrappers
  import opened Text

  type Id = string

  /** A langchain `Document`: the text that gets embedded and its metadata dict. */
  datatype Document = Document(pageContent: string, metadata: map<string, string>)

  ghost predicate Distinct<T>(s: seq<T>)
  {
    forall i, j :: 0 <= i < j < |s| ==> s[i] != s[j]
  }

  /** A Python dict from str to str, with the insertion order of its keys. */
  datatype OrderedDict = OrderedDict(keys: seq<string>, values: map<string, string>) {

    /** Each key is listed once, and exactly the listed keys have values. */
    ghost predicate Valid()
    {
      && Distinct(keys)
      && forall k :: k in values <==> k in keys
    }

    /** `d[k] = v`: a new key goes to the end of the order, an old key keeps its place. */
    function Put(k: string, v: string): (d: OrderedDict)
      ensures Valid() ==> d.Valid()
      ensures d.values == values[k := v]
      ensures k in values ==> d.keys == keys
      ensures k !in values ==> d.keys == keys + [k]
    {
      if k in values then OrderedDict(keys, values[k := v]) else OrderedDict(keys + [k], values[k := v])
    }

    /** `d.get(k)`. */
    function Get(k: string): Option<string>
    {
      if k in values then Some(values[k]) else None
    }
  }

  const EmptyDict := OrderedDict([], map[])

  /** `for k, v in pairs: d[k] = v`. */
  function PutAll(d: OrderedDict, pairs: seq<(string, string)>): OrderedDict
    decreases |pairs|
  {
    if pairs == [] then d
    else PutAll(d, pairs[..|pairs| - 1]).Put(pairs[|pairs| - 1].0, pairs[|pairs| - 1].1)
  }

  /** Python's `zip`, which stops at the end of the shorter list. */
  function Zip<A, B>(a: seq<A>, b: seq<B>): (r: seq<(A, B)>)
    ensures |r| == if |a| < |b| then |a| else |b|
    ensures forall i :: 0 <= i < |r| ==> r[i] == (a[i], b[i])
  {
    if a == [] || b == [] then [] else [(a[0], b[0])] + Zip(a[1..], b[1..])
  }

  /** Putting a key that is new to a dict mirroring the pairs `q` gives the dict mirroring `q`
      followed by the new pair. */
  lemma {:induction false} PutNew(d: OrderedDict, q: seq<(string, string)>, k: string, v: string)
    requires d.Valid() && |d.keys| == |q|
    requires forall i :: 0 <= i < |q| ==> d.keys[i] == q[i].0 && q[i].0 in d.values && d.values[q[i].0] == q[i].1
    requires forall i :: 0 <= i < |q| ==> q[i].0 != k
    ensures var e := d.Put(k, v);
            var p := q + [(k, v)];
            && e.Valid() && |e.keys| == |p|
            && (forall i :: 0 <= i < |p| ==> e.keys[i] == p[i].0 && p[i].0 in e.values && e.values[p[i].0] == p[i].1)
  {
    assert k !in d.keys;
    var e := d.Put(k, v);
    var p := q + [(k, v)];
    assert e.keys == d.keys + [k];
    forall i | 0 <= i < |p| ensures e.keys[i] == p[i].0 && p[i].0 in e.values && e.values[p[i].0] == p[i].1 {
      if i < |q| {
        assert p[i] == q[i];
      }
    }
  }

  /** Storing pairs with distinct keys into an empty dict gives the dict whose order is the
      pairs' order and which maps each key to its own value. */
  lemma {:induction false} PutAllDistinct(p: seq<(string, string)>)
    requires forall i, j :: 0 <= i < j < |p| ==> p[i].0 != p[j].0
    ensures var d := PutAll(EmptyDict, p);
            && d.Valid() && |d.keys| == |p|
            && (forall i :: 0 <= i < |p| ==> d.keys[i] == p[i].0 && p[i].0 in d.values && d.values[p[i].0] == p[i].1)
    decreases |p|
  {
    if p != [] {
      var n := |p| - 1;
      var q := p[..n];
      assert forall i :: 0 <= i < n ==> q[i] == p[i];
      PutAllDistinct(q);
      assert p == q + [(p[n].0, p[n].1)];
      PutNew(PutAll(EmptyDict, q), q, p[n].0, p[n].1);
    }
  }

  /** Zipping distinct ids with values gives pairs with distinct keys. */
  lemma {:induction false} ZipDistinctKeys(ids: seq<Id>, vals: seq<string>)
    requires |ids| == |vals| && Distinct(ids)
    ensures var z := Zip(ids, vals);
            && |z| == |ids|
            && (forall i :: 0 <= i < |z| ==> z[i].0 == ids[i] && z[i].1 == vals[i])
            && (forall i, j :: 0 <= i < j < |z| ==> z[i].0 != z[j].0)
  {
    var z := Zip(ids, vals);
    forall i, j | 0 <= i < j < |z| ensures z[i].0 != z[j].0 {
      assert z[i] == (ids[i], vals[i]) && z[j] == (ids[j], vals[j]);
    }
  }

  /** Storing `zip(ids, vals)` into an empty dict, with distinct ids, gives the dict whose keys
      are `ids` in order and which maps `ids[i]` to `vals[i]`. */
  lemma {:induction false} PutAllZip(ids: seq<Id>, vals: seq<string>)
    requires |ids| == |vals| && Distinct(ids)
    ensures var d := PutAll(EmptyDict, Zip(ids, vals));
            && d.Valid() && d.keys == ids
            && (forall i :: 0 <= i < |ids| ==> ids[i] in d.values && d.values[ids[i]] == vals[i])
  {
    var z := Zip(ids, vals);
    ZipDistinctKeys(ids, vals);
    PutAllDistinct(z);
    var d := PutAll(EmptyDict, z);
    assert d.keys == ids;
  }

  /** The in-memory document store (`InMemoryStore`), a dict updated in place. */
  class DocStore {
    var store: OrderedDict

    ghost predicate Valid()
      reads this
    {
      store.Valid()
    }

    constructor()
      ensures Valid() && store == EmptyDict
    {
      store := EmptyDict;
    }

    /** `mset(pairs)`: set each pair in order. */
    method MSet(pairs: seq<(string, string)>)
      requires Valid()
      modifies this
      ensures Valid() && store == PutAll(old(store), pairs)
    {
      var i := 0;
      while i < |pairs|
        invariant 0 <= i <= |pairs|
        invariant store == PutAll(old(store), pairs[..i])
        invariant store.Valid()
      {
        assert pairs[..i + 1][..i] == pairs[..i];
        store := store.Put(pairs[i].0, pairs[i].1);
        i := i + 1;
      }
      assert pairs[..i] == pairs;
    }
  }

  /** A vector store collection: its name, where it persists, and the documents added to it
      (the embeddings it computes from them are the library's business). `upsert(entries, docs)`
      is how embedding `docs` and upserting them into a collection holding `entries` goes: the
      embedding model or Chroma may raise. */
  class VectorStore {
    const collectionName: string
    const persistDirectory: Option<string>
    const upsert: (seq<Document>, seq<Document>) -> Result<(), Exception>
    var entries: seq<Document>

    /** Opens the collection; `existing` is what the backing location already holds. */
    constructor(collectionName: string, persistDirectory: Option<string>, existing: seq<Document>,
                upsert: (seq<Document>, seq<Document>) -> Result<(), Exception>)
      ensures this.collectionName == collectionName && this.persistDirectory == persistDirectory
      ensures this.upsert == upsert && entries == existing
    {
      this.collectionName := collectionName;
      this.persistDirectory := persistDirectory;
      this.upsert := upsert;
      entries := existing;
    }

    /** `add_documents(docs)`: embeds and upserts; on success the documents follow the earlier
        entries, and a raise leaves the collection as it was. */
    method AddDocuments(docs: seq<Document>) returns (r: Result<(), Exception>)
      modifies this
      ensures r == upsert(old(entries), docs)
      ensures r.Success? ==> entries == old(entries) + docs
      ensures r.Failure? ==> entries == old(entries)
    {
      r := upsert(entries, docs);
      if r.Success? {
        entries := entries + docs;
      }
    }
  }

  /** The uuid4 source: every id it hands out differs from all it handed out before.
      Ids are decimal serial numbers here; only their distinctness matters. */
  class IdSupply {
    var next: nat

    ghost function Issued(): set<Id>
      reads this
    {
      set k: nat | k < next :: NatToString(k)
    }

    constructor()
      ensures Issued() == {}
    {
      next := 0;
    }

    method Fresh() returns (id: Id)
      modifies this
      ensures id !in old(Issued())
      ensures Issued() == old(Issued()) + {id}
    {
      id := NatToString(next);
      forall k: nat | k < next
        ensures NatToString(k) != id
      {
        if NatToString(k) == id { NatToStringInjective(k, next); }
      }
      next := next + 1;
      assert Issued() == old(Issued()) + {id} by {
        forall x | x in Issued() ensures x in old(Issued()) || x == id {
          var k: nat :| k < next && x == NatToString(k);
          if k < next - 1 { assert x in old(Issued()); }
        }
        assert NatToString(next - 1) in Issued();
      }
    }
  }
}
