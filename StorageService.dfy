/** The local record store of services/StorageService.js. The whole
    collection of saved documents is one list persisted under the
    '@documents' key. Every operation except clearAll reads the full list;
    save and delete write the full list back, update does so only when a
    record matched, and clearAll removes the key without reading or
    writing a list. Each operation is modelled as one atomic step over that
    persisted slot. */
module StorageService {
  import opened Results
  import opened Seqs
  import opened Text
  import opened JsValues

  /** The clock readings saveDocument takes: `Date.now()` for the id and two
      separate `new Date().toISOString()` calls for the two timestamps. */
  datatype SaveClock = SaveClock(nowMillis: nat, createdIso: string, updatedIso: string)

  /** `doc.id === id`. A record without an id matches only undefined, an
      object or array argument matches nothing, and otherwise the stored id
      equals the argument. */
  function HasId(doc: Object, id: Value): (r: bool)
    ensures !HasKey(doc, "id") ==> (r <==> id == Undefined)
    ensures id.Arr? || id.Obj? ==> !r
    ensures r && HasKey(doc, "id") ==> Get(doc, "id") == Some(id)
    ensures !id.Arr? && !id.Obj? && Get(doc, "id") == Some(id) ==> r
  {
    StrictEquals(Read(doc, "id"), id)
  }

  /** `documents.findIndex(doc => doc.id === id)`: the first record, in
      insertion order, whose id is `id`. */
  function FindById(docs: seq<Object>, id: Value): (r: Option<nat>)
    ensures r.Some? ==> r.value < |docs| && HasId(docs[r.value], id)
    ensures r.Some? ==> forall j :: 0 <= j < r.value ==> !HasId(docs[j], id)
    ensures r.None? <==> forall j :: 0 <= j < |docs| ==> !HasId(docs[j], id)
  {
    FindFirst(docs, (d: Object) => HasId(d, id))
  }

  /** The record saveDocument builds,
      `{ id: Date.now().toString(), ...documentData, createdAt, updatedAt }`:
      an id in the input replaces the generated one, while both timestamps
      replace whatever the input holds. The id stays the first key. */
  function NewDocument(input: Object, clock: SaveClock): (r: Object)
    ensures |r| > 0 && r[0].key == "id"
    ensures Get(r, "id") ==
              if HasKey(input, "id") then Get(input, "id")
              else Some(Str(DecimalString(clock.nowMillis)))
    ensures Get(r, "createdAt") == Some(Str(clock.createdIso))
    ensures Get(r, "updatedAt") == Some(Str(clock.updatedIso))
    ensures forall k :: k != "id" && k != "createdAt" && k != "updatedAt" ==> Get(r, k) == Get(input, k)
  {
    var stamped: Object := [Prop("id", Str(DecimalString(clock.nowMillis)))];
    var merged := Assign(stamped, input);
    GetAssign(stamped, input, "id");
    assert forall k :: k != "id" ==> Get(merged, k) == Get(input, k) by {
      forall k | k != "id"
        ensures Get(merged, k) == Get(input, k)
      {
        GetAssign(stamped, input, k);
      }
    }
    Set(Set(merged, "createdAt", Str(clock.createdIso)), "updatedAt", Str(clock.updatedIso))
  }

  /** The record updateDocument writes,
      `{ ...documents[index], ...updates, updatedAt }`: every key of
      `updates` (id and createdAt included) overrides the stored value,
      updatedAt is always the update's clock reading, and the stored keys
      keep their positions. */
  function UpdatedRecord(rec: Object, updates: Object, updatedIso: string): (r: Object)
    ensures Get(r, "updatedAt") == Some(Str(updatedIso))
    ensures forall k :: k != "updatedAt" ==>
              Get(r, k) == if HasKey(updates, k) then Get(updates, k) else Get(rec, k)
    ensures |rec| <= |r|
    ensures forall j :: 0 <= j < |rec| ==> r[j].key == rec[j].key
  {
    var copy := Assign([], rec);
    CopyIsIdentity(rec);
    var merged := Assign(copy, updates);
    assert forall k :: Get(merged, k) == if HasKey(updates, k) then Get(updates, k) else Get(rec, k) by {
      forall k
        ensures Get(merged, k) == if HasKey(updates, k) then Get(updates, k) else Get(rec, k)
      {
        GetAssign(copy, updates, k);
      }
    }
    Set(merged, "updatedAt", Str(updatedIso))
  }

  /** The collection after `updateDocument(id, updates)`: only the first
      record with that id is replaced; with no such record nothing changes. */
  function UpdateAt(docs: seq<Object>, id: Value, updates: Object, updatedIso: string): (r: seq<Object>)
    ensures |r| == |docs|
    ensures forall j :: 0 <= j < |docs| && FindById(docs, id) != Some(j) ==> r[j] == docs[j]
    ensures FindById(docs, id).Some? ==>
              var i := FindById(docs, id).value;
              r[i] == UpdatedRecord(docs[i], updates, updatedIso)
  {
    match FindById(docs, id)
    case None => docs
    case Some(i) => docs[i := UpdatedRecord(docs[i], updates, updatedIso)]
  }

  /** The collection after `deleteDocument(id)`,
      `documents.filter(doc => doc.id !== id)`. */
  function WithoutId(docs: seq<Object>, id: Value): (r: seq<Object>)
    ensures forall d :: d in r <==> d in docs && !HasId(d, id)
    ensures IsSubsequence(r, docs)
    ensures forall d :: multiset(r)[d] == if HasId(d, id) then 0 else multiset(docs)[d]
  {
    FilterCounts(docs, (d: Object) => !HasId(d, id));
    Filter(docs, (d: Object) => !HasId(d, id))
  }

  /** `JSON.stringify(doc).toLowerCase().includes(query.toLowerCase())`,
      with the serialiser given as a parameter. */
  function MatchesQuery(doc: Object, query: string, stringify: Object -> string): (r: bool)
    ensures query == "" ==> r
    ensures r ==> |query| <= |stringify(doc)|
  {
    ContainsEmpty(Lower(stringify(doc)));
    Contains(Lower(stringify(doc)), Lower(query))
  }

  /** The records searchDocuments returns. */
  function Matching(docs: seq<Object>, query: string, stringify: Object -> string): (r: seq<Object>)
    ensures forall d :: d in r <==> d in docs && MatchesQuery(d, query, stringify)
    ensures IsSubsequence(r, docs)
    ensures forall d :: multiset(r)[d] == if MatchesQuery(d, query, stringify) then multiset(docs)[d] else 0
  {
    FilterCounts(docs, (d: Object) => MatchesQuery(d, query, stringify));
    Filter(docs, (d: Object) => MatchesQuery(d, query, stringify))
  }

  /** A freshly saved record whose id was generated is what a lookup of
      that id finds, unless an earlier record already carries the same id
      (nothing makes the generated ids unique); in that case the lookup
      finds the earlier one. */
  lemma SaveThenFind(docs: seq<Object>, input: Object, clock: SaveClock)
    requires !HasKey(input, "id")
    ensures var id := Str(DecimalString(clock.nowMillis));
            FindById(docs + [NewDocument(input, clock)], id) ==
              if FindById(docs, id).Some? then FindById(docs, id) else Some(|docs|)
  {
    var doc := NewDocument(input, clock);
    assert Get(doc, "id") == Some(Str(DecimalString(clock.nowMillis)));
    FindAppended(docs, doc, Str(DecimalString(clock.nowMillis)));
  }

  /** Looking up an id in a list with a matching record appended. */
  lemma FindAppended(docs: seq<Object>, doc: Object, id: Value)
    requires HasId(doc, id)
    ensures FindById(docs + [doc], id) ==
              if FindById(docs, id).Some? then FindById(docs, id) else Some(|docs|)
  {
    var all := docs + [doc];
    assert forall j :: 0 <= j < |docs| ==> all[j] == docs[j];
    assert all[|docs|] == doc;
  }

  /** After an update whose fields do not give the record another id (they
      carry no id, or the same one), the record is still found first under
      its id, and it reads each updated field as given, each other field as
      before, and updatedAt as the update's clock reading. */
  lemma {:induction false} UpdateThenFind(docs: seq<Object>, id: Value, updates: Object, updatedIso: string, k: string)
    requires FindById(docs, id).Some?
    requires !HasKey(updates, "id") || Get(updates, "id") == Some(id)
    ensures var i := FindById(docs, id).value;
            var after := UpdateAt(docs, id, updates, updatedIso);
            && FindById(after, id) == Some(i)
            && Get(after[i], k) ==
                 if k == "updatedAt" then Some(Str(updatedIso))
                 else if HasKey(updates, k) then Get(updates, k)
                 else Get(docs[i], k)
  {
    var i := FindById(docs, id).value;
    var after := UpdateAt(docs, id, updates, updatedIso);
    var rec := UpdatedRecord(docs[i], updates, updatedIso);
    assert after[i] == rec;
    assert Read(docs[i], "id") == id;
    assert Get(rec, "id") == if HasKey(updates, "id") then Get(updates, "id") else Get(docs[i], "id");
    assert Read(rec, "id") == id;
    assert forall j :: 0 <= j < i ==> after[j] == docs[j];
  }

  /** The update does not protect the id: `updates` carrying another id
      moves the record away from the id it was looked up by. */
  lemma UpdateCanRewriteId(docs: seq<Object>, id: Value, updates: Object, updatedIso: string)
    requires FindById(docs, id).Some?
    requires Get(updates, "id").Some? && Get(updates, "id").value != id
    ensures !HasId(UpdateAt(docs, id, updates, updatedIso)[FindById(docs, id).value], id)
  {
  }

  /** After a delete no record carries the id. */
  lemma DeleteThenFind(docs: seq<Object>, id: Value)
    ensures FindById(WithoutId(docs, id), id).None?
  {
    var r := WithoutId(docs, id);
    forall j | 0 <= j < |r|
      ensures !HasId(r[j], id)
    {
      assert r[j] in r;
    }
  }

  /** Deleting an id twice has the effect of deleting it once. */
  lemma DeleteIdempotent(docs: seq<Object>, id: Value)
    ensures WithoutId(WithoutId(docs, id), id) == WithoutId(docs, id)
  {
    DeleteKeepsUnmatched(WithoutId(docs, id), id);
  }

  /** Deleting an id no record carries leaves the collection as it was. */
  lemma {:induction false} DeleteKeepsUnmatched(docs: seq<Object>, id: Value)
    requires forall j :: 0 <= j < |docs| ==> !HasId(docs[j], id)
    ensures WithoutId(docs, id) == docs
  {
    FilterKeepsAll(docs, (d: Object) => !HasId(d, id));
  }

  /** With exactly one record of that id, delete cuts out that one record
      and keeps the others in order. */
  lemma {:induction false} DeleteSingle(docs: seq<Object>, id: Value, i: nat)
    requires i < |docs| && HasId(docs[i], id)
    requires forall j :: 0 <= j < |docs| && j != i ==> !HasId(docs[j], id)
    ensures WithoutId(docs, id) == docs[..i] + docs[i + 1..]
  {
    var p := (d: Object) => !HasId(d, id);
    assert docs == docs[..i] + ([docs[i]] + docs[i + 1..]);
    FilterAppend(docs[..i], [docs[i]] + docs[i + 1..], p);
    FilterAppend([docs[i]], docs[i + 1..], p);
    FilterKeepsAll(docs[..i], p);
    FilterKeepsAll(docs[i + 1..], p);
  }

  /** The empty query matches every record. */
  lemma EmptyQueryMatchesAll(docs: seq<Object>, stringify: Object -> string)
    ensures Matching(docs, "", stringify) == docs
  {
    forall d | d in docs
      ensures MatchesQuery(d, "", stringify)
    {
      ContainsEmpty(Lower(stringify(d)));
    }
    FilterKeepsAll(docs, (d: Object) => MatchesQuery(d, "", stringify));
  }

  /** Queries that differ only in the case of their letters find the same
      records. */
  lemma SearchIgnoresCase(docs: seq<Object>, q1: string, q2: string, stringify: Object -> string)
    requires Lower(q1) == Lower(q2)
    ensures Matching(docs, q1, stringify) == Matching(docs, q2, stringify)
  {
    FilterCongruent(docs, (d: Object) => MatchesQuery(d, q1, stringify), (d: Object) => MatchesQuery(d, q2, stringify));
  }

  /** The StorageService singleton together with the AsyncStorage slot it
      reads and writes. */
  class DocumentStore {
    /** What is stored under '@documents'; None when the key is absent. */
    var persisted: Option<seq<Object>>

    /** A store over whatever an earlier run of the app left in storage. */
    constructor (persisted: Option<seq<Object>>)
      ensures this.persisted == persisted
    {
      this.persisted := persisted;
    }

    /** getAllDocuments: the stored list, and the empty list when nothing
        has been stored under the key. */
    function GetAllDocuments(): (docs: seq<Object>)
      reads this
      ensures persisted.None? ==> docs == []
      ensures persisted.Some? ==> docs == persisted.value
    {
      persisted.GetOr([])
    }

    /** saveDocument: builds the new record, appends it with `push`, writes
        the list back and returns the record. */
    method SaveDocument(input: Object, clock: SaveClock) returns (doc: Object)
      modifies this
      ensures doc == NewDocument(input, clock)
      ensures persisted == Some(old(GetAllDocuments()) + [doc])
    {
      var documents := GetAllDocuments();
      doc := NewDocument(input, clock);
      documents := documents + [doc];
      persisted := Some(documents);
    }

    /** getDocumentById: the first record whose id is `id`, or None. */
    function GetDocumentById(id: Value): (r: Option<Object>)
      reads this
      ensures r.None? <==> forall j :: 0 <= j < |GetAllDocuments()| ==> !HasId(GetAllDocuments()[j], id)
      ensures r.Some? ==> exists i :: 0 <= i < |GetAllDocuments()| && GetAllDocuments()[i] == r.value
                                      && HasId(r.value, id)
                                      && forall j :: 0 <= j < i ==> !HasId(GetAllDocuments()[j], id)
    {
      var documents := GetAllDocuments();
      match FindById(documents, id)
      case None => None
      case Some(i) => Some(documents[i])
    }

    /** updateDocument: with a record of that id, replaces the first one by
        the merge, writes the list back and returns the new record; without
        one, returns None and writes nothing. */
    method UpdateDocument(id: Value, updates: Object, updatedIso: string) returns (r: Option<Object>)
      modifies this
      ensures var docs := old(GetAllDocuments());
              match FindById(docs, id)
              case None => r == None && persisted == old(persisted)
              case Some(i) =>
                r == Some(UpdatedRecord(docs[i], updates, updatedIso))
                && persisted == Some(UpdateAt(docs, id, updates, updatedIso))
    {
      var documents := GetAllDocuments();
      var index := FindById(documents, id);
      if index.Some? {
        documents := documents[index.value := UpdatedRecord(documents[index.value], updates, updatedIso)];
        persisted := Some(documents);
        r := Some(documents[index.value]);
      } else {
        r := None;
      }
    }

    /** deleteDocument: writes back the list without the records of that id
        and returns true, whether or not anything was removed. */
    method DeleteDocument(id: Value) returns (ok: bool)
      modifies this
      ensures ok
      ensures persisted == Some(WithoutId(old(GetAllDocuments()), id))
    {
      var documents := GetAllDocuments();
      var filtered := WithoutId(documents, id);
      persisted := Some(filtered);
      ok := true;
    }

    /** searchDocuments: the records whose serialised form contains the
        query, ignoring case, in stored order. */
    function SearchDocuments(query: string, stringify: Object -> string): (r: seq<Object>)
      reads this
      ensures IsSubsequence(r, GetAllDocuments())
      ensures forall d :: d in r <==> d in GetAllDocuments() && MatchesQuery(d, query, stringify)
      ensures forall d :: multiset(r)[d] ==
                if MatchesQuery(d, query, stringify) then multiset(GetAllDocuments())[d] else 0
    {
      Matching(GetAllDocuments(), query, stringify)
    }

    /** clearAll: removes the '@documents' key and returns true. */
    method ClearAll() returns (ok: bool)
      modifies this
      ensures ok
      ensures persisted == None && GetAllDocuments() == []
    {
      persisted := None;
      ok := true;
    }
  }
}
