/**
 The search index of one document type, updated incrementally or rebuilt from scratch. Sources are
 compared after normalisation; splitting and the indexability test are those of the caller.
 */
module SearchIndex {
  import opened Options

  datatype Kind = Identified | TrainingMaterial

  /** The stable key of a document: its source id, or for training materials the path in its URL. */
  datatype Key = ById(id: nat) | ByPath(path: string)

  datatype Source = Source(id: nat, path: string, title: string, url: string, markdown: string, updated: Option<int>)

  datatype Chunk = Chunk(number: nat, content: string)

  datatype Doc = Doc(
    id: nat, key: Key, title: string, url: string, markdown: string, updated: Option<int>, chunks: seq<Chunk>)

  // The index as it is loaded, by source id.
  type Index = map<nat, Doc>

  datatype Config = Config(kind: Kind, split: string -> seq<string>, indexable: string -> bool)

  function KeyOf(config: Config, s: Source): Key {
    if config.kind.TrainingMaterial? then ByPath(s.path) else ById(s.id)
  }

  /** The indexable pieces of a text, numbered by their place among all pieces. */
  function Indexable(config: Config, pieces: seq<string>): seq<Chunk> {
    if pieces == [] then []
    else
      var n := |pieces| - 1;
      Indexable(config, pieces[..n]) + if config.indexable(pieces[n]) then [Chunk(n, pieces[n])] else []
  }

  function ChunksOf(config: Config, markdown: string): seq<Chunk> {
    Indexable(config, config.split(markdown))
  }

  function Render(config: Config, s: Source, id: nat): Doc {
    Doc(id, KeyOf(config, s), s.title, s.url, s.markdown, s.updated, ChunksOf(config, s.markdown))
  }

  predicate IsChanged(config: Config, s: Source, d: Doc) {
    KeyOf(config, s) != d.key || s.title != d.title || s.url != d.url || s.markdown != d.markdown
    || (config.kind.Identified? && s.updated != d.updated)
  }

  ghost predicate UniqueKeys(db: Index) {
    forall i, j :: i in db && j in db && db[i].key == db[j].key ==> i == j
  }

  ghost predicate DistinctSources(config: Config, sources: seq<Source>) {
    forall i, j :: 0 <= i < j < |sources| ==>
                     sources[i].id != sources[j].id && KeyOf(config, sources[i]) != KeyOf(config, sources[j])
  }

  function ByKey(db: Index): map<Key, nat>
    requires UniqueKeys(db)
  {
    map i | i in db :: db[i].key := i
  }

  /** A source keeps the id its key is stored under. */
  function Assigned(config: Config, db: Index, s: Source): nat
    requires UniqueKeys(db)
  {
    if KeyOf(config, s) in ByKey(db) then ByKey(db)[KeyOf(config, s)] else s.id
  }

  // ---------------------------------------------------------------------------------------------
  // What a build leaves
  // ---------------------------------------------------------------------------------------------

  /** A full rebuild: every source rendered under its assigned id. */
  function Rebuilt(config: Config, db: Index, sources: seq<Source>): (r: seq<Doc>)
    requires UniqueKeys(db)
    ensures |r| == |sources|
  {
    seq(|sources|, i requires 0 <= i < |sources| => Render(config, sources[i], Assigned(config, db, sources[i])))
  }

  datatype Category = New | Changed | Unchanged

  function CategoryOf(config: Config, db: Index, s: Source): Category
    requires UniqueKeys(db)
  {
    var id := Assigned(config, db, s);
    if id !in db then New else if IsChanged(config, s, db[id]) then Changed else Unchanged
  }

  function Of(config: Config, db: Index, sources: seq<Source>, c: Category): seq<Source>
    requires UniqueKeys(db)
  {
    if sources == [] then []
    else
      var n := |sources| - 1;
      Of(config, db, sources[..n], c) + if CategoryOf(config, db, sources[n]) == c then [sources[n]] else []
  }

  /** The ids of the stored documents some source matches. */
  function Matched(config: Config, db: Index, sources: seq<Source>): set<nat>
    requires UniqueKeys(db)
  {
    set s | s in sources && Assigned(config, db, s) in db :: Assigned(config, db, s)
  }

  /** The stored documents that some source matches. */
  function Kept(config: Config, db: Index, sources: seq<Source>): Index
    requires UniqueKeys(db)
  {
    map i | i in db && i in Matched(config, db, sources) :: db[i]
  }

  /** Overwrites the stored documents of changed sources, in order. */
  function Overwrite(config: Config, db: Index, rows: Index, changed: seq<Source>): Index
    requires UniqueKeys(db)
  {
    if changed == [] then rows
    else
      var n := |changed| - 1;
      var before := Overwrite(config, db, rows, changed[..n]);
      var id := Assigned(config, db, changed[n]);
      if id in before then before[id := Render(config, changed[n], id)] else before
  }

  function Insert(config: Config, rows: Index, sources: seq<Source>): Index {
    if sources == [] then rows
    else
      var n := |sources| - 1;
      Insert(config, rows, sources[..n])[sources[n].id := Render(config, sources[n], sources[n].id)]
  }

  /** Deletes unmatched documents, overwrites changed ones, inserts new ones. */
  function Incremental(config: Config, db: Index, sources: seq<Source>): Index
    requires UniqueKeys(db)
  {
    var overwritten := Overwrite(config, db, Kept(config, db, sources), Of(config, db, sources, Changed));
    Insert(config, overwritten, Of(config, db, sources, New))
  }

  // ---------------------------------------------------------------------------------------------
  // The same, on the fields of the documents
  // ---------------------------------------------------------------------------------------------

  /** In the order of their numbers. */
  ghost predicate Numbered(chunks: seq<Chunk>) {
    forall i, j :: 0 <= i < j < |chunks| ==> chunks[i].number < chunks[j].number
  }

  /** Exactly the indexable pieces of the text are stored, under their places among all pieces, in order. */
  ghost predicate HoldsChunks(config: Config, d: Doc) {
    var pieces := config.split(d.markdown);
    && (forall n: nat, content: string :: Chunk(n, content) in d.chunks <==>
                                          n < |pieces| && pieces[n] == content && config.indexable(content))
    && Numbered(d.chunks)
  }

  ghost predicate HasKey(config: Config, s: Source, key: Key) {
    match config.kind
    case Identified => key == ById(s.id)
    case TrainingMaterial => key == ByPath(s.path)
  }

  /** The document is the source's, with its own key, text and chunks. */
  ghost predicate IsDocOf(config: Config, s: Source, d: Doc) {
    && HasKey(config, s, d.key)
    && d.title == s.title && d.url == s.url && d.markdown == s.markdown
    && (config.kind.Identified? ==> d.updated == s.updated)
    && HoldsChunks(config, d)
  }

  /** A source matches the document with its key; without one, the document with its id. */
  ghost predicate Matches(config: Config, db: Index, s: Source, id: nat) {
    id in db &&
    (HasKey(config, s, db[id].key) || (id == s.id && forall i :: i in db ==> !HasKey(config, s, db[i].key)))
  }

  /** The document is out of date; training materials have no reliable update marker. */
  ghost predicate Differs(config: Config, s: Source, d: Doc) {
    || !HasKey(config, s, d.key) || d.title != s.title || d.url != s.url || d.markdown != s.markdown
    || (config.kind.Identified? && d.updated != s.updated)
  }

  ghost predicate IsOutOfDate(config: Config, db: Index, s: Source) {
    exists id :: Matches(config, db, s, id) && Differs(config, s, db[id])
  }

  ghost predicate IsUnmatched(config: Config, db: Index, sources: seq<Source>, id: nat) {
    id in db && forall s :: s in sources ==> !Matches(config, db, s, id)
  }

  /** The source has the id of the document it matches, and its own if it matches none. */
  ghost predicate KeepsId(config: Config, db: Index, s: Source, id: nat) {
    Matches(config, db, s, id) || (id == s.id && forall i :: !Matches(config, db, s, i))
  }

  lemma {:induction false} IndexableAre(config: Config, pieces: seq<string>)
    ensures forall n: nat, content: string :: Chunk(n, content) in Indexable(config, pieces) <==>
                                              n < |pieces| && pieces[n] == content && config.indexable(content)
    ensures Numbered(Indexable(config, pieces))
  {
    if pieces != [] {
      var n := |pieces| - 1;
      var before := Indexable(config, pieces[..n]);
      IndexableAre(config, pieces[..n]);
      forall i | 0 <= i < |before| ensures before[i].number < n {
        assert Chunk(before[i].number, before[i].content) in before;
      }
      assert Numbered(before);
    }
  }

  lemma RenderedIsDocOf(config: Config, s: Source, id: nat)
    ensures IsDocOf(config, s, Render(config, s, id)) && Render(config, s, id).id == id
    ensures Render(config, s, id).updated == s.updated
  {
    IndexableAre(config, config.split(s.markdown));
  }

  lemma AssignedMeans(config: Config, db: Index, s: Source)
    requires UniqueKeys(db)
    ensures KeepsId(config, db, s, Assigned(config, db, s))
    ensures forall id :: Matches(config, db, s, id) ==> id == Assigned(config, db, s)
    ensures Assigned(config, db, s) in db <==> Matches(config, db, s, Assigned(config, db, s))
    ensures Assigned(config, db, s) in db ==>
              (IsChanged(config, s, db[Assigned(config, db, s)]) <==> Differs(config, s, db[Assigned(config, db, s)]))
  {
    var key := KeyOf(config, s);
    forall id ensures id in db && HasKey(config, s, db[id].key) <==> id in db && db[id].key == key {
    }
    if key in ByKey(db) {
      assert db[ByKey(db)[key]].key == key;
    }
  }

  /** Which sources are new and which out of date, and which documents no source matches. */
  lemma CategoriesMean(config: Config, db: Index, sources: seq<Source>)
    requires UniqueKeys(db)
    ensures forall s :: s in Of(config, db, sources, New) <==> s in sources && forall id :: !Matches(config, db, s, id)
    ensures forall s :: s in Of(config, db, sources, Changed) <==> s in sources && IsOutOfDate(config, db, s)
    ensures forall id :: id in db && id !in Matched(config, db, sources) <==> IsUnmatched(config, db, sources, id)
  {
    OfMembers(config, db, sources, New);
    OfMembers(config, db, sources, Changed);
    forall s ensures CategoryOf(config, db, s) == New <==> forall id :: !Matches(config, db, s, id) {
      AssignedMeans(config, db, s);
    }
    forall s ensures CategoryOf(config, db, s) == Changed <==> IsOutOfDate(config, db, s) {
      AssignedMeans(config, db, s);
    }
    forall id ensures id in db && id !in Matched(config, db, sources) <==> IsUnmatched(config, db, sources, id) {
      forall s ensures Matches(config, db, s, id) <==> Assigned(config, db, s) == id && id in db {
        AssignedMeans(config, db, s);
      }
    }
  }

  class Builder {
    const config: Config
    var docs: Index

    constructor (config: Config)
      ensures this.config == config && docs == map[]
    {
      this.config := config;
      docs := map[];
    }

    /** The stored document of a source: by key if its key is stored, otherwise by id. */
    method Lookup(s: Source, byKey: map<Key, nat>) returns (hit: Option<nat>)
      requires UniqueKeys(docs) && byKey == ByKey(docs)
      ensures hit == if Assigned(config, docs, s) in docs then Some(Assigned(config, docs, s)) else None
    {
      var key := KeyOf(config, s);
      hit := if key in byKey then Some(byKey[key]) else if s.id in docs then Some(s.id) else None;
    }

    /** New and changed sources, and the stored documents no source matches. */
    method Categorize(sources: seq<Source>)
      returns (added: seq<Source>, changed: seq<Source>, ids: seq<nat>, deleted: set<nat>)
      requires UniqueKeys(docs)
      ensures added == Of(config, docs, sources, New) && changed == Of(config, docs, sources, Changed)
      ensures AreAssigned(config, docs, changed, ids)
      ensures deleted == docs.Keys - Matched(config, docs, sources)
      ensures forall s :: s in added <==> s in sources && forall id :: !Matches(config, docs, s, id)
      ensures forall s :: s in changed <==> s in sources && IsOutOfDate(config, docs, s)
      ensures forall id :: id in deleted <==> IsUnmatched(config, docs, sources, id)
    {
      added, changed, ids, deleted := Compare(sources);
      CategoriesMean(config, docs, sources);
    }

    /** Compares the sources one by one with the stored documents. */
    method Compare(sources: seq<Source>)
      returns (added: seq<Source>, changed: seq<Source>, ids: seq<nat>, deleted: set<nat>)
      requires UniqueKeys(docs)
      ensures added == Of(config, docs, sources, New) && changed == Of(config, docs, sources, Changed)
      ensures AreAssigned(config, docs, changed, ids)
      ensures deleted == docs.Keys - Matched(config, docs, sources)
    {
      var byKey := ByKey(docs);
      added, changed, ids := [], [], [];
      var matched: set<Key> := {};
      for i := 0 to |sources|
        invariant added == Of(config, docs, sources[..i], New) && changed == Of(config, docs, sources[..i], Changed)
        invariant AreAssigned(config, docs, changed, ids)
        invariant KeysOf(docs, matched, Matched(config, docs, sources[..i]))
      {
        OfNext(config, docs, sources, i, New);
        OfNext(config, docs, sources, i, Changed);
        MatchedNext(config, docs, sources, i, matched);
        var hit := Lookup(sources[i], byKey);
        if hit.None? {
          added := added + [sources[i]];
        } else {
          matched := matched + {docs[hit.value].key};
          if IsChanged(config, sources[i], docs[hit.value]) {
            changed, ids := changed + [sources[i]], ids + [hit.value];
          }
        }
      }
      assert sources[..|sources|] == sources;
      deleted := set id | id in docs && docs[id].key !in matched;
    }

    method ProcessDeleted(deleted: set<nat>, ghost sources: seq<Source>)
      requires UniqueKeys(docs) && deleted == docs.Keys - Matched(config, docs, sources)
      modifies this`docs
      ensures docs == Kept(config, old(docs), sources)
    {
      docs := docs - deleted;
    }

    /** Re-renders each changed source under the id of the document that already has its key. */
    method ProcessChanged(changed: seq<Source>, ids: seq<nat>, ghost db: Index)
      requires UniqueKeys(db) && AreAssigned(config, db, changed, ids)
      requires forall i :: 0 <= i < |ids| ==> ids[i] in docs && docs[ids[i]] == db[ids[i]]
      modifies this`docs
      ensures docs == Overwrite(config, db, old(docs), changed)
    {
      var byKey := ByKey(map id | id in docs && id in ids :: docs[id]);
      for i := 0 to |changed|
        invariant docs == Overwrite(config, db, old(docs), changed[..i])
      {
        OverwriteNext(config, db, old(docs), changed, i);
        OverrideIsAssigned(config, db, old(docs), changed, ids, i);
        var key := KeyOf(config, changed[i]);
        var id := if key in byKey then byKey[key] else changed[i].id;
        if id in docs {
          docs := docs[id := Render(config, changed[i], id)];
        }
      }
      assert changed[..|changed|] == changed;
    }

    method ProcessNew(sources: seq<Source>)
      modifies this`docs
      ensures docs == Insert(config, old(docs), sources)
    {
      for i := 0 to |sources|
        invariant docs == Insert(config, old(docs), sources[..i])
      {
        assert sources[..i + 1][..i] == sources[..i];
        docs := docs[sources[i].id := Render(config, sources[i], sources[i].id)];
      }
      assert sources[..|sources|] == sources;
    }

    method Update(sources: seq<Source>)
      requires UniqueKeys(docs)
      modifies this`docs
      ensures docs == Incremental(config, old(docs), sources)
      ensures IndexOk(config, old(docs)) && DistinctSources(config, sources) && ClashFree(config, old(docs), sources)
              ==> IndexesAll(config, old(docs), docs, sources)
    {
      if IndexOk(config, docs) && DistinctSources(config, sources) && ClashFree(config, docs, sources) {
        BuildIndexesAll(config, docs, sources);
      }
      ghost var db := docs;
      var added, changed, ids, deleted := Categorize(sources);
      ChangedAreKept(config, db, sources, ids);
      ProcessDeleted(deleted, sources);
      ProcessChanged(changed, ids, db);
      ProcessNew(added);
    }

    /** Deletes everything and renders every source, under the id its key had before. */
    method Rebuild(sources: seq<Source>) returns (rows: seq<Doc>)
      requires UniqueKeys(docs)
      modifies this`docs
      ensures rows == Rebuilt(config, old(docs), sources)
      ensures RendersAll(config, old(docs), rows, sources)
      ensures forall i :: 0 <= i < |rows| ==> rows[i].id in docs
      ensures forall id :: id in docs ==> docs[id] in rows && docs[id].id == id
    {
      var byKey := ByKey(docs);
      ghost var db := docs;
      docs, rows := map[], [];
      for i := 0 to |sources|
        invariant |rows| == i
        invariant forall k :: 0 <= k < i ==> rows[k] == Rebuilt(config, db, sources)[k] && rows[k].id in docs
        invariant forall id :: id in docs ==> docs[id] in rows && docs[id].id == id
      {
        var key := KeyOf(config, sources[i]);
        var id := if key in byKey then byKey[key] else sources[i].id;
        var doc := Render(config, sources[i], id);
        docs := docs[id := doc];
        rows := rows + [doc];
      }
      RebuildRendersAll(config, db, sources);
    }
  }

  /** The ids of the stored documents these sources match. */
  ghost predicate AreAssigned(config: Config, db: Index, sources: seq<Source>, ids: seq<nat>)
    requires UniqueKeys(db)
  {
    |ids| == |sources| && forall i :: 0 <= i < |ids| ==> ids[i] in db && ids[i] == Assigned(config, db, sources[i])
  }

  ghost predicate KeysOf(db: Index, keys: set<Key>, ids: set<nat>) {
    forall id :: id in db ==> (db[id].key in keys <==> id in ids)
  }

  lemma OfNext(config: Config, db: Index, sources: seq<Source>, i: nat, c: Category)
    requires UniqueKeys(db) && i < |sources|
    ensures Of(config, db, sources[..i + 1], c)
            == Of(config, db, sources[..i], c) + (if CategoryOf(config, db, sources[i]) == c then [sources[i]] else [])
  {
    assert sources[..i + 1][..i] == sources[..i];
  }

  lemma MatchedNext(config: Config, db: Index, sources: seq<Source>, i: nat, keys: set<Key>)
    requires UniqueKeys(db) && i < |sources| && KeysOf(db, keys, Matched(config, db, sources[..i]))
    ensures var id := Assigned(config, db, sources[i]);
            var keys' := if id in db then keys + {db[id].key} else keys;
            KeysOf(db, keys', Matched(config, db, sources[..i + 1]))
  {
    var id := Assigned(config, db, sources[i]);
    assert sources[..i + 1] == sources[..i] + [sources[i]];
    assert Matched(config, db, sources[..i + 1])
           == Matched(config, db, sources[..i]) + if id in db then {id} else {};
  }

  /** Looking keys up among the changed documents alone gives the same ids as among all of them. */
  lemma OverrideIsAssigned(config: Config, db: Index, docs: Index, changed: seq<Source>, ids: seq<nat>, i: nat)
    requires UniqueKeys(db) && AreAssigned(config, db, changed, ids) && i < |changed|
    requires forall k :: 0 <= k < |ids| ==> ids[k] in docs && docs[ids[k]] == db[ids[k]]
    ensures var touched := map id | id in docs && id in ids :: docs[id];
            var key := KeyOf(config, changed[i]);
            && UniqueKeys(touched)
            && Assigned(config, db, changed[i]) == if key in ByKey(touched) then ByKey(touched)[key] else changed[i].id
  {
    var touched := map id | id in docs && id in ids :: docs[id];
    forall id | id in touched ensures id in db && touched[id] == db[id] {
      var k :| 0 <= k < |ids| && ids[k] == id;
    }
    var key := KeyOf(config, changed[i]);
    if key in ByKey(db) {
      assert ids[i] in touched && touched[ids[i]].key == key;
    }
  }

  lemma {:induction false} OfMembers(config: Config, db: Index, sources: seq<Source>, c: Category)
    requires UniqueKeys(db)
    ensures forall s :: s in Of(config, db, sources, c) <==> s in sources && CategoryOf(config, db, s) == c
  {
    if sources != [] {
      var n := |sources| - 1;
      OfMembers(config, db, sources[..n], c);
      assert sources == sources[..n] + [sources[n]];
    }
  }

  lemma ChangedAreKept(config: Config, db: Index, sources: seq<Source>, ids: seq<nat>)
    requires UniqueKeys(db) && AreAssigned(config, db, Of(config, db, sources, Changed), ids)
    ensures forall i :: 0 <= i < |ids| ==>
                          ids[i] in Kept(config, db, sources) && Kept(config, db, sources)[ids[i]] == db[ids[i]]
  {
    OfMembers(config, db, sources, Changed);
    forall i | 0 <= i < |ids| ensures ids[i] in Matched(config, db, sources) {
      assert Of(config, db, sources, Changed)[i] in sources;
    }
  }

  // ---------------------------------------------------------------------------------------------
  // Incremental and full builds agree
  // ---------------------------------------------------------------------------------------------

  /** The stored chunks are the indexable split of the stored text, and keys and ids are consistent. */
  ghost predicate IndexOk(config: Config, db: Index) {
    && UniqueKeys(db)
    && forall i :: i in db ==>
                     && db[i].id == i
                     && db[i].chunks == ChunksOf(config, db[i].markdown)
                     && (config.kind.Identified? ==> db[i].key == ById(i))
  }

  /** Equal, except that training materials do not keep their update marker current. */
  predicate Agrees(config: Config, a: Doc, b: Doc) {
    a == b.(updated := a.updated) && (config.kind.Identified? ==> a.updated == b.updated)
  }

  /** The index holds exactly these documents. */
  ghost predicate Holds(config: Config, db: Index, rows: seq<Doc>) {
    && (forall r :: r in rows ==> r.id in db && Agrees(config, db[r.id], r))
    && (forall i :: i in db ==> exists k :: 0 <= k < |rows| && rows[k].id == i)
  }

  /** A source with an unknown key has the id of a document whose key another source still has. */
  ghost predicate Clash(config: Config, db: Index, sources: seq<Source>, s: Source, t: Source)
    requires UniqueKeys(db)
  {
    s in sources && t in sources && KeyOf(config, s) in ByKey(db)
    && KeyOf(config, t) !in ByKey(db) && t.id == ByKey(db)[KeyOf(config, s)]
  }

  ghost predicate ClashFree(config: Config, db: Index, sources: seq<Source>)
    requires UniqueKeys(db)
  {
    forall s, t :: !Clash(config, db, sources, s, t)
  }

  lemma AssignedOnce(config: Config, db: Index, sources: seq<Source>, s: Source, t: Source)
    requires UniqueKeys(db) && DistinctSources(config, sources) && ClashFree(config, db, sources)
    requires s in sources && t in sources && Assigned(config, db, s) == Assigned(config, db, t)
    ensures s == t
  {
    var i :| 0 <= i < |sources| && sources[i] == s;
    var j :| 0 <= j < |sources| && sources[j] == t;
    assert !Clash(config, db, sources, s, t) && !Clash(config, db, sources, t, s);
    var ks, kt := KeyOf(config, s), KeyOf(config, t);
    if ks in ByKey(db) && kt in ByKey(db) {
      assert db[ByKey(db)[ks]].key == ks && db[ByKey(db)[kt]].key == kt;
    }
  }

  ghost predicate AssignedIn(config: Config, db: Index, sources: seq<Source>, id: nat, s: Source)
    requires UniqueKeys(db)
  {
    s in sources && Assigned(config, db, s) == id
  }

  lemma OverwriteNext(config: Config, db: Index, rows: Index, changed: seq<Source>, i: nat)
    requires UniqueKeys(db) && i < |changed|
    ensures var before, id := Overwrite(config, db, rows, changed[..i]), Assigned(config, db, changed[i]);
            Overwrite(config, db, rows, changed[..i + 1])
            == if id in before then before[id := Render(config, changed[i], id)] else before
  {
    assert changed[..i + 1][..i] == changed[..i];
  }

  lemma {:induction false} OverwriteKeys(config: Config, db: Index, rows: Index, changed: seq<Source>)
    requires UniqueKeys(db)
    ensures Overwrite(config, db, rows, changed).Keys == rows.Keys
  {
    if changed != [] {
      OverwriteKeys(config, db, rows, changed[..|changed| - 1]);
    }
  }

  /** A stored document no changed source matches is kept. */
  lemma {:induction false} OverwriteElsewhere(config: Config, db: Index, rows: Index, changed: seq<Source>, id: nat)
    requires UniqueKeys(db) && id in rows
    requires forall s :: s in changed ==> Assigned(config, db, s) != id
    ensures id in Overwrite(config, db, rows, changed) && Overwrite(config, db, rows, changed)[id] == rows[id]
  {
    if changed != [] {
      OverwriteElsewhere(config, db, rows, changed[..|changed| - 1], id);
    }
  }

  /** A stored document that one changed source matches ends up as its rendering. */
  lemma {:induction false} OverwriteWith(config: Config, db: Index, rows: Index, changed: seq<Source>, s: Source)
    requires UniqueKeys(db) && s in changed && Assigned(config, db, s) in rows
    requires forall t :: t in changed && Assigned(config, db, t) == Assigned(config, db, s) ==> t == s
    ensures var id := Assigned(config, db, s);
            && id in Overwrite(config, db, rows, changed)
            && Overwrite(config, db, rows, changed)[id] == Render(config, s, id)
  {
    var n := |changed| - 1;
    OverwriteKeys(config, db, rows, changed[..n]);
    if changed[n] != s {
      OverwriteWith(config, db, rows, changed[..n], s);
    }
  }

  ghost predicate HasId(sources: seq<Source>, id: nat, s: Source) {
    s in sources && s.id == id
  }

  lemma {:induction false} InsertAt(config: Config, rows: Index, sources: seq<Source>, id: nat)
    ensures var r := Insert(config, rows, sources);
            && (id in r <==> id in rows || exists s :: HasId(sources, id, s))
            && ((forall s :: !HasId(sources, id, s)) && id in rows ==> r[id] == rows[id])
            && ((exists s :: HasId(sources, id, s))
                ==> exists s :: HasId(sources, id, s) && r[id] == Render(config, s, id))
  {
    if sources != [] {
      var n := |sources| - 1;
      InsertAt(config, rows, sources[..n], id);
      assert sources == sources[..n] + [sources[n]];
      assert sources[n].id == id ==> HasId(sources, id, sources[n]);
      forall s | HasId(sources[..n], id, s) ensures HasId(sources, id, s) {}
      forall s | HasId(sources, id, s) && sources[n].id != id ensures HasId(sources[..n], id, s) {}
    }
  }

  ghost predicate UniqueTarget(config: Config, db: Index, sources: seq<Source>)
    requires UniqueKeys(db)
  {
    forall s, t :: s in sources && t in sources && Assigned(config, db, s) == Assigned(config, db, t) ==> s == t
  }

  /** A matched source ends up with its own rendering, unless it was unchanged. */
  lemma MatchedEndsAs(config: Config, db: Index, sources: seq<Source>, s: Source)
    requires UniqueKeys(db) && UniqueTarget(config, db, sources) && s in sources && Assigned(config, db, s) in db
    ensures var r, id := Incremental(config, db, sources), Assigned(config, db, s);
            id in r && r[id] == if CategoryOf(config, db, s) == Changed then Render(config, s, id) else db[id]
  {
    var id := Assigned(config, db, s);
    var changed, added := Of(config, db, sources, Changed), Of(config, db, sources, New);
    var kept := Kept(config, db, sources);
    assert id in kept;
    OfMembers(config, db, sources, Changed);
    OfMembers(config, db, sources, New);
    if s in changed {
      OverwriteWith(config, db, kept, changed, s);
    } else {
      OverwriteElsewhere(config, db, kept, changed, id);
    }
    forall t ensures !HasId(added, id, t) {}
    InsertAt(config, Overwrite(config, db, kept, changed), added, id);
  }

  lemma NewEndsAs(config: Config, db: Index, sources: seq<Source>, s: Source)
    requires UniqueKeys(db) && UniqueTarget(config, db, sources) && s in sources && Assigned(config, db, s) !in db
    ensures var r, id := Incremental(config, db, sources), Assigned(config, db, s);
            id in r && r[id] == Render(config, s, id)
  {
    var id := Assigned(config, db, s);
    var changed, added := Of(config, db, sources, Changed), Of(config, db, sources, New);
    var kept := Kept(config, db, sources);
    OfMembers(config, db, sources, New);
    assert HasId(added, id, s);
    forall t | HasId(added, id, t) ensures t == s {
      assert Assigned(config, db, t) == t.id;
    }
    InsertAt(config, Overwrite(config, db, kept, changed), added, id);
  }

  /** Every document left belongs to a source. */
  lemma NothingElseRemains(config: Config, db: Index, sources: seq<Source>, id: nat)
    requires UniqueKeys(db) && id in Incremental(config, db, sources)
    ensures exists s :: AssignedIn(config, db, sources, id, s)
  {
    var changed, added := Of(config, db, sources, Changed), Of(config, db, sources, New);
    var kept := Kept(config, db, sources);
    OfMembers(config, db, sources, New);
    OverwriteKeys(config, db, kept, changed);
    InsertAt(config, Overwrite(config, db, kept, changed), added, id);
    if s :| HasId(added, id, s) {
      assert AssignedIn(config, db, sources, id, s);
    } else {
      assert id in Matched(config, db, sources);
      var s :| s in sources && Assigned(config, db, s) == id;
      assert AssignedIn(config, db, sources, id, s);
    }
  }

  /** What an incremental build leaves for one source. */
  lemma SourceIsIndexed(config: Config, db: Index, sources: seq<Source>, s: Source)
    requires IndexOk(config, db) && UniqueTarget(config, db, sources) && s in sources
    ensures var r, id := Incremental(config, db, sources), Assigned(config, db, s);
            && id in r && Agrees(config, r[id], Render(config, s, id))
            && r[id].chunks == ChunksOf(config, r[id].markdown)
            && r[id].id == id && IsDocOf(config, s, r[id])
  {
    RenderedIsDocOf(config, s, Assigned(config, db, s));
    if Assigned(config, db, s) in db {
      MatchedEndsAs(config, db, sources, s);
    } else {
      NewEndsAs(config, db, sources, s);
    }
  }

  /** The source has its document, under the id it keeps. */
  ghost predicate IsIndexed(config: Config, before: Index, after: Index, s: Source) {
    exists id :: id in after && KeepsId(config, before, s, id) && IsDocOf(config, s, after[id])
  }

  /** The document is that of one of the sources. */
  ghost predicate BelongsTo(config: Config, db: Index, sources: seq<Source>, id: nat) {
    id in db && db[id].id == id && exists s :: s in sources && IsDocOf(config, s, db[id])
  }

  /** After a build: each source has its document, under the id it keeps, and there are no others. */
  ghost predicate IndexesAll(config: Config, before: Index, after: Index, sources: seq<Source>) {
    && (forall s {:trigger IsIndexed(config, before, after, s)} :: s in sources ==> IsIndexed(config, before, after, s))
    && forall id {:trigger BelongsTo(config, after, sources, id)} :: id in after ==>
                                                                       BelongsTo(config, after, sources, id)
  }

  /** A rebuild: each source in turn, under the id it keeps. */
  ghost predicate RendersAll(config: Config, before: Index, rows: seq<Doc>, sources: seq<Source>) {
    |rows| == |sources| &&
    forall i :: 0 <= i < |sources| ==>
                  && KeepsId(config, before, sources[i], rows[i].id) && IsDocOf(config, sources[i], rows[i])
                  && rows[i].updated == sources[i].updated
  }

  lemma RebuildRendersAll(config: Config, db: Index, sources: seq<Source>)
    requires UniqueKeys(db)
    ensures RendersAll(config, db, Rebuilt(config, db, sources), sources)
  {
    forall i | 0 <= i < |sources|
      ensures KeepsId(config, db, sources[i], Rebuilt(config, db, sources)[i].id)
              && IsDocOf(config, sources[i], Rebuilt(config, db, sources)[i])
    {
      AssignedMeans(config, db, sources[i]);
      RenderedIsDocOf(config, sources[i], Assigned(config, db, sources[i]));
    }
  }

  lemma AgreesIsDocOf(config: Config, s: Source, d: Doc, id: nat)
    requires Agrees(config, d, Render(config, s, id))
    ensures d.id == id && IsDocOf(config, s, d)
  {
    RenderedIsDocOf(config, s, id);
  }

  /** An incremental build leaves for every source a document with its own fields and chunks, and no others. */
  lemma BuildIndexesAll(config: Config, db: Index, sources: seq<Source>)
    requires IndexOk(config, db) && DistinctSources(config, sources) && ClashFree(config, db, sources)
    ensures IndexesAll(config, db, Incremental(config, db, sources), sources)
  {
    var r := Incremental(config, db, sources);
    ClashFreeTargets(config, db, sources);
    forall s | s in sources ensures IsIndexed(config, db, r, s) {
      SourceIsIndexed(config, db, sources, s);
      AssignedMeans(config, db, s);
      AgreesIsDocOf(config, s, r[Assigned(config, db, s)], Assigned(config, db, s));
    }
    forall id | id in r ensures BelongsTo(config, r, sources, id) {
      NothingElseRemains(config, db, sources, id);
      var s :| AssignedIn(config, db, sources, id, s);
      SourceIsIndexed(config, db, sources, s);
      AgreesIsDocOf(config, s, r[id], id);
    }
  }

  lemma ClashFreeTargets(config: Config, db: Index, sources: seq<Source>)
    requires UniqueKeys(db) && DistinctSources(config, sources) && ClashFree(config, db, sources)
    ensures UniqueTarget(config, db, sources)
  {
    forall s, t | s in sources && t in sources && Assigned(config, db, s) == Assigned(config, db, t) ensures s == t {
      AssignedOnce(config, db, sources, s, t);
    }
  }

  lemma ClashFreeHolds(config: Config, db: Index, sources: seq<Source>)
    requires IndexOk(config, db) && UniqueTarget(config, db, sources)
    ensures Holds(config, Incremental(config, db, sources), Rebuilt(config, db, sources))
  {
    var r, rows := Incremental(config, db, sources), Rebuilt(config, db, sources);
    forall row | row in rows ensures row.id in r && Agrees(config, r[row.id], row) {
      var i :| 0 <= i < |sources| && row == Render(config, sources[i], Assigned(config, db, sources[i]));
      SourceIsIndexed(config, db, sources, sources[i]);
    }
    forall id | id in r ensures exists k :: 0 <= k < |rows| && rows[k].id == id {
      NothingElseRemains(config, db, sources, id);
      var s :| AssignedIn(config, db, sources, id, s);
      var k :| 0 <= k < |sources| && sources[k] == s;
      assert rows[k].id == id;
    }
  }

  /**
   An incremental build leaves the same documents as deleting everything and rebuilding, exactly when
   no source falls back on the id of a document that another source still claims by key.
   */
  lemma IncrementalEqualsRebuild(config: Config, db: Index, sources: seq<Source>)
    requires IndexOk(config, db) && DistinctSources(config, sources)
    ensures Holds(config, Incremental(config, db, sources), Rebuilt(config, db, sources)) <==>
            ClashFree(config, db, sources)
  {
    if ClashFree(config, db, sources) {
      ClashFreeTargets(config, db, sources);
      ClashFreeHolds(config, db, sources);
    } else {
      ClashSpoils(config, db, sources);
    }
  }

  lemma ClashSpoils(config: Config, db: Index, sources: seq<Source>)
    requires UniqueKeys(db) && DistinctSources(config, sources) && !ClashFree(config, db, sources)
    ensures !Holds(config, Incremental(config, db, sources), Rebuilt(config, db, sources))
  {
    var rows := Rebuilt(config, db, sources);
    var s, t :| Clash(config, db, sources, s, t);
    var i :| 0 <= i < |sources| && sources[i] == s;
    var j :| 0 <= j < |sources| && sources[j] == t;
    assert rows[i] in rows && rows[j] in rows && rows[i].id == rows[j].id && rows[i].key != rows[j].key;
  }

  /** Where the key is fixed by the id there is never a clash. */
  lemma IdentifiedNeverClash(config: Config, db: Index, sources: seq<Source>)
    requires IndexOk(config, db) && config.kind.Identified?
    ensures ClashFree(config, db, sources)
    ensures Rebuilt(config, db, sources) == Rebuilt(config, map[], sources)
  {
    forall s | s in sources ensures Assigned(config, db, s) == s.id {
      if KeyOf(config, s) in ByKey(db) {
        var id := ByKey(db)[KeyOf(config, s)];
        assert db[id].key == ById(id);
      }
    }
    forall s, t ensures !Clash(config, db, sources, s, t) {
      if s in sources && t in sources && KeyOf(config, s) in ByKey(db) && t.id == ByKey(db)[KeyOf(config, s)] {
        assert KeyOf(config, t) == KeyOf(config, s);
      }
    }
    assert Rebuilt(config, db, sources) == Rebuilt(config, map[], sources);
  }

  /** Training materials can clash: the incremental build then loses a document the rebuild keeps. */
  lemma TrainingMaterialsCanClash(config: Config)
    requires config.kind.TrainingMaterial?
    ensures var kept, added := Source(2, "a", "t", "/a", "m", None), Source(1, "c", "t", "/c", "m", None);
            var db: Index := map[1 := Render(config, kept, 1)];
            && IndexOk(config, db) && DistinctSources(config, [added, kept])
            && !Holds(config, Incremental(config, db, [added, kept]), Rebuilt(config, db, [added, kept]))
  {
    var kept, added := Source(2, "a", "t", "/a", "m", None), Source(1, "c", "t", "/c", "m", None);
    var db: Index := map[1 := Render(config, kept, 1)];
    assert db[1].key == ByPath("a");
    assert ByKey(db)[ByPath("a")] == 1;
    assert KeyOf(config, added) == ByPath("c") && "a"[0] != "c"[0];
    assert Clash(config, db, [added, kept], kept, added);
    ClashSpoils(config, db, [added, kept]);
  }

  /** A clash-free build keeps the index consistent: chunks are always the split of the stored text. */
  lemma IncrementalKeepsIndexOk(config: Config, db: Index, sources: seq<Source>)
    requires IndexOk(config, db) && DistinctSources(config, sources) && ClashFree(config, db, sources)
    ensures IndexOk(config, Incremental(config, db, sources))
    ensures forall id :: id in Incremental(config, db, sources) ==>
                           HoldsChunks(config, Incremental(config, db, sources)[id])
  {
    var r := Incremental(config, db, sources);
    ClashFreeTargets(config, db, sources);
    forall id | id in r
      ensures exists s :: AssignedIn(config, db, sources, id, s) && Agrees(config, r[id], Render(config, s, id))
                          && r[id].chunks == ChunksOf(config, r[id].markdown)
    {
      NothingElseRemains(config, db, sources, id);
      var s :| AssignedIn(config, db, sources, id, s);
      SourceIsIndexed(config, db, sources, s);
    }
    if config.kind.Identified? {
      AssignedIsOwnId(config, db, sources);
    }
    forall id | id in r ensures HoldsChunks(config, r[id]) {
      IndexableAre(config, config.split(r[id].markdown));
    }
  }

  lemma AssignedIsOwnId(config: Config, db: Index, sources: seq<Source>)
    requires IndexOk(config, db) && config.kind.Identified?
    ensures forall s :: s in sources ==> Assigned(config, db, s) == s.id
  {
    forall s | s in sources && KeyOf(config, s) in ByKey(db) ensures Assigned(config, db, s) == s.id {
      var id := ByKey(db)[KeyOf(config, s)];
      assert db[id].key == ById(id);
    }
  }

  lemma OwnIdKept(config: Config, db: Index, s: Source, id: nat)
    requires IndexOk(config, db) && config.kind.Identified? && KeepsId(config, db, s, id)
    ensures id == s.id
  {
  }

  lemma IndexedUnderOwnId(config: Config, db: Index, after: Index, s: Source)
    requires IndexOk(config, db) && config.kind.Identified? && IsIndexed(config, db, after, s)
    ensures s.id in after && IsDocOf(config, s, after[s.id])
  {
    var id :| id in after && KeepsId(config, db, s, id) && IsDocOf(config, s, after[id]);
    OwnIdKept(config, db, s, id);
  }

  /** A sequence of incremental builds, each from its own sources. */
  ghost predicate Builds(config: Config, start: Index, builds: seq<seq<Source>>, end: Index)
    decreases |builds|
  {
    if builds == [] then end == start
    else UniqueKeys(start) && Builds(config, Incremental(config, start, builds[0]), builds[1..], end)
  }

  /** After any sequence of builds the index is what a rebuild of the last sources from nothing gives. */
  lemma {:induction false} BuildsForgetThePast(config: Config, start: Index, builds: seq<seq<Source>>, end: Index)
    requires config.kind.Identified? && IndexOk(config, start) && builds != []
    requires forall sources :: sources in builds ==> DistinctSources(config, sources)
    requires Builds(config, start, builds, end)
    ensures IndexOk(config, end) && Holds(config, end, Rebuilt(config, map[], builds[|builds| - 1]))
    decreases |builds|
  {
    var next := Incremental(config, start, builds[0]);
    assert builds[0] in builds;
    IdentifiedNeverClash(config, start, builds[0]);
    IncrementalKeepsIndexOk(config, start, builds[0]);
    IncrementalEqualsRebuild(config, start, builds[0]);
    if |builds| > 1 {
      BuildsForgetThePast(config, next, builds[1..], end);
    }
  }

  ghost predicate IsIndexedUnderOwnId(config: Config, db: Index, s: Source) {
    s.id in db && IsDocOf(config, s, db[s.id])
  }

  /** The index holds exactly the documents of these sources, each under its own id. */
  ghost predicate IndexesExactly(config: Config, db: Index, sources: seq<Source>) {
    && (forall s {:trigger IsIndexedUnderOwnId(config, db, s)} :: s in sources ==> IsIndexedUnderOwnId(config, db, s))
    && forall id {:trigger BelongsTo(config, db, sources, id)} :: id in db ==> BelongsTo(config, db, sources, id)
  }

  lemma IndexedExactly(config: Config, db: Index, after: Index, sources: seq<Source>)
    requires config.kind.Identified? && IndexOk(config, db) && IndexesAll(config, db, after, sources)
    ensures IndexesExactly(config, after, sources)
  {
    forall s | s in sources ensures IsIndexedUnderOwnId(config, after, s) {
      assert IsIndexed(config, db, after, s);
      IndexedUnderOwnId(config, db, after, s);
    }
  }

  lemma BuildIndexesExactly(config: Config, db: Index, sources: seq<Source>)
    requires config.kind.Identified? && IndexOk(config, db) && DistinctSources(config, sources)
    ensures IndexesExactly(config, Incremental(config, db, sources), sources)
  {
    IdentifiedNeverClash(config, db, sources);
    BuildIndexesAll(config, db, sources);
    IndexedExactly(config, db, Incremental(config, db, sources), sources);
  }

  /** After any sequence of builds the index holds the documents and chunks of the last sources, field by field. */
  lemma {:induction false} BuildsIndexTheLastSources(config: Config, start: Index, builds: seq<seq<Source>>, end: Index)
    requires config.kind.Identified? && IndexOk(config, start) && builds != []
    requires forall sources :: sources in builds ==> DistinctSources(config, sources)
    requires Builds(config, start, builds, end)
    ensures IndexesExactly(config, end, builds[|builds| - 1])
    decreases |builds|
  {
    assert builds[0] in builds;
    BuildIndexesExactly(config, start, builds[0]);
    IdentifiedNeverClash(config, start, builds[0]);
    IncrementalKeepsIndexOk(config, start, builds[0]);
    if |builds| > 1 {
      BuildsIndexTheLastSources(config, Incremental(config, start, builds[0]), builds[1..], end);
    }
  }
}
