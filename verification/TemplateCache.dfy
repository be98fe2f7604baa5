/**
 Process-local caches of prompt templates whose loaders race with invalidation. Each event below is
 what one task does between two suspensions; database commits and clears may fall anywhere between.
 */
module TemplateCache {
  import opened Options

  type Templates = map<string, string>

  // Internal or public, and the scope of the prompt set.
  type Slot = (bool, nat)

  datatype Key = Deployed(slot: Slot) | Version(id: nat)

  datatype Db = Db(deployed: map<Slot, nat>, templates: map<nat, Templates>)

  // `stamp` records the generation at the time the value was read; no lookup uses it.
  datatype Entry = Entry(value: Templates, stamp: nat)

  datatype Cache = Cache(generation: nat, deployed: map<Slot, Entry>, versions: map<nat, Entry>)

  function DeployedVersion(db: Db, slot: Slot): Option<nat> {
    if slot in db.deployed then Some(db.deployed[slot]) else None
  }

  function TemplatesOf(db: Db, version: Option<nat>): Templates {
    if version.Some? && version.value in db.templates then db.templates[version.value] else map[]
  }

  /** What an uncached lookup would find. */
  function Fetch(db: Db, key: Key): Templates {
    match key
    case Deployed(slot) => TemplatesOf(db, DeployedVersion(db, slot))
    case Version(id) => TemplatesOf(db, Some(id))
  }

  function Cached(c: Cache, key: Key): Option<Entry> {
    match key
    case Deployed(slot) => if slot in c.deployed then Some(c.deployed[slot]) else None
    case Version(id) => if id in c.versions then Some(c.versions[id]) else None
  }

  /** Storing deployed templates also fills the cache of their version. */
  function Stored(c: Cache, key: Key, version: Option<nat>, entry: Entry): Cache {
    var c' := if key.Deployed? then c.(deployed := c.deployed[key.slot := entry]) else c;
    if version.Some? then c'.(versions := c'.versions[version.value := entry]) else c'
  }

  function Cleared(c: Cache): Cache {
    Cache(c.generation + 1, map[], map[])
  }

  class Caches {
    var generation: nat
    var deployed: map<Slot, Entry>
    var versions: map<nat, Entry>

    constructor ()
      ensures State() == Cache(0, map[], map[])
    {
      generation, deployed, versions := 0, map[], map[];
    }

    function State(): Cache
      reads this
    {
      Cache(generation, deployed, versions)
    }

    method Clear()
      modifies this
      ensures State() == Cleared(old(State()))
      ensures generation == old(generation) + 1 && deployed == map[] && versions == map[]
    {
      generation := generation + 1;
      deployed := map[];
      versions := map[];
    }

    /** Stores loaded deployed templates, unless the caches were cleared since the load began. */
    method StoreDeployed(slot: Slot, started: nat, version: Option<nat>, entry: Entry) returns (ok: bool)
      modifies this`deployed, this`versions
      ensures ok <==> started == generation
      ensures State() == if ok then Stored(old(State()), Deployed(slot), version, entry) else old(State())
      ensures ok ==> deployed == old(deployed)[slot := entry]
      ensures ok ==> versions == if version.Some? then old(versions)[version.value := entry] else old(versions)
    {
      if started != generation {
        return false;
      }
      deployed := deployed[slot := entry];
      if version.Some? {
        versions := versions[version.value := entry];
      }
      return true;
    }

    method StoreVersion(id: nat, started: nat, entry: Entry) returns (ok: bool)
      modifies this`versions
      ensures ok <==> started == generation
      ensures State() == if ok then Stored(old(State()), Version(id), Some(id), entry) else old(State())
      ensures ok ==> versions == old(versions)[id := entry]
    {
      if started != generation {
        return false;
      }
      versions := versions[id := entry];
      return true;
    }
  }

  // ---------------------------------------------------------------------------------------------
  // Interleavings
  // ---------------------------------------------------------------------------------------------

  /** How far a call has come: waiting for the key's lock, or loading since a generation. */
  datatype Progress =
    | Waiting
    | Started(generation: nat)
    | VersionRead(generation: nat, version: Option<nat>, stamp: nat)
    | Loaded(generation: nat, version: Option<nat>, entry: Entry)

  datatype Loader = Loader(key: Key, progress: Progress)

  datatype Event =
    | Call(id: nat, key: Key)
    | Acquire(id: nat)
    | ReadVersion(id: nat)
    | ReadTemplates(id: nat)
    | Finish(id: nat)
    | Abandon(id: nat)
    | Commit(db: Db)
    | Clear

  // `dirty`: something was committed and the caches have not been cleared since.
  datatype World = World(cache: Cache, db: Db, dirty: bool, loaders: map<nat, Loader>, locks: map<Key, nat>)

  function Start(db: Db): World {
    World(Cache(0, map[], map[]), db, false, map[], map[])
  }


  predicate Enabled(w: World, e: Event) {
    match e
    case Call(id, _) => id !in w.loaders
    case Acquire(id) => id in w.loaders && w.loaders[id].progress.Waiting? && w.loaders[id].key !in w.locks
    case ReadVersion(id) => id in w.loaders && w.loaders[id].progress.Started? && w.loaders[id].key.Deployed?
    case ReadTemplates(id) =>
      id in w.loaders &&
      if w.loaders[id].key.Deployed? then w.loaders[id].progress.VersionRead? else w.loaders[id].progress.Started?
    case Finish(id) => id in w.loaders && w.loaders[id].progress.Loaded?
    case Abandon(id) => id in w.loaders
    case _ => true
  }

  function Without<K, V>(m: map<K, V>, key: K): map<K, V> {
    map k | k in m && k != key :: m[k]
  }

  /** The call ends and gives its lock back. */
  function Released(w: World, id: nat): World
    requires id in w.loaders
  {
    var key := w.loaders[id].key;
    w.(loaders := Without(w.loaders, id),
       locks := if key in w.locks && w.locks[key] == id then Without(w.locks, key) else w.locks)
  }

  function Advanced(w: World, id: nat, progress: Progress): World
    requires id in w.loaders
  {
    w.(loaders := w.loaders[id := w.loaders[id].(progress := progress)])
  }

  /** The value an event returns to its caller. */
  function Returned(w: World, e: Event): Option<Entry>
    requires Enabled(w, e)
  {
    match e
    case Call(_, key) => Cached(w.cache, key)
    case Acquire(id) => Cached(w.cache, w.loaders[id].key)
    case Finish(id) =>
      var p := w.loaders[id].progress;
      if p.generation == w.cache.generation then Some(p.entry) else Cached(w.cache, w.loaders[id].key)
    case _ => None
  }

  function Apply(w: World, e: Event): World
    requires Enabled(w, e)
  {
    match e
    case Call(id, key) =>
      if Cached(w.cache, key).Some? then w else w.(loaders := w.loaders[id := Loader(key, Waiting)])
    case Acquire(id) =>
      var key := w.loaders[id].key;
      if Cached(w.cache, key).Some? then Released(w, id)
      else Advanced(w.(locks := w.locks[key := id]), id, Started(w.cache.generation))
    case ReadVersion(id) =>
      var l := w.loaders[id];
      Advanced(w, id, VersionRead(l.progress.generation, DeployedVersion(w.db, l.key.slot), w.cache.generation))
    case ReadTemplates(id) =>
      var l := w.loaders[id];
      var version := if l.key.Deployed? then l.progress.version else Some(l.key.id);
      var stamp := if l.key.Deployed? then l.progress.stamp else w.cache.generation;
      Advanced(w, id, Loaded(l.progress.generation, version, Entry(TemplatesOf(w.db, version), stamp)))
    case Finish(id) =>
      var l := w.loaders[id];
      if l.progress.generation == w.cache.generation
      then Released(w.(cache := Stored(w.cache, l.key, l.progress.version, l.progress.entry)), id)
      else if Cached(w.cache, l.key).Some? then Released(w, id)
      else Advanced(w, id, Started(w.cache.generation))
    case Abandon(id) => Released(w, id)
    case Commit(db) => w.(db := db, dirty := true)
    case Clear => w.(cache := Cleared(w.cache), dirty := false)
  }

  function Step(w: World, e: Event): World {
    if Enabled(w, e) then Apply(w, e) else w
  }

  function After(w: World, events: seq<Event>): World
    decreases |events|
  {
    if events == [] then w else After(Step(w, events[0]), events[1..])
  }

  /** The value was read after the last clear, and is current unless a clear is outstanding. */
  ghost predicate EntryOk(w: World, key: Key, entry: Entry) {
    entry.stamp == w.cache.generation && (!w.dirty ==> entry.value == Fetch(w.db, key))
  }

  ghost predicate CacheOk(w: World) {
    forall key :: Cached(w.cache, key).Some? ==> EntryOk(w, key, Cached(w.cache, key).value)
  }

  /** What was read since a generation that is still the current one is as an entry must be. */
  ghost predicate LoaderOk(w: World, l: Loader) {
    match l.progress
    case Waiting => true
    case Started(g) => g <= w.cache.generation
    case VersionRead(g, version, stamp) =>
      && l.key.Deployed? && g <= stamp <= w.cache.generation
      && (g == w.cache.generation && !w.dirty ==> version == DeployedVersion(w.db, l.key.slot))
    case Loaded(g, version, entry) =>
      && g <= entry.stamp <= w.cache.generation
      && (l.key.Version? ==> version == Some(l.key.id))
      && (g == w.cache.generation && !w.dirty ==>
            entry.value == Fetch(w.db, l.key) && entry.value == TemplatesOf(w.db, version))
  }

  /** Whoever is loading holds the lock of its key, and every lock is held by someone loading. */
  ghost predicate LocksOk(w: World) {
    && (forall id :: id in w.loaders && !w.loaders[id].progress.Waiting? ==>
                       w.loaders[id].key in w.locks && w.locks[w.loaders[id].key] == id)
    && forall key :: key in w.locks ==>
                       var id := w.locks[key];
                       id in w.loaders && w.loaders[id].key == key && !w.loaders[id].progress.Waiting?
  }

  ghost predicate Inv(w: World) {
    CacheOk(w) && LocksOk(w) && forall id :: id in w.loaders ==> LoaderOk(w, w.loaders[id])
  }

  lemma StoreKeepsCache(w: World, id: nat)
    requires Inv(w) && Enabled(w, Finish(id)) && w.loaders[id].progress.generation == w.cache.generation
    ensures CacheOk(Apply(w, Finish(id)))
  {
    var w', l := Apply(w, Finish(id)), w.loaders[id];
    assert LoaderOk(w, l);
    forall key | Cached(w'.cache, key).Some? ensures EntryOk(w', key, Cached(w'.cache, key).value) {
      if Cached(w'.cache, key) == Cached(w.cache, key) {
        assert EntryOk(w, key, Cached(w.cache, key).value);
      }
    }
  }

  lemma StepKeepsCache(w: World, e: Event)
    requires Inv(w)
    ensures CacheOk(Step(w, e))
  {
    if Enabled(w, e) {
      if e.Finish? && w.loaders[e.id].progress.generation == w.cache.generation {
        StoreKeepsCache(w, e.id);
      } else {
        var w' := Step(w, e);
        forall key | Cached(w'.cache, key).Some? ensures EntryOk(w', key, Cached(w'.cache, key).value) {
          assert Cached(w'.cache, key) == Cached(w.cache, key);
        }
      }
    }
  }

  /** A call that did not move stays fine when the database or the generation moves on. */
  lemma UnmovedLoader(w: World, w': World, l: Loader)
    requires LoaderOk(w, l)
    requires w'.cache.generation > w.cache.generation
             || (w'.cache.generation == w.cache.generation && (w'.dirty || (!w.dirty && w'.db == w.db)))
    ensures LoaderOk(w', l)
  {
  }

  lemma StepKeepsLoaders(w: World, e: Event)
    requires Inv(w)
    ensures var w' := Step(w, e); forall id :: id in w'.loaders ==> LoaderOk(w', w'.loaders[id])
  {
    var w' := Step(w, e);
    forall id | id in w'.loaders ensures LoaderOk(w', w'.loaders[id]) {
      if id in w.loaders {
        assert LoaderOk(w, w.loaders[id]);
        if w'.loaders[id] == w.loaders[id] {
          UnmovedLoader(w, w', w.loaders[id]);
        }
      }
    }
  }

  lemma ReleaseKeepsLocks(w: World, id: nat)
    requires LocksOk(w) && id in w.loaders
    ensures LocksOk(Released(w, id))
  {
  }

  lemma AdvanceKeepsLocks(w: World, id: nat, progress: Progress)
    requires LocksOk(w) && id in w.loaders && !w.loaders[id].progress.Waiting? && !progress.Waiting?
    ensures LocksOk(Advanced(w, id, progress))
  {
  }

  lemma StepKeepsLocks(w: World, e: Event)
    requires LocksOk(w)
    ensures LocksOk(Step(w, e))
  {
    if Enabled(w, e) {
      match e
      case Acquire(id) =>
        if Cached(w.cache, w.loaders[id].key).Some? {
          ReleaseKeepsLocks(w, id);
        }
      case Finish(id) =>
        if id in Apply(w, e).loaders {
          AdvanceKeepsLocks(w, id, Apply(w, e).loaders[id].progress);
        } else {
          ReleaseKeepsLocks(w, id);
        }
      case Abandon(id) => ReleaseKeepsLocks(w, id);
      case ReadVersion(id) => AdvanceKeepsLocks(w, id, Apply(w, e).loaders[id].progress);
      case ReadTemplates(id) => AdvanceKeepsLocks(w, id, Apply(w, e).loaders[id].progress);
      case _ =>
    }
  }

  lemma {:induction false} RunKeepsInv(w: World, events: seq<Event>)
    requires Inv(w)
    ensures Inv(After(w, events))
    decreases |events|
  {
    if events != [] {
      StepKeepsCache(w, events[0]);
      StepKeepsLoaders(w, events[0]);
      StepKeepsLocks(w, events[0]);
      RunKeepsInv(Step(w, events[0]), events[1..]);
    }
  }

  /** The templates the database has for the key: those of the deployed version, or of the version itself. */
  ghost predicate IsInDatabase(db: Db, key: Key, value: Templates) {
    match key
    case Version(id) => value == (if id in db.templates then db.templates[id] else map[])
    case Deployed(slot) =>
      && (slot !in db.deployed ==> value == map[])
      && (slot in db.deployed && db.deployed[slot] !in db.templates ==> value == map[])
      && (slot in db.deployed && db.deployed[slot] in db.templates ==> value == db.templates[db.deployed[slot]])
  }

  /** A load that no clear has overtaken is served to every later call, until the next clear. */
  lemma LoadedIsServed(w: World, id: nat, other: nat)
    requires Enabled(w, Finish(id)) && w.loaders[id].progress.generation == w.cache.generation
    requires other !in w.loaders
    ensures var w', key, entry := Step(w, Finish(id)), w.loaders[id].key, w.loaders[id].progress.entry;
            && Returned(w, Finish(id)) == Some(entry)
            && (key.Deployed? ==> key.slot in w'.cache.deployed && w'.cache.deployed[key.slot] == entry)
            && (w.loaders[id].progress.version.Some? ==>
                  var version := w.loaders[id].progress.version.value;
                  version in w'.cache.versions && w'.cache.versions[version] == entry)
            && (key.Deployed? ==> Returned(w', Call(other, key)) == Some(entry))
  {
  }

  /**
   Under any interleaving, every value a lookup returns was read after the most recent clear, and
   agrees with the database whenever every commit has been followed by a clear.
   */
  lemma ReturnsAreCurrent(db: Db, events: seq<Event>, e: Event, key: Key)
    requires var w := After(Start(db), events);
             Enabled(w, e) && Returned(w, e).Some? && key == if e.Call? then e.key else w.loaders[e.id].key
    ensures var w := After(Start(db), events);
            var entry := Returned(w, e).value;
            && entry.stamp == w.cache.generation
            && (!w.dirty ==> IsInDatabase(w.db, key, entry.value))
  {
    RunKeepsInv(Start(db), events);
    var w := After(Start(db), events);
    if e.Finish? {
      assert LoaderOk(w, w.loaders[e.id]);
    }
    assert EntryOk(w, key, Returned(w, e).value);
  }

  /** The cached values agree with the database whenever no clear is outstanding. */
  lemma CacheAgreesWithDatabase(db: Db, events: seq<Event>, key: Key)
    requires var w := After(Start(db), events); !w.dirty && Cached(w.cache, key).Some?
    ensures var w := After(Start(db), events); IsInDatabase(w.db, key, Cached(w.cache, key).value.value)
  {
    RunKeepsInv(Start(db), events);
    var w := After(Start(db), events);
    assert EntryOk(w, key, Cached(w.cache, key).value);
  }

  /** At most one call per key is loading at any time. */
  lemma OneLoaderPerKey(db: Db, events: seq<Event>, i: nat, j: nat)
    requires var w := After(Start(db), events);
             && i in w.loaders && j in w.loaders && w.loaders[i].key == w.loaders[j].key
             && !w.loaders[i].progress.Waiting? && !w.loaders[j].progress.Waiting?
    ensures i == j
  {
    RunKeepsInv(Start(db), events);
  }
}
