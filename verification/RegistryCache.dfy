/**
 The process-local cache of allowed-URL registries: a registry is read from the database or, when none
 is stored, computed and stored, while the cache may be cleared at any suspension.
 */
module RegistryCache {
  import opened Options

  const TTL_SECONDS := 60

  type Urls = set<string>

  // `stamp` records the generation at the time the value was read; no lookup uses it.
  datatype Entry = Entry(urls: Urls, loadedAt: int, stamp: nat)

  datatype Cache = Cache(generation: nat, entries: map<string, Entry>)

  /** An entry that has not outlived its time. */
  function Live(c: Cache, key: string, now: int): Option<Entry> {
    if key in c.entries && now - c.entries[key].loadedAt < TTL_SECONDS then Some(c.entries[key]) else None
  }

  class Registry {
    var generation: nat
    var entries: map<string, Entry>

    constructor ()
      ensures State() == Cache(0, map[])
    {
      generation, entries := 0, map[];
    }

    function State(): Cache
      reads this
    {
      Cache(generation, entries)
    }

    method Clear()
      modifies this
      ensures generation == old(generation) + 1 && entries == map[]
    {
      generation := generation + 1;
      entries := map[];
    }

    method Lookup(key: string, now: int) returns (r: Option<Urls>)
      ensures r == if Live(State(), key, now).Some? then Some(Live(State(), key, now).value.urls) else None
      ensures r.Some? <==> key in entries && now < entries[key].loadedAt + 60
      ensures r.Some? ==> r.value == entries[key].urls
    {
      if key in entries && now - entries[key].loadedAt < TTL_SECONDS {
        return Some(entries[key].urls);
      }
      return None;
    }

    /** Stores a registry, unless the cache was cleared since its load began. */
    method Store(key: string, started: nat, entry: Entry) returns (ok: bool)
      modifies this`entries
      ensures ok <==> started == generation
      ensures entries == if ok then old(entries)[key := entry] else old(entries)
    {
      ok := started == generation;
      if ok {
        entries := entries[key := entry];
      }
    }
  }

  /** Where a call is: before, in or after one of its database accesses. */
  datatype Progress =
    | Waiting
    | Loading(started: nat, now: int)
    | Loaded(started: nat, now: int, stored: Option<Urls>, stamp: nat)
    | Computing(started: nat, now: int)
    | Computed(started: nat, now: int, urls: Urls, stamp: nat)
    | Upserting(started: nat, now: int, urls: Urls, stamp: nat)

  datatype Loader = Loader(key: string, progress: Progress)

  datatype Event =
    | Call(id: nat, key: string, now: int)
    | Acquire(id: nat, now: int)
    | Read(id: nat, stored: Option<Urls>)
    | Compute(id: nat, urls: Urls)
    | Resume(id: nat, now: int)
    | Abandon(id: nat)
    | Clear

  datatype World = World(cache: Cache, loaders: map<nat, Loader>, locks: map<string, nat>)

  const EMPTY := World(Cache(0, map[]), map[], map[])

  predicate Enabled(w: World, e: Event) {
    match e
    case Call(id, _, _) => id !in w.loaders
    case Acquire(id, _) => id in w.loaders && w.loaders[id].progress.Waiting? && w.loaders[id].key !in w.locks
    case Read(id, _) => id in w.loaders && w.loaders[id].progress.Loading?
    case Compute(id, _) => id in w.loaders && w.loaders[id].progress.Computing?
    case Resume(id, _) =>
      id in w.loaders &&
      var p := w.loaders[id].progress; p.Loaded? || p.Computed? || p.Upserting?
    case Abandon(id) => id in w.loaders
    case Clear => true
  }

  function Without<K, V>(m: map<K, V>, key: K): map<K, V> {
    map k | k in m && k != key :: m[k]
  }

  function Released(w: World, id: nat): World
    requires id in w.loaders
  {
    var key := w.loaders[id].key;
    w.(loaders := Without(w.loaders, id),
       locks := if key in w.locks && w.locks[key] == id then Without(w.locks, key) else w.locks)
  }

  function Advanced(w: World, id: nat, progress: Progress): World
    requires id in w.loaders
  {
    w.(loaders := w.loaders[id := w.loaders[id].(progress := progress)])
  }

  /** A registry that is ready to be stored, if the call has one. */
  function Ready(p: Progress): Option<Entry> {
    match p
    case Loaded(_, now, stored, stamp) => if stored.Some? then Some(Entry(stored.value, now, stamp)) else None
    case Upserting(_, now, urls, stamp) => Some(Entry(urls, now, stamp))
    case _ => None
  }

  function Returned(w: World, e: Event): Option<Entry>
    requires Enabled(w, e)
  {
    match e
    case Call(_, key, now) => Live(w.cache, key, now)
    case Acquire(id, now) => Live(w.cache, w.loaders[id].key, now)
    case Resume(id, now) =>
      var p := w.loaders[id].progress;
      if p.started == w.cache.generation then Ready(p) else Live(w.cache, w.loaders[id].key, now)
    case _ => None
  }

  function Apply(w: World, e: Event): World
    requires Enabled(w, e)
  {
    match e
    case Call(id, key, now) =>
      if Live(w.cache, key, now).Some? then w else w.(loaders := w.loaders[id := Loader(key, Waiting)])
    case Acquire(id, now) =>
      if Live(w.cache, w.loaders[id].key, now).Some? then Released(w, id)
      else Advanced(w.(locks := w.locks[w.loaders[id].key := id]), id, Loading(w.cache.generation, now))
    case Read(id, stored) =>
      var p := w.loaders[id].progress;
      Advanced(w, id, Loaded(p.started, p.now, stored, w.cache.generation))
    case Compute(id, urls) =>
      var p := w.loaders[id].progress;
      Advanced(w, id, Computed(p.started, p.now, urls, w.cache.generation))
    case Resume(id, now) =>
      var l := w.loaders[id];
      if l.progress.started != w.cache.generation then
        if Live(w.cache, l.key, now).Some? then Released(w, id)
        else Advanced(w, id, Loading(w.cache.generation, now))
      else if Ready(l.progress).Some? then
        Released(w.(cache := w.cache.(entries := w.cache.entries[l.key := Ready(l.progress).value])), id)
      else if l.progress.Loaded? then Advanced(w, id, Computing(l.progress.started, l.progress.now))
      else Advanced(w, id, Upserting(l.progress.started, l.progress.now, l.progress.urls, l.progress.stamp))
    case Abandon(id) => Released(w, id)
    case Clear => w.(cache := Cache(w.cache.generation + 1, map[]))
  }

  function Step(w: World, e: Event): World {
    if Enabled(w, e) then Apply(w, e) else w
  }

  function After(events: seq<Event>): World {
    if events == [] then EMPTY else Step(After(events[..|events| - 1]), events[|events| - 1])
  }

  ghost predicate LoaderOk(w: World, l: Loader) {
    match l.progress
    case Waiting => true
    case Loading(started, _) => started <= w.cache.generation
    case Computing(started, _) => started <= w.cache.generation
    case Loaded(started, _, _, stamp) => started <= stamp <= w.cache.generation
    case Computed(started, _, _, stamp) => started <= stamp <= w.cache.generation
    case Upserting(started, _, _, stamp) => started <= stamp <= w.cache.generation
  }

  ghost predicate LocksOk(w: World) {
    && (forall id :: id in w.loaders && !w.loaders[id].progress.Waiting? ==>
                       w.loaders[id].key in w.locks && w.locks[w.loaders[id].key] == id)
    && forall key :: key in w.locks ==>
                       var id := w.locks[key];
                       id in w.loaders && w.loaders[id].key == key && !w.loaders[id].progress.Waiting?
  }

  ghost predicate Inv(w: World) {
    && (forall key :: key in w.cache.entries ==> w.cache.entries[key].stamp == w.cache.generation)
    && (forall id :: id in w.loaders ==> LoaderOk(w, w.loaders[id]))
    && LocksOk(w)
  }

  lemma ReleaseKeepsLocks(w: World, id: nat)
    requires LocksOk(w) && id in w.loaders
    ensures LocksOk(Released(w, id))
  {
  }

  lemma AdvanceKeepsLocks(w: World, id: nat, progress: Progress)
    requires LocksOk(w) && id in w.loaders && !w.loaders[id].progress.Waiting? && !progress.Waiting?
    ensures LocksOk(Advanced(w, id, progress))
  {
  }

  lemma StepKeepsLocks(w: World, e: Event)
    requires LocksOk(w) && Enabled(w, e)
    ensures LocksOk(Apply(w, e))
  {
    match e
    case Call(_, _, _) =>
    case Acquire(id, now) =>
      if Live(w.cache, w.loaders[id].key, now).Some? {
        ReleaseKeepsLocks(w, id);
      }
    case Resume(id, _) =>
      var w' := Apply(w, e);
      if id in w'.loaders {
        AdvanceKeepsLocks(w, id, w'.loaders[id].progress);
      } else {
        ReleaseKeepsLocks(w, id);
      }
    case Abandon(id) => ReleaseKeepsLocks(w, id);
    case Read(id, _) => AdvanceKeepsLocks(w, id, Apply(w, e).loaders[id].progress);
    case Compute(id, _) => AdvanceKeepsLocks(w, id, Apply(w, e).loaders[id].progress);
    case Clear =>
  }

  lemma StepKeepsLoaders(w: World, e: Event)
    requires Inv(w) && Enabled(w, e)
    ensures var w' := Apply(w, e); forall id :: id in w'.loaders ==> LoaderOk(w', w'.loaders[id])
  {
    var w' := Apply(w, e);
    forall id | id in w'.loaders ensures LoaderOk(w', w'.loaders[id]) {
      assert id in w.loaders ==> LoaderOk(w, w.loaders[id]);
    }
  }

  lemma StepKeepsInv(w: World, e: Event)
    requires Inv(w)
    ensures Inv(Step(w, e))
  {
    if Enabled(w, e) {
      StepKeepsLocks(w, e);
      StepKeepsLoaders(w, e);
      if e.Resume? {
        assert LoaderOk(w, w.loaders[e.id]);
      }
    }
  }

  lemma {:induction false} AlwaysInv(events: seq<Event>)
    ensures Inv(After(events))
  {
    if events != [] {
      AlwaysInv(events[..|events| - 1]);
      StepKeepsInv(After(events[..|events| - 1]), events[|events| - 1]);
    }
  }

  /** Under any interleaving, a registry handed out was read or computed after the most recent clear. */
  lemma RegistriesAreReadSinceClear(events: seq<Event>, e: Event)
    requires Enabled(After(events), e) && Returned(After(events), e).Some?
    ensures Returned(After(events), e).value.stamp == After(events).cache.generation
  {
    AlwaysInv(events);
    var w := After(events);
    if e.Resume? {
      assert LoaderOk(w, w.loaders[e.id]);
    }
  }

  /**
   What is handed out is what the call itself read or, when nothing was stored, computed; otherwise it is
   a cached entry less than 60 seconds old.
   */
  lemma HandedOutIsReadOrRecent(w: World, e: Event)
    requires Enabled(w, e) && Returned(w, e).Some?
    ensures var r := Returned(w, e).value;
            var key := if e.Call? then e.key else w.loaders[e.id].key;
            || (key in w.cache.entries && w.cache.entries[key] == r && e.now < r.loadedAt + 60)
            || (e.Resume? && match w.loaders[e.id].progress
                             case Loaded(_, now, stored, stamp) =>
                               stored == Some(r.urls) && r == Entry(r.urls, now, stamp)
                             case Upserting(_, now, urls, stamp) => r == Entry(urls, now, stamp)
                             case _ => false)
  {
  }

  /** What a call stores is served to every later one for 60 seconds, until the next clear. */
  lemma StoredIsServed(w: World, id: nat, now: int, other: nat, later: int)
    requires Enabled(w, Resume(id, now)) && w.loaders[id].progress.started == w.cache.generation
    requires Returned(w, Resume(id, now)).Some? && other !in w.loaders
    requires later < Returned(w, Resume(id, now)).value.loadedAt + 60
    ensures var key := w.loaders[id].key;
            Returned(Step(w, Resume(id, now)), Call(other, key, later)) == Returned(w, Resume(id, now))
  {
  }

  /** At most one call per registry is loading at any time. */
  lemma OneLoaderPerRegistry(events: seq<Event>, i: nat, j: nat)
    requires var w := After(events);
             && i in w.loaders && j in w.loaders && w.loaders[i].key == w.loaders[j].key
             && !w.loaders[i].progress.Waiting? && !w.loaders[j].progress.Waiting?
    ensures i == j
  {
    AlwaysInv(events);
  }
}
