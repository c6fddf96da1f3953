/** The user-progress store (hooks/useUserProgress.ts): the signed-in user,
    the set of completed learning modules, the dashboard statistics and the
    cache of generated lesson content. Each aggregate is read once from
    local storage when the store is created and written back whenever it
    changes; a storage error is swallowed and the in-memory state stands. */
module Progress {
  import opened Options
  import opened Json
  import opened Types
  import opened Collections
  import opened Storage
  import opened ProgressCodec

  const UserKey := "wathiq_user"
  const CompletedKey := "wathiq_completed_modules"
  const StatsKey := "wathiq_stats"
  const CacheKey := "wathiq_module_cache"

  /** The user a first visit starts with. */
  function InitialUser(): User {
    User("Alex Doe", "alex.doe@example.com", 1, 0, Adults, En,
         Some(LearningProgress(0)), Some([]), None)
  }

  /** The statistics a first visit starts with (fixed figures). */
  function InitialStats(): Stats {
    Stats(42, 88)
  }

  /** `Math.floor(points / 500) + 1`: one level per 500 points. */
  function Level(points: int): (l: int)
    ensures (l - 1) * 500 <= points < l * 500
  {
    points / 500 + 1
  }

  /** A user credited with `points`: the total grows by exactly that much,
      the level follows the new total, and nothing else changes. */
  function Award(u: User, points: int): (r: User)
    ensures r.totalPoints == u.totalPoints + points
    ensures r.level == Level(r.totalPoints)
    ensures r.(totalPoints := u.totalPoints, level := u.level) == u
  {
    var total := u.totalPoints + points;
    u.(totalPoints := total, level := Level(total))
  }

  // ---------------------------------------------------------------------
  // Loading (the lazy initial state of each `useState`)
  // ---------------------------------------------------------------------

  function LoadUser(read: ReadOutcome): User {
    match DecodeUser(StoredData(read, EncodeUser(InitialUser())))
    case Some(u) => u
    case None => InitialUser()
  }

  function LoadCompleted(read: ReadOutcome): (c: seq<string>)
    ensures NoDups(c)
  {
    match DecodeCompleted(StoredData(read, EncodeCompleted([])))
    case Some(c) => c
    case None => []
  }

  function LoadStats(read: ReadOutcome): Stats {
    match DecodeStats(StoredData(read, EncodeStats(InitialStats())))
    case Some(s) => s
    case None => InitialStats()
  }

  function LoadCache(read: ReadOutcome): (c: ModuleCache)
    ensures UniqueKeys(c)
  {
    match DecodeCache(StoredData(read, EncodeCache([])))
    case Some(c) => c
    case None => []
  }

  /** Nothing stored, or storage that cannot be read, gives the initial
      state. */
  lemma FreshStart(read: ReadOutcome)
    requires read.Throws? || read.Missing?
    ensures LoadUser(read) == InitialUser()
    ensures LoadCompleted(read) == []
    ensures LoadStats(read) == InitialStats()
    ensures LoadCache(read) == []
  {
    UserRoundTrip(InitialUser());
    CompletedRoundTrip([]);
    StatsRoundTrip(InitialStats());
    CacheRoundTrip([]);
  }

  /** What the store saved is what it loads on the next visit. */
  lemma Reload(u: User, c: seq<string>, s: Stats, m: ModuleCache)
    requires NoDups(c) && UniqueKeys(m)
    ensures LoadUser(Present(Serialize(EncodeUser(u)))) == u
    ensures LoadCompleted(Present(Serialize(EncodeCompleted(c)))) == c
    ensures LoadStats(Present(Serialize(EncodeStats(s)))) == s
    ensures LoadCache(Present(Serialize(EncodeCache(m)))) == m
  {
    StoredDataOfSaved(EncodeUser(u), EncodeUser(InitialUser()));
    UserRoundTrip(u);
    StoredDataOfSaved(EncodeCompleted(c), EncodeCompleted([]));
    CompletedRoundTrip(c);
    StoredDataOfSaved(EncodeStats(s), EncodeStats(InitialStats()));
    StatsRoundTrip(s);
    StoredDataOfSaved(EncodeCache(m), EncodeCache([]));
    CacheRoundTrip(m);
  }

  /** A stored value that is not JSON gives the initial state too. */
  lemma UnreadableText(text: string)
    requires Parse(text).None?
    ensures LoadUser(Present(text)) == InitialUser()
    ensures LoadStats(Present(text)) == InitialStats()
  {
    UserRoundTrip(InitialUser());
    StatsRoundTrip(InitialStats());
  }

  class ProgressStore {
    var user: User
    /** `completedModules`, in insertion order. */
    var completed: seq<string>
    /** Never updated after loading. */
    const stats: Stats
    var cache: ModuleCache
    const storage: LocalStorage

    ghost predicate Valid()
      reads this
    {
      NoDups(completed) && UniqueKeys(cache)
    }

    /** Mounting the hook: each aggregate is loaded from storage, then the
        four save effects run once, in declaration order. */
    constructor (storage: LocalStorage)
      modifies storage
      ensures this.storage == storage
      ensures user == LoadUser(old(storage.GetItem(UserKey)))
      ensures completed == LoadCompleted(old(storage.GetItem(CompletedKey)))
      ensures stats == LoadStats(old(storage.GetItem(StatsKey)))
      ensures cache == LoadCache(old(storage.GetItem(CacheKey)))
      ensures Valid()
      ensures storage.items ==
        storage.Saved(storage.Saved(storage.Saved(storage.Saved(old(storage.items),
          UserKey, EncodeUser(user)), CompletedKey, EncodeCompleted(completed)),
          StatsKey, EncodeStats(stats)), CacheKey, EncodeCache(cache))
    {
      user := LoadUser(storage.GetItem(UserKey));
      completed := LoadCompleted(storage.GetItem(CompletedKey));
      stats := LoadStats(storage.GetItem(StatsKey));
      cache := LoadCache(storage.GetItem(CacheKey));
      this.storage := storage;
      new;
      ghost var items0 := storage.items;
      storage.Save(UserKey, EncodeUser(user));
      ghost var items1 := storage.items;
      storage.Save(CompletedKey, EncodeCompleted(completed));
      ghost var items2 := storage.items;
      storage.Save(StatsKey, EncodeStats(stats));
      ghost var items3 := storage.items;
      storage.Save(CacheKey, EncodeCache(cache));
      assert storage.items == storage.Saved(storage.Saved(storage.Saved(storage.Saved(items0,
        UserKey, EncodeUser(user)), CompletedKey, EncodeCompleted(completed)),
        StatsKey, EncodeStats(stats)), CacheKey, EncodeCache(cache));
    }

    /** `completeModule(moduleId, pointsAwarded)`: a module already completed
        changes nothing; otherwise it joins the completed set, the user is
        credited, and both are saved. */
    method CompleteModule(moduleId: string, pointsAwarded: int)
      requires Valid()
      modifies this, storage
      ensures Valid()
      ensures moduleId in old(completed) ==>
        user == old(user) && completed == old(completed) && storage.items == old(storage.items)
      ensures moduleId !in old(completed) ==>
        && completed == old(completed) + [moduleId]
        && user == Award(old(user), pointsAwarded)
        && storage.items == storage.Saved(storage.Saved(old(storage.items),
             UserKey, EncodeUser(user)), CompletedKey, EncodeCompleted(completed))
      ensures cache == old(cache)
    {
      if moduleId in completed {
        return;
      }
      completed := Add(completed, moduleId);
      user := Award(user, pointsAwarded);
      storage.Save(UserKey, EncodeUser(user));
      storage.Save(CompletedKey, EncodeCompleted(completed));
    }

    /** `cacheModuleContent(moduleId, data)`: the entry for the module is set
        (added at the end when new) and the cache is saved. */
    method CacheModuleContent(moduleId: string, data: CachedContent)
      requires Valid()
      modifies this, storage
      ensures Valid()
      ensures cache == Put(old(cache), moduleId, data)
      ensures Lookup(cache, moduleId) == Some(data)
      ensures user == old(user) && completed == old(completed)
      ensures storage.items == storage.Saved(old(storage.items), CacheKey, EncodeCache(cache))
    {
      PutKeys(cache, moduleId, data);
      LookupPutSame(cache, moduleId, data);
      cache := Put(cache, moduleId, data);
      storage.Save(CacheKey, EncodeCache(cache));
    }
  }

  /** Completing the same module twice awards its points once. */
  method CompleteTwice(store: ProgressStore, moduleId: string, points: int)
    requires store.Valid() && moduleId !in store.completed
    modifies store, store.storage
    ensures store.user == Award(old(store.user), points)
    ensures store.completed == old(store.completed) + [moduleId]
  {
    store.CompleteModule(moduleId, points);
    store.CompleteModule(moduleId, points);
  }

  /** Points never lower the level. */
  lemma LevelMonotonic(p: int, q: int)
    requires p <= q
    ensures Level(p) <= Level(q)
  {
  }

  /** The initial user's level agrees with its points. */
  lemma InitialLevel()
    ensures InitialUser().level == Level(InitialUser().totalPoints)
  {
  }
}
