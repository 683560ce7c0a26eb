/** The route cache file and the decision `loadControllers` takes about it:
    keep the cached table, or rebuild from the controller files and write the
    new table as the cache. */
module RouteCache {
  import opened Optional
  import opened Routes

  /** The default minimum cache age, in seconds: one hour. */
  const DefaultMinCacheAge: int := 3600

  /** The cache file: the stored table, and the file's modification time,
      which serves as the time the table was built. */
  datatype CacheFile = CacheFile(table: RouteTable, mtime: int)

  /** `controllersChanged`: with no cache, always; inside the window of
      `minCacheAge` seconds after the cache was written, never; after it,
      exactly when some controller file is strictly newer than the cache. */
  predicate Stale(cache: Option<CacheFile>, now: int, minCacheAge: int, files: seq<ControllerFile>) {
    || cache.None?
    || (&& now - cache.value.mtime >= minCacheAge
        && exists k :: 0 <= k < |files| && files[k].mtime > cache.value.mtime)
  }

  /** The router's state after `loadControllers`: its table and the cache file. */
  datatype Snapshot = Snapshot(routes: RouteTable, cache: Option<CacheFile>)

  /** `loadControllers(minCacheAge)` at time `now`: a stale cache is replaced
      by a table built from scratch and written back at `now`; otherwise the
      cached table is used as it is. */
  function Reload(cache: Option<CacheFile>, now: int, minCacheAge: int, files: seq<ControllerFile>, classes: ClassRegistry): Snapshot {
    if Stale(cache, now, minCacheAge, files) then
      var t := BuildTable(files, classes);
      Snapshot(t, Some(CacheFile(t, now)))
    else Snapshot(cache.value.table, cache)
  }

  /** With no cache file, a reload always rebuilds. */
  lemma NoCacheRebuilds(now: int, minCacheAge: int, files: seq<ControllerFile>, classes: ClassRegistry)
    ensures Reload(None, now, minCacheAge, files, classes).routes == BuildTable(files, classes)
  {
  }

  /** Inside the debounce window the cached table and file are kept, however
      new the controller files are. */
  lemma DebounceKeepsCache(cache: Option<CacheFile>, now: int, minCacheAge: int, files: seq<ControllerFile>, classes: ClassRegistry)
    requires cache.Some? && now - cache.value.mtime < minCacheAge
    ensures Reload(cache, now, minCacheAge, files, classes) == Snapshot(cache.value.table, cache)
  {
  }

  /** Outside the window, one controller newer than the cache forces a
      rebuild, and the result does not depend on the old table: it is what a
      rebuild from no cache at all gives, stored with time `now`. */
  lemma NewerControllerRebuilds(cache: Option<CacheFile>, now: int, minCacheAge: int, files: seq<ControllerFile>, classes: ClassRegistry, k: nat)
    requires cache.Some? && now - cache.value.mtime >= minCacheAge
    requires k < |files| && files[k].mtime > cache.value.mtime
    ensures Reload(cache, now, minCacheAge, files, classes) == Reload(None, now, minCacheAge, files, classes)
    ensures Reload(cache, now, minCacheAge, files, classes).cache == Some(CacheFile(BuildTable(files, classes), now))
  {
  }

  /** Outside the window, a cache at least as new as every controller file is
      kept. */
  lemma UpToDateCacheKept(cache: Option<CacheFile>, now: int, minCacheAge: int, files: seq<ControllerFile>, classes: ClassRegistry)
    requires cache.Some?
    requires forall k :: 0 <= k < |files| ==> files[k].mtime <= cache.value.mtime
    ensures Reload(cache, now, minCacheAge, files, classes) == Snapshot(cache.value.table, cache)
  {
  }

  /** After a rebuild at `now`, reloading later with the same controller
      files (none newer than `now`) keeps the rebuilt table and cache, even
      if the loaded classes have changed since. */
  lemma RebuiltCacheIsFresh(cache: Option<CacheFile>, now: int, later: int, minCacheAge: int, files: seq<ControllerFile>,
                            classes: ClassRegistry, laterClasses: ClassRegistry)
    requires Stale(cache, now, minCacheAge, files)
    requires forall k :: 0 <= k < |files| ==> files[k].mtime <= now
    ensures var first := Reload(cache, now, minCacheAge, files, classes);
            Reload(first.cache, later, minCacheAge, files, laterClasses) == first
  {
  }
}
