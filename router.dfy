/** The `Router` object: its route table, the cache file it reads and
    writes, and its three operations. The filesystem, the clock and the
    class loader are passed in: `files` is what `glob` lists in the
    controller folder (in that order), `now` is `time()`, `classes` is what
    `class_exists` and reflection see. */
module Router {
  import opened Optional
  import opened PhpText
  import opened Annotations
  import opened Routes
  import opened RouteCache
  import opened Dispatcher

  class Router {
    /** The table `run` consults. */
    var routes: RouteTable
    /** The cache file on disk, with its modification time; None when absent. */
    var cache: Option<CacheFile>

    /** `new Router()`: the constructor loads the controllers with the
        default minimum cache age. */
    constructor (now: int, files: seq<ControllerFile>, classes: ClassRegistry, cacheOnDisk: Option<CacheFile>)
      ensures Snapshot(routes, cache) == Reload(cacheOnDisk, now, DefaultMinCacheAge, files, classes)
    {
      routes := map[];
      cache := cacheOnDisk;
      new;
      LoadControllers(DefaultMinCacheAge, now, files, classes);
    }

    /** `loadControllers($minCacheAge)`: take the cached table, and rebuild
        it from the controller files when there is no cache or it is stale;
        a rebuild starts from an empty table and is written back as the
        cache. */
    method LoadControllers(minCacheAge: int, now: int, files: seq<ControllerFile>, classes: ClassRegistry)
      modifies this
      ensures Snapshot(routes, cache) == Reload(old(cache), now, minCacheAge, files, classes)
    {
      var cacheValid := false;
      if cache.Some? {
        routes := cache.value.table;
        cacheValid := true;
      }
      var changed := false;
      if cacheValid {
        changed := ControllersChanged(minCacheAge, now, files);
      }
      if !cacheValid || changed {
        routes := map[];
        var i := 0;
        while i < |files|
          invariant 0 <= i <= |files|
          invariant routes == BuildTable(files[..i], classes)
          invariant cache == old(cache)
        {
          AddControllerRoutes(files[i], classes);
          assert files[..i + 1][..i] == files[..i];
          i := i + 1;
        }
        assert files[..i] == files;
        cache := Some(CacheFile(routes, now));
      }
    }

    /** The body of the rebuild loop for one controller file: the class
        name is the file's namespace, a backslash and its base name. */
    method AddControllerRoutes(file: ControllerFile, classes: ClassRegistry)
      modifies this`routes
      ensures routes == RegisterController(old(routes), file, classes)
    {
      var fqcn := ControllerClass(file.path, file.contents);
      AddClassRoutes(fqcn, classes);
    }

    /** When the class is loaded and its docblock declares `@url`, route each
        handler method it defines to it. */
    method AddClassRoutes(fqcn: string, classes: ClassRegistry)
      modifies this`routes
      ensures routes == RegisterClass(old(routes), fqcn, classes)
    {
      if fqcn in classes {
        var doc := classes[fqcn].docComment;
        if doc.Some? && Truthy(doc.value) && UrlOf(doc.value).Some? {
          RouteHandlers(fqcn, UrlOf(doc.value).value, classes[fqcn].methods);
        }
      }
    }

    /** The inner loop of the rebuild: for `get` and then `post`, when the
        class defines it, `$routes[VERB][$url] = $fqcn`. */
    method RouteHandlers(fqcn: string, url: string, methods: set<string>)
      modifies this`routes
      ensures routes == RegisterActions(old(routes), fqcn, url, methods, Actions)
    {
      var j := 0;
      while j < |Actions|
        invariant 0 <= j <= |Actions|
        invariant routes == RegisterActions(old(routes), fqcn, url, methods, Actions[..j])
      {
        ghost var done := routes;
        var action := Actions[j];
        if action in methods {
          var verb := ToUpper(action);
          var byPath := if verb in routes then routes[verb] else map[];
          routes := routes[verb := byPath[url := fqcn]];
        }
        assert Actions[..j + 1][..j] == Actions[..j];
        assert routes == if action in methods then Put(done, ToUpper(action), url, fqcn) else done;
        j := j + 1;
      }
      assert Actions[..j] == Actions;
    }

    /** `controllersChanged($minCacheAge)`: scans the controller files and
        stops at the first one newer than the cache. */
    method ControllersChanged(minCacheAge: int, now: int, files: seq<ControllerFile>) returns (changed: bool)
      ensures changed == Stale(cache, now, minCacheAge, files)
    {
      if cache.None? {
        return true;
      }
      var cacheTime := cache.value.mtime;
      if now - cacheTime < minCacheAge {
        return false;
      }
      var i := 0;
      while i < |files|
        invariant 0 <= i <= |files|
        invariant forall k :: 0 <= k < i ==> files[k].mtime <= cacheTime
      {
        if files[i].mtime > cacheTime {
          return true;
        }
        i := i + 1;
      }
      return false;
    }

    /** `run($method, $uri)`, with `classes` the classes loadable when the
        request arrives. Its properties are proved about `Dispatch` in module
        `Dispatcher` (VerbCaseIgnored, InvokeMeansRoute, MissIsNotFound,
        DispatchAfterRebuild, UnroutedIsNotFound). */
    method Run(httpMethod: string, uri: string, classes: ClassRegistry) returns (outcome: Outcome)
      ensures outcome == Dispatch(routes, classes, httpMethod, uri)
    {
      var verb := ToUpper(httpMethod);
      if verb in routes && uri in routes[verb] {
        var className := routes[verb][uri];
        if className !in classes {
          return Failed(className);
        }
        if ToLower(verb) in classes[className].methods {
          return Invoke(className, ToLower(verb));
        }
      }
      return NotFound(NotFoundStatus, NotFoundBody);
    }
  }
}
