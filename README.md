# router2 — a Dafny model of the PHP router's core

`gortonsd\Router\Router` (src/Router.php) finds controller classes in a
folder and reads a `@url /path` tag from each class's docblock. It builds a
route table `verb -> path -> class` from them and caches that table in a
file. Each request `(method, uri)` is dispatched to the class's `get()` or
`post()`. This project models that core and proves what it promises:

- when the cache is rebuilt: the debounce window and the strict "newer than
  the cache" test;
- what a rebuild produces: starting from an empty table, only GET and POST,
  the later file winning on a duplicate route;
- the exact text rules behind the class name and the route: the two regular
  expressions with their backtracking, `trim`, `basename(…, '.php')` and
  PHP truthiness;
- what dispatch answers.

Modules, one per component:

| file | module | models |
|---|---|---|
| optional.dfy | `Optional` | an option type |
| php_text.dfy | `PhpText` | `\s`, `trim`, `strtoupper`, `strtolower`, string truthiness |
| annotations.dfy | `Annotations` | `namespace\s+([^;]+);`, `@url\s+(\S+)`, leftmost match, `basename`, the class name |
| routes.dfy | `Routes` | the route table, one rebuild step, the whole rebuild |
| route_cache.dfy | `RouteCache` | the cache file, `controllersChanged`, the outcome of `loadControllers` |
| dispatch.dfy | `Dispatcher` | the outcome of `run` |
| router.dfy | `Router` | class `Router`: fields `routes` and `cache`, `loadControllers` with its two nested loops, `controllersChanged` with its early-return loop, `run` |

The filesystem, the clock and the class loader are inputs. `files` is the
list `glob` returns, in its order, each with its path, modification time and
text. `now` is `time()`. `classes` maps a fully qualified class name to what
reflection reports: the docblock, if any, and the method names in lower
case. The `cache` field stands for the `routes.cache` file: the stored table
and the file's modification time. The methods of class `Router` are proved
against the specification functions `BuildTable`, `Stale`, `Reload` and
`Dispatch`, and the lemmas state the router's properties about those
functions.

Behaviour of the code worth noting:

- A table entry whose class can no longer be loaded at request time makes
  `new $className()` throw. It is modelled as the outcome `Failed`, not as
  a 404. A 404 comes only from a missing entry or a missing handler method.
- The namespace is tested for PHP truthiness, so a namespace `0` gives the
  bare class name.
- `namespace` followed by two spaces and `;` still matches: `[^;]+` takes
  back one space, which trims to "".
- `\s` spans line breaks, so `@url` with nothing after it on its line takes
  the next line's first word (e.g. `*/`) as the route.
- The `.php` suffix is cut only when something is left before it, as
  `basename` does.
- The verb is upper-cased before lookup (`strtoupper`). Section 9.1 of
  RFC 9110 treats method names as case-sensitive. The path is compared
  exactly.

## Model

| member | source | states |
|---|---|---|
| PhpText.Truthy | src/Router.php:65-72 | PHP string truthiness as the tests on the namespace and the docblock use it: false exactly for "" and "0"; `FalsyNamespaceIgnored` and `SkippedControllerAddsNothing` use it |
| PhpText.Trim | src/Router.php:61 | the result is the infix of the input left after removing the `trim` characters (" \t\n\r\0\x0B") from both ends; everything removed is such a character and the result neither starts nor ends with one |
| PhpText.ToUpper | src/Router.php:108 | same length, every ASCII lower-case letter upper-cased and every other character kept |
| PhpText.ToLower | src/Router.php:112 | same length, every ASCII upper-case letter lower-cased and every other character kept |
| PhpText.UpperIdempotent | src/Router.php:108 | upper-casing an already upper-cased verb changes nothing |
| PhpText.LowerOfUpper | src/Router.php:108-113 | lower-casing the upper-cased method gives the lower-cased method, so the handler called is named after the request method in lower case |
| Annotations.NamespaceMatchAt | src/Router.php:60 | the capture of `namespace\s+([^;]+);` for a match starting at one position; `NamespaceMatchAtIsGreedy` ties it to every possible match |
| Annotations.NamespaceMatchAtIsGreedy | src/Router.php:60 | the namespace matcher at one position succeeds exactly when `namespace\s+([^;]+);` can match there, and then returns the capture of the match with the longest `\s+`, which ends just before the first `;` |
| Annotations.UrlMatchAt | src/Router.php:72 | the capture of `@url\s+(\S+)` for a match starting at one position; `UrlMatchAtIsGreedy` ties it to every possible match |
| Annotations.UrlMatchAtIsGreedy | src/Router.php:72 | the `@url` matcher at one position succeeds exactly when `@url\s+(\S+)` can match there; the whitespace it skips is the only possible one, and the capture is the longest run of non-whitespace characters |
| Annotations.FirstMatch | src/Router.php:60 | `preg_match` reports the leftmost position where the pattern matches: the result matches, no earlier position does, and None means no position matches |
| Annotations.NamespaceOf | src/Router.php:59-62 | the namespace: the trimmed capture of the leftmost match, or "" without one; `FirstNamespaceWins`, `BlankNamespaceIgnored` and `FalsyNamespaceIgnored` describe it |
| Annotations.UrlOf | src/Router.php:72-73 | the route of a docblock: the capture of the leftmost `@url` match, if any; `UrlIsWord`, `NoUrlTagNoRoute`, `UrlIsNextWord`, `UrlSpansLineBreak` and `LongerTagIsNoUrl` describe it |
| Annotations.UrlIsWord | src/Router.php:72-73 | a declared route is non-empty and contains no whitespace |
| Annotations.NoUrlTagNoRoute | src/Router.php:72 | a docblock in which `@url\s+(\S+)` matches nowhere declares no route |
| Annotations.StripTrailingSlashesIsPrefix | src/Router.php:64 | `basename` ignores trailing slashes: the path with them removed is a prefix of the path not ending in '/', and only slashes are removed |
| Annotations.LastSegmentIsSuffix | src/Router.php:64 | the base name is the longest suffix of the path without '/': preceded by '/' or the start of the path |
| Annotations.BaseName | src/Router.php:64 | `basename($file)`: the last segment after the trailing slashes are dropped; `StripTrailingSlashesIsPrefix` and `LastSegmentIsSuffix` describe its parts |
| Annotations.StripPhpSuffix | src/Router.php:64 | the class name plus ".php" is the base name when the base name ends in ".php" and is longer than it; otherwise the class name is the base name |
| Annotations.ClassName | src/Router.php:64 | `basename($file, '.php')`: the base name with the suffix cut as `StripPhpSuffix` states |
| Annotations.Fqcn | src/Router.php:65 | with a truthy namespace, the fully qualified name splits into the namespace, one backslash and the class name; otherwise it is the class name |
| Annotations.ControllerClass | src/Router.php:59-65 | the fully qualified class name a controller file is expected to define, from its namespace and base name; `Fqcn` and `FalsyNamespaceIgnored` describe it |
| Annotations.DeclarationCapturesName | src/Router.php:60 | `namespace <name>;` at the start of a file, one space before a name that starts with a non-space and holds no ';', captures exactly the name |
| Annotations.FirstNamespaceWins | src/Router.php:59-62 | a file starting with `namespace <name>;` takes the trimmed name as its namespace, whatever follows, later namespace declarations included |
| Annotations.BlankNamespaceIgnored | src/Router.php:60-61 | `namespace` followed by two or more whitespace characters that `trim` removes, then `;`, matches (the capture takes back one of them) but trims to "": no namespace |
| Annotations.FalsyNamespaceIgnored | src/Router.php:65 | a file starting with `namespace 0;` yields the bare class name, whatever follows |
| Annotations.UrlIsNextWord | src/Router.php:72-73 | `@url /example` declares the route `/example` |
| Annotations.UrlSpansLineBreak | src/Router.php:72 | `@url` at the end of a line takes the next line's first word as the route |
| Annotations.LongerTagIsNoUrl | src/Router.php:72 | `@urls` is not the tag: no route |
| Routes.Lookup | src/Router.php:109-110 | `isset($routes[$verb][$path])` and the entry it guards; `Put`, `RegisterClassLookup` and `LastControllerWins` are stated through it |
| Routes.Put | src/Router.php:77 | the nested assignment creates the verb's entry if needed, sets (verb, path) to the class and leaves every other (verb, path) as it was |
| Routes.RegisterActions | src/Router.php:75-79 | the handler loop as a fold over the actions; `RegisterActionsUnfold` spells it out |
| Routes.DeclaredUrl | src/Router.php:70-72 | the route a loaded class declares: the `@url` of a present, truthy docblock; `SkippedControllerAddsNothing` covers the None case |
| Routes.RegisterClass | src/Router.php:67-80 | one rebuild step for a class name; `RegisterClassLookup` states every lookup after it |
| Routes.RegisterController | src/Router.php:58-84 | one rebuild step for a file, through its class name; `RegisterControllerLookup` states every lookup after it |
| Routes.RegisterActionsUnfold | src/Router.php:75-79 | the handler loop tries `get` and then `post`, and adds GET and POST entries for those the class defines |
| Routes.RegisterClassLookup | src/Router.php:67-79 | the step for one class sets exactly the routes it provides (loaded, truthy docblock with an `@url`, the handler method defined) to that class, adds no verb besides GET and POST, and changes nothing else |
| Routes.RegisterControllerLookup | src/Router.php:58-84 | one file sets exactly the routes it provides (class loaded, truthy docblock with an `@url`, the handler method defined) to its class, adds no verb besides GET and POST, and changes nothing else |
| Routes.BuildTable | src/Router.php:55-85 | the rebuild: an empty table, then every file in enumeration order; `LastControllerWins`, `UnprovidedRouteAbsent` and `BuildTableVerbs` state every lookup and key of the result |
| Routes.BuildTableByClass | src/Router.php:55-85 | a rebuild depends on the files only through the class names they yield, in order |
| Routes.ClassTableVerbs | src/Router.php:75-77 | registering any sequence of class names creates no verb other than GET and POST |
| Routes.LastClassWins | src/Router.php:55-85 | of the class names that provide a (verb, path), the last one owns the entry |
| Routes.UnprovidedClassAbsent | src/Router.php:55-85 | a (verb, path) that no registered class provides has no entry |
| Routes.BuildTableVerbs | src/Router.php:75-77 | a rebuilt table has no verb other than GET and POST |
| Routes.LastControllerWins | src/Router.php:55-85 | after a rebuild, a (verb, path) maps to the class of the last file, in enumeration order, that provides it |
| Routes.UnprovidedRouteAbsent | src/Router.php:55-85 | after a rebuild, a (verb, path) that no file provides has no entry: nothing survives from the earlier table |
| Routes.SkippedControllerAddsNothing | src/Router.php:67-72 | a file whose class is not loaded, or whose class has no truthy docblock with an `@url`, leaves the table unchanged |
| RouteCache.Stale | src/Router.php:96-105 | `controllersChanged` in closed form: no cache, or the window has passed and some controller is strictly newer than the cache; `ControllersChanged` is proved equal to it |
| RouteCache.Reload | src/Router.php:48-88 | the outcome of `loadControllers`: the cached table when not stale, else the rebuilt table written as the cache at `now`; the `RouteCache` lemmas describe it |
| RouteCache.NoCacheRebuilds | src/Router.php:49-55 | with no cache file the table is always rebuilt |
| RouteCache.DebounceKeepsCache | src/Router.php:96-100 | within `minCacheAge` seconds of the cache's write, the cached table and file are kept, however new the controllers are |
| RouteCache.NewerControllerRebuilds | src/Router.php:101-103 | once the window has passed, one controller strictly newer than the cache forces a rebuild. The result is the same as with no cache at all, and the new table is written as the cache at the current time |
| RouteCache.UpToDateCacheKept | src/Router.php:101-104 | a cache no older than every controller file is kept |
| RouteCache.RebuiltCacheIsFresh | src/Router.php:86 | after a rebuild, reloading later with unchanged controller files keeps the rebuilt table and cache, even if the loaded classes have changed |
| Dispatcher.Dispatch | src/Router.php:107-117 | the outcome of `run`; `VerbCaseIgnored`, `InvokeMeansRoute`, `MissIsNotFound`, `DispatchAfterRebuild`, `UnroutedIsNotFound` and `PathMatchedExactly` describe it |
| Dispatcher.VerbCaseIgnored | src/Router.php:108 | a request and the same request with the method upper-cased are dispatched alike |
| Dispatcher.InvokeMeansRoute | src/Router.php:107-114 | a handler is invoked only through the entry for the upper-cased verb and exactly this path; the method called is the request method lower-cased, and the class defines it |
| Dispatcher.MissIsNotFound | src/Router.php:116-117 | every other request is answered with status 404 and body "404 Not Found" |
| Dispatcher.DispatchAfterRebuild | src/Router.php:107-114 | after a rebuild, a request reaches the class of the last file that provides its (verb, path). That class's lower-cased handler is invoked if the class still defines it; otherwise the answer is 404, or Failed when the class is gone |
| Dispatcher.UnroutedIsNotFound | src/Router.php:109 | after a rebuild, a request whose verb and path no file provides (every verb besides GET and POST among them) is a 404 |
| Dispatcher.PathMatchedExactly | src/Router.php:109 | with GET /example routed to Foo, `get /example` invokes Foo's `get`, while `/Example`, `/example/` and `post /example` are 404 |
| Router.Router.constructor | src/Router.php:37-40 | a new router is in the state `loadControllers` with the default age of 3600 seconds leaves |
| Router.Router.LoadControllers | src/Router.php:48-88 | the new table and cache file are those of `Reload`: the cached table when the cache is not stale, otherwise a table rebuilt from an empty one and written as the cache at `now` |
| Router.Router.AddControllerRoutes | src/Router.php:58-84 | one pass of the rebuild loop adds to the table exactly what `RegisterController` adds for that file |
| Router.Router.AddClassRoutes | src/Router.php:67-80 | for a loaded class with a truthy docblock declaring `@url`, adds exactly what `RegisterClass` adds; otherwise leaves the table alone |
| Router.Router.RouteHandlers | src/Router.php:75-79 | the handler loop adds the entries `RegisterActions` describes |
| Router.Router.ControllersChanged | src/Router.php:96-105 | the early-return scan answers exactly `Stale`: true without a cache, false inside the window, otherwise whether some controller is strictly newer than the cache |
| Router.Router.Run | src/Router.php:107-118 | the outcome is `Dispatch` of the current table |

## Left out

- Filesystem, clock and output. `file_exists`, `file_get_contents`, `glob`,
  `filemtime`, `time` and `file_put_contents` are replaced by the inputs and
  the `cache` field. `echo` output and the `http_response_code` side effect
  are left out; the 404 is the `NotFound(404, "404 Not Found")` outcome.
- `glob` order. The controller list is taken in the order `glob` returns
  it, which is alphabetical by default. The sort and the skipping of hidden
  files are not modelled. `controllersChanged` lists the folder a second
  time; the model assumes the same list both times.
- Cache serialisation. The cache stores the table value itself, so
  `serialize`/`unserialize` round-trip trivially. A corrupt cache file, for
  which `unserialize` returns false, is not modelled. The cache's
  modification time after a write is taken to be `now`.
- Reflection and autoloading. `class_exists`, `ReflectionClass`,
  `getDocComment`, `hasMethod` and `method_exists` become the `classes`
  registry, looked up by exact name. PHP's case-insensitive class names are
  not modelled, and neither are autoloader side effects. Method names are
  stored in lower case, which stands for PHP's case-insensitive method
  lookup.
- Instantiation and the handler call. `new $className()` and the call of
  its `get()`/`post()` are the `Invoke` outcome; the handler's return value
  is not modelled. Constructor failures and exceptions thrown by handlers
  are not modelled. A class missing at request time is `Failed`.
- Concurrency. Two processes racing on the shared cache file are outside a
  sequential model.
- Byte strings and locales. PHP strings are bytes; here a byte is a
  `char`. `\s` is the PCRE class under the default "C" tables (no `u`
  modifier). `strtoupper`/`strtolower` are ASCII-only, as in PHP 8.2 and
  later; the locale-dependent behaviour of earlier versions is not
  modelled.
- Types. `minCacheAge` and the times are integers. PHP's loose comparison
  with non-integer arguments is not modelled.
