/** The route table and how a rebuild assembles it from the controller files:
    a two-level map verb -> path -> fully qualified class name, filled in the
    order the files are enumerated, a later file overwriting an earlier one on
    the same (verb, path). */
module Routes {
  import opened Optional
  import opened PhpText
  import opened Annotations

  /** verb -> path -> fully qualified class name. */
  type RouteTable = map<string, map<string, string>>

  /** One `*.php` file of the controller folder: its path as `glob` returns
      it, its modification time and its text. */
  datatype ControllerFile = ControllerFile(path: string, mtime: int, contents: string)

  /** What reflection reports of a loaded class: its docblock (`getDocComment`
      gives false when there is none) and its method names, lower-cased since
      PHP method names are case-insensitive. */
  datatype ClassInfo = ClassInfo(docComment: Option<string>, methods: set<string>)

  /** The classes loaded in the process, by fully qualified name; a name
      missing here is one `class_exists` rejects. */
  type ClassRegistry = map<string, ClassInfo>

  /** The handler methods a rebuild looks for, in the order it tries them. */
  const Actions: seq<string> := ["get", "post"]

  /** The route entry for (verb, path), if any. */
  function Lookup(t: RouteTable, verb: string, path: string): Option<string> {
    if verb in t && path in t[verb] then Some(t[verb][path]) else None
  }

  /** `$routes[$verb][$path] = $fqcn`, creating the inner array on first use. */
  function Put(t: RouteTable, verb: string, path: string, fqcn: string): (r: RouteTable)
    ensures r.Keys == t.Keys + {verb}
    ensures Lookup(r, verb, path) == Some(fqcn)
    ensures forall v, u :: (v != verb || u != path) ==> Lookup(r, v, u) == Lookup(t, v, u)
  {
    t[verb := (if verb in t then t[verb] else map[])[path := fqcn]]
  }

  /** The route a class declares: the `@url` of its docblock, when the
      docblock is present and truthy. */
  function DeclaredUrl(info: ClassInfo): Option<string> {
    if info.docComment.Some? && Truthy(info.docComment.value) then UrlOf(info.docComment.value) else None
  }

  /** The entries `actions` add for one class: `ToUpper(action)` -> url ->
      fqcn for each action the class defines, in order. */
  function RegisterActions(t: RouteTable, fqcn: string, url: string, methods: set<string>, actions: seq<string>): RouteTable
    decreases |actions|
  {
    if actions == [] then t
    else
      var t' := RegisterActions(t, fqcn, url, methods, actions[..|actions| - 1]);
      var a := actions[|actions| - 1];
      if a in methods then Put(t', ToUpper(a), url, fqcn) else t'
  }

  /** One step of the rebuild, for the class a file names: the class must
      be loaded and declare a route; then each of its handler methods gets an
      entry. */
  function RegisterClass(t: RouteTable, fqcn: string, classes: ClassRegistry): RouteTable {
    if fqcn in classes then
      match DeclaredUrl(classes[fqcn])
      case None => t
      case Some(url) => RegisterActions(t, fqcn, url, classes[fqcn].methods, Actions)
    else t
  }

  /** One step of the rebuild for file `f`: the step for the class it names. */
  function RegisterController(t: RouteTable, f: ControllerFile, classes: ClassRegistry): RouteTable {
    RegisterClass(t, ControllerClass(f.path, f.contents), classes)
  }

  /** The table a rebuild produces: an empty table, then every file in
      enumeration order. */
  function BuildTable(files: seq<ControllerFile>, classes: ClassRegistry): RouteTable
    decreases |files|
  {
    if files == [] then map[]
    else RegisterController(BuildTable(files[..|files| - 1], classes), files[|files| - 1], classes)
  }

  /** Whether the class `fqcn` asks for the route (verb, path): it is
      loaded, declares `@url path`, and defines `get` (for GET) or `post`
      (for POST). */
  predicate ClassProvides(fqcn: string, classes: ClassRegistry, verb: string, path: string) {
    && fqcn in classes
    && DeclaredUrl(classes[fqcn]) == Some(path)
    && ((verb == "GET" && "get" in classes[fqcn].methods) || (verb == "POST" && "post" in classes[fqcn].methods))
  }

  /** Whether file `f` asks for the route (verb, path) through the class it
      names. */
  predicate Provides(f: ControllerFile, classes: ClassRegistry, verb: string, path: string) {
    ClassProvides(ControllerClass(f.path, f.contents), classes, verb, path)
  }

  /** The two handler methods, spelled out: GET first, then POST. */
  lemma RegisterActionsUnfold(t: RouteTable, fqcn: string, url: string, methods: set<string>)
    ensures var t1 := if "get" in methods then Put(t, "GET", url, fqcn) else t;
            RegisterActions(t, fqcn, url, methods, Actions)
            == if "post" in methods then Put(t1, "POST", url, fqcn) else t1
  {
    assert ToUpper("get") == "GET";
    assert ToUpper("post") == "POST";
    assert Actions[..1][..0] == [];
    assert Actions[..1] == ["get"];
    assert Actions[..|Actions| - 1] == Actions[..1];
  }

  /** One rebuild step sets exactly the routes the class provides, to the
      class, adds no verb besides GET and POST, and leaves every other entry
      as it was. */
  lemma RegisterClassLookup(t: RouteTable, fqcn: string, classes: ClassRegistry, verb: string, path: string)
    ensures Lookup(RegisterClass(t, fqcn, classes), verb, path)
            == if ClassProvides(fqcn, classes, verb, path) then Some(fqcn) else Lookup(t, verb, path)
    ensures RegisterClass(t, fqcn, classes).Keys <= t.Keys + {"GET", "POST"}
  {
    if fqcn in classes && DeclaredUrl(classes[fqcn]).Some? {
      RegisterActionsUnfold(t, fqcn, DeclaredUrl(classes[fqcn]).value, classes[fqcn].methods);
    }
  }

  /** The same for a file: its step sets exactly the routes it provides, to
      the class it names. */
  lemma RegisterControllerLookup(t: RouteTable, f: ControllerFile, classes: ClassRegistry, verb: string, path: string)
    ensures Lookup(RegisterController(t, f, classes), verb, path)
            == if Provides(f, classes, verb, path) then Some(ControllerClass(f.path, f.contents)) else Lookup(t, verb, path)
    ensures RegisterController(t, f, classes).Keys <= t.Keys + {"GET", "POST"}
  {
    RegisterClassLookup(t, ControllerClass(f.path, f.contents), classes, verb, path);
  }

  /** The class names of the files, in enumeration order. */
  function ClassNames(files: seq<ControllerFile>): seq<string> {
    seq(|files|, i requires 0 <= i < |files| => ControllerClass(files[i].path, files[i].contents))
  }

  /** The rebuild seen through the class names alone: an empty table, then
      the step for every name in order. */
  function ClassTable(names: seq<string>, classes: ClassRegistry): RouteTable
    decreases |names|
  {
    if names == [] then map[]
    else RegisterClass(ClassTable(names[..|names| - 1], classes), names[|names| - 1], classes)
  }

  /** A rebuild depends on the files only through the class names they
      yield. */
  lemma {:induction false} BuildTableByClass(files: seq<ControllerFile>, classes: ClassRegistry)
    ensures BuildTable(files, classes) == ClassTable(ClassNames(files), classes)
  {
    if files != [] {
      var init := files[..|files| - 1];
      BuildTableByClass(init, classes);
      assert ClassNames(files)[..|files| - 1] == ClassNames(init);
    }
  }

  /** Registering class names only ever creates the verbs GET and POST. */
  lemma {:induction false} ClassTableVerbs(names: seq<string>, classes: ClassRegistry)
    ensures ClassTable(names, classes).Keys <= {"GET", "POST"}
  {
    if names != [] {
      var init := names[..|names| - 1];
      ClassTableVerbs(init, classes);
      RegisterClassLookup(ClassTable(init, classes), names[|names| - 1], classes, "", "");
    }
  }

  /** Of the class names that provide (verb, path), the last one owns the
      entry. */
  lemma {:induction false} LastClassWins(names: seq<string>, classes: ClassRegistry, verb: string, path: string, k: nat)
    requires k < |names| && ClassProvides(names[k], classes, verb, path)
    requires forall j :: k < j < |names| ==> !ClassProvides(names[j], classes, verb, path)
    ensures Lookup(ClassTable(names, classes), verb, path) == Some(names[k])
  {
    var init := names[..|names| - 1];
    RegisterClassLookup(ClassTable(init, classes), names[|names| - 1], classes, verb, path);
    if k < |names| - 1 {
      assert init[k] == names[k];
      assert forall j :: k < j < |init| ==> init[j] == names[j];
      LastClassWins(init, classes, verb, path, k);
    }
  }

  /** A (verb, path) no class name provides has no entry. */
  lemma {:induction false} UnprovidedClassAbsent(names: seq<string>, classes: ClassRegistry, verb: string, path: string)
    requires forall j :: 0 <= j < |names| ==> !ClassProvides(names[j], classes, verb, path)
    ensures Lookup(ClassTable(names, classes), verb, path) == None
  {
    if names != [] {
      var init := names[..|names| - 1];
      RegisterClassLookup(ClassTable(init, classes), names[|names| - 1], classes, verb, path);
      UnprovidedClassAbsent(init, classes, verb, path);
    }
  }

  /** A rebuild only ever creates the verbs GET and POST. */
  lemma BuildTableVerbs(files: seq<ControllerFile>, classes: ClassRegistry)
    ensures BuildTable(files, classes).Keys <= {"GET", "POST"}
  {
    BuildTableByClass(files, classes);
    ClassTableVerbs(ClassNames(files), classes);
  }

  /** Of the files that provide (verb, path), the one enumerated last owns
      the entry. */
  lemma LastControllerWins(files: seq<ControllerFile>, classes: ClassRegistry, verb: string, path: string, k: nat)
    requires k < |files| && Provides(files[k], classes, verb, path)
    requires forall j :: k < j < |files| ==> !Provides(files[j], classes, verb, path)
    ensures Lookup(BuildTable(files, classes), verb, path) == Some(ControllerClass(files[k].path, files[k].contents))
  {
    BuildTableByClass(files, classes);
    LastClassWins(ClassNames(files), classes, verb, path, k);
  }

  /** A (verb, path) no file provides has no entry: a rebuild never keeps
      anything from an earlier table. */
  lemma UnprovidedRouteAbsent(files: seq<ControllerFile>, classes: ClassRegistry, verb: string, path: string)
    requires forall j :: 0 <= j < |files| ==> !Provides(files[j], classes, verb, path)
    ensures Lookup(BuildTable(files, classes), verb, path) == None
  {
    BuildTableByClass(files, classes);
    UnprovidedClassAbsent(ClassNames(files), classes, verb, path);
  }

  /** A file whose class is not loaded, or whose class declares no `@url`,
      adds nothing. */
  lemma SkippedControllerAddsNothing(t: RouteTable, f: ControllerFile, classes: ClassRegistry)
    requires var fqcn := ControllerClass(f.path, f.contents);
             fqcn !in classes || DeclaredUrl(classes[fqcn]).None?
    ensures RegisterController(t, f, classes) == t
  {
  }
}
