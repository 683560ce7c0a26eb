/** What `run($method, $uri)` does with the route table: upper-case the
    verb, look the path up exactly, and hand the request to the class's
    lower-cased handler method, or answer 404. */
module Dispatcher {
  import opened Optional
  import opened PhpText
  import opened Annotations
  import opened Routes

  /** The result of a request. `Invoke` stands for instantiating `className`
      and returning what its `action` method returns, unchanged. `Failed` is
      PHP's uncaught error when the class in the table can no longer be
      loaded. `NotFound` is the 404 answer (section 15.5.5 of RFC 9110). */
  datatype Outcome =
    | Invoke(className: string, action: string)
    | Failed(className: string)
    | NotFound(status: int, body: string)

  const NotFoundStatus: int := 404
  const NotFoundBody: string := "404 Not Found"

  /** The specification of `run`. */
  function Dispatch(routes: RouteTable, classes: ClassRegistry, httpMethod: string, uri: string): Outcome {
    var verb := ToUpper(httpMethod);
    match Lookup(routes, verb, uri)
    case None => NotFound(NotFoundStatus, NotFoundBody)
    case Some(className) =>
      if className !in classes then Failed(className)
      else if ToLower(verb) in classes[className].methods then Invoke(className, ToLower(verb))
      else NotFound(NotFoundStatus, NotFoundBody)
  }

  /** Only the verb's case is normalised: a method name and its upper-case
      spelling are dispatched alike. */
  lemma VerbCaseIgnored(routes: RouteTable, classes: ClassRegistry, httpMethod: string, uri: string)
    ensures Dispatch(routes, classes, httpMethod, uri) == Dispatch(routes, classes, ToUpper(httpMethod), uri)
  {
    UpperIdempotent(httpMethod);
  }

  /** A handler is only ever invoked through an entry for exactly this path
      under the upper-cased verb, and the method called is the request's
      method lower-cased, which the class defines. */
  lemma InvokeMeansRoute(routes: RouteTable, classes: ClassRegistry, httpMethod: string, uri: string)
    requires Dispatch(routes, classes, httpMethod, uri).Invoke?
    ensures var o := Dispatch(routes, classes, httpMethod, uri);
            && Lookup(routes, ToUpper(httpMethod), uri) == Some(o.className)
            && o.action == ToLower(httpMethod)
            && o.className in classes && o.action in classes[o.className].methods
  {
    LowerOfUpper(httpMethod);
  }

  /** Every request that does not reach a handler or fail to load a class is
      answered with status 404 and the body "404 Not Found". */
  lemma MissIsNotFound(routes: RouteTable, classes: ClassRegistry, httpMethod: string, uri: string)
    requires !Dispatch(routes, classes, httpMethod, uri).Invoke? && !Dispatch(routes, classes, httpMethod, uri).Failed?
    ensures Dispatch(routes, classes, httpMethod, uri) == NotFound(404, "404 Not Found")
  {
  }

  /** After a rebuild, a request reaches the class of the last file that
      provides its (verb, path), provided the class still defines the
      handler when the request arrives. */
  lemma DispatchAfterRebuild(files: seq<ControllerFile>, classes: ClassRegistry, requestClasses: ClassRegistry,
                             httpMethod: string, uri: string, k: nat)
    requires k < |files| && Provides(files[k], classes, ToUpper(httpMethod), uri)
    requires forall j :: k < j < |files| ==> !Provides(files[j], classes, ToUpper(httpMethod), uri)
    ensures var c := ControllerClass(files[k].path, files[k].contents);
            Dispatch(BuildTable(files, classes), requestClasses, httpMethod, uri)
            == if c !in requestClasses then Failed(c)
               else if ToLower(httpMethod) in requestClasses[c].methods then Invoke(c, ToLower(httpMethod))
               else NotFound(404, "404 Not Found")
  {
    LastControllerWins(files, classes, ToUpper(httpMethod), uri, k);
    LowerOfUpper(httpMethod);
  }

  /** After a rebuild, a request whose (verb, path) no file provides is a
      404; this covers every verb other than GET and POST. */
  lemma UnroutedIsNotFound(files: seq<ControllerFile>, classes: ClassRegistry, requestClasses: ClassRegistry, httpMethod: string, uri: string)
    requires forall j :: 0 <= j < |files| ==> !Provides(files[j], classes, ToUpper(httpMethod), uri)
    ensures Dispatch(BuildTable(files, classes), requestClasses, httpMethod, uri) == NotFound(404, "404 Not Found")
  {
    UnprovidedRouteAbsent(files, classes, ToUpper(httpMethod), uri);
  }

  /** The path is matched exactly: with GET /example routed to Foo, "get" on
      /example reaches Foo's get(), while /Example and /example/ are 404. */
  lemma PathMatchedExactly()
    ensures var routes := map["GET" := map["/example" := "Foo"]];
            var classes := map["Foo" := ClassInfo(Some("/** @url /example */"), {"get"})];
            && Dispatch(routes, classes, "get", "/example") == Invoke("Foo", "get")
            && Dispatch(routes, classes, "get", "/Example") == NotFound(404, "404 Not Found")
            && Dispatch(routes, classes, "GET", "/example/") == NotFound(404, "404 Not Found")
            && Dispatch(routes, classes, "post", "/example") == NotFound(404, "404 Not Found")
  {
    assert ToUpper("get") == "GET";
    assert ToUpper("GET") == "GET";
    assert ToLower("GET") == "get";
    assert ToUpper("post") == "POST";
  }
}
