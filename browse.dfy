/**
 The browse handler: method gate, path routing, error classification and
 the collection view (ID extraction, optional filtering, parent marker).
 Template parsing and execution are an outside collaborator: their outcome
 is the `renderErr` parameter.
 */
module Browse {
  import opened GoStrings
  import opened Entities

  const BrowsePath: string := "/browse/"
  const CollectionsPath: string := BrowsePath + "collections/"
  const SearchPath: string := BrowsePath + "search"

  /** The sentinel the collection view carries for a collection without a parent. */
  const RootMarker: string := "null"

  datatype Request = Request(verb: string, path: string, q: string)

  datatype View = IndexView | CollectionView(id: string) | SearchView

  /** Where serveBrowse sends a request before any handler runs. */
  datatype Decision = NotAllowed | RedirectRoot | Dispatch(view: View) | NoSuchPath

  datatype Response =
    | MethodNotAllowed
    | Redirect(location: string)
    | Rendered(view: View)
    | ErrorPage(status: int)

  function StatusCode(r: Response): int {
    match r
    case MethodNotAllowed => 405
    case Redirect(_) => 301
    case Rendered(_) => 200
    case ErrorPage(status) => status
  }

  /** The ID serveBrowseCollection looks up: the path with the collections prefix trimmed. */
  function CollectionId(path: string): (id: string)
    ensures HasPrefix(path, CollectionsPath) ==> CollectionsPath + id == path
  {
    TrimPrefix(path, CollectionsPath)
  }

  lemma CollectionIdRoundTrip(id: string)
    ensures HasPrefix(CollectionsPath + id, CollectionsPath)
    ensures CollectionId(CollectionsPath + id) == id
  {
    TrimPrefixOfConcat(CollectionsPath, id);
  }

  /** None of "/", the search path and the index path starts with the collections prefix. */
  lemma FixedPathsOutsideCollections()
    ensures !HasPrefix("/", CollectionsPath)
    ensures !HasPrefix(SearchPath, CollectionsPath)
    ensures !HasPrefix(BrowsePath, CollectionsPath)
    ensures SearchPath != BrowsePath && SearchPath != "/" && BrowsePath != "/"
  {
    assert SearchPath[8] == 's' && CollectionsPath[8] == 'c';
    assert |BrowsePath| < |CollectionsPath|;
  }

  /**
   The routing table of serveBrowse. The method is tested first; then "/",
   the collections prefix, the exact search path and the exact browse path.
   The three browse tests never overlap, so each view is selected exactly
   by its own test.
   */
  function Route(verb: string, path: string): (d: Decision)
    ensures d == NotAllowed <==> !IsReadMethod(verb)
    ensures d == RedirectRoot <==> IsReadMethod(verb) && path == "/"
    ensures d.Dispatch? && d.view.CollectionView? <==>
      IsReadMethod(verb) && HasPrefix(path, CollectionsPath)
    ensures d.Dispatch? && d.view.CollectionView? ==> CollectionsPath + d.view.id == path
    ensures d == Dispatch(SearchView) <==> IsReadMethod(verb) && path == SearchPath
    ensures d == Dispatch(IndexView) <==> IsReadMethod(verb) && path == BrowsePath
    ensures d == NoSuchPath <==>
      IsReadMethod(verb) && path != "/" && !HasPrefix(path, CollectionsPath)
      && path != SearchPath && path != BrowsePath
  {
    FixedPathsOutsideCollections();
    if !IsReadMethod(verb) then NotAllowed
    else if path == "/" then RedirectRoot
    else if HasPrefix(path, CollectionsPath) then Dispatch(CollectionView(CollectionId(path)))
    else if path == SearchPath then Dispatch(SearchView)
    else if path == BrowsePath then Dispatch(IndexView)
    else NoSuchPath
  }

  /** A collection path routes to the view of exactly the ID that follows the prefix. */
  lemma RouteCollection(verb: string, id: string)
    requires IsReadMethod(verb)
    ensures Route(verb, CollectionsPath + id) == Dispatch(CollectionView(id))
  {
    CollectionIdRoundTrip(id);
    assert CollectionsPath != "/";
    assert CollectionsPath + id != "/" by {
      assert |CollectionsPath + id| > 1;
    }
  }

  /** How serveBrowse answers a handler error: 404 for not-exist, 500 for any other. */
  function ErrorStatus(err: Error): (status: int)
    ensures status == 404 <==> err.NotExist?
    ensures status == 500 <==> err.Other?
  {
    if err.NotExist? then 404 else 500
  }

  /** The response after the selected view's handler returned `err`. */
  function Finish(view: View, err: Option<Error>): (r: Response)
    ensures err.None? <==> r == Rendered(view)
    ensures err.Some? ==> r.ErrorPage? && StatusCode(r) == ErrorStatus(err.value)
  {
    match err
    case None => Rendered(view)
    case Some(e) => ErrorPage(ErrorStatus(e))
  }

  /** The value the collection template receives. */
  datatype CollectionData = CollectionData(collection: Collection, parent: string)

  /** The parent marker: the parent's ID, or the root sentinel for a root collection. */
  function ParentMarker(c: Collection): (m: string)
    ensures c.parent.Some? ==> m == c.parent.value
    ensures c.parent.None? ==> m == RootMarker
  {
    match c.parent
    case Some(p) => p
    case None => RootMarker
  }

  /** What a reader of the marker recovers as the parent. */
  function ParentFromMarker(m: string): Option<string> {
    if m == RootMarker then None else Some(m)
  }

  /**
   The marker gives the parent back unless the parent's ID is itself the
   sentinel; a marker is never empty unless the parent's ID is empty.
   */
  lemma ParentMarkerRoundTrip(c: Collection)
    requires c.parent != Some(RootMarker)
    ensures ParentFromMarker(ParentMarker(c)) == c.parent
    ensures ParentMarker(c) == "" <==> c.parent == Some("")
  {
  }

  /**
   serveBrowseCollection without the template: look the collection up by the
   ID taken from the path, ask the library to filter it only when `q` is not
   empty, and compute the parent marker of the collection that is shown.
   A failed lookup is returned unchanged.
   */
  function BrowseCollection(path: string, q: string, lib: Library,
                            filter: (Collection, string) -> Collection): (r: Result<CollectionData>)
    ensures r.Err? <==> CollectionId(path) !in lib.collections
    ensures r.Err? ==> r.error == NotExist
    ensures r.Ok? ==>
      var stored := lib.collections[CollectionId(path)];
      && r.value.collection == (if q == "" then stored else filter(stored, q))
      && r.value.parent == ParentMarker(r.value.collection)
  {
    match GetCollection(lib, CollectionId(path))
    case Err(e) => Err(e)
    case Ok(stored) =>
      var shown := if q != "" then filter(stored, q) else stored;
      Ok(CollectionData(shown, ParentMarker(shown)))
  }

  /**
   The error a view's handler returns, given the outcome of its template
   work. Only the collection view can fail before its template: its failed
   lookup is returned and the template is never reached. Otherwise the
   handler fails exactly as its template work does.
   */
  function HandlerError(view: View, q: string, lib: Library,
                        filter: (Collection, string) -> Collection,
                        renderErr: Option<Error>): (e: Option<Error>)
    ensures view.CollectionView? && view.id !in lib.collections ==> e == Some(NotExist)
    ensures !(view.CollectionView? && view.id !in lib.collections) ==> e == renderErr
  {
    match view
    case CollectionView(id) =>
      CollectionIdRoundTrip(id);
      (match BrowseCollection(CollectionsPath + id, q, lib, filter)
       case Err(e) => Some(e)
       case Ok(_) => renderErr)
    case _ => renderErr
  }

  /**
   serveBrowse: the response to `req`. `urlPrefix` is the configured URL
   prefix and `renderErr` the outcome of the selected view's template work.
   */
  function ServeBrowse(req: Request, urlPrefix: string, lib: Library,
                       filter: (Collection, string) -> Collection,
                       renderErr: Option<Error>): (r: Response)
    ensures !IsReadMethod(req.verb) ==> r == MethodNotAllowed
    ensures IsReadMethod(req.verb) && req.path == "/" ==> r == Redirect(urlPrefix + BrowsePath)
    ensures Route(req.verb, req.path) == NoSuchPath ==> r == ErrorPage(404)
    ensures (IsReadMethod(req.verb) && HasPrefix(req.path, CollectionsPath)
             && CollectionId(req.path) !in lib.collections) ==> r == ErrorPage(404)
    ensures r.Rendered? ==> renderErr.None?
    ensures renderErr == Some(NotExist) && IsReadMethod(req.verb) && req.path != "/" ==> r == ErrorPage(404)
    ensures renderErr.Some? && renderErr.value.Other? && Route(req.verb, req.path).Dispatch?
            && !(HasPrefix(req.path, CollectionsPath) && CollectionId(req.path) !in lib.collections)
            ==> r == ErrorPage(500)
    ensures r.Rendered? ==> Route(req.verb, req.path) == Dispatch(r.view)
    ensures Route(req.verb, req.path).Dispatch? && renderErr.None?
            && !(HasPrefix(req.path, CollectionsPath) && CollectionId(req.path) !in lib.collections)
            ==> r == Rendered(Route(req.verb, req.path).view)
  {
    match Route(req.verb, req.path)
    case NotAllowed => MethodNotAllowed
    case RedirectRoot => Redirect(urlPrefix + BrowsePath)
    case NoSuchPath => ErrorPage(ErrorStatus(NotExist))
    case Dispatch(view) => Finish(view, HandlerError(view, req.q, lib, filter, renderErr))
  }
}
