/**
 The in-memory state the front end reads: the time-series catalog
 (origins -> sources -> metrics) and the library (collections, graphs,
 groups), both owned by other packages and only read here, plus the error
 kinds the handlers return.
 */
module Entities {

  datatype Option<T> = None | Some(value: T)

  /** The two error kinds the browse handlers tell apart: os.IsNotExist and anything else. */
  datatype Error = NotExist | Other(message: string)

  datatype Result<T> = Ok(value: T) | Err(error: Error)

  /** Only GET and HEAD reach the browse and stats handlers. */
  predicate IsReadMethod(verb: string) {
    verb == "GET" || verb == "HEAD"
  }

  /** A catalog source: its display name and the keys of its metrics. */
  datatype Source = Source(name: string, metrics: set<string>)

  /** A catalog origin: its sources keyed by source name. */
  datatype Origin = Origin(sources: map<string, Source>)

  datatype Catalog = Catalog(origins: map<string, Origin>)

  /**
   A library collection. `parent` is the ID of the parent collection, None
   for a root collection (a nil Parent pointer).
   */
  datatype Collection = Collection(id: string, name: string, parent: Option<string>)

  /** The library's keyed containers; only the collections' contents are read. */
  datatype Library = Library(
    collections: map<string, Collection>,
    graphs: set<string>,
    groups: set<string>)

  /**
   Library.GetItem for the collection kind: the collection stored under `id`,
   or NotExist when there is none.
   */
  function GetCollection(lib: Library, id: string): (r: Result<Collection>)
    ensures r.Ok? <==> id in lib.collections
    ensures r.Ok? ==> r.value == lib.collections[id]
    ensures r.Err? ==> r.error == NotExist
  {
    if id in lib.collections then Ok(lib.collections[id]) else Err(NotExist)
  }
}
