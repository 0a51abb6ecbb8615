/**
 * The records of a Language Server Index Format (LSIF) dump as the npm
 * rewriter sees them, the items it writes to its output, and the foreign
 * collaborators it calls (moniker codecs, manifest reader, uuid source).
 */
module Lsif {

  datatype Option<T> = None | Some(value: T)

  /** The source's thrown error, as a value. */
  datatype Result<T> = Success(value: T) | Failure(error: string)

  /** An LSIF id is either a JSON number or a JSON string. */
  datatype Id = Num(n: int) | Str(s: string)

  /**
   * A moniker's `kind`. `Local` also stands for a kind that is absent or
   * unrecognised: the line callback treats every such moniker as a local one.
   */
  datatype MonikerKind = Import | Export | Local

  /** A moniker vertex: `{ id, scheme, identifier, kind }`. */
  datatype Moniker = Moniker(id: Id, scheme: string, identifier: string, kind: MonikerKind)

  datatype Repository = Repository(kind: string, url: string)

  /** A packageInformation vertex. `uri` locates the package's manifest. */
  datatype PackageInfo = PackageInfo(
    id: Id, name: string, manager: string, version: string,
    uri: Option<string>, repository: Option<Repository>)

  /** A one-to-one edge `outV -label-> inV`. */
  datatype Edge = Edge(id: Id, edgeLabel: string, outV: Id, inV: Id)

  /**
   * A parsed vertex, classified by its label. `OtherVertex` stands for
   * every label other than `moniker` and `packageInformation`: a vertex
   * with one of those two labels always parses to its own constructor, so
   * `OtherVertex` never carries either label.
   */
  datatype Vertex =
    | MonikerVertex(moniker: Moniker)
    | PackageInformationVertex(info: PackageInfo)
    | OtherVertex(id: Id, vertexLabel: string)

  /** A parsed record: its `type` is `edge`, `vertex` or something else. */
  datatype Element = EdgeElement(edge: Edge) | VertexElement(vertex: Vertex) | UnknownElement

  /** One input line together with the record it parses to. */
  datatype Input = Input(line: string, element: Element)

  /** What `emit` writes: the original line verbatim, or a record re-serialised. */
  datatype Item = LineItem(text: string) | EdgeItem(edge: Edge) | VertexItem(vertex: Vertex)

  /** A package manifest (package.json) as read from disk. */
  datatype Manifest = Manifest(
    name: string, version: string, main: Option<string>, typings: Option<string>,
    repository: Option<Repository>)

  /** A decoded identifier of the `tsc` moniker scheme. */
  datatype TscMoniker = TscMoniker(path: Option<string>, name: string)

  /**
   * Code outside this model, as total functions: `TscMoniker.parse`,
   * `NpmMoniker.create`, `PackageJson.read`, `URI.parse(..).fsPath`, and
   * `uuid.v4` as an oracle whose k-th answer is `uuid(k)`.
   */
  datatype Env = Env(
    parseTsc: string -> TscMoniker,
    createNpm: (string, Option<string>, string) -> string,
    readManifest: string -> Option<Manifest>,
    fsPath: string -> string,
    uuid: nat -> string)

  const TscScheme: string := "tsc"
  const NpmScheme: string := "npm"
  const MonikerLabel: string := "moniker"
  const PackageInformationLabel: string := "packageInformation"
  /** `Number.MAX_SAFE_INTEGER`, 2^53 - 1. */
  const MaxSafeInteger: int := 0x1F_FFFF_FFFF_FFFF

  /**
   * The path an `npm` identifier carries: none when the file is the
   * manifest's `main` or `typings` entry, the file's path otherwise.
   */
  function EntryRelative(manifest: Manifest, path: string): (r: Option<string>)
    ensures r == None <==> manifest.main == Some(path) || manifest.typings == Some(path)
    ensures r != None ==> r == Some(path)
  {
    if manifest.main == Some(path) || manifest.typings == Some(path) then None else Some(path)
  }

  function MonikerItem(m: Moniker): Item { VertexItem(MonikerVertex(m)) }

  predicate IsMonikerItemWithId(it: Item, x: Id) {
    it.VertexItem? && it.vertex.MonikerVertex? && it.vertex.moniker.id == x
  }

  /** How many items of `out` satisfy `p`. */
  function Count(out: seq<Item>, p: Item -> bool): (c: nat)
    ensures c <= |out|
    ensures c == 0 <==> forall i :: 0 <= i < |out| ==> !p(out[i])
  {
    if out == [] then 0
    else (if p(out[0]) then 1 else 0) + Count(out[1..], p)
  }

  lemma {:induction false} CountAppend(a: seq<Item>, b: seq<Item>, p: Item -> bool)
    ensures Count(a + b, p) == Count(a, p) + Count(b, p)
  {
    if a == [] {
      assert a + b == b;
    } else {
      assert (a + b)[1..] == a[1..] + b;
      CountAppend(a[1..], b, p);
    }
  }

  /** How many moniker vertices with id `x` the output holds. */
  function MonikerCount(out: seq<Item>, x: Id): nat {
    Count(out, it => IsMonikerItemWithId(it, x))
  }

  lemma MonikerCountAppend(a: seq<Item>, b: seq<Item>, x: Id)
    ensures MonikerCount(a + b, x) == MonikerCount(a, x) + MonikerCount(b, x)
  {
    CountAppend(a, b, it => IsMonikerItemWithId(it, x));
  }

  /** A released moniker followed by its edge holds that moniker once; an edge alone holds none. */
  lemma ReleasedCount(m: Moniker, e: Edge, x: Id)
    ensures MonikerCount([MonikerItem(m), EdgeItem(e)], x) == if m.id == x then 1 else 0
    ensures MonikerCount([EdgeItem(e)], x) == 0
  {
    assert [MonikerItem(m), EdgeItem(e)][1..] == [EdgeItem(e)];
  }

  /** The output sink: `emit` appends to `items`. */
  class Sink {
    var items: seq<Item>

    constructor ()
      ensures items == []
    {
      items := [];
    }

    method Emit(it: Item)
      modifies this
      ensures items == old(items) + [it]
    {
      items := items + [it];
    }
  }
}
