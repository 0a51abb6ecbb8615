/**
 * The import linker: holds back import monikers until an edge tells what
 * to do with them, rewrites those that a packageInformation edge ties to an
 * npm dependency into the `npm` scheme, and caches package information and
 * dependency manifests by id.
 */
module Imports {
  import opened Lsif
  import opened Paths

  /**
   * The three caches: pending monikers, known packageInformation vertices,
   * and manifests by packageInformation id (`None` records a failed load).
   */
  datatype ImportState = ImportState(
    monikers: map<Id, Moniker>,
    packageInfos: map<Id, PackageInfo>,
    packageJsons: map<Id, Option<Manifest>>)

  const EmptyImportState := ImportState(map[], map[], map[])

  /** Every pending moniker is filed under its own id. */
  predicate ImportValid(st: ImportState) {
    forall k :: k in st.monikers ==> st.monikers[k].id == k
  }

  /** `handlePackageInformation`: cache the vertex and emit it unchanged. */
  function OnPackageInformation(st: ImportState, info: PackageInfo): (r: (ImportState, seq<Item>))
    requires ImportValid(st)
    ensures ImportValid(r.0)
    ensures r.1 == [VertexItem(PackageInformationVertex(info))]
    ensures r.0.monikers == st.monikers && r.0.packageJsons == st.packageJsons
    ensures r.0.packageInfos.Keys == st.packageInfos.Keys + {info.id} && r.0.packageInfos[info.id] == info
    ensures forall k :: k in st.packageInfos && k != info.id ==> r.0.packageInfos[k] == st.packageInfos[k]
  {
    (st.(packageInfos := st.packageInfos[info.id := info]), [VertexItem(PackageInformationVertex(info))])
  }

  /** `handleMoniker`: hold the moniker back; nothing is emitted. */
  function OnMoniker(st: ImportState, m: Moniker): (r: (ImportState, seq<Item>))
    requires ImportValid(st)
    ensures ImportValid(r.0)
    ensures r.1 == []
    ensures r.0.packageInfos == st.packageInfos && r.0.packageJsons == st.packageJsons
    ensures r.0.monikers.Keys == st.monikers.Keys + {m.id} && r.0.monikers[m.id] == m
    ensures forall k :: k in st.monikers && k != m.id ==> r.0.monikers[k] == st.monikers[k]
  {
    (st.(monikers := st.monikers[m.id := m]), [])
  }

  /**
   * `handleMonikerEdge`: a moniker edge arriving first releases the pending
   * moniker unchanged; the edge itself always follows.
   */
  function OnMonikerEdge(st: ImportState, e: Edge): (r: (ImportState, seq<Item>))
    requires ImportValid(st)
    ensures ImportValid(r.0)
    ensures r.0.monikers.Keys == st.monikers.Keys - {e.inV}
    ensures forall k :: k in r.0.monikers ==> r.0.monikers[k] == st.monikers[k]
    ensures r.0.packageInfos == st.packageInfos && r.0.packageJsons == st.packageJsons
    ensures e.inV in st.monikers ==> r.1 == [MonikerItem(st.monikers[e.inV]), EdgeItem(e)]
    ensures e.inV !in st.monikers ==> r.1 == [EdgeItem(e)]
  {
    if e.inV in st.monikers then
      (st.(monikers := st.monikers - {e.inV}), [MonikerItem(st.monikers[e.inV]), EdgeItem(e)])
    else
      (st.(monikers := st.monikers - {e.inV}), [EdgeItem(e)])
  }

  /**
   * `getPackageJson`: the manifest of a dependency, read at most once per
   * packageInformation id; a missing `uri` or a failed read is remembered.
   */
  function LookupManifest(env: Env, jsons: map<Id, Option<Manifest>>, info: PackageInfo)
    : (r: (map<Id, Option<Manifest>>, Option<Manifest>))
    ensures info.id in r.0 && r.0[info.id] == r.1
    ensures info.id in jsons ==> r == (jsons, jsons[info.id])
    ensures info.id !in jsons ==>
      && r.0 == jsons[info.id := r.1]
      && r.1 == (if info.uri.None? then None else env.readManifest(env.fsPath(info.uri.value)))
  {
    if info.id in jsons then (jsons, jsons[info.id])
    else if info.uri.None? then (jsons[info.id := None], None)
    else
      var manifest := env.readManifest(env.fsPath(info.uri.value));
      (jsons[info.id := manifest], manifest)
  }

  /** A second lookup for the same package reads nothing and changes nothing. */
  lemma LookupManifestMemoised(env: Env, jsons: map<Id, Option<Manifest>>, info: PackageInfo, later: PackageInfo)
    requires later.id == info.id
    ensures var (jsons1, r1) := LookupManifest(env, jsons, info);
            LookupManifest(env, jsons1, later) == (jsons1, r1)
  {
  }

  /**
   * The moniker may be rewritten: an import `tsc` moniker with a path, tied
   * to a known npm packageInformation vertex.
   */
  predicate ImportEligible(env: Env, m: Moniker, info: Option<PackageInfo>) {
    && m.kind == Import
    && m.scheme == TscScheme
    && info.Some?
    && info.value.manager == NpmScheme
    && env.parseTsc(m.identifier).path.Some?
  }

  /** The identifier an import moniker gets, given its dependency's manifest. */
  function ImportIdentifier(env: Env, m: Moniker, info: PackageInfo, manifest: Manifest): string
    requires env.parseTsc(m.identifier).path.Some?
  {
    var tsc := env.parseTsc(m.identifier);
    env.createNpm(info.name, EntryRelative(manifest, RelativePath(tsc.path.value, info.name)), tsc.name)
  }

  /**
   * The moniker a packageInformation edge finalises, and the manifest cache
   * after the lookup that may have needed.
   */
  function Finalize(env: Env, st: ImportState, m: Moniker, info: Option<PackageInfo>): (r: (ImportState, Moniker))
    ensures r.0.monikers == st.monikers && r.0.packageInfos == st.packageInfos
    ensures r.1.id == m.id && r.1.kind == m.kind
    ensures !ImportEligible(env, m, info) ==> r == (st, m)
    ensures ImportEligible(env, m, info) ==> r.0.packageJsons == LookupManifest(env, st.packageJsons, info.value).0
    ensures ImportEligible(env, m, info) && LookupManifest(env, st.packageJsons, info.value).1.None? ==> r.1 == m
    ensures ImportEligible(env, m, info) && LookupManifest(env, st.packageJsons, info.value).1.Some? ==>
      r.1 == m.(identifier := ImportIdentifier(env, m, info.value, LookupManifest(env, st.packageJsons, info.value).1.value),
                scheme := NpmScheme)
    ensures r.1 != m ==> ImportEligible(env, m, info) && LookupManifest(env, st.packageJsons, info.value).1.Some?
    ensures st.packageJsons.Keys <= r.0.packageJsons.Keys
    ensures forall k :: k in st.packageJsons ==> r.0.packageJsons[k] == st.packageJsons[k]
  {
    if ImportEligible(env, m, info) then
      var (jsons, manifest) := LookupManifest(env, st.packageJsons, info.value);
      var m' := if manifest.Some? then
                  m.(identifier := ImportIdentifier(env, m, info.value, manifest.value), scheme := NpmScheme)
                else m;
      (st.(packageJsons := jsons), m')
    else (st, m)
  }

  /**
   * `handlePackageInformationEdge`: the pending moniker (if any) is removed,
   * possibly rewritten, and emitted before the edge; package information
   * stays cached.
   */
  function OnPackageInformationEdge(env: Env, st: ImportState, e: Edge): (r: (ImportState, seq<Item>))
    requires ImportValid(st)
    ensures ImportValid(r.0)
    ensures r.0.monikers.Keys == st.monikers.Keys - {e.outV}
    ensures forall k :: k in r.0.monikers ==> r.0.monikers[k] == st.monikers[k]
    ensures r.0.packageInfos == st.packageInfos
    ensures st.packageJsons.Keys <= r.0.packageJsons.Keys
    ensures forall k :: k in st.packageJsons ==> r.0.packageJsons[k] == st.packageJsons[k]
    ensures e.outV !in st.monikers ==> r.1 == [EdgeItem(e)] && r.0.packageJsons == st.packageJsons
    ensures e.outV in st.monikers ==>
      var info := if e.inV in st.packageInfos then Some(st.packageInfos[e.inV]) else None;
      r.1 == [MonikerItem(Finalize(env, st, st.monikers[e.outV], info).1), EdgeItem(e)]
  {
    var info := if e.inV in st.packageInfos then Some(st.packageInfos[e.inV]) else None;
    var st1 := st.(monikers := st.monikers - {e.outV});
    if e.outV in st.monikers then
      var (st2, m) := Finalize(env, st1, st.monikers[e.outV], info);
      (st2, [MonikerItem(m), EdgeItem(e)])
    else (st1, [EdgeItem(e)])
  }

  /**
   * What the import linker may emit for a pending moniker `m`: `m` itself,
   * or its `npm` rewrite against some npm package and that package's manifest.
   */
  ghost predicate IsReleaseOf(env: Env, m: Moniker, released: Moniker) {
    || released == m
    || exists info: PackageInfo, manifest: Manifest ::
         && ImportEligible(env, m, Some(info))
         && released == m.(identifier := ImportIdentifier(env, m, info, manifest), scheme := NpmScheme)
  }

  /** An emitted item that carries id `x` is a release of the moniker pending under `x`. */
  ghost predicate ReleasedFrom(env: Env, pending: map<Id, Moniker>, x: Id, it: Item) {
    IsMonikerItemWithId(it, x) ==> x in pending && IsReleaseOf(env, pending[x], it.vertex.moniker)
  }

  /**
   * Output emitted while nothing was pending under `m.id`, followed by
   * output emitted while `m` was, carries `m.id` only on releases of `m`.
   */
  lemma ReleasesConcat(env: Env, pa: map<Id, Moniker>, pb: map<Id, Moniker>, m: Moniker, a: seq<Item>, b: seq<Item>)
    requires m.id !in pa && m.id in pb && pb[m.id] == m
    requires forall i :: 0 <= i < |a| ==> ReleasedFrom(env, pa, m.id, a[i])
    requires forall i :: 0 <= i < |b| ==> ReleasedFrom(env, pb, m.id, b[i])
    ensures forall i :: 0 <= i < |a + b| && IsMonikerItemWithId((a + b)[i], m.id) ==> IsReleaseOf(env, m, (a + b)[i].vertex.moniker)
  {
    forall i | 0 <= i < |a + b| && IsMonikerItemWithId((a + b)[i], m.id)
      ensures IsReleaseOf(env, m, (a + b)[i].vertex.moniker)
    {
      if i >= |a| {
        assert ReleasedFrom(env, pb, m.id, b[i - |a|]);
      }
    }
  }

  /**
   * A moniker edge releases the pending moniker it points into, once and
   * unchanged, and leaves every other pending moniker pending and unemitted.
   */
  lemma MonikerEdgeReleases(env: Env, st: ImportState, e: Edge, x: Id)
    requires ImportValid(st)
    ensures var r := OnMonikerEdge(st, e);
            && (x in r.0.monikers <==> x in st.monikers && e.inV != x)
            && MonikerCount(r.1, x) == (if x in st.monikers && e.inV == x then 1 else 0)
            && forall i :: 0 <= i < |r.1| ==> ReleasedFrom(env, st.monikers, x, r.1[i])
    ensures x in st.monikers && e.inV == x ==> OnMonikerEdge(st, e).1 == [MonikerItem(st.monikers[x]), EdgeItem(e)]
  {
    if e.inV in st.monikers {
      ReleasedCount(st.monikers[e.inV], e, x);
    } else {
      assert MonikerCount([EdgeItem(e)], x) == 0;
    }
  }

  /**
   * A packageInformation edge releases the pending moniker it starts from,
   * once (rewritten or not), and leaves every other one pending and unemitted.
   */
  lemma PackageInformationEdgeReleases(env: Env, st: ImportState, e: Edge, x: Id)
    requires ImportValid(st)
    ensures var r := OnPackageInformationEdge(env, st, e);
            && (x in r.0.monikers <==> x in st.monikers && e.outV != x)
            && MonikerCount(r.1, x) == (if x in st.monikers && e.outV == x then 1 else 0)
            && forall i :: 0 <= i < |r.1| ==> ReleasedFrom(env, st.monikers, x, r.1[i])
  {
    if e.outV in st.monikers {
      var info := if e.inV in st.packageInfos then Some(st.packageInfos[e.inV]) else None;
      var pending := st.monikers[e.outV];
      var m := Finalize(env, st, pending, info).1;
      ReleasedCount(m, e, x);
      if m != pending {
        var manifest := LookupManifest(env, st.packageJsons, info.value).1.value;
        assert m == pending.(identifier := ImportIdentifier(env, pending, info.value, manifest), scheme := NpmScheme);
      }
      assert IsReleaseOf(env, pending, m);
    } else {
      assert MonikerCount([EdgeItem(e)], x) == 0;
    }
  }

  /**
   * A dependency file `<prefix>node_modules/<name>/<rest>` whose manifest
   * loads is rewritten to the `npm` scheme with `<rest>` as its path, or with
   * no path when `<rest>` is the dependency's main or typings entry.
   */
  lemma {:induction false} ImportRewriteRule(
    env: Env, st: ImportState, e: Edge, prefix: string, rest: string, manifest: Manifest)
    requires ImportValid(st)
    requires e.outV in st.monikers && e.inV in st.packageInfos
    requires ImportEligible(env, st.monikers[e.outV], Some(st.packageInfos[e.inV]))
    requires var info := st.packageInfos[e.inV];
             && env.parseTsc(st.monikers[e.outV].identifier).path == Some(prefix + ModulePart(info.name) + "/" + rest)
             && (forall k :: |prefix| < k ==> !OccursAt(prefix + ModulePart(info.name) + "/" + rest, ModulePart(info.name), k))
             && LookupManifest(env, st.packageJsons, info).1 == Some(manifest)
    ensures var m := st.monikers[e.outV];
            var info := st.packageInfos[e.inV];
            var tsc := env.parseTsc(m.identifier);
            OnPackageInformationEdge(env, st, e).1 ==
              [MonikerItem(m.(identifier := env.createNpm(info.name, EntryRelative(manifest, rest), tsc.name), scheme := NpmScheme)),
               EdgeItem(e)]
  {
    var info := st.packageInfos[e.inV];
    RelativePathAfterLastModulePart(prefix, info.name, rest);
    var st1 := st.(monikers := st.monikers - {e.outV});
    assert st1.packageJsons == st.packageJsons;
  }

  /** The import linker object of the source, over the state above. */
  class ImportLinker {
    var packageJsons: map<Id, Option<Manifest>>
    var packageInfos: map<Id, PackageInfo>
    var monikers: map<Id, Moniker>
    /** The packageInformation ids whose manifest has been read from disk, in order. */
    ghost var readLog: seq<Id>

    function State(): ImportState
      reads this
    {
      ImportState(monikers, packageInfos, packageJsons)
    }

    /**
     * Besides the state invariant: every manifest read is cached, and no
     * packageInformation id has had its manifest read twice.
     */
    ghost predicate Valid()
      reads this
    {
      && ImportValid(State())
      && (forall i :: 0 <= i < |readLog| ==> readLog[i] in packageJsons)
      && (forall i, j :: 0 <= i < j < |readLog| ==> readLog[i] != readLog[j])
    }

    constructor ()
      ensures Valid() && State() == EmptyImportState && readLog == []
    {
      packageJsons := map[];
      monikers := map[];
      packageInfos := map[];
      readLog := [];
    }

    method HandlePackageInformation(info: PackageInfo, sink: Sink)
      requires Valid()
      modifies this, sink
      ensures Valid() && readLog == old(readLog)
      ensures var (st, out) := OnPackageInformation(old(State()), info);
              State() == st && sink.items == old(sink.items) + out
    {
      packageInfos := packageInfos[info.id := info];
      sink.Emit(VertexItem(PackageInformationVertex(info)));
    }

    method HandleMoniker(moniker: Moniker)
      requires Valid()
      modifies this
      ensures Valid() && readLog == old(readLog)
      ensures State() == OnMoniker(old(State()), moniker).0
    {
      monikers := monikers[moniker.id := moniker];
    }

    method HandleMonikerEdge(edge: Edge, sink: Sink)
      requires Valid()
      modifies this, sink
      ensures Valid() && readLog == old(readLog)
      ensures var (st, out) := OnMonikerEdge(old(State()), edge);
              State() == st && sink.items == old(sink.items) + out
    {
      if edge.inV in monikers {
        var vertex := monikers[edge.inV];
        monikers := monikers - {edge.inV};
        sink.Emit(MonikerItem(vertex));
      }
      sink.Emit(EdgeItem(edge));
    }

    method GetPackageJson(info: PackageInfo, env: Env) returns (result: Option<Manifest>)
      requires Valid()
      modifies this
      ensures Valid()
      ensures (packageJsons, result) == LookupManifest(env, old(packageJsons), info)
      ensures monikers == old(monikers) && packageInfos == old(packageInfos)
      ensures readLog == old(readLog) + if info.id !in old(packageJsons) && info.uri.Some? then [info.id] else []
    {
      if info.id in packageJsons {
        var cached := packageJsons[info.id];
        if cached.None? {
          return None;
        }
        return cached;
      }
      if info.uri.None? {
        packageJsons := packageJsons[info.id := None];
        return None;
      }
      var filePath := env.fsPath(info.uri.value);
      result := env.readManifest(filePath);
      readLog := readLog + [info.id];
      if result.None? {
        packageJsons := packageJsons[info.id := None];
      } else {
        packageJsons := packageJsons[info.id := result];
      }
    }

    /** The rewriting part of `handlePackageInformationEdge`, for a moniker that was pending. */
    method FinalizeMoniker(moniker: Moniker, packageInfo: Option<PackageInfo>, env: Env) returns (m: Moniker)
      requires Valid()
      modifies this
      ensures Valid()
      ensures State() == Finalize(env, old(State()), moniker, packageInfo).0
      ensures m == Finalize(env, old(State()), moniker, packageInfo).1
      ensures |readLog| <= |old(readLog)| + 1 && old(readLog) <= readLog
    {
      m := moniker;
      if m.kind == Import && m.scheme == TscScheme && packageInfo.Some? && packageInfo.value.manager == NpmScheme {
        var tsc := env.parseTsc(m.identifier);
        if tsc.path.Some? {
          var packageJson := GetPackageJson(packageInfo.value, env);
          if packageJson.Some? {
            var modulePart := "node_modules/" + packageInfo.value.name;
            var index := LastIndexOf(tsc.path.value, modulePart);
            var relativePath := Substr(tsc.path.value, index + |modulePart| + 1);
            assert relativePath == RelativePath(tsc.path.value, packageInfo.value.name);
            if packageJson.value.main == Some(relativePath) || packageJson.value.typings == Some(relativePath) {
              m := m.(identifier := env.createNpm(packageInfo.value.name, None, tsc.name));
            } else {
              m := m.(identifier := env.createNpm(packageInfo.value.name, Some(relativePath), tsc.name));
            }
            m := m.(scheme := NpmScheme);
          }
        }
      }
    }

    method HandlePackageInformationEdge(edge: Edge, env: Env, sink: Sink)
      requires Valid()
      modifies this, sink
      ensures Valid()
      ensures var (st, out) := OnPackageInformationEdge(env, old(State()), edge);
              State() == st && sink.items == old(sink.items) + out
      ensures |readLog| <= |old(readLog)| + 1 && old(readLog) <= readLog
    {
      var moniker := if edge.outV in monikers then Some(monikers[edge.outV]) else None;
      var packageInfo := if edge.inV in packageInfos then Some(packageInfos[edge.inV]) else None;
      monikers := monikers - {edge.outV};
      if moniker.Some? {
        var m := FinalizeMoniker(moniker.value, packageInfo, env);
        sink.Emit(MonikerItem(m));
      }
      sink.Emit(EdgeItem(edge));
    }
  }
}
