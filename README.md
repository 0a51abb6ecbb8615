# lsif-npm rewriter, modelled in Dafny

`lsif-npm` reads a Language Server Index Format (LSIF) dump one JSON record
per line. It writes the dump back out, with monikers of the TypeScript
(`tsc`) scheme rewritten into the `npm` scheme:

- **Export linker.** Monikers that the local package exports get an `npm`
  identifier built from the local `package.json`. They are linked to one
  shared `packageInformation` vertex. That vertex is created, and its id
  generator configured, when the first rewritten moniker arrives. The
  generator counts down from `Number.MAX_SAFE_INTEGER` when the dump uses
  numeric ids, and draws uuid-v4 strings when it uses string ids.
- **Import linker.** Import monikers are held back until an edge decides
  their fate:
  - a `moniker` edge releases the moniker unchanged;
  - a `packageInformation` edge to an npm package rewrites it, using the
    dependency's manifest, which is read at most once per packageInformation
    id. When the path contains the dependency's `node_modules/<name>`
    directory, the path becomes relative to its last occurrence.
- **Dispatcher.** The per-line dispatcher routes each record to one of the
  two linkers, or writes the original line back verbatim.

The model is in five modules:

| file | module | what |
|---|---|---|
| `lsif.dfy` | `Lsif` | records, output items, the collaborators (`Env`), the output `Sink` |
| `paths.dfy` | `Paths` | `lastIndexOf`, one-argument `substr`, the dependency-relative path |
| `exports.dfy` | `Exports` | the id generator and the `ExportLinker` class, proved against `ExportStep`/`ExportRun` |
| `imports.dfy` | `Imports` | the `ImportLinker` class, proved against `OnMoniker`, `OnMonikerEdge`, `OnPackageInformation`, `OnPackageInformationEdge`, `LookupManifest` |
| `dispatcher.dfy` | `Dispatcher` | the `line` callback (`Dispatch`), the loop over the stream (`Process`), and their specification `Step`/`Run` |

The classes keep the source's fields and update them in place. Each method's
`ensures` ties the new fields and the output to a pure function of the old
state. The properties below are proved about those functions.

Code outside the core is passed in as the fields of `Env`:

- `TscMoniker.parse` and `NpmMoniker.create`;
- `PackageJson.read`;
- `URI.parse(..).fsPath`;
- `uuid.v4`, modelled as an oracle whose k-th answer is `uuid(k)`.

## Model

| member | source | states |
|---|---|---|
| `Lsif.EntryRelative` | npm/src/main.ts:108-112 | the `npm` identifier carries no path exactly when the file is the manifest's `main` or `typings` entry, and carries the file's own path otherwise |
| `Lsif.Sink.Emit` | npm/src/main.ts:61-69 | every emitted record is appended to the output, in order |
| `Paths.LastIndexOf` | npm/src/main.ts:200 | the result is an index at which the pattern occurs, and no later index holds one; it is -1 exactly when the pattern never occurs |
| `Paths.Substr` | npm/src/main.ts:201 | JavaScript's one-argument `substr`: the suffix from the start index; empty past the end; a negative start counts back from the end |
| `Paths.RelativePath` | npm/src/main.ts:199-201 | the relative path is always a suffix of the file's path |
| `Paths.RelativePathAfterLastModulePart` | npm/src/main.ts:199-201 | for `<prefix>node_modules/<name>/<rest>` with no later `node_modules/<name>`, the relative path is `<rest>` |
| `Paths.RelativePathWithoutModulePart` | npm/src/main.ts:199-201 | a path with no `node_modules/<name>` loses its first `len("node_modules/<name>")` characters: the -1 of `lastIndexOf` cancels the `+ 1` for the separator |
| `Paths.RelativePathExample` | npm/src/main.ts:199-201 | `/w/node_modules/dep/x` in package `dep` becomes `x` |
| `Exports.Configure` | npm/src/main.ts:147-161 | the generator is configured once and never reconfigured; a numeric seed id gives a counter at `MAX_SAFE_INTEGER`, a string seed id gives uuids |
| `Exports.Draw` | npm/src/main.ts:152-159 | one call of a configured generator leaves it configured, and of the same kind |
| `Exports.IsPackaged` | npm/src/main.ts:122-127 | every file counts as published with the package |
| `Exports.ExportedMoniker` | npm/src/main.ts:106-113 | id and kind are kept; a `tsc` moniker with a path becomes an `npm` moniker of the local package; any other moniker is unchanged |
| `Exports.SharedInfoStep` | npm/src/main.ts:129-145 | the shared vertex is created only when absent, describes the local package (name, version, manager `npm`, repository), takes the generator's next id, and is emitted exactly when created |
| `Exports.ExportStep` | npm/src/main.ts:101-120 | the linker invariant is kept: the shared vertex exists exactly when the generator is configured. Once it exists it is never replaced |
| `Exports.ExportStepEmits` | npm/src/main.ts:101-120 | a non-`tsc` moniker is emitted alone and untouched. Otherwise the output is: the shared vertex (if this call created it), the rewritten moniker, then an edge from the moniker's id to the shared vertex's id whenever that vertex exists |
| `Exports.ExportStepEmitsOnlyItsMoniker` | npm/src/main.ts:101-120 | the only moniker a call emits is the one it was given |
| `Exports.ExportRun` | npm/src/main.ts:101-120 | over any sequence of calls the invariant holds, and the shared vertex never changes once it exists |
| `Exports.SharedVertexEmittedOnce` | npm/src/main.ts:129-145 | over any sequence of calls the shared vertex is emitted once if that run created it and never otherwise |
| `Exports.EdgesFollowTheirVertices` | npm/src/main.ts:116-119 | every emitted edge is a `packageInformation` edge into the shared vertex and comes right after the moniker it starts from. The shared vertex was emitted before the edge, unless it existed before the run |
| `Exports.Draws` | npm/src/main.ts:152-159 | `n` generator calls give `n` ids and leave the generator configured, of the same kind |
| `Exports.CountdownDraws` | npm/src/main.ts:151-155 | the counter hands out `c`, `c - 1`, ... and ends at `c - n` |
| `Exports.RandomDraws` | npm/src/main.ts:156-159 | the uuid generator hands out the oracle's answers in order, never one twice |
| `Exports.ExportStepIds` | npm/src/main.ts:114-118 | the ids one call mints, in output order, are the next calls of the generator, configured by the moniker's id if it was not yet; minting nothing leaves the generator alone |
| `Exports.ExportRunIds` | npm/src/main.ts:147-161 | over a run, the minted ids are consecutive calls of one generator |
| `Exports.NumericIdsCountDown` | npm/src/main.ts:151-155 | with numeric ids the minted ids are `MAX_SAFE_INTEGER`, `MAX_SAFE_INTEGER - 1`, ...: consecutive and strictly decreasing |
| `Exports.NumericIdsAvoidDumpIds` | npm/src/main.ts:151-155 | with numeric ids, the `n` minted ids never clash with the dump's own ids when every numeric id of the dump is at most `MAX_SAFE_INTEGER - n`; for a larger dump id nothing is promised, as in the source |
| `Exports.StringIdsAreFreshUuids` | npm/src/main.ts:156-159 | with string ids the i-th minted id is the oracle's answer `drawn + i`, so no answer is used twice |
| `Exports.ExportLinker.constructor` | npm/src/main.ts:91-92 | a new linker has no shared vertex and no generator |
| `Exports.ExportLinker.NextId` | npm/src/main.ts:94-99 | the getter fails ("ID Generator not initialized.") exactly when no generator is configured; otherwise it returns the generator's next id and advances it |
| `Exports.ExportLinker.EnsureIdGenerator` | npm/src/main.ts:147-161 | the generator field becomes `Configure(old, seed)` |
| `Exports.ExportLinker.EmitPackageInformation` | npm/src/main.ts:129-145 | fields and output follow `SharedInfoStep`; the getter's failure cannot happen here |
| `Exports.ExportLinker.HandleMoniker` | npm/src/main.ts:101-120 | fields and output follow `ExportStep`, and the invariant is kept |
| `Imports.OnPackageInformation` | npm/src/main.ts:176-179 | the vertex is emitted unchanged and cached under its id; every other cache entry is kept |
| `Imports.OnMoniker` | npm/src/main.ts:181-183 | nothing is emitted; the moniker is held under its id, replacing an earlier one with that id |
| `Imports.OnMonikerEdge` | npm/src/main.ts:216-225 | a pending moniker the edge points into is released unchanged before the edge; every moniker still pending keeps its value; the edge is always emitted |
| `Imports.LookupManifest` | npm/src/main.ts:227-246 | a cached result, failure included, is returned without reading. Otherwise the manifest is read from the vertex's `uri`, or fails when there is none, and the result is cached |
| `Imports.LookupManifestMemoised` | npm/src/main.ts:227-246 | a second lookup for the same package id returns the first answer and changes nothing |
| `Imports.Finalize` | npm/src/main.ts:193-210 | the moniker keeps its id and kind; a moniker that is not an import `tsc` moniker with a path tied to an npm package is left unchanged and reads no manifest; an eligible moniker whose manifest fails to load is left unchanged; the moniker changes exactly when it is eligible and its manifest loads, and then becomes the npm rewrite; the manifest cache only grows and cached manifests keep their values |
| `Imports.OnPackageInformationEdge` | npm/src/main.ts:185-214 | the pending moniker is removed and emitted, finalised, before the edge; every moniker still pending and every cached manifest keeps its value; package information stays cached; the edge is always emitted |
| `Imports.MonikerEdgeReleases` | npm/src/main.ts:216-225 | a moniker edge emits the pending moniker it points into exactly once, and no other pending moniker; when the edge points into pending `x`, the output is that moniker, unchanged, then the edge |
| `Imports.PackageInformationEdgeReleases` | npm/src/main.ts:185-214 | a packageInformation edge emits the pending moniker it starts from exactly once, and no other pending moniker; an emitted item with id `x` is the moniker pending under `x` or its npm rewrite |
| `Imports.ImportRewriteRule` | npm/src/main.ts:194-207 | a dependency file `<prefix>node_modules/<name>/<rest>`, with no later `node_modules/<name>`, whose manifest loads is emitted as an `npm` moniker of `<name>` whose path is `<rest>`, or no path when `<rest>` is the dependency's main or typings entry |
| `Imports.ImportLinker.constructor` | npm/src/main.ts:170-174 | a new linker has three empty caches and has read no manifest |
| `Imports.ImportLinker.HandlePackageInformation` | npm/src/main.ts:176-179 | fields and output follow `OnPackageInformation` |
| `Imports.ImportLinker.HandleMoniker` | npm/src/main.ts:181-183 | fields follow `OnMoniker`; nothing is emitted |
| `Imports.ImportLinker.HandleMonikerEdge` | npm/src/main.ts:216-225 | fields and output follow `OnMonikerEdge` |
| `Imports.ImportLinker.GetPackageJson` | npm/src/main.ts:227-246 | cache and result follow `LookupManifest`. A manifest is read only when its id is not cached and the vertex has a `uri`, so no id is read twice over the linker's life. Reads are keyed by id: two packageInformation vertices with the same `uri` but different ids each read it |
| `Imports.ImportLinker.FinalizeMoniker` | npm/src/main.ts:193-210 | the moniker rewrite (lastIndexOf, substr, main/typings check) gives `Finalize`'s moniker and cache, and reads at most one manifest |
| `Imports.ImportLinker.HandlePackageInformationEdge` | npm/src/main.ts:185-214 | fields and output follow `OnPackageInformationEdge`; at most one manifest is read |
| `Dispatcher.Step` | npm/src/main.ts:324-358 | both linkers' invariants are kept by every line |
| `Dispatcher.StepRoutes` | npm/src/main.ts:324-358 | records that are neither edges nor vertices are dropped. Export monikers are dropped when there is no export linker. Other edges, other vertices and local monikers are written back as the original line. Each route changes only its own linker, and the import caches only grow |
| `Dispatcher.Run` | npm/src/main.ts:323-358 | the invariants hold after any number of lines |
| `Dispatcher.RunAppend` | npm/src/main.ts:323-358 | reading `a` then `b` is reading `a + b`: the state carries over and the outputs concatenate |
| `Dispatcher.VerbatimRecordsPassThrough` | npm/src/main.ts:334-355 | a stream that no route takes comes out line for line, unchanged, and no linker changes |
| `Dispatcher.CachesOnlyGrow` | npm/src/main.ts:188-191 | over any stream, package information is never dropped and a cached manifest lookup is never redone or altered |
| `Dispatcher.StepTracksPending` | npm/src/main.ts:324-358 | one line that is not a moniker vertex with id `x` emits the pending moniker `x` once if it resolves it, else not at all; `x` stays pending exactly when unresolved |
| `Dispatcher.RunTracksPending` | npm/src/main.ts:185-225 | the same over a whole stream: the pending moniker is emitted once if some resolving edge arrives and never otherwise |
| `Dispatcher.StepReleases` | npm/src/main.ts:324-358 | one line that is not a moniker vertex with id `x` keeps the moniker pending under `x` as it was, and emits under id `x` only that moniker or its npm rewrite |
| `Dispatcher.RunReleases` | npm/src/main.ts:181-225 | the same over a whole stream: a pending moniker never changes while it waits, and only it or its npm rewrite is ever emitted under its id |
| `Dispatcher.ImportMonikerEmittedAsRelease` | npm/src/main.ts:181-225 | every item emitted with an import moniker's id is that moniker or its npm rewrite, and nothing with that id is emitted before the moniker arrives |
| `Dispatcher.RunDrivesExportLinker` | npm/src/main.ts:323-358 | the export linker after a stream is the one `handleMoniker` yields on the stream's export monikers, in order; without an export linker none appears |
| `Dispatcher.ImportMonikerEmittedExactlyOnce` | npm/src/main.ts:181-225 | an import moniker whose id no other moniker vertex shares is emitted exactly once if a moniker or packageInformation edge referring to it follows it, and never if none does |
| `Dispatcher.Dispatch` | npm/src/main.ts:324-358 | the linker objects and the output change as `Step` says; the import linker's record of manifest reads only grows |
| `Dispatcher.Process` | npm/src/main.ts:323-358 | after the whole stream the linkers and the output are those of `Run`. The manifest of each packageInformation id is read at most once over the stream |

## Left out

- Command-line handling (main.ts:27-59, 249-292) and the setup in `main` (main.ts:295-322) are not modelled. This covers locating and reading the local `package.json`, `projectRoot`, and opening the input. The export linker is a parameter, `null` when no manifest was found, and `Process` takes the records in order.
- `normalizePath` and `makeAbsolute` (main.ts:71-84) are not modelled, nor is the `path.join(projectRoot, ..)` argument of `isPackaged`. `isPackaged` returns true for every file, so its argument does not matter.
- JSON parsing and serialisation, and the line terminator in `emit`, are not modelled. A line comes with the record it parses to (`Input`). Output is a sequence of items: the original line, or a record.
- `readline`'s asynchronous delivery and the stream's end are not modelled. Records are handled strictly in order. As in the source, monikers still pending at the end are never emitted (`RunTracksPending`).
- `TscMoniker.parse`, `NpmMoniker.create`, `PackageJson.read`, `URI.parse(..).fsPath` and `uuid.v4` are opaque fields of `Env`. Their own behaviour is outside this model.
- Exports.StringIdsAreFreshUuids: says each id is a distinct answer of the uuid oracle, not that the strings differ. Uuid collisions and the uuid-v4 format are not modelled.
- Exports.NumericIdsCountDown: minted ids are proved distinct from the dump's own ids only under the bound of `Exports.NumericIdsAvoidDumpIds`; the source assumes the dump's ids stay below `MAX_SAFE_INTEGER - n`. Integers are unbounded. JavaScript's loss of precision below `-MAX_SAFE_INTEGER` is not modelled, since no dump reaches it.
- Paths.Substr: indices count Unicode scalar values, while JavaScript's `substr`, `lastIndexOf` and `length` count UTF-16 code units. The same holds for Paths.LastIndexOf. A path holding a character outside the Basic Multilingual Plane before `node_modules` is cut at a different place than in JavaScript. For example, `/😀/pkgs/dep/lib/index.js` in package `dep` gives `index.js` here and `/index.js` in JavaScript.
- A moniker's in-place update in the source is modelled as a value update. The object has no alias by then: the import linker has already removed it from its map.
- The `type` and `label` fields of emitted records are implied by the item kind (`VertexItem`, `EdgeItem`). Other vertex and edge labels are written back as the original line and are not parsed.
