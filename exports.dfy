/**
 * The export linker: rewrites `tsc` monikers that the local package exports
 * into the `npm` scheme, using the local package's manifest, and links each
 * of them to one shared packageInformation vertex whose ids come from a
 * lazily configured id generator.
 */
module Exports {
  import opened Lsif

  /**
   * The id generator closure: not yet configured, a counter counting down
   * (numeric ids), or uuid-v4 strings (`draws` answers of the oracle used).
   */
  datatype IdGen = Unconfigured | Countdown(counter: int) | Random(draws: nat)

  /** `ensureIdGenerator(seed)`: configures once, by the type of the seed id. */
  function Configure(gen: IdGen, seed: Id): (g: IdGen)
    ensures g != Unconfigured
    ensures gen != Unconfigured ==> g == gen
    ensures gen == Unconfigured ==> (g.Countdown? <==> seed.Num?)
    ensures gen == Unconfigured && g.Countdown? ==> g.counter == MaxSafeInteger
    ensures gen == Unconfigured && g.Random? ==> g.draws == 0
  {
    if gen != Unconfigured then gen
    else if seed.Num? then Countdown(MaxSafeInteger)
    else Random(0)
  }

  /** One call of a configured generator: `counter--`, or the next uuid. */
  function Draw(env: Env, gen: IdGen): (r: (Id, IdGen))
    requires gen != Unconfigured
    ensures r.1 != Unconfigured && r.1.Countdown? == gen.Countdown?
  {
    match gen
    case Countdown(counter) => (Num(counter), Countdown(counter - 1))
    case Random(draws) => (Str(env.uuid(draws)), Random(draws + 1))
  }

  /** The manager every packageInformation vertex of this tool names. */
  const NpmManager: string := "npm"

  /** The linker's state: the local manifest, the shared vertex, the generator. */
  datatype ExportState = ExportState(manifest: Manifest, shared: Option<PackageInfo>, gen: IdGen)

  /** The shared vertex describes the local package. */
  predicate DescribesPackage(manifest: Manifest, info: PackageInfo) {
    && info.name == manifest.name
    && info.manager == NpmManager
    && info.version == manifest.version
    && info.uri == None
    && info.repository == manifest.repository
  }

  /** The shared vertex exists exactly when the generator is configured. */
  predicate ExportValid(st: ExportState) {
    && (st.shared.Some? <==> st.gen != Unconfigured)
    && (st.shared.Some? ==> DescribesPackage(st.manifest, st.shared.value))
  }

  /** Whether a file is published with the package: always, for now. */
  predicate IsPackaged(path: string): (b: bool)
    ensures b
  {
    true
  }

  /** An export moniker is rewritten when it is a `tsc` moniker with a path. */
  predicate ExportRewrites(env: Env, m: Moniker) {
    && m.scheme == TscScheme
    && env.parseTsc(m.identifier).path.Some?
    && IsPackaged(env.parseTsc(m.identifier).path.value)
  }

  /** The moniker as the export linker emits it. */
  function ExportedMoniker(env: Env, manifest: Manifest, m: Moniker): (r: Moniker)
    ensures r.id == m.id && r.kind == m.kind
    ensures !ExportRewrites(env, m) ==> r == m
    ensures ExportRewrites(env, m) ==>
      var tsc := env.parseTsc(m.identifier);
      && r.scheme == NpmScheme
      && r.identifier == env.createNpm(manifest.name, EntryRelative(manifest, tsc.path.value), tsc.name)
  {
    if ExportRewrites(env, m) then
      var tsc := env.parseTsc(m.identifier);
      m.(identifier := env.createNpm(manifest.name, EntryRelative(manifest, tsc.path.value), tsc.name),
         scheme := NpmScheme)
    else m
  }

  /** `emitPackageInformation`: creates and emits the shared vertex, once. */
  function SharedInfoStep(env: Env, st: ExportState, seed: Id): (r: (ExportState, seq<Item>))
    requires ExportValid(st)
    ensures ExportValid(r.0) && r.0.manifest == st.manifest && r.0.shared.Some?
    ensures st.shared.Some? ==> r == (st, [])
    ensures st.shared.None? ==> r.1 == [VertexItem(PackageInformationVertex(r.0.shared.value))]
    ensures st.shared.None? ==> (r.0.shared.value.id, r.0.gen) == Draw(env, Configure(st.gen, seed))
  {
    if st.shared.Some? then (st, [])
    else
      var (id, gen) := Draw(env, Configure(st.gen, seed));
      var info := PackageInfo(id, st.manifest.name, NpmManager, st.manifest.version, None, st.manifest.repository);
      (ExportState(st.manifest, Some(info), gen), [VertexItem(PackageInformationVertex(info))])
  }

  /**
   * `handleMoniker` for one export moniker: the new state and what it
   * emits, in order: the shared vertex if this call creates it, the moniker,
   * and an edge from the moniker to the shared vertex if that exists.
   */
  function ExportStep(env: Env, st: ExportState, m: Moniker): (r: (ExportState, seq<Item>))
    requires ExportValid(st)
    ensures ExportValid(r.0) && r.0.manifest == st.manifest
    ensures st.shared.Some? ==> r.0.shared == st.shared
  {
    if m.scheme != TscScheme then (st, [MonikerItem(m)])
    else
      var moniker := ExportedMoniker(env, st.manifest, m);
      var (st1, pre) := if ExportRewrites(env, m) then SharedInfoStep(env, st, moniker.id) else (st, []);
      if st1.shared.Some? then
        var (id, gen) := Draw(env, st1.gen);
        (st1.(gen := gen),
         pre + [MonikerItem(moniker), EdgeItem(Edge(id, PackageInformationLabel, moniker.id, st1.shared.value.id))])
      else (st1, pre + [MonikerItem(moniker)])
  }

  /**
   * What one `handleMoniker` call emits: a non-`tsc` moniker alone and
   * untouched; otherwise the shared vertex if this call creates it, the
   * (possibly rewritten) moniker, and an edge from the moniker to the shared
   * vertex whenever that exists.
   */
  lemma ExportStepEmits(env: Env, st: ExportState, m: Moniker)
    requires ExportValid(st)
    ensures var r := ExportStep(env, st, m);
            && (m.scheme != TscScheme ==> r == (st, [MonikerItem(m)]))
            && (r.0.shared.Some? <==> st.shared.Some? || ExportRewrites(env, m))
    ensures var r := ExportStep(env, st, m);
            var pre := if st.shared.None? && r.0.shared.Some? then 1 else 0;
            var post := if r.0.shared.Some? && m.scheme == TscScheme then 1 else 0;
            && |r.1| == pre + 1 + post
            && (pre == 1 ==> r.1[0] == VertexItem(PackageInformationVertex(r.0.shared.value)))
            && r.1[pre] == MonikerItem(ExportedMoniker(env, st.manifest, m))
            && (post == 1 ==>
                 var last := r.1[|r.1| - 1];
                 && last.EdgeItem?
                 && last.edge == Edge(last.edge.id, PackageInformationLabel, m.id, r.0.shared.value.id))
  {
  }

  /** The only moniker a `handleMoniker` call emits is the one it was given. */
  lemma ExportStepEmitsOnlyItsMoniker(env: Env, st: ExportState, m: Moniker, x: Id)
    requires ExportValid(st) && x != m.id
    ensures MonikerCount(ExportStep(env, st, m).1, x) == 0
  {
    var out := ExportStep(env, st, m).1;
    ExportStepEmits(env, st, m);
    assert forall i :: 0 <= i < |out| ==> !IsMonikerItemWithId(out[i], x);
  }

  /** The linker after `handleMoniker` has been called on each of `ms` in turn. */
  function ExportRun(env: Env, st: ExportState, ms: seq<Moniker>): (r: (ExportState, seq<Item>))
    requires ExportValid(st)
    ensures ExportValid(r.0) && r.0.manifest == st.manifest
    ensures st.shared.Some? ==> r.0.shared == st.shared
    decreases |ms|
  {
    if ms == [] then (st, [])
    else
      var (st1, out1) := ExportRun(env, st, ms[..|ms| - 1]);
      var (st2, out2) := ExportStep(env, st1, ms[|ms| - 1]);
      (st2, out1 + out2)
  }

  predicate IsSharedInfoItem(it: Item) {
    it.VertexItem? && it.vertex.PackageInformationVertex?
  }

  /** The ids the linker mints: those of the vertices and edges it creates. */
  function GeneratedIds(out: seq<Item>): seq<Id> {
    if out == [] then []
    else
      (if out[0].EdgeItem? then [out[0].edge.id]
       else if IsSharedInfoItem(out[0]) then [out[0].vertex.info.id]
       else []) + GeneratedIds(out[1..])
  }

  lemma {:induction false} GeneratedIdsAppend(a: seq<Item>, b: seq<Item>)
    ensures GeneratedIds(a + b) == GeneratedIds(a) + GeneratedIds(b)
  {
    if a == [] {
      assert a + b == b;
    } else {
      assert (a + b)[1..] == a[1..] + b;
      GeneratedIdsAppend(a[1..], b);
    }
  }

  /**
   * However many monikers are handled, the shared vertex is emitted at most
   * once, and it is never replaced once it exists.
   */
  lemma {:induction false} SharedVertexEmittedOnce(env: Env, st: ExportState, ms: seq<Moniker>)
    requires ExportValid(st)
    ensures var (st', out) := ExportRun(env, st, ms);
            && (st.shared.Some? ==> st'.shared == st.shared)
            && Count(out, IsSharedInfoItem) == if st.shared.None? && st'.shared.Some? then 1 else 0
    decreases |ms|
  {
    if ms != [] {
      var (st1, out1) := ExportRun(env, st, ms[..|ms| - 1]);
      var (st2, out2) := ExportStep(env, st1, ms[|ms| - 1]);
      SharedVertexEmittedOnce(env, st, ms[..|ms| - 1]);
      ExportStepEmits(env, st1, ms[|ms| - 1]);
      CountAppend(out1, out2, IsSharedInfoItem);
      if st1.shared.None? && st2.shared.Some? {
        assert out2 == [out2[0]] + out2[1..];
        CountAppend([out2[0]], out2[1..], IsSharedInfoItem);
      }
      assert Count(out2, IsSharedInfoItem) == if st1.shared.None? && st2.shared.Some? then 1 else 0;
    }
  }

  /**
   * Every edge the linker emits comes right after the moniker it starts
   * from, points at the shared vertex, and that vertex was emitted before
   * it (or before this run, when it already existed).
   */
  lemma {:induction false} EdgesFollowTheirVertices(env: Env, st: ExportState, ms: seq<Moniker>)
    requires ExportValid(st)
    ensures var (st', out) := ExportRun(env, st, ms);
            forall i :: 0 <= i < |out| && out[i].EdgeItem? ==>
              && st'.shared.Some?
              && out[i].edge.edgeLabel == PackageInformationLabel
              && out[i].edge.inV == st'.shared.value.id
              && 0 < i && IsMonikerItemWithId(out[i - 1], out[i].edge.outV)
              && (st.shared.Some? || VertexItem(PackageInformationVertex(st'.shared.value)) in out[..i])
    ensures var (st', out) := ExportRun(env, st, ms);
            st.shared.None? && st'.shared.Some? ==> VertexItem(PackageInformationVertex(st'.shared.value)) in out
    decreases |ms|
  {
    if ms != [] {
      var (st1, out1) := ExportRun(env, st, ms[..|ms| - 1]);
      var (st2, out2) := ExportStep(env, st1, ms[|ms| - 1]);
      EdgesFollowTheirVertices(env, st, ms[..|ms| - 1]);
      ExportStepEmits(env, st1, ms[|ms| - 1]);
      var out := out1 + out2;
      if st.shared.None? && st2.shared.Some? {
        if st1.shared.None? {
          assert out[|out1|] == VertexItem(PackageInformationVertex(st2.shared.value));
        } else {
          assert VertexItem(PackageInformationVertex(st2.shared.value)) in out1;
        }
      }
      forall i | 0 <= i < |out| && out[i].EdgeItem?
        ensures && st2.shared.Some?
                && out[i].edge.edgeLabel == PackageInformationLabel
                && out[i].edge.inV == st2.shared.value.id
                && 0 < i && IsMonikerItemWithId(out[i - 1], out[i].edge.outV)
                && (st.shared.Some? || VertexItem(PackageInformationVertex(st2.shared.value)) in out[..i])
      {
        var info := VertexItem(PackageInformationVertex(st2.shared.value));
        if i < |out1| {
          assert out[i] == out1[i] && out[i - 1] == out1[i - 1];
          assert out1[..i] == out[..i];
        } else {
          var j := i - |out1|;
          assert out[i] == out2[j];
          assert j == |out2| - 1;
          assert out[i - 1] == out2[j - 1];
          if st.shared.None? {
            if st1.shared.None? {
              assert out[|out1|] == info;
            } else {
              assert info in out1;
              assert out1 == out[..i][..|out1|];
            }
          }
        }
      }
    }
  }

  /** `n` calls of a configured generator: the ids they return, and the generator after. */
  function Draws(env: Env, gen: IdGen, n: nat): (r: (seq<Id>, IdGen))
    requires gen != Unconfigured
    ensures |r.0| == n && r.1 != Unconfigured && r.1.Countdown? == gen.Countdown?
    decreases n
  {
    if n == 0 then ([], gen)
    else
      var first := Draw(env, gen);
      var rest := Draws(env, first.1, n - 1);
      ([first.0] + rest.0, rest.1)
  }

  /** The counter hands out `counter`, `counter - 1`, ... */
  lemma {:induction false} CountdownDraws(env: Env, counter: int, n: nat)
    ensures var r := Draws(env, Countdown(counter), n);
            && (forall i :: 0 <= i < n ==> r.0[i] == Num(counter - i))
            && r.1 == Countdown(counter - n)
    decreases n
  {
    if n > 0 {
      CountdownDraws(env, counter - 1, n - 1);
    }
  }

  /** The uuid generator hands out the oracle's answers `draws`, `draws + 1`, ... */
  lemma {:induction false} RandomDraws(env: Env, draws: nat, n: nat)
    ensures var r := Draws(env, Random(draws), n);
            && (forall i :: 0 <= i < n ==> r.0[i] == Str(env.uuid(draws + i)))
            && r.1 == Random(draws + n)
    decreases n
  {
    if n > 0 {
      RandomDraws(env, draws + 1, n - 1);
    }
  }

  /**
   * The ids one `handleMoniker` call mints are the next calls of the
   * generator, configured by the moniker's own id if it was not yet.
   */
  lemma ExportStepIds(env: Env, st: ExportState, m: Moniker)
    requires ExportValid(st)
    ensures var r := ExportStep(env, st, m);
            var ids := GeneratedIds(r.1);
            && (ids == [] ==> r.0.gen == st.gen)
            && (ids != [] ==> (ids, r.0.gen) == Draws(env, Configure(st.gen, m.id), |ids|))
  {
    var r := ExportStep(env, st, m);
    if m.scheme == TscScheme {
      var moniker := ExportedMoniker(env, st.manifest, m);
      var step := if ExportRewrites(env, m) then SharedInfoStep(env, st, moniker.id) else (st, []);
      var s1, pre := step.0, step.1;
      if st.shared.None? && s1.shared.Some? {
        assert GeneratedIds(pre) == [s1.shared.value.id];
      } else {
        assert GeneratedIds(pre) == [];
      }
      if s1.shared.Some? {
        var last := Draw(env, s1.gen);
        var rest := [MonikerItem(moniker), EdgeItem(Edge(last.0, PackageInformationLabel, moniker.id, s1.shared.value.id))];
        assert r.1 == pre + rest;
        GeneratedIdsAppend(pre, rest);
        assert GeneratedIds(rest) == [last.0] by {
          assert rest[1..] == [rest[1]];
          assert GeneratedIds([rest[1]]) == [last.0] + GeneratedIds([]);
        }
        assert Draws(env, s1.gen, 1) == ([last.0], last.1) by {
          assert Draws(env, last.1, 0) == ([], last.1);
          assert [last.0] + [] == [last.0];
        }
      } else {
        assert r.1 == pre + [MonikerItem(moniker)];
        GeneratedIdsAppend(pre, [MonikerItem(moniker)]);
      }
    }
  }

  lemma {:induction false} DrawsAppend(env: Env, gen: IdGen, a: nat, b: nat)
    requires gen != Unconfigured
    ensures var first := Draws(env, gen, a);
            var second := Draws(env, first.1, b);
            Draws(env, gen, a + b) == (first.0 + second.0, second.1)
    decreases a
  {
    if a > 0 {
      var d := Draw(env, gen);
      DrawsAppend(env, d.1, a - 1, b);
      var first := Draws(env, d.1, a - 1);
      var second := Draws(env, first.1, b);
      assert [d.0] + (first.0 + second.0) == ([d.0] + first.0) + second.0;
    } else {
      assert [] + Draws(env, gen, b).0 == Draws(env, gen, b).0;
    }
  }

  /**
   * The ids a run of `handleMoniker` calls mints are consecutive calls of
   * one generator `gen`: the one configured already, or else the one that
   * every moniker's id would configure.
   */
  lemma {:induction false} ExportRunIds(env: Env, st: ExportState, ms: seq<Moniker>, gen: IdGen)
    requires ExportValid(st) && gen != Unconfigured
    requires st.gen != Unconfigured ==> gen == st.gen
    requires st.gen == Unconfigured ==> forall k :: 0 <= k < |ms| ==> Configure(Unconfigured, ms[k].id) == gen
    ensures var r := ExportRun(env, st, ms);
            var ids := GeneratedIds(r.1);
            && (ids == [] ==> r.0.gen == st.gen)
            && (ids != [] ==> (ids, r.0.gen) == Draws(env, gen, |ids|))
    decreases |ms|
  {
    if ms != [] {
      var ms', m := ms[..|ms| - 1], ms[|ms| - 1];
      ExportRunIds(env, st, ms', gen);
      var r1 := ExportRun(env, st, ms');
      var r2 := ExportStep(env, r1.0, m);
      assert ExportRun(env, st, ms) == (r2.0, r1.1 + r2.1);
      ExportStepIds(env, r1.0, m);
      GeneratedIdsAppend(r1.1, r2.1);
      var ids1, ids2 := GeneratedIds(r1.1), GeneratedIds(r2.1);
      if ids1 != [] && ids2 != [] {
        DrawsAppend(env, gen, |ids1|, |ids2|);
      } else if ids1 == [] {
        assert ids1 + ids2 == ids2;
      } else {
        assert ids1 + ids2 == ids1;
      }
    }
  }

  /**
   * With numeric ids, the generator mints `MAX_SAFE_INTEGER`,
   * `MAX_SAFE_INTEGER - 1`, ... : consecutive and strictly decreasing.
   */
  lemma NumericIdsCountDown(env: Env, st: ExportState, ms: seq<Moniker>, top: int)
    requires ExportValid(st) && !st.gen.Random?
    requires st.gen == Unconfigured ==> top == MaxSafeInteger && forall k :: 0 <= k < |ms| ==> ms[k].id.Num?
    requires st.gen.Countdown? ==> top == st.gen.counter
    ensures var r := ExportRun(env, st, ms);
            var ids := GeneratedIds(r.1);
            && (forall i :: 0 <= i < |ids| ==> ids[i] == Num(top - i))
            && !r.0.gen.Random?
            && (r.0.gen == Unconfigured ==> ids == [])
            && (r.0.gen.Countdown? ==> r.0.gen.counter == top - |ids|)
  {
    ExportRunIds(env, st, ms, Countdown(top));
    CountdownDraws(env, top, |GeneratedIds(ExportRun(env, st, ms).1)|);
  }

  /**
   * With numeric ids, a fresh linker's ids never clash with the dump's own
   * ids as long as every numeric id of the dump stays at or below
   * `MAX_SAFE_INTEGER - n`, where `n` is the number of ids minted.
   */
  lemma NumericIdsAvoidDumpIds(env: Env, manifest: Manifest, ms: seq<Moniker>, seen: set<Id>)
    requires forall k :: 0 <= k < |ms| ==> ms[k].id.Num?
    requires var ids := GeneratedIds(ExportRun(env, ExportState(manifest, None, Unconfigured), ms).1);
             forall x :: x in seen && x.Num? ==> x.n <= MaxSafeInteger - |ids|
    ensures var ids := GeneratedIds(ExportRun(env, ExportState(manifest, None, Unconfigured), ms).1);
            forall i :: 0 <= i < |ids| ==> ids[i] !in seen
  {
    NumericIdsCountDown(env, ExportState(manifest, None, Unconfigured), ms, MaxSafeInteger);
  }

  /**
   * With string ids, each minted id is a fresh answer of the uuid oracle:
   * counting from `drawn` answers already used, the i-th id is
   * `uuid(drawn + i)`, so no answer is used twice.
   */
  lemma StringIdsAreFreshUuids(env: Env, st: ExportState, ms: seq<Moniker>, drawn: nat)
    requires ExportValid(st) && !st.gen.Countdown?
    requires st.gen == Unconfigured ==> drawn == 0 && forall k :: 0 <= k < |ms| ==> ms[k].id.Str?
    requires st.gen.Random? ==> drawn == st.gen.draws
    ensures var r := ExportRun(env, st, ms);
            var ids := GeneratedIds(r.1);
            && (forall i :: 0 <= i < |ids| ==> ids[i] == Str(env.uuid(drawn + i)))
            && !r.0.gen.Countdown?
            && (r.0.gen == Unconfigured ==> ids == [])
            && (r.0.gen.Random? ==> r.0.gen.draws == drawn + |ids|)
  {
    ExportRunIds(env, st, ms, Random(drawn));
    RandomDraws(env, drawn, |GeneratedIds(ExportRun(env, st, ms).1)|);
  }

  /** The export linker object of the source, over the state above. */
  class ExportLinker {
    const manifest: Manifest
    var packageInformation: Option<PackageInfo>
    var idGenerator: IdGen

    function State(): ExportState
      reads this
    {
      ExportState(manifest, packageInformation, idGenerator)
    }

    ghost predicate Valid()
      reads this
    {
      ExportValid(State())
    }

    constructor (manifest: Manifest)
      ensures Valid() && State() == ExportState(manifest, None, Unconfigured)
    {
      this.manifest := manifest;
      packageInformation := None;
      idGenerator := Unconfigured;
    }

    /**
     * The `idGenerator` getter followed by a call of the generator it
     * returns; the getter's throw is the `Failure`.
     */
    method NextId(env: Env) returns (r: Result<Id>)
      modifies this`idGenerator
      ensures old(idGenerator) == Unconfigured ==> r.Failure? && idGenerator == Unconfigured
      ensures old(idGenerator) != Unconfigured ==>
        var (id, gen) := Draw(env, old(idGenerator)); r == Success(id) && idGenerator == gen
    {
      match idGenerator
      case Unconfigured =>
        r := Failure("ID Generator not initialized.");
      case Countdown(counter) =>
        r := Success(Num(counter));
        idGenerator := Countdown(counter - 1);
      case Random(draws) =>
        r := Success(Str(env.uuid(draws)));
        idGenerator := Random(draws + 1);
    }

    method EnsureIdGenerator(seed: Id)
      modifies this`idGenerator
      ensures idGenerator == Configure(old(idGenerator), seed)
    {
      if idGenerator != Unconfigured {
        return;
      }
      if seed.Num? {
        idGenerator := Countdown(MaxSafeInteger);
      } else {
        idGenerator := Random(0);
      }
    }

    method EmitPackageInformation(moniker: Moniker, env: Env, sink: Sink)
      requires Valid()
      modifies this, sink
      ensures Valid()
      ensures var (st, out) := SharedInfoStep(env, old(State()), moniker.id);
              State() == st && sink.items == old(sink.items) + out
    {
      if packageInformation.None? {
        EnsureIdGenerator(moniker.id);
        var id := NextId(env);
        var info := PackageInfo(id.value, manifest.name, NpmManager, manifest.version, None, None);
        if manifest.repository.Some? {
          info := info.(repository := manifest.repository);
        }
        packageInformation := Some(info);
        sink.Emit(VertexItem(PackageInformationVertex(info)));
      }
    }

    method HandleMoniker(moniker: Moniker, env: Env, sink: Sink)
      requires Valid()
      modifies this, sink
      ensures Valid()
      ensures var (st, out) := ExportStep(env, old(State()), moniker);
              State() == st && sink.items == old(sink.items) + out
    {
      if moniker.scheme != TscScheme {
        sink.Emit(MonikerItem(moniker));
        return;
      }
      var m := moniker;
      var tsc := env.parseTsc(m.identifier);
      if tsc.path.Some? && IsPackaged(tsc.path.value) {
        if manifest.main == tsc.path || manifest.typings == tsc.path {
          m := m.(identifier := env.createNpm(manifest.name, None, tsc.name));
        } else {
          m := m.(identifier := env.createNpm(manifest.name, tsc.path, tsc.name));
        }
        m := m.(scheme := NpmScheme);
        EmitPackageInformation(m, env, sink);
      }
      sink.Emit(MonikerItem(m));
      if packageInformation.Some? {
        var id := NextId(env);
        sink.Emit(EdgeItem(Edge(id.value, PackageInformationLabel, m.id, packageInformation.value.id)));
      }
    }
  }
}
