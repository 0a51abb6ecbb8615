/**
 * The per-line dispatcher of lsif-npm: classifies each record by type,
 * label and moniker kind, hands it to the export or import linker, or
 * writes the original line back out untouched.
 */
module Dispatcher {
  import opened Lsif
  import opened Exports
  import opened Imports

  /** Both linkers' states; `exp` is `None` when no local manifest was found. */
  datatype Linkers = Linkers(exp: Option<ExportState>, imp: ImportState)

  predicate LinkersValid(s: Linkers) {
    && (s.exp.Some? ==> ExportValid(s.exp.value))
    && ImportValid(s.imp)
  }

  /** Records that none of the six routes takes: written back as the original line. */
  predicate IsVerbatim(el: Element) {
    || (el.EdgeElement? && el.edge.edgeLabel != MonikerLabel && el.edge.edgeLabel != PackageInformationLabel)
    || (el.VertexElement? && el.vertex.MonikerVertex? && el.vertex.moniker.kind == Local)
    || (el.VertexElement? && el.vertex.OtherVertex?)
  }

  predicate IsExportMoniker(el: Element) {
    el.VertexElement? && el.vertex.MonikerVertex? && el.vertex.moniker.kind == Export
  }

  /** The `line` callback for one input line. */
  function Step(env: Env, s: Linkers, x: Input): (r: (Linkers, seq<Item>))
    requires LinkersValid(s)
    ensures LinkersValid(r.0)
  {
    match x.element
    case UnknownElement => (s, [])
    case EdgeElement(e) =>
      if e.edgeLabel == MonikerLabel then
        var (imp, out) := OnMonikerEdge(s.imp, e);
        (s.(imp := imp), out)
      else if e.edgeLabel == PackageInformationLabel then
        var (imp, out) := OnPackageInformationEdge(env, s.imp, e);
        (s.(imp := imp), out)
      else (s, [LineItem(x.line)])
    case VertexElement(v) =>
      match v
      case MonikerVertex(m) =>
        (match m.kind
         case Import =>
           var (imp, out) := OnMoniker(s.imp, m);
           (s.(imp := imp), out)
         case Export =>
           if s.exp.Some? then
             var (exp, out) := ExportStep(env, s.exp.value, m);
             (s.(exp := Some(exp)), out)
           else (s, [])
         case Local => (s, [LineItem(x.line)]))
      case PackageInformationVertex(info) =>
        var (imp, out) := OnPackageInformation(s.imp, info);
        (s.(imp := imp), out)
      case OtherVertex(_, _) => (s, [LineItem(x.line)])
  }

  /**
   * Routing: unknown records and export monikers without an export linker
   * are dropped, records no route takes are written back verbatim, each
   * route touches only its own linker, and the import linker's caches only
   * grow.
   */
  lemma StepRoutes(env: Env, s: Linkers, x: Input)
    requires LinkersValid(s)
    ensures var r := Step(env, s, x);
            && r.0.exp.Some? == s.exp.Some?
            && (IsVerbatim(x.element) ==> r == (s, [LineItem(x.line)]))
            && (x.element.UnknownElement? ==> r == (s, []))
            && (IsExportMoniker(x.element) && s.exp.None? ==> r == (s, []))
            && (!IsExportMoniker(x.element) ==> r.0.exp == s.exp)
            && (IsExportMoniker(x.element) ==> r.0.imp == s.imp)
    ensures var r := Step(env, s, x);
            && s.imp.packageInfos.Keys <= r.0.imp.packageInfos.Keys
            && forall k :: k in s.imp.packageJsons ==> k in r.0.imp.packageJsons && r.0.imp.packageJsons[k] == s.imp.packageJsons[k]
  {
  }

  /** The linkers and the output after every line of `xs`, in order. */
  function Run(env: Env, s: Linkers, xs: seq<Input>): (r: (Linkers, seq<Item>))
    requires LinkersValid(s)
    ensures LinkersValid(r.0)
    decreases |xs|
  {
    if xs == [] then (s, [])
    else
      var before := Run(env, s, xs[..|xs| - 1]);
      var last := Step(env, before.0, xs[|xs| - 1]);
      (last.0, before.1 + last.1)
  }

  /** `Run` over one more line: the state and output of one more `Step`. */
  lemma RunSnoc(env: Env, s: Linkers, xs: seq<Input>, x: Input)
    requires LinkersValid(s)
    ensures Run(env, s, xs + [x]).0 == Step(env, Run(env, s, xs).0, x).0
    ensures Run(env, s, xs + [x]).1 == Run(env, s, xs).1 + Step(env, Run(env, s, xs).0, x).1
  {
    assert (xs + [x])[..|xs|] == xs;
  }

  lemma {:induction false} RunAppendState(env: Env, s: Linkers, a: seq<Input>, b: seq<Input>)
    requires LinkersValid(s)
    ensures Run(env, s, a + b).0 == Run(env, Run(env, s, a).0, b).0
    decreases |b|
  {
    if b == [] {
      assert a + b == a;
    } else {
      var b', x := b[..|b| - 1], b[|b| - 1];
      assert a + b == (a + b') + [x];
      assert b == b' + [x];
      RunAppendState(env, s, a, b');
      RunSnoc(env, s, a + b', x);
      RunSnoc(env, Run(env, s, a).0, b', x);
    }
  }

  lemma {:induction false} RunAppendOutput(env: Env, s: Linkers, a: seq<Input>, b: seq<Input>)
    requires LinkersValid(s)
    ensures Run(env, s, a + b).1 == Run(env, s, a).1 + Run(env, Run(env, s, a).0, b).1
    decreases |b|
  {
    if b == [] {
      assert a + b == a;
    } else {
      var b', x := b[..|b| - 1], b[|b| - 1];
      assert a + b == (a + b') + [x];
      assert b == b' + [x];
      var s1 := Run(env, s, a).0;
      RunAppendOutput(env, s, a, b');
      RunAppendState(env, s, a, b');
      RunSnoc(env, s, a + b', x);
      RunSnoc(env, s1, b', x);
      ConcatAssociates(Run(env, s, a).1, Run(env, s1, b').1, Step(env, Run(env, s1, b').0, x).1);
    }
  }

  lemma ConcatAssociates(a: seq<Item>, b: seq<Item>, c: seq<Item>)
    ensures a + b + c == a + (b + c)
  {
  }

  lemma PrefixGrows(xs: seq<Input>, i: nat)
    requires i < |xs|
    ensures xs[..i + 1] == xs[..i] + [xs[i]]
  {
  }

  /** Running `a` then `b` is running `a + b`. */
  lemma RunAppend(env: Env, s: Linkers, a: seq<Input>, b: seq<Input>)
    requires LinkersValid(s)
    ensures Run(env, s, a + b).0 == Run(env, Run(env, s, a).0, b).0
    ensures Run(env, s, a + b).1 == Run(env, s, a).1 + Run(env, Run(env, s, a).0, b).1
  {
    RunAppendState(env, s, a, b);
    RunAppendOutput(env, s, a, b);
  }

  /**
   * Passthrough identity: a stream of records that no route takes comes
   * out as the very same lines, and no linker state changes.
   */
  lemma {:induction false} VerbatimRecordsPassThrough(env: Env, s: Linkers, xs: seq<Input>)
    requires LinkersValid(s)
    requires forall j :: 0 <= j < |xs| ==> IsVerbatim(xs[j].element)
    ensures Run(env, s, xs).0 == s
    ensures |Run(env, s, xs).1| == |xs|
    ensures forall j :: 0 <= j < |xs| ==> Run(env, s, xs).1[j] == LineItem(xs[j].line)
    decreases |xs|
  {
    if xs != [] {
      var xs', x := xs[..|xs| - 1], xs[|xs| - 1];
      assert xs == xs' + [x];
      VerbatimRecordsPassThrough(env, s, xs');
      RunSnoc(env, s, xs', x);
      StepRoutes(env, s, x);
    }
  }

  /**
   * Package information and memoised manifests (failures included) are
   * never dropped: once a manifest lookup is cached, it is never repeated.
   */
  lemma {:induction false} CachesOnlyGrow(env: Env, s: Linkers, xs: seq<Input>)
    requires LinkersValid(s)
    ensures var s' := Run(env, s, xs).0;
            && s.imp.packageInfos.Keys <= s'.imp.packageInfos.Keys
            && forall k :: k in s.imp.packageJsons ==> k in s'.imp.packageJsons && s'.imp.packageJsons[k] == s.imp.packageJsons[k]
    decreases |xs|
  {
    if xs != [] {
      CachesOnlyGrow(env, s, xs[..|xs| - 1]);
      StepRoutes(env, Run(env, s, xs[..|xs| - 1]).0, xs[|xs| - 1]);
    }
  }

  predicate IsMonikerVertexWithId(x: Input, id: Id) {
    x.element.VertexElement? && x.element.vertex.MonikerVertex? && x.element.vertex.moniker.id == id
  }

  /** `x` is a moniker edge into `id` or a packageInformation edge out of `id`. */
  predicate Resolves(x: Input, id: Id) {
    && x.element.EdgeElement?
    && ((x.element.edge.edgeLabel == MonikerLabel && x.element.edge.inV == id)
        || (x.element.edge.edgeLabel == PackageInformationLabel && x.element.edge.outV == id))
  }

  predicate ResolvedIn(xs: seq<Input>, id: Id) {
    exists j :: 0 <= j < |xs| && Resolves(xs[j], id)
  }

  lemma ResolvedInSnoc(xs: seq<Input>, y: Input, id: Id)
    ensures ResolvedIn(xs + [y], id) <==> ResolvedIn(xs, id) || Resolves(y, id)
  {
    var ys := xs + [y];
    if ResolvedIn(xs, id) {
      var j :| 0 <= j < |xs| && Resolves(xs[j], id);
      assert ys[j] == xs[j];
    }
    if Resolves(y, id) {
      assert ys[|xs|] == y;
    }
    if ResolvedIn(ys, id) && !Resolves(y, id) {
      var j :| 0 <= j < |ys| && Resolves(ys[j], id);
      assert j < |xs| && xs[j] == ys[j];
    }
  }

  /** One line either releases the pending moniker `id` once, or leaves it alone. */
  lemma StepTracksPending(env: Env, s: Linkers, x: Input, id: Id)
    requires LinkersValid(s) && !IsMonikerVertexWithId(x, id)
    ensures var r := Step(env, s, x);
            && (id in r.0.imp.monikers <==> id in s.imp.monikers && !Resolves(x, id))
            && MonikerCount(r.1, id) == if id in s.imp.monikers && Resolves(x, id) then 1 else 0
  {
    match x.element
    case UnknownElement =>
    case EdgeElement(e) =>
      if e.edgeLabel == MonikerLabel {
        MonikerEdgeReleases(env, s.imp, e, id);
      } else if e.edgeLabel == PackageInformationLabel {
        PackageInformationEdgeReleases(env, s.imp, e, id);
      } else {
        assert Step(env, s, x).1 == [LineItem(x.line)];
      }
    case VertexElement(v) =>
      match v
      case MonikerVertex(m) =>
        if m.kind == Export && s.exp.Some? {
          ExportStepEmitsOnlyItsMoniker(env, s.exp.value, m, id);
        } else if m.kind == Local {
          assert Step(env, s, x).1 == [LineItem(x.line)];
        }
      case PackageInformationVertex(info) =>
        assert Step(env, s, x).1 == [VertexItem(PackageInformationVertex(info))];
      case OtherVertex(_, _) =>
        assert Step(env, s, x).1 == [LineItem(x.line)];
  }

  /**
   * Over any stream that holds no moniker vertex with id `id`, a pending
   * moniker `id` is emitted once if some resolving edge arrives and never
   * otherwise, and stays pending exactly when none arrives.
   */
  lemma {:induction false} RunTracksPending(env: Env, s: Linkers, xs: seq<Input>, id: Id)
    requires LinkersValid(s)
    requires forall j :: 0 <= j < |xs| ==> !IsMonikerVertexWithId(xs[j], id)
    ensures var r := Run(env, s, xs);
            && (id in r.0.imp.monikers <==> id in s.imp.monikers && !ResolvedIn(xs, id))
            && MonikerCount(r.1, id) == if id in s.imp.monikers && ResolvedIn(xs, id) then 1 else 0
    decreases |xs|
  {
    if xs != [] {
      var xs', y := xs[..|xs| - 1], xs[|xs| - 1];
      assert xs == xs' + [y];
      RunTracksPending(env, s, xs', id);
      var r1 := Run(env, s, xs');
      RunSnoc(env, s, xs', y);
      StepTracksPending(env, r1.0, y, id);
      MonikerCountAppend(r1.1, Step(env, r1.0, y).1, id);
      ResolvedInSnoc(xs', y, id);
    }
  }

  /** The export monikers of `xs`, in stream order. */
  function ExportMonikers(xs: seq<Input>): (ms: seq<Moniker>)
    ensures |ms| <= |xs|
    ensures forall i :: 0 <= i < |ms| ==> ms[i].kind == Export
    decreases |xs|
  {
    if xs == [] then []
    else
      var x := xs[|xs| - 1];
      ExportMonikers(xs[..|xs| - 1]) + if IsExportMoniker(x.element) then [x.element.vertex.moniker] else []
  }

  /**
   * The line callback drives the export linker exactly as calling
   * `handleMoniker` on the stream's export monikers in turn would, and
   * leaves a missing export linker missing.
   */
  lemma {:induction false} RunDrivesExportLinker(env: Env, s: Linkers, xs: seq<Input>)
    requires LinkersValid(s)
    ensures Run(env, s, xs).0.exp.Some? == s.exp.Some?
    ensures s.exp.Some? ==> Run(env, s, xs).0.exp == Some(ExportRun(env, s.exp.value, ExportMonikers(xs)).0)
    decreases |xs|
  {
    if xs != [] {
      var xs', y := xs[..|xs| - 1], xs[|xs| - 1];
      assert xs == xs' + [y];
      RunDrivesExportLinker(env, s, xs');
      var r1 := Run(env, s, xs');
      RunSnoc(env, s, xs', y);
      StepRoutes(env, r1.0, y);
      if s.exp.Some? {
        var ms := ExportMonikers(xs);
        if IsExportMoniker(y.element) {
          var m := y.element.vertex.moniker;
          assert ms == ExportMonikers(xs') + [m];
          assert ms[..|ms| - 1] == ExportMonikers(xs');
          assert Step(env, r1.0, y).0.exp == Some(ExportStep(env, r1.0.exp.value, m).0);
        } else {
          assert ms == ExportMonikers(xs');
        }
      }
    }
  }

  /**
   * One line that is not a moniker vertex with id `id` leaves the moniker
   * pending under `id` as it was, and whatever it emits with id `id` is a
   * release of that pending moniker.
   */
  lemma StepReleases(env: Env, s: Linkers, x: Input, id: Id)
    requires LinkersValid(s) && !IsMonikerVertexWithId(x, id)
    ensures var r := Step(env, s, x);
            && (id in r.0.imp.monikers ==> id in s.imp.monikers && r.0.imp.monikers[id] == s.imp.monikers[id])
            && forall i :: 0 <= i < |r.1| ==> ReleasedFrom(env, s.imp.monikers, id, r.1[i])
  {
    match x.element
    case UnknownElement =>
    case EdgeElement(e) =>
      if e.edgeLabel == MonikerLabel {
        MonikerEdgeReleases(env, s.imp, e, id);
      } else if e.edgeLabel == PackageInformationLabel {
        PackageInformationEdgeReleases(env, s.imp, e, id);
      } else {
        assert Step(env, s, x).1 == [LineItem(x.line)];
      }
    case VertexElement(v) =>
      match v
      case MonikerVertex(m) =>
        if m.kind == Export && s.exp.Some? {
          ExportStepEmitsOnlyItsMoniker(env, s.exp.value, m, id);
        } else if m.kind == Local {
          assert Step(env, s, x).1 == [LineItem(x.line)];
        }
      case PackageInformationVertex(info) =>
        assert Step(env, s, x).1 == [VertexItem(PackageInformationVertex(info))];
      case OtherVertex(_, _) =>
        assert Step(env, s, x).1 == [LineItem(x.line)];
  }

  /**
   * Over any stream that holds no moniker vertex with id `id`, the moniker
   * pending under `id` keeps its value while it stays pending, and every
   * item the stream emits with id `id` is a release of it.
   */
  lemma {:induction false} RunReleases(env: Env, s: Linkers, xs: seq<Input>, id: Id)
    requires LinkersValid(s)
    requires forall j :: 0 <= j < |xs| ==> !IsMonikerVertexWithId(xs[j], id)
    ensures var r := Run(env, s, xs);
            && (id in r.0.imp.monikers ==> id in s.imp.monikers && r.0.imp.monikers[id] == s.imp.monikers[id])
            && forall i :: 0 <= i < |r.1| ==> ReleasedFrom(env, s.imp.monikers, id, r.1[i])
    decreases |xs|
  {
    if xs != [] {
      var xs', y := xs[..|xs| - 1], xs[|xs| - 1];
      assert xs == xs' + [y];
      RunReleases(env, s, xs', id);
      var r1 := Run(env, s, xs');
      RunSnoc(env, s, xs', y);
      StepReleases(env, r1.0, y, id);
      var out := Step(env, r1.0, y).1;
      forall i | 0 <= i < |r1.1 + out|
        ensures ReleasedFrom(env, s.imp.monikers, id, (r1.1 + out)[i])
      {
        if i >= |r1.1| {
          assert ReleasedFrom(env, r1.0.imp.monikers, id, out[i - |r1.1|]);
        }
      }
    }
  }

  /**
   * What is emitted for an import moniker vertex whose id no other moniker
   * vertex in the stream shares: nothing before it arrives, and afterwards
   * only the moniker itself or its `npm` rewrite.
   */
  lemma ImportMonikerEmittedAsRelease(
    env: Env, s: Linkers, before: seq<Input>, line: string, m: Moniker, after: seq<Input>)
    requires LinkersValid(s) && m.id !in s.imp.monikers && m.kind == Import
    requires forall j :: 0 <= j < |before| ==> !IsMonikerVertexWithId(before[j], m.id)
    requires forall j :: 0 <= j < |after| ==> !IsMonikerVertexWithId(after[j], m.id)
    ensures var out := Run(env, s, before + [Input(line, VertexElement(MonikerVertex(m)))] + after).1;
            forall i :: 0 <= i < |out| && IsMonikerItemWithId(out[i], m.id) ==> IsReleaseOf(env, m, out[i].vertex.moniker)
    ensures MonikerCount(Run(env, s, before).1, m.id) == 0
  {
    var v := Input(line, VertexElement(MonikerVertex(m)));
    var r1 := Run(env, s, before);
    RunReleases(env, s, before, m.id);
    RunTracksPending(env, s, before, m.id);
    RunSnoc(env, s, before, v);
    var r2 := Step(env, r1.0, v);
    assert r2.1 == [] && r2.0.imp.monikers[m.id] == m;
    RunReleases(env, r2.0, after, m.id);
    RunAppend(env, s, before + [v], after);
    ReleasesConcat(env, s.imp.monikers, r2.0.imp.monikers, m, r1.1, Run(env, r2.0, after).1);
    assert r1.1 + r2.1 == r1.1;
  }

  /**
   * Exactly-once emission: an import moniker vertex whose id no other
   * moniker vertex in the stream shares is emitted once when a moniker edge
   * or a packageInformation edge referring to it follows it, whichever comes
   * first, and never when none does.
   */
  lemma ImportMonikerEmittedExactlyOnce(
    env: Env, s: Linkers, before: seq<Input>, line: string, m: Moniker, after: seq<Input>)
    requires LinkersValid(s) && m.id !in s.imp.monikers && m.kind == Import
    requires forall j :: 0 <= j < |before| ==> !IsMonikerVertexWithId(before[j], m.id)
    requires forall j :: 0 <= j < |after| ==> !IsMonikerVertexWithId(after[j], m.id)
    ensures var xs := before + [Input(line, VertexElement(MonikerVertex(m)))] + after;
            MonikerCount(Run(env, s, xs).1, m.id) == if ResolvedIn(after, m.id) then 1 else 0
  {
    var v := Input(line, VertexElement(MonikerVertex(m)));
    var r1 := Run(env, s, before);
    RunTracksPending(env, s, before, m.id);
    RunSnoc(env, s, before, v);
    var r2 := Step(env, r1.0, v);
    assert r2.1 == [] && m.id in r2.0.imp.monikers;
    MonikerCountAppend(r1.1, r2.1, m.id);
    RunTracksPending(env, r2.0, after, m.id);
    RunAppend(env, s, before + [v], after);
    MonikerCountAppend(r1.1 + r2.1, Run(env, r2.0, after).1, m.id);
  }

  function ExportStateOf(linker: ExportLinker?): Option<ExportState>
    reads linker
  {
    if linker == null then None else Some(linker.State())
  }

  /** The `line` callback, on the linker objects. */
  method Dispatch(x: Input, exportLinker: ExportLinker?, importLinker: ImportLinker, sink: Sink, env: Env)
    requires exportLinker != null ==> exportLinker.Valid()
    requires importLinker.Valid()
    modifies exportLinker, importLinker, sink
    ensures exportLinker != null ==> exportLinker.Valid()
    ensures importLinker.Valid() && old(importLinker.readLog) <= importLinker.readLog
    ensures var r := Step(env, Linkers(old(ExportStateOf(exportLinker)), old(importLinker.State())), x);
            && Linkers(ExportStateOf(exportLinker), importLinker.State()) == r.0
            && sink.items == old(sink.items) + r.1
  {
    match x.element
    case UnknownElement =>
    case EdgeElement(e) =>
      if e.edgeLabel == MonikerLabel {
        importLinker.HandleMonikerEdge(e, sink);
      } else if e.edgeLabel == PackageInformationLabel {
        importLinker.HandlePackageInformationEdge(e, env, sink);
      } else {
        sink.Emit(LineItem(x.line));
      }
    case VertexElement(v) =>
      match v
      case MonikerVertex(m) =>
        match m.kind {
          case Import =>
            importLinker.HandleMoniker(m);
          case Export =>
            if exportLinker != null {
              exportLinker.HandleMoniker(m, env, sink);
            }
          case Local =>
            sink.Emit(LineItem(x.line));
        }
      case PackageInformationVertex(info) =>
        importLinker.HandlePackageInformation(info, sink);
      case OtherVertex(_, _) =>
        sink.Emit(LineItem(x.line));
  }

  /**
   * Reads the stream line by line. The output is that of `Run`, and the
   * import linker's invariant keeps every manifest read to at most once per
   * packageInformation id over the whole stream.
   */
  method Process(inputs: seq<Input>, exportLinker: ExportLinker?, importLinker: ImportLinker, sink: Sink, env: Env)
    requires exportLinker != null ==> exportLinker.Valid()
    requires importLinker.Valid()
    modifies exportLinker, importLinker, sink
    ensures exportLinker != null ==> exportLinker.Valid()
    ensures importLinker.Valid() && old(importLinker.readLog) <= importLinker.readLog
    ensures var r := Run(env, Linkers(old(ExportStateOf(exportLinker)), old(importLinker.State())), inputs);
            && Linkers(ExportStateOf(exportLinker), importLinker.State()) == r.0
            && sink.items == old(sink.items) + r.1
  {
    ghost var s0 := Linkers(ExportStateOf(exportLinker), importLinker.State());
    ghost var out0 := sink.items;
    var i := 0;
    while i < |inputs|
      invariant 0 <= i <= |inputs|
      invariant exportLinker != null ==> exportLinker.Valid()
      invariant importLinker.Valid() && old(importLinker.readLog) <= importLinker.readLog
      invariant Linkers(ExportStateOf(exportLinker), importLinker.State()) == Run(env, s0, inputs[..i]).0
      invariant sink.items == out0 + Run(env, s0, inputs[..i]).1
    {
      ghost var before := Run(env, s0, inputs[..i]);
      Dispatch(inputs[i], exportLinker, importLinker, sink, env);
      PrefixGrows(inputs, i);
      RunSnoc(env, s0, inputs[..i], inputs[i]);
      ConcatAssociates(out0, before.1, Step(env, before.0, inputs[i]).1);
      i := i + 1;
    }
    assert inputs[..i] == inputs;
  }
}
