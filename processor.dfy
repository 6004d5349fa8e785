/** The processor itself: the set of type names still waiting for their
    dependencies, kept across compilation rounds, and what each round writes
    and reports (`process`, `writeInjectionsForClass`, `getInjectedClassNames`
    of `InjectProcessor`). */
module Processor {
  import opened Host
  import opened Seqs
  import opened Classification
  import opened Adapters

  /** A source file handed to the `Filer`. */
  datatype Artifact = Adapter(adapter: InjectAdapter) | Statics(statics: StaticInjection)

  function ArtifactType(a: Artifact): string {
    if a.Adapter? then a.adapter.typeName else a.statics.typeName
  }

  // ---------------------------------------------------------------------------
  // Writing the injections for one class.

  /** An inject adapter is needed for a constructor or an instance field; a
      supertype alone does not make one. */
  predicate NeedsAdapter(c: InjectedClass) {
    c.ctor.Some? || c.fields != []
  }

  /** What `writeInjectionsForClass` leaves behind: the files written, and the
      file whose writing threw, if any. A write that throws leaves no file,
      and the exception skips the static injection after a failed adapter. */
  datatype Emission = Emission(artifacts: seq<Artifact>, failure: Option<SourceFile>)

  function EmissionOf(c: InjectedClass, failing: set<SourceFile>): Emission
    requires PackageConsistent(c.typeRecord)
  {
    var t := c.typeRecord;
    var adapterFile := SourceFile(InjectAdapterFile, t.name);
    var staticsFile := SourceFile(StaticInjectionFile, t.name);
    if NeedsAdapter(c) && adapterFile in failing then Emission([], Some(adapterFile))
    else
      var adapters := if NeedsAdapter(c) then [Adapter(InjectAdapterOf(t, c.ctor, c.fields))] else [];
      if c.staticFields == [] then Emission(adapters, None)
      else if staticsFile in failing then Emission(adapters, Some(staticsFile))
      else Emission(adapters + [Statics(StaticInjectionOf(t, c.staticFields))], None)
  }

  /** The adapter is written exactly when it is needed and its file can be
      written; the static injection exactly when there are static fields, its
      file can be written and no adapter write threw before it. */
  lemma EmissionDecisions(c: InjectedClass, failing: set<SourceFile>)
    requires PackageConsistent(c.typeRecord)
    ensures var e := EmissionOf(c, failing); var t := c.typeRecord;
      var adapterFails := NeedsAdapter(c) && SourceFile(InjectAdapterFile, t.name) in failing;
      && (Adapter(InjectAdapterOf(t, c.ctor, c.fields)) in e.artifacts <==> NeedsAdapter(c) && !adapterFails)
      && (Statics(StaticInjectionOf(t, c.staticFields)) in e.artifacts <==>
            c.staticFields != [] && !adapterFails && SourceFile(StaticInjectionFile, t.name) !in failing)
      && (e.failure.Some? <==>
            adapterFails || (c.staticFields != [] && SourceFile(StaticInjectionFile, t.name) in failing))
      && (e.failure.Some? ==> e.failure.value in failing && e.failure.value.typeName == t.name)
  {
    var t := c.typeRecord;
    var adapter := Adapter(InjectAdapterOf(t, c.ctor, c.fields));
    var adapters := if NeedsAdapter(c) then [adapter] else [];
    var e := EmissionOf(c, failing);
    if NeedsAdapter(c) && SourceFile(InjectAdapterFile, t.name) in failing {
      assert e == Emission([], Some(SourceFile(InjectAdapterFile, t.name)));
    } else if c.staticFields == [] {
      assert e == Emission(adapters, None);
    } else if SourceFile(StaticInjectionFile, t.name) in failing {
      assert e == Emission(adapters, Some(SourceFile(StaticInjectionFile, t.name)));
    } else {
      assert e == Emission(adapters + [Statics(StaticInjectionOf(t, c.staticFields))], None);
    }
  }

  /** At most one file of each kind is written, all of them for the class's own type. */
  lemma EmissionArtifactsOwn(c: InjectedClass, failing: set<SourceFile>)
    requires PackageConsistent(c.typeRecord)
    ensures var e := EmissionOf(c, failing);
      && |e.artifacts| <= 2
      && (forall a :: a in e.artifacts ==> ArtifactType(a) == c.typeRecord.name)
      && (|e.artifacts| == 2 ==> e.artifacts[0].Adapter? && e.artifacts[1].Statics?)
  {
    var t := c.typeRecord;
    var ad := InjectAdapterOf(t, c.ctor, c.fields);
    var st := StaticInjectionOf(t, c.staticFields);
    assert ArtifactType(Adapter(ad)) == t.name;
    assert ArtifactType(Statics(st)) == t.name;
    var adapters := if NeedsAdapter(c) then [Adapter(ad)] else [];
    var e := EmissionOf(c, failing);
    if NeedsAdapter(c) && SourceFile(InjectAdapterFile, t.name) in failing {
      assert e.artifacts == [];
    } else if c.staticFields == [] || SourceFile(StaticInjectionFile, t.name) in failing {
      assert e.artifacts == adapters;
    } else {
      assert e.artifacts == adapters + [Statics(st)];
    }
  }

  // ---------------------------------------------------------------------------
  // One round over the pending names.

  /** A name stays pending when some type its class refers to is unresolved. */
  predicate StillPending(table: SymbolTable, n: string) {
    n in table ==> !Ready(Classify(table[n]).injected)
  }

  /** A diagnostic whose message names the failed write of `f`, at the type. */
  function FailureReport(n: string, failure: Option<SourceFile>): seq<Diagnostic> {
    if failure.Some? then [Diagnostic(CodeGenFailed(n, failure.value), AtType(n))] else []
  }

  /** What visiting one pending name does: classify it (reporting its errors),
      and, when it is ready, write its files and report a failed write. */
  datatype Visit = Visit(ready: bool, diagnostics: seq<Diagnostic>, artifacts: seq<Artifact>)

  function VisitOf(table: SymbolTable, failing: set<SourceFile>, n: string): Visit
    requires Covers(table, [n])
  {
    var c := Classify(table[n]);
    if !Ready(c.injected) then Visit(false, c.errors, [])
    else
      var e := EmissionOf(c.injected, failing);
      Visit(true, c.errors + FailureReport(n, e.failure), e.artifacts)
  }

  /** The names kept, the diagnostics reported and the files written by a
      round that visits `pending` in order. */
  datatype RoundResult = RoundResult(kept: seq<string>, diagnostics: seq<Diagnostic>, artifacts: seq<Artifact>)

  function Round(table: SymbolTable, failing: set<SourceFile>, pending: seq<string>): RoundResult
    requires Covers(table, pending)
    decreases |pending|
  {
    if pending == [] then RoundResult([], [], [])
    else
      var init, n := pending[..|pending| - 1], pending[|pending| - 1];
      assert forall x :: x in init ==> x in pending;
      var r := Round(table, failing, init);
      var v := VisitOf(table, failing, n);
      RoundResult(r.kept + (if v.ready then [] else [n]), r.diagnostics + v.diagnostics, r.artifacts + v.artifacts)
  }

  /** The error reported when processing is over and names are still
      pending: exactly one, listing them all. */
  function FinalReport(processingOver: bool, kept: seq<string>): (r: seq<Diagnostic>)
    ensures |r| == (if processingOver && kept != [] then 1 else 0)
    ensures r != [] ==> r[0] == Diagnostic(MissingTypes(kept), NoSite)
  {
    if processingOver && kept != [] then [Diagnostic(MissingTypes(kept), NoSite)] else []
  }

  lemma CoversPrefix(table: SymbolTable, pending: seq<string>, k: nat)
    requires Covers(table, pending) && k <= |pending|
    ensures Covers(table, pending[..k])
  {
    assert forall x :: x in pending[..k] ==> x in pending;
  }

  /** A round over one more name adds that name's visit. */
  lemma RoundStep(table: SymbolTable, failing: set<SourceFile>, pending: seq<string>, j: nat)
    requires Covers(table, pending) && j < |pending|
    ensures Covers(table, pending[..j]) && Covers(table, pending[..j + 1]) && Covers(table, [pending[j]])
    ensures var r := Round(table, failing, pending[..j]); var v := VisitOf(table, failing, pending[j]);
      && Round(table, failing, pending[..j + 1]).kept == (if v.ready then r.kept else r.kept + [pending[j]])
      && Round(table, failing, pending[..j + 1]).diagnostics == r.diagnostics + v.diagnostics
      && Round(table, failing, pending[..j + 1]).artifacts == r.artifacts + v.artifacts
  {
    CoversPrefix(table, pending, j);
    CoversPrefix(table, pending, j + 1);
    assert pending[..j + 1][..j] == pending[..j];
  }

  /** Removing, or stepping over, the first of the names not yet visited. */
  lemma RemoveAt<T>(s: seq<T>, kept: seq<T>, pending: seq<T>, j: nat)
    requires j < |pending| && s == kept + pending[j..]
    ensures |kept| < |s| && s[|kept|] == pending[j]
    ensures s[..|kept|] + s[|kept| + 1..] == kept + pending[j + 1..]
    ensures s == (kept + [pending[j]]) + pending[j + 1..]
  {
    assert s[..|kept|] == kept;
    assert s[|kept| + 1..] == pending[j + 1..];
  }

  /** Appending to a log that extends `s0` by `log`. */
  lemma Extend<T>(s0: seq<T>, s: seq<T>, s': seq<T>, log: seq<T>, add: seq<T>)
    requires s == s0 + log && s' == s + add
    ensures s' == s0 + (log + add)
  {
  }

  /** A round keeps exactly the names that are not ready, in their order. */
  lemma {:induction false} RoundKept(table: SymbolTable, failing: set<SourceFile>, pending: seq<string>)
    requires Covers(table, pending)
    ensures Round(table, failing, pending).kept == Filter(pending, n => StillPending(table, n))
    decreases |pending|
  {
    if pending != [] {
      var init, n := pending[..|pending| - 1], pending[|pending| - 1];
      CoversPrefix(table, pending, |pending| - 1);
      RoundKept(table, failing, init);
      assert pending == init + [n];
      FilterAppend(init, [n], x => StillPending(table, x));
      FilterSingleton(n, x => StillPending(table, x));
    }
  }

  /** The kept names are duplicate-free and keep their relative order; every
      ready name is removed and every other one kept. */
  lemma RoundKeepsOrder(table: SymbolTable, failing: set<SourceFile>, pending: seq<string>)
    requires Covers(table, pending) && NoDuplicates(pending)
    ensures var kept := Round(table, failing, pending).kept;
      && NoDuplicates(kept)
      && InOrderOf(pending, kept)
      && (forall n :: n in kept <==> n in pending && !Ready(Classify(table[n]).injected))
  {
    var p := n => StillPending(table, n);
    RoundKept(table, failing, pending);
    FilterNoDuplicates(pending, p);
    FilterKeepsOrder(pending, p);
    FilterMembers(pending, p);
  }

  /** When every pending class is ready, nothing is kept. */
  lemma RoundAllReady(table: SymbolTable, failing: set<SourceFile>, pending: seq<string>)
    requires Covers(table, pending)
    requires forall i :: 0 <= i < |pending| ==> Ready(Classify(table[pending[i]]).injected)
    ensures Round(table, failing, pending).kept == []
  {
    RoundKept(table, failing, pending);
    FilterNone(pending, n => StillPending(table, n));
  }

  /** Files are written only for pending names that are ready. */
  lemma {:induction false} RoundArtifactsForReadyNames(table: SymbolTable, failing: set<SourceFile>, pending: seq<string>)
    requires Covers(table, pending)
    ensures forall a :: a in Round(table, failing, pending).artifacts ==>
      ArtifactType(a) in pending && Ready(Classify(table[ArtifactType(a)]).injected)
    decreases |pending|
  {
    if pending != [] {
      var init, n := pending[..|pending| - 1], pending[|pending| - 1];
      CoversPrefix(table, pending, |pending| - 1);
      RoundArtifactsForReadyNames(table, failing, init);
      var c := Classify(table[n]);
      if Ready(c.injected) {
        EmissionArtifactsOwn(c.injected, failing);
      }
      assert forall x :: x in init ==> x in pending;
    }
  }

  /** Conversely, every file a ready pending name's emission produces is
      written by the round. */
  lemma {:induction false} RoundWritesReadyNames(table: SymbolTable, failing: set<SourceFile>, pending: seq<string>, n: string)
    requires Covers(table, pending) && n in pending && Ready(Classify(table[n]).injected)
    ensures forall a :: a in EmissionOf(Classify(table[n]).injected, failing).artifacts ==>
      a in Round(table, failing, pending).artifacts
    decreases |pending|
  {
    var init, m := pending[..|pending| - 1], pending[|pending| - 1];
    assert pending == init + [m];
    CoversPrefix(table, pending, |pending| - 1);
    if m == n {
      assert VisitOf(table, failing, n).artifacts == EmissionOf(Classify(table[n]).injected, failing).artifacts;
    } else {
      assert n in init;
      RoundWritesReadyNames(table, failing, init, n);
    }
  }

  /** A failed write is reported, naming the type and the file, exactly for
      the ready names whose emission threw; such a name is still removed. */
  lemma {:induction false} RoundReportsFailedWrites(table: SymbolTable, failing: set<SourceFile>, pending: seq<string>, n: string, f: SourceFile)
    requires Covers(table, pending)
    ensures Diagnostic(CodeGenFailed(n, f), AtType(n)) in Round(table, failing, pending).diagnostics <==>
      n in pending && Ready(Classify(table[n]).injected)
      && EmissionOf(Classify(table[n]).injected, failing).failure == Some(f)
    decreases |pending|
  {
    if pending != [] {
      var init, m := pending[..|pending| - 1], pending[|pending| - 1];
      CoversPrefix(table, pending, |pending| - 1);
      RoundReportsFailedWrites(table, failing, init, n, f);
      ClassifyErrorsStructural(table[m]);
      var d := Diagnostic(CodeGenFailed(n, f), AtType(n));
      assert !IsClassificationError(d);
      assert pending == init + [m];
    }
  }

  /** Every ready name leaves the round even when its write failed. */
  lemma FailedWriteStillRemoved(table: SymbolTable, failing: set<SourceFile>, pending: seq<string>, n: string)
    requires Covers(table, pending) && n in pending
    requires Ready(Classify(table[n]).injected)
    requires EmissionOf(Classify(table[n]).injected, failing).failure.Some?
    ensures n !in Round(table, failing, pending).kept
    ensures Diagnostic(CodeGenFailed(n, EmissionOf(Classify(table[n]).injected, failing).failure.value), AtType(n))
      in Round(table, failing, pending).diagnostics
  {
    RoundKept(table, failing, pending);
    FilterMembers(pending, n => StillPending(table, n));
    RoundReportsFailedWrites(table, failing, pending, n, EmissionOf(Classify(table[n]).injected, failing).failure.value);
  }

  /** Constructor errors do not stop code generation: a ready class with a
      second `@Inject` constructor, or with one on an abstract type, has that
      error reported and its adapter still written, with the last annotated
      constructor. `cs` are the type's annotated constructors and `v` what
      visiting it does. */
  lemma ReportedConstructorStillWritten(table: SymbolTable, failing: set<SourceFile>, n: string,
                                        t: TypeRecord, cs: seq<Element>, v: Visit)
    requires Covers(table, [n]) && t == table[n] && cs == Filter(t.members, IsInjectConstructor)
    requires |cs| >= 2 || (t.isAbstract && cs != [])
    requires Ready(Classify(t).injected)
    requires SourceFile(InjectAdapterFile, n) !in failing
    requires v == VisitOf(table, failing, n)
    ensures v.ready
    ensures |cs| >= 2 ==> Diagnostic(TooManyConstructors(n), AtMember(cs[1])) in v.diagnostics
    ensures t.isAbstract ==> Diagnostic(AbstractConstructor(n), AtMember(cs[0])) in v.diagnostics
    ensures Adapter(InjectAdapterOf(t, Some(cs[|cs| - 1]), Filter(t.members, IsInjectInstanceField))) in v.artifacts
  {
    var c := Classify(t);
    ReportedConstructorKept(t, cs);
    ClassifyMembers(t);
    var e := EmissionOf(c.injected, failing);
    assert v == Visit(true, c.errors + FailureReport(n, e.failure), e.artifacts);
    EmissionDecisions(c.injected, failing);
  }

  // ---------------------------------------------------------------------------
  // Discovering the annotated types of a round.

  /** An `@Inject`-annotated element the round reports, with the raw name of
      the type that encloses it. */
  datatype AnnotatedElement = AnnotatedElement(element: Element, enclosingType: string)

  /** What the processor reads from a `RoundEnvironment`. */
  datatype RoundEnv = RoundEnv(annotated: seq<AnnotatedElement>, processingOver: bool)

  function Owners(env: RoundEnv): seq<string> {
    seq(|env.annotated|, i requires 0 <= i < |env.annotated| => env.annotated[i].enclosingType)
  }

  /** `getInjectedClassNames`: the enclosing types, once each, in order of
      first discovery. */
  method GetInjectedClassNames(env: RoundEnv) returns (names: seq<string>)
    ensures names == AddAll([], Owners(env))
  {
    var owners := Owners(env);
    names := [];
    for i := 0 to |env.annotated|
      invariant names == AddAll([], owners[..i])
    {
      var typeName := env.annotated[i].enclosingType;
      assert owners[..i + 1] == owners[..i] + [typeName];
      AddAllAppend([], owners[..i], [typeName]);
      if typeName !in names {
        names := names + [typeName];
      }
    }
    assert owners[..|owners|] == owners;
  }

  /** The discovered names are duplicate-free, each enclosing type occurs, and
      they follow the order in which the types are first met. */
  lemma DiscoveredNames(env: RoundEnv)
    ensures var names := AddAll([], Owners(env));
      && NoDuplicates(names)
      && (forall n :: n in names <==> exists i :: 0 <= i < |env.annotated| && env.annotated[i].enclosingType == n)
      && (forall i, j :: 0 <= i < j < |names| ==> IndexOf(Owners(env), names[i]) < IndexOf(Owners(env), names[j]))
  {
    AddAllNoDuplicates([], Owners(env));
    AddAllFirstDiscoveryOrder([], Owners(env));
    var o := Owners(env);
    forall n ensures n in o <==> exists i :: 0 <= i < |env.annotated| && env.annotated[i].enclosingType == n {
      if n in o {
        var i :| 0 <= i < |o| && o[i] == n;
        assert env.annotated[i].enclosingType == n;
      }
      if exists i :: 0 <= i < |env.annotated| && env.annotated[i].enclosingType == n {
        var i :| 0 <= i < |env.annotated| && env.annotated[i].enclosingType == n;
        assert o[i] == n;
      }
    }
  }

  /** The pending names after a round starts: the old ones, in their order,
      then the newly discovered ones, never a name twice. */
  lemma PendingUpdate(remaining: seq<string>, env: RoundEnv)
    requires NoDuplicates(remaining)
    ensures var pending := AddAll(remaining, AddAll([], Owners(env)));
      && pending == AddAll(remaining, Owners(env))
      && pending[..|remaining|] == remaining
      && NoDuplicates(pending)
      && (forall n :: n in pending <==> n in remaining || n in Owners(env))
      && (forall i, j :: |remaining| <= i < j < |pending| ==>
            IndexOf(Owners(env), pending[i]) < IndexOf(Owners(env), pending[j]))
  {
    AddAllDeduplicated(remaining, Owners(env));
    AddAllNoDuplicates(remaining, Owners(env));
    AddAllFirstDiscoveryOrder(remaining, Owners(env));
  }

  // ---------------------------------------------------------------------------
  // The processor object.

  class InjectProcessor {
    /** `remainingTypeNames`, a `LinkedHashSet` kept across rounds. */
    var remaining: seq<string>
    /** Everything printed to the `Messager`, in order. */
    var diagnostics: seq<Diagnostic>
    /** Everything written through the `Filer`, in order. */
    var artifacts: seq<Artifact>

    ghost predicate Valid()
      reads this
    {
      NoDuplicates(remaining)
    }

    constructor ()
      ensures Valid()
      ensures remaining == [] && diagnostics == [] && artifacts == []
    {
      remaining := [];
      diagnostics := [];
      artifacts := [];
    }

    /** `writeInjectionsForClass`: the adapter when needed, then the static
      injection when there are static fields; a failed write is returned as
      the exception would be thrown. */
    method WriteInjectionsForClass(c: InjectedClass, failing: set<SourceFile>) returns (failure: Option<SourceFile>)
      requires PackageConsistent(c.typeRecord)
      modifies this`artifacts
      ensures artifacts == old(artifacts) + EmissionOf(c, failing).artifacts
      ensures failure == EmissionOf(c, failing).failure
    {
      var t := c.typeRecord;
      if c.ctor.Some? || c.fields != [] {
        var file := SourceFile(InjectAdapterFile, t.name);
        if file in failing {
          return Some(file);
        }
        var adapter := WriteInjectAdapter(t, c.ctor, c.fields);
        artifacts := artifacts + [Adapter(adapter)];
      }
      if c.staticFields != [] {
        var file := SourceFile(StaticInjectionFile, t.name);
        if file in failing {
          return Some(file);
        }
        var statics := WriteStaticInjection(t, c.staticFields);
        artifacts := artifacts + [Statics(statics)];
      }
      return None;
    }

    /** One iteration of the loop of `process`: classify the class named
      `name`, check that its types are resolved and, if so, write it and
      report a failed write. Returns whether the name is to be removed. */
    method VisitName(name: string, table: SymbolTable, failing: set<SourceFile>) returns (ready: bool)
      requires Covers(table, [name])
      modifies this`diagnostics, this`artifacts
      ensures ready == VisitOf(table, failing, name).ready
      ensures diagnostics == old(diagnostics) + VisitOf(table, failing, name).diagnostics
      ensures artifacts == old(artifacts) + VisitOf(table, failing, name).artifacts
    {
      var injected, errors := GetInjectedClass(table[name]);
      diagnostics := diagnostics + errors;
      var missingDependentClasses := false;
      var ok := AllTypesExist(injected.fields);
      if !ok {
        missingDependentClasses := true;
      } else if injected.ctor.Some? {
        ok := AllTypesExist(injected.ctor.value.parameters);
        missingDependentClasses := !ok;
      }
      if !missingDependentClasses {
        ok := AllTypesExist(injected.staticFields);
        missingDependentClasses := !ok;
      }
      if !missingDependentClasses {
        var failure := WriteInjectionsForClass(injected, failing);
        if failure.Some? {
          diagnostics := diagnostics + [Diagnostic(CodeGenFailed(name, failure.value), AtType(name))];
        }
      }
      return !missingDependentClasses;
    }

    /** The state after the loop of `process` has visited the first `j` of the
      names `pending` it started from: the names kept so far, then the ones not
      yet visited, with the iterator `i` between them; the diagnostics and
      files of those `j` visits appended to `d0` and `a0`; no name twice. */
    ghost predicate RoundSoFar(table: SymbolTable, failing: set<SourceFile>, pending: seq<string>,
                               j: nat, i: nat, d0: seq<Diagnostic>, a0: seq<Artifact>)
      reads this
    {
      && j <= |pending| && Covers(table, pending[..j])
      && remaining == Round(table, failing, pending[..j]).kept + pending[j..]
      && i == |Round(table, failing, pending[..j]).kept|
      && diagnostics == d0 + Round(table, failing, pending[..j]).diagnostics
      && artifacts == a0 + Round(table, failing, pending[..j]).artifacts
      && Valid()
    }

    /** One iteration of the loop of `process`: visit the name at the
      iterator's position `i`, removing it when it is ready. `pending` is the
      list the loop started from and `j` the number of names already visited. */
    method VisitNext(table: SymbolTable, failing: set<SourceFile>, i: nat,
                     ghost pending: seq<string>, ghost j: nat, ghost d0: seq<Diagnostic>, ghost a0: seq<Artifact>)
      returns (next: nat)
      requires Covers(table, pending) && j < |pending|
      requires RoundSoFar(table, failing, pending, j, i, d0, a0)
      modifies this`remaining, this`diagnostics, this`artifacts
      ensures RoundSoFar(table, failing, pending, j + 1, next, d0, a0)
    {
      ghost var r := Round(table, failing, pending[..j]);
      RemoveAt(remaining, r.kept, pending, j);
      var name := remaining[i];
      RoundStep(table, failing, pending, j);
      ghost var d1, a1 := diagnostics, artifacts;
      var ready := VisitName(name, table, failing);
      Extend(d0, d1, diagnostics, r.diagnostics, VisitOf(table, failing, name).diagnostics);
      Extend(a0, a1, artifacts, r.artifacts, VisitOf(table, failing, name).artifacts);
      if ready {
        RemoveNoDuplicates(remaining, i);
        remaining := remaining[..i] + remaining[i + 1..];
        next := i;
      } else {
        next := i + 1;
      }
    }

    /** The loop of `process`: visit the pending names in order, removing
      through the iterator each one that is ready. */
    method VisitAll(table: SymbolTable, failing: set<SourceFile>)
      requires Valid()
      requires Covers(table, remaining)
      modifies this`remaining, this`diagnostics, this`artifacts
      ensures Valid()
      ensures var r := Round(table, failing, old(remaining));
        && remaining == r.kept
        && diagnostics == old(diagnostics) + r.diagnostics
        && artifacts == old(artifacts) + r.artifacts
    {
      ghost var pending := remaining;
      var i: nat := 0;
      ghost var j: nat := 0;
      assert pending[..0] == [];
      while i < |remaining|
        invariant RoundSoFar(table, failing, pending, j, i, old(diagnostics), old(artifacts))
        decreases |pending| - j
      {
        i := VisitNext(table, failing, i, pending, j, old(diagnostics), old(artifacts));
        j := j + 1;
      }
      assert |pending[j..]| == 0;
      assert pending[..j] == pending;
    }

    /** `process`: add the round's annotated types to the pending names, visit
      each pending name in order, writing and removing every ready one, and
      report what is left when processing is over. Files whose writing
      throws are `failing`. */
    method Process(env: RoundEnv, table: SymbolTable, failing: set<SourceFile>) returns (claimed: bool)
      requires Valid()
      requires Covers(table, remaining) && Covers(table, Owners(env))
      modifies this
      ensures Valid()
      ensures var pending := AddAll(old(remaining), Owners(env));
        var r := Round(table, failing, pending);
        && remaining == r.kept
        && diagnostics == old(diagnostics) + r.diagnostics + FinalReport(env.processingOver, r.kept)
        && artifacts == old(artifacts) + r.artifacts
      ensures claimed
    {
      var names := GetInjectedClassNames(env);
      PendingUpdate(remaining, env);
      remaining := AddAll(remaining, names);
      VisitAll(table, failing);
      if env.processingOver && remaining != [] {
        diagnostics := diagnostics + [Diagnostic(MissingTypes(remaining), NoSite)];
      }
      return true;
    }
  }
}
