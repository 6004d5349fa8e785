/** The two companion classes the processor generates, as records of what
    each declares: `writeInjectAdapter` (a `Binding` subclass that constructs
    and/or members-injects the type) and `writeStaticInjection` (a
    `StaticInjection` subclass that assigns the type's static fields). The
    Java text itself is not modelled; every declaration, statement argument
    and ordering the writer emits is. */
module Adapters {
  import opened Host
  import opened Seqs

  /** A binding key. `GeneratorKeys` renders these as strings; only their
      identity is modelled. */
  datatype Key =
    | ValueKey(qualifier: Option<string>, typeName: string)  // `GeneratorKeys.get`
    | MembersKey(rawTypeName: string)                        // `GeneratorKeys.rawMembersKey`

  /** The key of a field or parameter: its qualifier and its type. */
  function ElementKey(e: Element): Key {
    ValueKey(e.qualifier, e.typeName)
  }

  const BindingClass: string := "dagger.internal.Binding"
  const LinkerClass: string := "dagger.internal.Linker"
  const SetClass: string := "java.util.Set"
  const MembersInjectorClass: string := "dagger.MembersInjector"
  const ProviderClass: string := "javax.inject.Provider"
  const StaticInjectionClass: string := "dagger.internal.StaticInjection"

  /** The name that the private `Binding` field of the slot for the injected field `field` gets. */
  function FieldName(disambiguate: bool, field: Element): (r: string)
    ensures !disambiguate ==> r == field.name
    ensures disambiguate ==> |r| == 6 + |field.name| && r[..6] == "field_" && r[6..] == field.name
  {
    (if disambiguate then "field_" else "") + field.name
  }

  /** The name of the slot for the constructor parameter `parameter`. */
  function ParameterName(disambiguate: bool, parameter: Element): (r: string)
    ensures !disambiguate ==> r == parameter.name
    ensures disambiguate ==> |r| == 10 + |parameter.name| && r[..10] == "parameter_" && r[10..] == parameter.name
  {
    (if disambiguate then "parameter_" else "") + parameter.name
  }

  /** Disambiguated, a field slot never shares its name with a parameter slot,
      whatever the simple names are. */
  lemma DisambiguatedNamesDiffer(field: Element, parameter: Element)
    ensures FieldName(true, field) != ParameterName(true, parameter)
  {
    assert FieldName(true, field)[0] == 'f';
    assert ParameterName(true, parameter)[0] == 'p';
  }

  /** Slot names identify the simple name they were built from. */
  lemma SlotNamesInjective(d: bool, e1: Element, e2: Element)
    ensures FieldName(d, e1) == FieldName(d, e2) <==> e1.name == e2.name
    ensures ParameterName(d, e1) == ParameterName(d, e2) <==> e1.name == e2.name
  {
    if d && FieldName(d, e1) == FieldName(d, e2) {
      assert e1.name == FieldName(d, e1)[6..];
    }
    if d && ParameterName(d, e1) == ParameterName(d, e2) {
      assert e1.name == ParameterName(d, e1)[10..];
    }
  }

  /** The qualified name `typeName` with the package and its dot cut off. */
  function StrippedTypeName(typeName: string, packageName: string): (r: string)
    requires packageName == "" || |packageName| < |typeName|
    ensures packageName == "" ==> r == typeName
    ensures packageName != "" ==> |r| + |packageName| + 1 == |typeName|
    ensures typeName[|typeName| - |r|..] == r
  {
    typeName[if packageName == "" then 0 else |packageName| + 1..]
  }

  /** Stripping undoes qualifying a simple name with a package. */
  lemma StrippedTypeNameOfQualified(packageName: string, simpleName: string)
    requires packageName != ""
    ensures StrippedTypeName(packageName + "." + simpleName, packageName) == simpleName
  {
    var q := packageName + "." + simpleName;
    assert q[|packageName| + 1..] == simpleName;
  }

  /** A generic interface the adapter implements, applied to the stripped type name. */
  datatype Interface = ProviderOf(typeName: string) | MembersInjectorOf(typeName: string)

  /** `interfaces`: `Provider<T>` for a constructible type, then
      `MembersInjector<T>` when members are injected. */
  function Interfaces(strippedTypeName: string, hasFields: bool, isProvider: bool): (r: seq<Interface>)
    ensures ProviderOf(strippedTypeName) in r <==> isProvider
    ensures MembersInjectorOf(strippedTypeName) in r <==> hasFields
    ensures |r| == (if isProvider then 1 else 0) + (if hasFields then 1 else 0)
    ensures forall i :: 0 <= i < |r| ==> r[i].typeName == strippedTypeName
    ensures isProvider ==> r[0].ProviderOf?
  {
    (if isProvider then [ProviderOf(strippedTypeName)] else [])
      + (if hasFields then [MembersInjectorOf(strippedTypeName)] else [])
  }

  /** `getImports`: `Binding` always and first; `Linker` and `Set` for a
      dependent adapter; `MembersInjector` and `Provider` with the interfaces. */
  function Imports(dependent: bool, injectMembers: bool, isProvider: bool): (r: seq<string>)
    ensures |r| > 0 && r[0] == BindingClass
    ensures LinkerClass in r <==> dependent
    ensures SetClass in r <==> dependent
    ensures MembersInjectorClass in r <==> injectMembers
    ensures ProviderClass in r <==> isProvider
    ensures NoDuplicates(r)
  {
    [BindingClass]
      + (if dependent then [LinkerClass, SetClass] else [])
      + (if injectMembers then [MembersInjectorClass] else [])
      + (if isProvider then [ProviderClass] else [])
  }

  /** The list `interfaces` builds, one `add` at a time. */
  method BuildInterfaces(strippedTypeName: string, hasFields: bool, isProvider: bool)
    returns (interfaces: seq<Interface>)
    ensures interfaces == Interfaces(strippedTypeName, hasFields, isProvider)
  {
    interfaces := [];
    if isProvider {
      interfaces := interfaces + [ProviderOf(strippedTypeName)];
    }
    if hasFields {
      interfaces := interfaces + [MembersInjectorOf(strippedTypeName)];
    }
  }

  /** The `LinkedHashSet` `getImports` fills, one `add` at a time. */
  method GetImports(dependent: bool, injectMembers: bool, isProvider: bool) returns (imports: seq<string>)
    ensures imports == Imports(dependent, injectMembers, isProvider)
  {
    // `Set.add` appends only what is not already present.
    ImportedClassesDistinct();
    imports := [BindingClass];
    if dependent {
      if LinkerClass !in imports {
        imports := imports + [LinkerClass];
      }
      if SetClass !in imports {
        imports := imports + [SetClass];
      }
    }
    if injectMembers && MembersInjectorClass !in imports {
      imports := imports + [MembersInjectorClass];
    }
    if isProvider && ProviderClass !in imports {
      imports := imports + [ProviderClass];
    }
  }

  /** The five classes an adapter may import are different names. */
  lemma ImportedClassesDistinct()
    ensures LinkerClass != BindingClass && SetClass != BindingClass && SetClass != LinkerClass
    ensures MembersInjectorClass !in [BindingClass, LinkerClass, SetClass]
    ensures ProviderClass !in [BindingClass, LinkerClass, SetClass, MembersInjectorClass]
  {
    assert |BindingClass| == 23 && |LinkerClass| == 22 && |SetClass| == 13;
    assert |MembersInjectorClass| == 22 && |ProviderClass| == 21;
    assert LinkerClass[7] != MembersInjectorClass[7];
  }

  // ---------------------------------------------------------------------------
  // What a generated class declares.

  /** A `private Binding<boundType> name;` field of a generated class. */
  datatype Slot = Slot(name: string, boundType: string)

  /** `slot = (Binding<..>) linker.requestBinding(key, requiredBy.class[, false])`
      in `attach`; `mandatory` is false for the three-argument form. */
  datatype Request = Request(slot: string, key: Key, requiredBy: string, mandatory: bool)

  /** The body of `getDependencies`: the slots added to each of the two sets. */
  datatype Dependencies = Dependencies(getBindings: seq<string>, injectMembersBindings: seq<string>)

  /** The body of `get`: `new T(arg0.get(), ...)`, then `injectMembers(result)`
      when members are injected. */
  datatype GetBody = GetBody(arguments: seq<string>, callsInjectMembers: bool)

  /** `object.field = slot.get()` in `injectMembers`. */
  datatype Assignment = Assignment(field: string, slot: string)

  /** The body of `injectMembers`: the field assignments, then
      `supertype.injectMembers(object)` when there is a supertype slot. */
  datatype InjectMembersBody = InjectMembersBody(assignments: seq<Assignment>, delegatesToSupertype: bool)

  /** The generated `Binding` subclass. A method the writer does not emit is `None`. */
  datatype InjectAdapter = InjectAdapter(
    typeName: string,                    // qualified name of the injected type
    packageName: string,
    strippedName: string,                // the type as the generated code names it
    imports: seq<string>,
    interfaces: seq<Interface>,
    slots: seq<Slot>,                    // the private `Binding` fields, in order
    key: Option<Key>,                    // first `super` argument; `null` without a constructor
    membersKey: Key,                     // second `super` argument
    singleton: bool,                     // `IS_SINGLETON` or `NOT_SINGLETON`
    attach: Option<seq<Request>>,
    dependencies: Option<Dependencies>,
    get: Option<GetBody>,
    injectMembers: Option<InjectMembersBody>)

  /** `object`'s static field `field` assigned from a slot, in `inject`. */
  datatype StaticAssignment = StaticAssignment(owner: string, field: string, slot: string)

  /** The generated `StaticInjection` subclass. */
  datatype StaticInjection = StaticInjection(
    typeName: string,
    packageName: string,
    imports: seq<string>,
    slots: seq<Slot>,
    attach: seq<Request>,
    inject: seq<StaticAssignment>)

  // ---------------------------------------------------------------------------
  // The inject adapter, as a function of its inputs.

  function ParametersOf(ctor: Option<Element>): seq<Element> {
    if ctor.Some? then ctor.value.parameters else []
  }

  /** Members are injected when there are fields or a supertype to delegate to. */
  predicate InjectsMembers(t: TypeRecord, fields: seq<Element>) {
    fields != [] || t.supertype.Some?
  }

  /** Slot names are prefixed only when both fields and constructor parameters
      exist, since only then can a field and a parameter share a name. */
  predicate Disambiguates(ctor: Option<Element>, fields: seq<Element>) {
    fields != [] && ctor.Some? && ctor.value.parameters != []
  }

  /** The adapter has dependencies to attach when it injects members or its
      constructor takes parameters. */
  predicate Dependent(t: TypeRecord, ctor: Option<Element>, fields: seq<Element>) {
    InjectsMembers(t, fields) || (ctor.Some? && ctor.value.parameters != [])
  }

  function ParameterSlots(d: bool, ps: seq<Element>): seq<Slot> {
    seq(|ps|, i requires 0 <= i < |ps| => Slot(ParameterName(d, ps[i]), ps[i].typeName))
  }

  function FieldSlots(d: bool, fs: seq<Element>): seq<Slot> {
    seq(|fs|, i requires 0 <= i < |fs| => Slot(FieldName(d, fs[i]), fs[i].typeName))
  }

  function SupertypeSlots(supertype: Option<string>): seq<Slot> {
    if supertype.Some? then [Slot("supertype", supertype.value)] else []
  }

  function ParameterRequests(d: bool, ps: seq<Element>, requiredBy: string): seq<Request> {
    seq(|ps|, i requires 0 <= i < |ps| => Request(ParameterName(d, ps[i]), ElementKey(ps[i]), requiredBy, true))
  }

  function FieldRequests(d: bool, fs: seq<Element>, requiredBy: string): seq<Request> {
    seq(|fs|, i requires 0 <= i < |fs| => Request(FieldName(d, fs[i]), ElementKey(fs[i]), requiredBy, true))
  }

  /** The supertype's members binding is requested as not mandatory. */
  function SupertypeRequests(supertype: Option<string>, requiredBy: string): seq<Request> {
    if supertype.Some? then [Request("supertype", MembersKey(supertype.value), requiredBy, false)] else []
  }

  function Names(slots: seq<Slot>): seq<string> {
    seq(|slots|, i requires 0 <= i < |slots| => slots[i].name)
  }

  function FieldAssignments(d: bool, fs: seq<Element>): seq<Assignment> {
    seq(|fs|, i requires 0 <= i < |fs| => Assignment(fs[i].name, FieldName(d, fs[i])))
  }

  // The generated blocks, one function each.

  /** The `Binding` fields: constructor parameters, then fields, then the
      supertype. */
  function SlotsOf(t: TypeRecord, ctor: Option<Element>, fields: seq<Element>): seq<Slot> {
    var d := Disambiguates(ctor, fields);
    ParameterSlots(d, ParametersOf(ctor)) + FieldSlots(d, fields) + SupertypeSlots(t.supertype)
  }

  /** The bindings `attach` requests, when the adapter has dependencies. */
  function AttachOf(t: TypeRecord, ctor: Option<Element>, fields: seq<Element>, requiredBy: string)
    : Option<seq<Request>>
  {
    var d := Disambiguates(ctor, fields);
    if Dependent(t, ctor, fields)
    then Some(ParameterRequests(d, ParametersOf(ctor), requiredBy) + FieldRequests(d, fields, requiredBy)
              + SupertypeRequests(t.supertype, requiredBy))
    else None
  }

  /** `getDependencies`, when the adapter has dependencies. */
  function DependenciesOf(t: TypeRecord, ctor: Option<Element>, fields: seq<Element>): Option<Dependencies> {
    var d := Disambiguates(ctor, fields);
    if Dependent(t, ctor, fields)
    then Some(Dependencies(Names(ParameterSlots(d, ParametersOf(ctor))),
                           Names(FieldSlots(d, fields)) + Names(SupertypeSlots(t.supertype))))
    else None
  }

  /** `get`, when there is a constructor. */
  function GetOf(t: TypeRecord, ctor: Option<Element>, fields: seq<Element>): Option<GetBody> {
    if ctor.Some?
    then Some(GetBody(Names(ParameterSlots(Disambiguates(ctor, fields), ctor.value.parameters)),
                      InjectsMembers(t, fields)))
    else None
  }

  /** `injectMembers`, when there are members to inject. */
  function InjectMembersOf(t: TypeRecord, ctor: Option<Element>, fields: seq<Element>): Option<InjectMembersBody> {
    if InjectsMembers(t, fields)
    then Some(InjectMembersBody(FieldAssignments(Disambiguates(ctor, fields), fields), t.supertype.Some?))
    else None
  }

  /** Everything `writeInjectAdapter` emits for `t` with constructor `ctor`
      (`None` for members injection only) and instance fields `fields`. */
  function InjectAdapterOf(t: TypeRecord, ctor: Option<Element>, fields: seq<Element>): InjectAdapter
    requires PackageConsistent(t)
  {
    var stripped := StrippedTypeName(t.name, t.packageName);
    var injectMembers := InjectsMembers(t, fields);
    InjectAdapter(
      t.name, t.packageName, stripped,
      Imports(Dependent(t, ctor, fields), injectMembers, ctor.Some?),
      Interfaces(stripped, injectMembers, ctor.Some?),
      SlotsOf(t, ctor, fields),
      if ctor.Some? then Some(ValueKey(None, t.name)) else None,
      MembersKey(t.name),
      t.singleton,
      AttachOf(t, ctor, fields, stripped),
      DependenciesOf(t, ctor, fields),
      GetOf(t, ctor, fields),
      InjectMembersOf(t, ctor, fields))
  }

  // ---------------------------------------------------------------------------
  // The writer, block by block.

  /** The `Binding` field declarations: parameters, fields, then the supertype. */
  method EmitSlots(d: bool, ps: seq<Element>, fields: seq<Element>, supertype: Option<string>)
    returns (slots: seq<Slot>)
    ensures slots == ParameterSlots(d, ps) + FieldSlots(d, fields) + SupertypeSlots(supertype)
  {
    slots := [];
    for i := 0 to |ps|
      invariant slots == ParameterSlots(d, ps[..i])
    {
      slots := slots + [Slot(ParameterName(d, ps[i]), ps[i].typeName)];
    }
    assert ps[..|ps|] == ps;
    ghost var before := slots;
    for i := 0 to |fields|
      invariant slots == before + FieldSlots(d, fields[..i])
    {
      slots := slots + [Slot(FieldName(d, fields[i]), fields[i].typeName)];
    }
    assert fields[..|fields|] == fields;
    if supertype.Some? {
      slots := slots + [Slot("supertype", supertype.value)];
    }
  }

  /** The `attach` statements, in the same order as the slots. */
  method EmitAttach(d: bool, ps: seq<Element>, fields: seq<Element>, supertype: Option<string>, requiredBy: string)
    returns (requests: seq<Request>)
    ensures requests == ParameterRequests(d, ps, requiredBy) + FieldRequests(d, fields, requiredBy)
                        + SupertypeRequests(supertype, requiredBy)
  {
    requests := [];
    for i := 0 to |ps|
      invariant requests == ParameterRequests(d, ps[..i], requiredBy)
    {
      requests := requests + [Request(ParameterName(d, ps[i]), ElementKey(ps[i]), requiredBy, true)];
    }
    assert ps[..|ps|] == ps;
    ghost var before := requests;
    for i := 0 to |fields|
      invariant requests == before + FieldRequests(d, fields[..i], requiredBy)
    {
      requests := requests + [Request(FieldName(d, fields[i]), ElementKey(fields[i]), requiredBy, true)];
    }
    assert fields[..|fields|] == fields;
    if supertype.Some? {
      requests := requests + [Request("supertype", MembersKey(supertype.value), requiredBy, false)];
    }
  }

  /** The `getDependencies` statements: parameter slots go to `getBindings`,
      field and supertype slots to `injectMembersBindings`. */
  method EmitDependencies(d: bool, ps: seq<Element>, fields: seq<Element>, supertype: Option<string>)
    returns (deps: Dependencies)
    ensures deps == Dependencies(Names(ParameterSlots(d, ps)),
                                 Names(FieldSlots(d, fields)) + Names(SupertypeSlots(supertype)))
  {
    var getBindings: seq<string> := [];
    for i := 0 to |ps|
      invariant getBindings == Names(ParameterSlots(d, ps[..i]))
    {
      getBindings := getBindings + [ParameterName(d, ps[i])];
    }
    assert ps[..|ps|] == ps;
    var injectMembersBindings: seq<string> := [];
    for i := 0 to |fields|
      invariant injectMembersBindings == Names(FieldSlots(d, fields[..i]))
    {
      injectMembersBindings := injectMembersBindings + [FieldName(d, fields[i])];
    }
    assert fields[..|fields|] == fields;
    if supertype.Some? {
      injectMembersBindings := injectMembersBindings + ["supertype"];
    }
    deps := Dependencies(getBindings, injectMembersBindings);
  }

  /** The argument list of the constructor call in `get`. */
  method EmitGetArguments(d: bool, ps: seq<Element>) returns (arguments: seq<string>)
    ensures arguments == Names(ParameterSlots(d, ps))
  {
    arguments := [];
    for i := 0 to |ps|
      invariant arguments == Names(ParameterSlots(d, ps[..i]))
    {
      arguments := arguments + [ParameterName(d, ps[i])];
    }
    assert ps[..|ps|] == ps;
  }

  /** The field assignments of `injectMembers`. */
  method EmitAssignments(d: bool, fields: seq<Element>) returns (assignments: seq<Assignment>)
    ensures assignments == FieldAssignments(d, fields)
  {
    assignments := [];
    for i := 0 to |fields|
      invariant assignments == FieldAssignments(d, fields[..i])
    {
      assignments := assignments + [Assignment(fields[i].name, FieldName(d, fields[i]))];
    }
    assert fields[..|fields|] == fields;
  }

  /** `writeInjectAdapter`. */
  method WriteInjectAdapter(t: TypeRecord, ctor: Option<Element>, fields: seq<Element>)
    returns (a: InjectAdapter)
    requires PackageConsistent(t)
    ensures a == InjectAdapterOf(t, ctor, fields)
  {
    var stripped := StrippedTypeName(t.name, t.packageName);
    var supertype := t.supertype;
    var injectMembers := fields != [] || supertype.Some?;
    var disambiguateFields := fields != [] && ctor.Some? && ctor.value.parameters != [];
    var dependent := injectMembers || (ctor.Some? && ctor.value.parameters != []);
    var ps := if ctor.Some? then ctor.value.parameters else [];

    var imports := GetImports(dependent, injectMembers, ctor.Some?);
    var interfaces := BuildInterfaces(stripped, injectMembers, ctor.Some?);
    var slots := EmitSlots(disambiguateFields, ps, fields, supertype);
    var key := if ctor.Some? then Some(ValueKey(None, t.name)) else None;
    var membersKey := MembersKey(t.name);

    var attach: Option<seq<Request>> := None;
    var dependencies: Option<Dependencies> := None;
    if dependent {
      var requests := EmitAttach(disambiguateFields, ps, fields, supertype, stripped);
      attach := Some(requests);
      var deps := EmitDependencies(disambiguateFields, ps, fields, supertype);
      dependencies := Some(deps);
    }

    var get: Option<GetBody> := None;
    if ctor.Some? {
      var arguments := EmitGetArguments(disambiguateFields, ps);
      get := Some(GetBody(arguments, injectMembers));
    }

    var injectMembersBody: Option<InjectMembersBody> := None;
    if injectMembers {
      var assignments := EmitAssignments(disambiguateFields, fields);
      injectMembersBody := Some(InjectMembersBody(assignments, supertype.Some?));
    }

    a := InjectAdapter(t.name, t.packageName, stripped, imports, interfaces, slots, key, membersKey,
                       t.singleton, attach, dependencies, get, injectMembersBody);
  }

  // ---------------------------------------------------------------------------
  // What the inject adapter is: its shape, stated on the adapter and on the
  // blocks it is made of.

  /** `attach` and `getDependencies` are emitted exactly when there is a slot
      to resolve. */
  lemma AdapterAttachesIffSlots(t: TypeRecord, ctor: Option<Element>, fields: seq<Element>, a: InjectAdapter)
    requires PackageConsistent(t) && a == InjectAdapterOf(t, ctor, fields)
    ensures a.attach.Some? <==> a.slots != []
    ensures a.dependencies.Some? <==> a.slots != []
    ensures a.attach.Some? <==> LinkerClass in a.imports
  {
    assert |a.slots| == |ParametersOf(ctor)| + |fields| + (if t.supertype.Some? then 1 else 0);
  }

  /** The adapter provides instances exactly when there is a constructor: then
      it has a key, implements `Provider`, imports it and has `get`. */
  lemma AdapterProvidesIffConstructor(t: TypeRecord, ctor: Option<Element>, fields: seq<Element>, a: InjectAdapter)
    requires PackageConsistent(t) && a == InjectAdapterOf(t, ctor, fields)
    ensures a.get.Some? <==> ctor.Some?
    ensures a.key.Some? <==> ctor.Some?
    ensures ProviderOf(a.strippedName) in a.interfaces <==> ctor.Some?
    ensures ProviderClass in a.imports <==> ctor.Some?
  {
  }

  /** Members injection happens exactly when there are fields or a supertype:
      then the adapter implements `MembersInjector`, imports it, and its
      `injectMembers` delegates to the supertype exactly when there is one. */
  lemma AdapterInjectsMembersIff(t: TypeRecord, ctor: Option<Element>, fields: seq<Element>, a: InjectAdapter)
    requires PackageConsistent(t) && a == InjectAdapterOf(t, ctor, fields)
    ensures a.injectMembers.Some? <==> fields != [] || t.supertype.Some?
    ensures MembersInjectorOf(a.strippedName) in a.interfaces <==> a.injectMembers.Some?
    ensures MembersInjectorClass in a.imports <==> a.injectMembers.Some?
    ensures a.injectMembers.Some? ==> (a.injectMembers.value.delegatesToSupertype <==> t.supertype.Some?)
  {
  }

  /** The slots are the constructor parameters `ps`, then the fields, each
      typed by the element it stands for and named with the prefix `d`
      decides, then the supertype when there is one. */
  lemma AdapterSlotOrder(t: TypeRecord, ctor: Option<Element>, fields: seq<Element>,
                         d: bool, ps: seq<Element>, sl: seq<Slot>)
    requires d == Disambiguates(ctor, fields) && ps == ParametersOf(ctor) && sl == SlotsOf(t, ctor, fields)
    ensures |sl| == |ps| + |fields| + (if t.supertype.Some? then 1 else 0)
    ensures forall i :: 0 <= i < |ps| ==> sl[i] == Slot(ParameterName(d, ps[i]), ps[i].typeName)
    ensures forall i :: |ps| <= i < |ps| + |fields| ==>
      sl[i] == Slot(FieldName(d, fields[i - |ps|]), fields[i - |ps|].typeName)
    ensures t.supertype.Some? ==> sl[|sl| - 1] == Slot("supertype", t.supertype.value)
  {
    var p, f := ParameterSlots(d, ps), FieldSlots(d, fields);
    forall i | 0 <= i < |ps| ensures sl[i] == Slot(ParameterName(d, ps[i]), ps[i].typeName) {
      assert sl[i] == p[i];
    }
    forall i | |ps| <= i < |ps| + |fields| ensures sl[i] == Slot(FieldName(d, fields[i - |ps|]), fields[i - |ps|].typeName) {
      assert sl[i] == f[i - |ps|];
    }
  }

  /** The requests laid out the same way: one mandatory request per parameter
      and per field, by its own key, then the supertype's members, not
      mandatory. */
  lemma AdapterRequestsLayout(t: TypeRecord, ctor: Option<Element>, fields: seq<Element>, requiredBy: string,
                              d: bool, ps: seq<Element>, rs: seq<Request>)
    requires d == Disambiguates(ctor, fields) && ps == ParametersOf(ctor)
    requires AttachOf(t, ctor, fields, requiredBy) == Some(rs)
    ensures |rs| == |ps| + |fields| + (if t.supertype.Some? then 1 else 0)
    ensures forall i :: 0 <= i < |ps| ==> rs[i] == Request(ParameterName(d, ps[i]), ElementKey(ps[i]), requiredBy, true)
    ensures forall i :: |ps| <= i < |ps| + |fields| ==>
      rs[i] == Request(FieldName(d, fields[i - |ps|]), ElementKey(fields[i - |ps|]), requiredBy, true)
    ensures t.supertype.Some? ==> rs[|rs| - 1] == Request("supertype", MembersKey(t.supertype.value), requiredBy, false)
  {
    var p, f := ParameterRequests(d, ps, requiredBy), FieldRequests(d, fields, requiredBy);
    forall i | 0 <= i < |ps| ensures rs[i] == Request(ParameterName(d, ps[i]), ElementKey(ps[i]), requiredBy, true) {
      assert rs[i] == p[i];
    }
    forall i | |ps| <= i < |ps| + |fields|
      ensures rs[i] == Request(FieldName(d, fields[i - |ps|]), ElementKey(fields[i - |ps|]), requiredBy, true)
    {
      assert rs[i] == f[i - |ps|];
    }
  }

  /** `attach` requests one binding per slot, in slot order, each on behalf of
      the same type. */
  lemma AdapterRequestsMatchSlots(t: TypeRecord, ctor: Option<Element>, fields: seq<Element>, requiredBy: string,
                                  sl: seq<Slot>, rs: seq<Request>)
    requires sl == SlotsOf(t, ctor, fields) && AttachOf(t, ctor, fields, requiredBy) == Some(rs)
    ensures |rs| == |sl|
    ensures forall i :: 0 <= i < |sl| ==> rs[i].slot == sl[i].name && rs[i].requiredBy == requiredBy
  {
    var d, ps := Disambiguates(ctor, fields), ParametersOf(ctor);
    AdapterSlotOrder(t, ctor, fields, d, ps, sl);
    AdapterRequestsLayout(t, ctor, fields, requiredBy, d, ps, rs);
    forall i | 0 <= i < |sl| ensures rs[i].slot == sl[i].name && rs[i].requiredBy == requiredBy {
    }
  }

  /** Every request is mandatory except the supertype's, which is the last
      one and asks for the supertype's members key. */
  lemma AdapterOptionalRequestIsSupertype(t: TypeRecord, ctor: Option<Element>, fields: seq<Element>,
                                          requiredBy: string, rs: seq<Request>)
    requires AttachOf(t, ctor, fields, requiredBy) == Some(rs)
    ensures forall i :: 0 <= i < |rs| ==> (!rs[i].mandatory <==> t.supertype.Some? && i == |rs| - 1)
    ensures t.supertype.Some? ==> rs[|rs| - 1].key == MembersKey(t.supertype.value)
  {
    var d, ps := Disambiguates(ctor, fields), ParametersOf(ctor);
    AdapterRequestsLayout(t, ctor, fields, requiredBy, d, ps, rs);
    forall i | 0 <= i < |rs| ensures !rs[i].mandatory <==> t.supertype.Some? && i == |rs| - 1 {
    }
  }

  /** The two dependency sets together list every slot once, in slot order:
      the construction dependencies are the parameter slots. */
  lemma AdapterDependenciesPartitionSlots(t: TypeRecord, ctor: Option<Element>, fields: seq<Element>,
                                          sl: seq<Slot>, deps: Dependencies)
    requires sl == SlotsOf(t, ctor, fields) && DependenciesOf(t, ctor, fields) == Some(deps)
    ensures deps.getBindings + deps.injectMembersBindings == Names(sl)
    ensures |deps.getBindings| == |ParametersOf(ctor)|
  {
    var d := Disambiguates(ctor, fields);
    var p, f, s := ParameterSlots(d, ParametersOf(ctor)), FieldSlots(d, fields), SupertypeSlots(t.supertype);
    NamesAppend(p, f);
    NamesAppend(p + f, s);
    NamesAppend(f, s);
  }

  lemma NamesAppend(a: seq<Slot>, b: seq<Slot>)
    ensures Names(a + b) == Names(a) + Names(b)
  {
  }

  /** `get` passes each parameter slot, in parameter order, and then injects
      members exactly when the adapter injects members. */
  lemma AdapterGetCallsConstructor(t: TypeRecord, ctor: Option<Element>, fields: seq<Element>,
                                   sl: seq<Slot>, get: GetBody)
    requires sl == SlotsOf(t, ctor, fields) && GetOf(t, ctor, fields) == Some(get)
    ensures |get.arguments| == |ctor.value.parameters|
    ensures forall i :: 0 <= i < |ctor.value.parameters| ==> get.arguments[i] == sl[i].name
    ensures get.callsInjectMembers <==> InjectMembersOf(t, ctor, fields).Some?
  {
    AdapterSlotOrder(t, ctor, fields, Disambiguates(ctor, fields), ParametersOf(ctor), sl);
  }

  /** `injectMembers` assigns each field from its own slot, in field order. */
  lemma AdapterInjectsMembers(t: TypeRecord, ctor: Option<Element>, fields: seq<Element>,
                              sl: seq<Slot>, body: InjectMembersBody)
    requires sl == SlotsOf(t, ctor, fields) && InjectMembersOf(t, ctor, fields) == Some(body)
    ensures |body.assignments| == |fields|
    ensures forall i {:trigger body.assignments[i]} :: 0 <= i < |fields| ==>
      && body.assignments[i].field == fields[i].name
      && body.assignments[i].slot == sl[|ParametersOf(ctor)| + i].name
  {
    var d, ps := Disambiguates(ctor, fields), ParametersOf(ctor);
    var f := FieldSlots(d, fields);
    var asg := body.assignments;
    forall i | 0 <= i < |fields| ensures asg[i].field == fields[i].name && asg[i].slot == sl[|ps| + i].name {
      assert asg[i] == Assignment(fields[i].name, FieldName(d, fields[i]));
      assert sl[|ps| + i] == f[i];
    }
  }

  /** Joining two duplicate-free sequences with nothing in common. */
  lemma NoDuplicatesAppend(a: seq<string>, b: seq<string>)
    requires NoDuplicates(a) && NoDuplicates(b)
    requires forall i, j :: 0 <= i < |a| && 0 <= j < |b| ==> a[i] != b[j]
    ensures NoDuplicates(a + b)
  {
    forall i, j | 0 <= i < j < |a + b| ensures (a + b)[i] != (a + b)[j] {
      if j >= |a| && i < |a| {
        assert (a + b)[i] == a[i] && (a + b)[j] == b[j - |a|];
      }
    }
  }

  lemma ParameterSlotNamesDistinct(d: bool, ps: seq<Element>)
    requires forall i, j :: 0 <= i < j < |ps| ==> ps[i].name != ps[j].name
    ensures NoDuplicates(Names(ParameterSlots(d, ps)))
  {
    var n := Names(ParameterSlots(d, ps));
    forall i, j | 0 <= i < j < |n| ensures n[i] != n[j] {
      SlotNamesInjective(d, ps[i], ps[j]);
    }
  }

  lemma FieldSlotNamesDistinct(d: bool, fs: seq<Element>)
    requires forall i, j :: 0 <= i < j < |fs| ==> fs[i].name != fs[j].name
    ensures NoDuplicates(Names(FieldSlots(d, fs)))
  {
    var n := Names(FieldSlots(d, fs));
    forall i, j | 0 <= i < j < |n| ensures n[i] != n[j] {
      SlotNamesInjective(d, fs[i], fs[j]);
    }
  }

  /** The slot names for the prefix flag `d` are distinct when the simple
      names within the parameters and within the fields are distinct, the two
      kinds meet only under prefixes, and, without prefixes beside a
      supertype slot, no parameter or field is itself named `supertype`. */
  lemma SlotNamesDistinctWith(d: bool, ps: seq<Element>, fields: seq<Element>, supertype: Option<string>)
    requires forall i, j :: 0 <= i < j < |ps| ==> ps[i].name != ps[j].name
    requires forall i, j :: 0 <= i < j < |fields| ==> fields[i].name != fields[j].name
    requires ps != [] && fields != [] ==> d
    requires supertype.Some? && !d ==> (forall e :: e in ps + fields ==> e.name != "supertype")
    ensures NoDuplicates(Names(ParameterSlots(d, ps) + FieldSlots(d, fields) + SupertypeSlots(supertype)))
  {
    var p, f, s := ParameterSlots(d, ps), FieldSlots(d, fields), SupertypeSlots(supertype);
    var np, nf, ns := Names(p), Names(f), Names(s);
    ParameterSlotNamesDistinct(d, ps);
    FieldSlotNamesDistinct(d, fields);
    forall i, j | 0 <= i < |np| && 0 <= j < |nf| ensures np[i] != nf[j] {
      // both kinds are present only when the names are prefixed
      assert d;
      DisambiguatedNamesDiffer(fields[j], ps[i]);
    }
    NoDuplicatesAppend(np, nf);
    forall i, j | 0 <= i < |np + nf| && 0 <= j < |ns| ensures (np + nf)[i] != ns[j] {
      assert ns[j] == "supertype";
      if i < |np| {
        assert (np + nf)[i] == ParameterName(d, ps[i]);
        if d {
          assert ParameterName(d, ps[i])[0] == 'p';
        } else {
          assert ps[i] in ps + fields;
        }
      } else {
        assert (np + nf)[i] == FieldName(d, fields[i - |np|]);
        if d {
          assert FieldName(d, fields[i - |np|])[0] == 'f';
        } else {
          assert fields[i - |np|] in ps + fields;
        }
      }
    }
    NoDuplicatesAppend(np + nf, ns);
    NamesAppend(p, f);
    NamesAppend(p + f, s);
  }

  /** No two slots share a name, provided the simple names within the
      parameters and within the fields are distinct (as Java requires) and,
      when names are not prefixed, no field or parameter is itself named
      `supertype` while a supertype slot exists. */
  lemma AdapterSlotNamesDistinct(t: TypeRecord, ctor: Option<Element>, fields: seq<Element>)
    requires forall i, j :: 0 <= i < j < |ParametersOf(ctor)| ==>
      ParametersOf(ctor)[i].name != ParametersOf(ctor)[j].name
    requires forall i, j :: 0 <= i < j < |fields| ==> fields[i].name != fields[j].name
    requires t.supertype.Some? && !Disambiguates(ctor, fields) ==>
      (forall e :: e in ParametersOf(ctor) + fields ==> e.name != "supertype")
    ensures NoDuplicates(Names(SlotsOf(t, ctor, fields)))
  {
    SlotNamesDistinctWith(Disambiguates(ctor, fields), ParametersOf(ctor), fields, t.supertype);
  }

  /** The naming the writer evidently intends: prefixes are also switched on
      whenever a supertype slot is declared, so no field or parameter slot
      can take the name `supertype`. */
  predicate DisambiguatesCorrected(t: TypeRecord, ctor: Option<Element>, fields: seq<Element>) {
    Disambiguates(ctor, fields) || t.supertype.Some?
  }

  /** The slots under the corrected naming, in the writer's order. */
  function SlotsOfCorrected(t: TypeRecord, ctor: Option<Element>, fields: seq<Element>): seq<Slot> {
    var d := DisambiguatesCorrected(t, ctor, fields);
    ParameterSlots(d, ParametersOf(ctor)) + FieldSlots(d, fields) + SupertypeSlots(t.supertype)
  }

  /** Under the corrected naming the slot names are distinct whenever the
      simple names within the parameters and within the fields are, which
      Java guarantees; no condition on the name `supertype` is needed. */
  lemma SlotNamesDistinctCorrected(t: TypeRecord, ctor: Option<Element>, fields: seq<Element>)
    requires forall i, j :: 0 <= i < j < |ParametersOf(ctor)| ==>
      ParametersOf(ctor)[i].name != ParametersOf(ctor)[j].name
    requires forall i, j :: 0 <= i < j < |fields| ==> fields[i].name != fields[j].name
    ensures NoDuplicates(Names(SlotsOfCorrected(t, ctor, fields)))
  {
    SlotNamesDistinctWith(DisambiguatesCorrected(t, ctor, fields), ParametersOf(ctor), fields, t.supertype);
  }

  /** Where the writer as written already prefixes, or declares no supertype
      slot, the corrected naming gives the same slots. */
  lemma SlotsOfCorrectedAgrees(t: TypeRecord, ctor: Option<Element>, fields: seq<Element>)
    requires Disambiguates(ctor, fields) || t.supertype.None?
    ensures SlotsOfCorrected(t, ctor, fields) == SlotsOf(t, ctor, fields)
  {
  }

  /** The case the condition above excludes, as the writer handles it: without
      prefixes, a parameter or field named `supertype` gets the same slot name
      as the supertype slot, so the adapter declares two fields of that name. */
  lemma SupertypeSlotCollides(t: TypeRecord, ctor: Option<Element>, fields: seq<Element>, k: nat)
    requires t.supertype.Some? && !Disambiguates(ctor, fields)
    requires k < |ParametersOf(ctor) + fields| && (ParametersOf(ctor) + fields)[k].name == "supertype"
    ensures var n := Names(SlotsOf(t, ctor, fields));
      k < |n| - 1 && n[k] == "supertype" && n[|n| - 1] == "supertype"
    ensures !NoDuplicates(Names(SlotsOf(t, ctor, fields)))
  {
    var d := Disambiguates(ctor, fields);
    var ps := ParametersOf(ctor);
    var sl := SlotsOf(t, ctor, fields);
    var n := Names(sl);
    AdapterSlotOrder(t, ctor, fields, d, ps, sl);
    assert n[|n| - 1] == sl[|sl| - 1].name;
    if k < |ps| {
      assert (ps + fields)[k] == ps[k];
      assert n[k] == sl[k].name == ParameterName(d, ps[k]);
    } else {
      assert (ps + fields)[k] == fields[k - |ps|];
      assert n[k] == sl[k].name == FieldName(d, fields[k - |ps|]);
    }
  }

  /** One such input: a type with an injectable supertype and no constructor,
      whose only `@Inject` field is named `supertype`. */
  lemma SupertypeFieldCollision()
    ensures var f := Element(Field, "supertype", "a.Dep", None, true, false, false, true, []);
      Names(SlotsOf(TypeRecord("a.B", "a", false, false, Some("a.Base"), [f]), None, [f])) == ["supertype", "supertype"]
  {
    var f := Element(Field, "supertype", "a.Dep", None, true, false, false, true, []);
    SupertypeSlotCollides(TypeRecord("a.B", "a", false, false, Some("a.Base"), [f]), None, [f], 0);
  }

  // ---------------------------------------------------------------------------
  // The static injection.

  /** Everything `writeStaticInjection` emits for the static fields `fields`
      of `t`: unprefixed slots, mandatory requests on behalf of the qualified
      type name, and one assignment per field. */
  function StaticInjectionOf(t: TypeRecord, fields: seq<Element>): StaticInjection {
    StaticInjection(
      t.name, t.packageName,
      [StaticInjectionClass, BindingClass, LinkerClass],
      FieldSlots(false, fields),
      FieldRequests(false, fields, t.name),
      seq(|fields|, i requires 0 <= i < |fields| => StaticAssignment(t.name, fields[i].name, fields[i].name)))
  }

  /** `writeStaticInjection`. */
  method WriteStaticInjection(t: TypeRecord, fields: seq<Element>) returns (s: StaticInjection)
    ensures s == StaticInjectionOf(t, fields)
  {
    var typeName := t.name;
    var slots: seq<Slot> := [];
    for i := 0 to |fields|
      invariant slots == FieldSlots(false, fields[..i])
    {
      slots := slots + [Slot(FieldName(false, fields[i]), fields[i].typeName)];
    }
    var requests: seq<Request> := [];
    for i := 0 to |fields|
      invariant requests == FieldRequests(false, fields[..i], typeName)
    {
      requests := requests + [Request(FieldName(false, fields[i]), ElementKey(fields[i]), typeName, true)];
    }
    var inject: seq<StaticAssignment> := [];
    for i := 0 to |fields|
      invariant |inject| == i
      invariant forall k :: 0 <= k < i ==> inject[k] == StaticAssignment(typeName, fields[k].name, fields[k].name)
    {
      inject := inject + [StaticAssignment(typeName, fields[i].name, FieldName(false, fields[i]))];
    }
    assert fields[..|fields|] == fields;
    s := StaticInjection(typeName, t.packageName, [StaticInjectionClass, BindingClass, LinkerClass],
                         slots, requests, inject);
  }

  /** Each static field gets one slot named after it, one mandatory request by
      its own key on behalf of the qualified type, and one assignment of the
      type's static field from that slot, all in field order. */
  lemma StaticInjectionShape(t: TypeRecord, fields: seq<Element>, s: StaticInjection)
    requires s == StaticInjectionOf(t, fields)
    ensures |s.slots| == |fields| && |s.attach| == |fields| && |s.inject| == |fields|
    ensures forall i :: 0 <= i < |fields| ==>
      && s.slots[i] == Slot(fields[i].name, fields[i].typeName)
      && s.attach[i] == Request(s.slots[i].name, ElementKey(fields[i]), t.name, true)
      && s.inject[i] == StaticAssignment(t.name, fields[i].name, s.slots[i].name)
    ensures NoDuplicates(s.imports) && s.imports[0] == StaticInjectionClass
  {
  }
}
