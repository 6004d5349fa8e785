# Dagger's `InjectProcessor`, modelled in Dafny

`InjectProcessor` is the annotation processor of Dagger 1 that handles
`@Inject`. It runs once per compilation round. It does four things:

- It collects the types that enclose an `@Inject`-annotated element.
- It adds them to a work list (`remainingTypeNames`), which it keeps across
  rounds.
- It classifies each pending type's members into static fields, instance
  fields and at most one constructor, reporting structural errors on the
  way.
- For every pending type whose referenced types all resolve, it writes
  companion classes and removes the name. A name whose types are not yet
  known waits for a later round. When processing is over, the processor
  reports whatever is still pending.

There are two companion classes:

- an inject adapter: a `Binding` subclass that can construct the type and/or
  inject its members;
- a static injection, which assigns the type's `@Inject` static fields.

This project models that processor. The compiler host is replaced by values:
- the symbol table is a map from qualified names to type records;
- each member carries flags for its kind, `static`, `private`, `@Inject` and
  whether its type resolved;
- the `Messager` is a sequence of diagnostics;
- the `Filer` is the sequence of files written, plus the set of files whose
  writing throws.

A generated class is modelled as a record of what it declares, not as Java
text. It records:
- the slots (its private `Binding` fields), in order;
- the keys passed to the `super` call and the singleton flag;
- the `attach` requests;
- the two `getDependencies` lists;
- the arguments of the constructor call in `get`;
- the `injectMembers` assignments;
- its interfaces and its imports.

Modules:

- `Host` (host.dfy): elements, type records, the symbol table, source files
  and diagnostics.
- `Seqs` (seqs.dfy): filtering and `LinkedHashSet`-style appending on
  sequences, with their order and membership facts.
- `Classification` (classification.dfy): `getInjectedClass` as a fold over
  the members, the loop that computes it, `findNoArgsConstructor`,
  `allTypesExist`, and readiness.
- `Adapters` (adapters.dfy): `fieldName`, `parameterName`,
  `strippedTypeName`, `interfaces`, `getImports`, and `writeInjectAdapter` /
  `writeStaticInjection`. Each writer is a function that says what it
  declares, plus the loop methods that build it, block by block.
- `Processor` (processor.dfy): `writeInjectionsForClass`,
  `getInjectedClassNames`, one round over the pending names as a function,
  and the class `InjectProcessor`. Its `Process` removes names in place
  while it walks the list, as the iterator does.

## Model

All source paths are under `compiler/src/main/java/dagger/internal/codegen/`.

| member | source | states |
|---|---|---|
| Adapters.FieldName | compiler/src/main/java/dagger/internal/codegen/InjectProcessor.java:437-439 | Unprefixed, a field's slot is its simple name; prefixed, it is `field_` followed by the simple name. |
| Adapters.ParameterName | compiler/src/main/java/dagger/internal/codegen/InjectProcessor.java:441-443 | Unprefixed, a parameter's slot is its simple name; prefixed, it is `parameter_` followed by the simple name. |
| Adapters.DisambiguatedNamesDiffer | compiler/src/main/java/dagger/internal/codegen/InjectProcessor.java:437-443 | With prefixes on, no field slot name equals a parameter slot name, whatever the simple names. |
| Adapters.SlotNamesInjective | compiler/src/main/java/dagger/internal/codegen/InjectProcessor.java:437-443 | Two fields (or two parameters) get the same slot name exactly when their simple names are equal. |
| Adapters.StrippedTypeName | compiler/src/main/java/dagger/internal/codegen/InjectProcessor.java:373-375 | The result is a suffix of the qualified name. In the default package it is the whole name; otherwise it is shorter by the package plus one dot. |
| Adapters.StrippedTypeNameOfQualified | compiler/src/main/java/dagger/internal/codegen/InjectProcessor.java:373-375 | Stripping `package.Simple` with its package gives back `Simple`. |
| Adapters.Interfaces | compiler/src/main/java/dagger/internal/codegen/InjectProcessor.java:350-359 | `Provider` is listed exactly for a provider and comes first; `MembersInjector` exactly when members are injected. Both apply to the stripped name, and nothing else is listed. |
| Adapters.BuildInterfaces | compiler/src/main/java/dagger/internal/codegen/InjectProcessor.java:350-359 | The list built by the conditional appends is `Interfaces`. |
| Adapters.Imports | compiler/src/main/java/dagger/internal/codegen/InjectProcessor.java:361-371 | `Binding` comes first and is always present. `Linker` and `Set` appear exactly when dependent, `MembersInjector` exactly when members are injected, and `Provider` exactly for a provider. No class appears twice. |
| Adapters.GetImports | compiler/src/main/java/dagger/internal/codegen/InjectProcessor.java:361-371 | Filling the insertion-ordered set with duplicate-ignoring adds yields `Imports`. |
| Adapters.EmitSlots | compiler/src/main/java/dagger/internal/codegen/InjectProcessor.java:227-242 | The field declarations emitted by the three loops are the parameter slots, then the field slots, then the supertype slot. |
| Adapters.EmitAttach | compiler/src/main/java/dagger/internal/codegen/InjectProcessor.java:259-285 | The `requestBinding` statements emitted are the parameter requests, then the field requests, then the supertype request. |
| Adapters.EmitDependencies | compiler/src/main/java/dagger/internal/codegen/InjectProcessor.java:292-305 | `getBindings` receives the parameter slot names; `injectMembersBindings` receives the field slot names, then `supertype`. |
| Adapters.EmitGetArguments | compiler/src/main/java/dagger/internal/codegen/InjectProcessor.java:313-323 | The argument list built in the `StringBuilder` loop is the parameter slot names in order. |
| Adapters.EmitAssignments | compiler/src/main/java/dagger/internal/codegen/InjectProcessor.java:336-339 | One assignment per field, in order, of the field from its own slot. |
| Adapters.WriteInjectAdapter | compiler/src/main/java/dagger/internal/codegen/InjectProcessor.java:200-348 | The writer's flags, blocks and loops produce exactly `InjectAdapterOf` of the type, constructor and fields. |
| Adapters.AdapterAttachesIffSlots | compiler/src/main/java/dagger/internal/codegen/InjectProcessor.java:213-214 | `attach` and `getDependencies` are emitted exactly when the adapter has at least one slot, and exactly when it imports `Linker`. |
| Adapters.AdapterProvidesIffConstructor | compiler/src/main/java/dagger/internal/codegen/InjectProcessor.java:219-252 | With a constructor, the adapter has a key, implements and imports `Provider`, and has `get`. Without one, the key is null and none of these are present. |
| Adapters.AdapterInjectsMembersIff | compiler/src/main/java/dagger/internal/codegen/InjectProcessor.java:331-344 | Members are injected exactly when there are fields or a supertype. Exactly then the adapter implements and imports `MembersInjector`, and it delegates to the supertype exactly when there is one. |
| Adapters.AdapterSlotOrder | compiler/src/main/java/dagger/internal/codegen/InjectProcessor.java:227-242 | The slots are the constructor parameters, then the fields, then `supertype`, and there are no others. Each is named by the prefix rule and typed by its element. |
| Adapters.AdapterRequestsLayout | compiler/src/main/java/dagger/internal/codegen/InjectProcessor.java:259-285 | `attach` requests each parameter and then each field by its own key, as mandatory. The supertype's members key comes last, as not mandatory. |
| Adapters.AdapterRequestsMatchSlots | compiler/src/main/java/dagger/internal/codegen/InjectProcessor.java:259-285 | There is one request per slot, in slot order, each assigned to that slot and each on behalf of the stripped type. |
| Adapters.AdapterOptionalRequestIsSupertype | compiler/src/main/java/dagger/internal/codegen/InjectProcessor.java:278-285 | A request is not mandatory exactly when it is the last one and a supertype exists; that request asks for the supertype's members key. |
| Adapters.AdapterDependenciesPartitionSlots | compiler/src/main/java/dagger/internal/codegen/InjectProcessor.java:292-305 | `getBindings` followed by `injectMembersBindings` lists every slot name once, in slot order. `getBindings` holds exactly the parameter slots. |
| Adapters.AdapterGetCallsConstructor | compiler/src/main/java/dagger/internal/codegen/InjectProcessor.java:313-326 | `get` passes the parameter slots in declaration order. It calls `injectMembers` exactly when the adapter injects members. |
| Adapters.AdapterInjectsMembers | compiler/src/main/java/dagger/internal/codegen/InjectProcessor.java:336-339 | `injectMembers` assigns each field, in field order, from the slot made for that field. |
| Adapters.AdapterSlotNamesDistinct | compiler/src/main/java/dagger/internal/codegen/InjectProcessor.java:227-242 | No two slots share a name, given distinct simple names and, when names are not prefixed beside a supertype, no parameter or field named `supertype` (see Findings). |
| Adapters.SlotNamesDistinctCorrected | compiler/src/main/java/dagger/internal/codegen/InjectProcessor.java:209-242 | With prefixes also switched on whenever a supertype slot exists, the slot names are distinct under distinct simple names alone. |
| Adapters.SlotsOfCorrectedAgrees | compiler/src/main/java/dagger/internal/codegen/InjectProcessor.java:209-242 | Where the writer already prefixes, or there is no supertype, the corrected naming gives exactly the writer's slots. |
| Adapters.SupertypeSlotCollides | compiler/src/main/java/dagger/internal/codegen/InjectProcessor.java:227-242 | Without prefixes and with a supertype, a parameter or field named `supertype` gets that slot name twice, so the slot names are not distinct. |
| Adapters.SupertypeFieldCollision | compiler/src/main/java/dagger/internal/codegen/InjectProcessor.java:236-242 | A type with a supertype, no constructor and one `@Inject` field named `supertype` gets the slot names `supertype`, `supertype`. |
| Adapters.WriteStaticInjection | compiler/src/main/java/dagger/internal/codegen/InjectProcessor.java:380-435 | The three loops produce exactly `StaticInjectionOf` of the type and its static fields. |
| Adapters.StaticInjectionShape | compiler/src/main/java/dagger/internal/codegen/InjectProcessor.java:401-430 | Each static field gets an unprefixed slot, a mandatory request by its own key on behalf of the qualified type, and an assignment of the type's field from that slot, all in field order. The imports are distinct and `StaticInjection` comes first. |
| Classification.ScanSelects | compiler/src/main/java/dagger/internal/codegen/InjectProcessor.java:131-154 | Unannotated members are ignored. Annotated static fields and instance fields are collected in declaration order. The constructor is the last annotated one: a later one replaces an earlier one. |
| Classification.ScanCannotInjectErrors | compiler/src/main/java/dagger/internal/codegen/InjectProcessor.java:155-158 | The "Cannot inject" errors are exactly one per annotated member that is neither a field nor a constructor, in declaration order, each naming that member. |
| Classification.MemberErrorKinds | compiler/src/main/java/dagger/internal/codegen/InjectProcessor.java:144-152 | An annotated constructor causes a "too many" error, at itself and naming the type, exactly when one was seen before. Otherwise it causes the abstract-class error, at itself and naming the type, exactly when the type is abstract, so never both. |
| Classification.ScanTooManyErrors | compiler/src/main/java/dagger/internal/codegen/InjectProcessor.java:144-147 | The "too many" errors are exactly one at each annotated constructor after the first, in declaration order, each naming the type. |
| Classification.ScanAbstractErrors | compiler/src/main/java/dagger/internal/codegen/InjectProcessor.java:148-151 | On an abstract type with an annotated constructor there is exactly one abstract-class error, at the first annotated constructor and naming the type; otherwise there is none. |
| Classification.ScanErrorCount | compiler/src/main/java/dagger/internal/codegen/InjectProcessor.java:131-160 | The number of errors is the number of unsupported annotated members plus the constructor errors above, and nothing else. |
| Classification.ScanErrorsStructural | compiler/src/main/java/dagger/internal/codegen/InjectProcessor.java:131-160 | Every error is one of the three structural kinds, reported at a declared member. |
| Classification.NoArgsConstructorAt | compiler/src/main/java/dagger/internal/codegen/InjectProcessor.java:173-188 | The fallback is decided by the first parameterless constructor alone: none if it is private, otherwise that constructor. |
| Classification.NoArgsConstructorAbsent | compiler/src/main/java/dagger/internal/codegen/InjectProcessor.java:173-188 | Without a parameterless constructor there is no fallback. |
| Classification.FindNoArgsConstructor | compiler/src/main/java/dagger/internal/codegen/InjectProcessor.java:173-188 | The early-returning loop computes `NoArgsConstructor`. |
| Classification.ClassifyMembers | compiler/src/main/java/dagger/internal/codegen/InjectProcessor.java:125-167 | The static and instance fields are the annotated ones, in order. The constructor is the last annotated one; if there is none, it is none for an abstract type and the no-argument fallback otherwise. |
| Classification.ClassifyErrors | compiler/src/main/java/dagger/internal/codegen/InjectProcessor.java:125-167 | The "Cannot inject", "too many" and abstract-class errors are exactly those of the member loop, at the same members and in the same order, and the total count shows the fallback adds none. |
| Classification.ReportedConstructorKept | compiler/src/main/java/dagger/internal/codegen/InjectProcessor.java:144-153 | A second `@Inject` constructor is reported at that constructor, and an abstract type's first one at itself, yet the last annotated constructor is still the one chosen. |
| Classification.ClassifyErrorsStructural | compiler/src/main/java/dagger/internal/codegen/InjectProcessor.java:125-167 | Classification reports only structural errors, at declared members. |
| Classification.GetInjectedClass | compiler/src/main/java/dagger/internal/codegen/InjectProcessor.java:125-167 | The member loop and the fallback compute `Classify`: the same injected class and the same errors in the same order. |
| Classification.AllTypesExist | compiler/src/main/java/dagger/internal/codegen/InjectProcessor.java:103-110 | Returns true exactly when every element's type resolved. |
| Classification.ReadyMeans | compiler/src/main/java/dagger/internal/codegen/InjectProcessor.java:69-73 | A class is ready exactly when every annotated field, static or not, resolved, and so did every parameter of the chosen constructor, if there is one. |
| Classification.EmptyTypeIsReady | compiler/src/main/java/dagger/internal/codegen/InjectProcessor.java:69-73 | A type without members is ready, with nothing to inject and no errors. |
| Processor.EmissionDecisions | compiler/src/main/java/dagger/internal/codegen/InjectProcessor.java:90-97 | The adapter is written exactly when there is a constructor or an instance field and its file does not fail. The static injection is written exactly when there are static fields, no adapter write threw first and its own file does not fail. A failure is reported exactly when one of those writes fails. |
| Processor.EmissionArtifactsOwn | compiler/src/main/java/dagger/internal/codegen/InjectProcessor.java:90-97 | At most two files are written, all for the class's own type, with the adapter first. |
| Processor.ReportedConstructorStillWritten | compiler/src/main/java/dagger/internal/codegen/InjectProcessor.java:144-153 | A ready class with a second `@Inject` constructor, or with one on an abstract type, has that error reported at the constructor and is still written, with the last annotated constructor. |
| Processor.InjectProcessor.WriteInjectionsForClass | compiler/src/main/java/dagger/internal/codegen/InjectProcessor.java:90-97 | Appends exactly the emitted files and returns the failed write, as `EmissionOf` says. |
| Processor.FinalReport | compiler/src/main/java/dagger/internal/codegen/InjectProcessor.java:83-86 | Exactly one error when processing is over and names are pending, and none otherwise; it lists every pending name. |
| Processor.RoundKept | compiler/src/main/java/dagger/internal/codegen/InjectProcessor.java:66-82 | A round keeps exactly the names that are not ready, in their order. |
| Processor.RoundKeepsOrder | compiler/src/main/java/dagger/internal/codegen/InjectProcessor.java:66-82 | The kept names are duplicate-free and keep their relative order. A pending name is kept exactly when its class is not ready. |
| Processor.RoundAllReady | compiler/src/main/java/dagger/internal/codegen/InjectProcessor.java:66-82 | When every pending class is ready, nothing is kept. |
| Processor.RoundArtifactsForReadyNames | compiler/src/main/java/dagger/internal/codegen/InjectProcessor.java:74-81 | Files are written only for pending names whose class is ready. |
| Processor.RoundWritesReadyNames | compiler/src/main/java/dagger/internal/codegen/InjectProcessor.java:74-76 | Conversely, every file the emission of a ready pending name produces is written by the round. |
| Processor.RoundReportsFailedWrites | compiler/src/main/java/dagger/internal/codegen/InjectProcessor.java:75-79 | A "code gen failed" error for a type and file appears exactly when that name is pending and ready and writing that file failed. |
| Processor.FailedWriteStillRemoved | compiler/src/main/java/dagger/internal/codegen/InjectProcessor.java:75-80 | A ready name whose write failed is still removed, and its failure is reported. |
| Processor.GetInjectedClassNames | compiler/src/main/java/dagger/internal/codegen/InjectProcessor.java:112-120 | The loop computes the enclosing type names added one by one to an insertion-ordered set. |
| Processor.DiscoveredNames | compiler/src/main/java/dagger/internal/codegen/InjectProcessor.java:112-120 | The discovered names are duplicate-free, they are exactly the enclosing types of the annotated elements, and they are in order of first discovery. |
| Processor.PendingUpdate | compiler/src/main/java/dagger/internal/codegen/InjectProcessor.java:62-65 | After `addAll` the pending list begins with the old pending names, unchanged. They are followed by the newly discovered names not already present, in order of first discovery. There are no duplicates, and membership is the union. |
| Processor.InjectProcessor.constructor | compiler/src/main/java/dagger/internal/codegen/InjectProcessor.java:62 | The processor starts with no pending names, diagnostics or files. |
| Processor.InjectProcessor.VisitName | compiler/src/main/java/dagger/internal/codegen/InjectProcessor.java:67-81 | The loop body classifies the name and checks the fields, constructor parameters and static fields. When all resolve, it writes the class and reports a failed write. Returns whether the name is to be removed, as `VisitOf` says. |
| Processor.InjectProcessor.VisitNext | compiler/src/main/java/dagger/internal/codegen/InjectProcessor.java:66-82 | Visiting the next name extends the round by that name and removes it at the iterator's position when it is ready; the pending list stays duplicate-free. |
| Processor.InjectProcessor.VisitAll | compiler/src/main/java/dagger/internal/codegen/InjectProcessor.java:66-82 | Walking the list and removing through the iterator leaves the names a round keeps, and appends the round's diagnostics and files; the pending list stays duplicate-free. |
| Processor.InjectProcessor.Process | compiler/src/main/java/dagger/internal/codegen/InjectProcessor.java:64-88 | A call adds the discovered names, runs one round over them and reports the final error. The pending list stays duplicate-free, and the method claims the annotation. |

## Left out

- The Java text the writers emit is not modelled: the text of the package and import statements, Javadoc from `ProcessorJavadocs`, casts, `compressType`, `@Override` and `@SuppressWarnings`. What they declare, and in which order, is modelled.
- The `isAbstract` flag of `writeInjectAdapter` only selects Javadoc text and is not modelled.
- `Filer`, `openWriter` and `IOException` are modelled by the set of files whose writing throws. Such a write leaves no file. The exception's message is replaced by the file that failed.
- `Messager`: each `printMessage` is a diagnostic appended to a sequence. Message texts are symbolic; the "Cannot inject" message carries the element instead of its `toString`.
- `GeneratorKeys` and `CodeGen` are not part of this model. Keys are symbolic values built from an element's qualifier and type, or from a raw type name. Type names come as strings on the elements. The package and the application supertype are fields of the type record. A generated file is named by its kind and the type, not by `adapterName`.
- The compiler host (`getTypeElement`, `getEnclosedElements`, `TypeKind.ERROR`) is a map from names to type records, each member having a `resolved` flag. The code dereferences the type without a null check. Callers are therefore required to cover every pending name with the table (`Covers`).
- `Adapters.StrippedTypeName`: requires that the qualified name be longer than a non-empty package name, as it is for a real type. Otherwise `substring` would throw.
- The runtime behaviour of generated adapters (`Linker.requestBinding`, singleton caching) belongs to the runtime library. Only the singleton flag and the null key without a constructor are recorded.
- The `types` argument of `process` is unused by the code and not modelled; the `true` it returns is the `claimed` result.
- `Adapters.AdapterSlotNamesDistinct`: also requires that, when names are not prefixed and a supertype exists, no field or parameter be named `supertype`. The writer is modelled as written for that case too, and it then declares two fields of that name (see Findings). The corrected naming `Adapters.DisambiguatesCorrected` is stated for the slots only, and the writer keeps the naming it has.
- The error at lines 150-151 says an abstract class must not have an `@Inject` constructor. The code still keeps that constructor (line 153), as it keeps the later of two `@Inject` constructors after reporting "too many" (lines 145-147). The model does the same, and `Processor.ReportedConstructorStillWritten` states that such a class is still written with that constructor. The errors make the compilation fail, but the files are still produced.
- A name that stays pending is classified again in every round, so its structural errors are reported again each round. The model does the same.
- The `Iterator` of `remainingTypeNames` is modelled by an index into the pending sequence, plus in-place removal at that index.

## Findings

| source | as written | input that shows it | evidently intended | confidence | as-written member | corrected member |
|---|---|---|---|---|---|---|
| compiler/src/main/java/dagger/internal/codegen/InjectProcessor.java:227-242 | Without the `field_`/`parameter_` prefixes, each slot is named by its element's simple name. The supertype slot is always named `supertype`. | Type `a.B` with injectable supertype `a.Base`, no `@Inject` constructor, and one `@Inject` field named `supertype`. The slot names are `supertype`, `supertype`, so the generated class declares two fields with the same name. | Slot names in an adapter are distinct. Prefixing whenever a supertype slot exists achieves that. | not executed | Adapters.SupertypeSlotCollides | Adapters.SlotNamesDistinctCorrected |
