/** What the annotation processor reads from the compiler host and reports back
    to it: elements and type records of the symbol table, and diagnostics. */
module Host {

  datatype Option<T> = None | Some(value: T)

  /** The `ElementKind`s the processor distinguishes. `Method`, `Parameter`
      and `Other` are the kinds that may carry `@Inject` but cannot be
      injected. */
  datatype ElementKind = Field | Constructor | Method | Parameter | Other

  /** A declared element: a field, a constructor (with its parameters), a method,
      a parameter or anything else the host lists among a type's members. */
  datatype Element = Element(
    kind: ElementKind,
    name: string,               // simple name
    typeName: string,           // the element's type as the generated code spells it
    qualifier: Option<string>,  // the qualifier annotation, part of the binding key
    resolved: bool,             // false when the element's type is of kind ERROR
    isStatic: bool,
    isPrivate: bool,
    inject: bool,               // carries `@Inject`
    parameters: seq<Element>)   // for a constructor: its parameters, in order

  /** A type element as the symbol table returns it for a qualified name. The
      package and application supertype are what the code-generation helpers
      (not part of this model) compute for the type. */
  datatype TypeRecord = TypeRecord(
    name: string,               // qualified name
    packageName: string,        // "" for the default package
    isAbstract: bool,
    singleton: bool,            // carries `@Singleton`
    supertype: Option<string>,  // raw name of the injectable supertype, if any
    members: seq<Element>)      // directly declared members, in declaration order

  type SymbolTable = map<string, TypeRecord>

  /** The qualified name starts with the package name and a dot, so the
      package prefix can be cut off. */
  predicate PackageConsistent(t: TypeRecord) {
    t.packageName == "" || |t.packageName| < |t.name|
  }

  /** Every name is known to the table, under its own qualified name and
      with a consistent package. */
  predicate Covers(table: SymbolTable, names: seq<string>) {
    forall n :: n in names ==> n in table && table[n].name == n && PackageConsistent(table[n])
  }

  /** The two kinds of generated source file, one of each at most per type. */
  datatype FileKind = InjectAdapterFile | StaticInjectionFile
  datatype SourceFile = SourceFile(kind: FileKind, typeName: string)

  /** The errors the processor reports, with what each message names. */
  datatype Message =
    | TooManyConstructors(typeName: string)     // "Too many injectable constructors on <type>"
    | AbstractConstructor(typeName: string)     // "Abstract class <type> must not have an @Inject-annotated constructor."
    | CannotInject(member: Element)             // "Cannot inject <member>"
    | CodeGenFailed(typeName: string, file: SourceFile)  // "Code gen failed: <exception>"
    | MissingTypes(typeNames: seq<string>)      // "Could not find injection type required by [<names>]"

  /** The element a diagnostic is attached to. */
  datatype Site = AtMember(member: Element) | AtType(typeName: string) | NoSite

  /** One `Messager.printMessage(ERROR, message, element)` call. */
  datatype Diagnostic = Diagnostic(message: Message, site: Site)
}
