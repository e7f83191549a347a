/**
  The metadata schema: one immutable record per kind of declaration a
  component exposes, the `Metadata` union over them, and the small
  behaviours attached to them (the primary-constructor convention, the error
  accessors, the FFI symbol names, the injections into `Metadata`).
 */
module Schema {
  import opened Wrappers
  import opened Bytes

  /** Must match the minor version of the `uniffi` crate. */
  const UNIFFI_CONTRACT_VERSION: u32 := 22

  /** A type of the interface language; its structure belongs to the `types` module. */
  type Type(==)

  /** How an object is implemented (plain struct or trait); also from `types`. */
  type ObjectImpl(==)

  /**
    The symbol-name builders of the `ffi_names` module, whose string format
    this model does not fix: each takes the identifying components of a
    declaration and returns the exported symbol.
   */
  datatype FfiNames = FfiNames(
    fnSymbolName: (string, string) -> string,
    fnChecksumSymbolName: (string, string) -> string,
    constructorSymbolName: (string, string, string) -> string,
    constructorChecksumSymbolName: (string, string, string) -> string,
    methodSymbolName: (string, string, string) -> string,
    methodChecksumSymbolName: (string, string, string) -> string,
    freeFnSymbolName: (string, string) -> string)

  ghost predicate Injective2(f: (string, string) -> string)
  {
    forall a, b, c, d :: f(a, b) == f(c, d) ==> a == c && b == d
  }

  ghost predicate Injective3(f: (string, string, string) -> string)
  {
    forall a, b, c, d, e, g :: f(a, b, c) == f(d, e, g) ==> a == d && b == e && c == g
  }

  /**
    The builders never map two different identities to one symbol, which is
    what joining every component with a separator no identifier contains
    achieves.
   */
  ghost predicate Distinguishing(names: FfiNames)
  {
    && Injective2(names.fnSymbolName)
    && Injective2(names.fnChecksumSymbolName)
    && Injective3(names.constructorSymbolName)
    && Injective3(names.constructorChecksumSymbolName)
    && Injective3(names.methodSymbolName)
    && Injective3(names.methodChecksumSymbolName)
    && Injective2(names.freeFnSymbolName)
  }

  ghost predicate Apart22(f: (string, string) -> string, g: (string, string) -> string)
  {
    forall a, b, c, d :: f(a, b) != g(c, d)
  }

  ghost predicate Apart23(f: (string, string) -> string, g: (string, string, string) -> string)
  {
    forall a, b, c, d, e :: f(a, b) != g(c, d, e)
  }

  ghost predicate Apart33(f: (string, string, string) -> string, g: (string, string, string) -> string)
  {
    forall a, b, c, d, e, h :: f(a, b, c) != g(d, e, h)
  }

  /**
    No two builders ever produce the same symbol, which is what giving each
    kind of symbol a prefix of its own achieves.
   */
  ghost predicate RangesApart(names: FfiNames)
  {
    && Apart22(names.fnSymbolName, names.fnChecksumSymbolName)
    && Apart23(names.fnSymbolName, names.constructorSymbolName)
    && Apart23(names.fnSymbolName, names.constructorChecksumSymbolName)
    && Apart23(names.fnSymbolName, names.methodSymbolName)
    && Apart23(names.fnSymbolName, names.methodChecksumSymbolName)
    && Apart22(names.fnSymbolName, names.freeFnSymbolName)
    && Apart23(names.fnChecksumSymbolName, names.constructorSymbolName)
    && Apart23(names.fnChecksumSymbolName, names.constructorChecksumSymbolName)
    && Apart23(names.fnChecksumSymbolName, names.methodSymbolName)
    && Apart23(names.fnChecksumSymbolName, names.methodChecksumSymbolName)
    && Apart22(names.fnChecksumSymbolName, names.freeFnSymbolName)
    && Apart33(names.constructorSymbolName, names.constructorChecksumSymbolName)
    && Apart33(names.constructorSymbolName, names.methodSymbolName)
    && Apart33(names.constructorSymbolName, names.methodChecksumSymbolName)
    && Apart23(names.freeFnSymbolName, names.constructorSymbolName)
    && Apart33(names.constructorChecksumSymbolName, names.methodSymbolName)
    && Apart33(names.constructorChecksumSymbolName, names.methodChecksumSymbolName)
    && Apart23(names.freeFnSymbolName, names.constructorChecksumSymbolName)
    && Apart33(names.methodSymbolName, names.methodChecksumSymbolName)
    && Apart23(names.freeFnSymbolName, names.methodSymbolName)
    && Apart23(names.freeFnSymbolName, names.methodChecksumSymbolName)
  }

  /** The namespace of a component interface. */
  datatype NamespaceMetadata = NamespaceMetadata(crateName: string, name: string)

  /** An interface definition file included with the scaffolding. */
  datatype UdlFile = UdlFile(modulePath: string, name: string)

  datatype FnMetadata = FnMetadata(
    modulePath: string,
    name: string,
    isAsync: bool,
    inputs: seq<FnParamMetadata>,
    returnType: Option<Type>,
    throws: Option<Type>,
    checksum: Option<u16>)
  {
    function FfiSymbolName(names: FfiNames): (r: string)
      ensures r == names.fnSymbolName(modulePath, name)
    {
      names.fnSymbolName(modulePath, name)
    }

    function ChecksumSymbolName(names: FfiNames): (r: string)
      ensures r == names.fnChecksumSymbolName(modulePath, name)
    {
      names.fnChecksumSymbolName(modulePath, name)
    }
  }

  datatype ConstructorMetadata = ConstructorMetadata(
    modulePath: string,
    selfName: string,
    name: string,
    inputs: seq<FnParamMetadata>,
    throws: Option<Type>,
    checksum: Option<u16>)
  {
    function FfiSymbolName(names: FfiNames): (r: string)
      ensures r == names.constructorSymbolName(modulePath, selfName, name)
    {
      names.constructorSymbolName(modulePath, selfName, name)
    }

    function ChecksumSymbolName(names: FfiNames): (r: string)
      ensures r == names.constructorChecksumSymbolName(modulePath, selfName, name)
    {
      names.constructorChecksumSymbolName(modulePath, selfName, name)
    }

    /** A constructor named `new` is the type's primary constructor. */
    function IsPrimary(): (r: bool)
      ensures r <==> name == "new"
    {
      name == "new"
    }
  }

  datatype MethodMetadata = MethodMetadata(
    modulePath: string,
    selfName: string,
    name: string,
    isAsync: bool,
    inputs: seq<FnParamMetadata>,
    returnType: Option<Type>,
    throws: Option<Type>,
    takesSelfByArc: bool,
    checksum: Option<u16>)
  {
    function FfiSymbolName(names: FfiNames): (r: string)
      ensures r == names.methodSymbolName(modulePath, selfName, name)
    {
      names.methodSymbolName(modulePath, selfName, name)
    }

    function ChecksumSymbolName(names: FfiNames): (r: string)
      ensures r == names.methodChecksumSymbolName(modulePath, selfName, name)
    {
      names.methodChecksumSymbolName(modulePath, selfName, name)
    }
  }

  /** A method of a callback interface; `index` fixes its slot in the call table. */
  datatype TraitMethodMetadata = TraitMethodMetadata(
    modulePath: string,
    traitName: string,
    index: u32,
    name: string,
    isAsync: bool,
    inputs: seq<FnParamMetadata>,
    returnType: Option<Type>,
    throws: Option<Type>,
    takesSelfByArc: bool,
    checksum: Option<u16>)
  {
    /** Trait methods are named like methods, with the trait as the owner. */
    function FfiSymbolName(names: FfiNames): (r: string)
      ensures r == names.methodSymbolName(modulePath, traitName, name)
    {
      names.methodSymbolName(modulePath, traitName, name)
    }

    function ChecksumSymbolName(names: FfiNames): (r: string)
      ensures r == names.methodChecksumSymbolName(modulePath, traitName, name)
    {
      names.methodChecksumSymbolName(modulePath, traitName, name)
    }
  }

  datatype FnParamMetadata = FnParamMetadata(
    name: string,
    ty: Type,
    byRef: bool,
    optional: bool,
    default: Option<LiteralMetadata>)
  {
    /** A parameter passed by value, required, with no default. */
    static function Simple(name: string, ty: Type): (p: FnParamMetadata)
      ensures p.name == name && p.ty == ty
      ensures !p.byRef && !p.optional && p.default == None
    {
      FnParamMetadata(name, ty, false, false, None)
    }
  }

  /**
    A default value as written in the interface definition.  Integers keep
    their radix and declared type; floats keep the text they were written as.
   */
  datatype LiteralMetadata =
    | Boolean(b: bool)
    | String(s: string)
    | UInt(u: u64, radix: Radix, ty: Type)
    | Int(i: i64, radix: Radix, ty: Type)
    | Float(text: string, ty: Type)
    | Enum(variant: string, ty: Type)
    | EmptySequence
    | EmptyMap
    | Null

  datatype Radix = Decimal | Octal | Hexadecimal
  {
    /** The explicit discriminant of each radix: its base. */
    function Base(): (b: nat)
      ensures this == Decimal <==> b == 10
      ensures this == Octal <==> b == 8
      ensures this == Hexadecimal <==> b == 16
    {
      match this
      case Decimal => 10
      case Octal => 8
      case Hexadecimal => 16
    }
  }

  datatype RecordMetadata = RecordMetadata(modulePath: string, name: string, fields: seq<FieldMetadata>)

  datatype FieldMetadata = FieldMetadata(name: string, ty: Type, default: Option<LiteralMetadata>)

  datatype EnumMetadata = EnumMetadata(modulePath: string, name: string, variants: seq<VariantMetadata>)

  datatype VariantMetadata = VariantMetadata(name: string, fields: seq<FieldMetadata>)

  datatype ObjectMetadata = ObjectMetadata(
    modulePath: string,
    name: string,
    imp: ObjectImpl,
    uniffiTraits: seq<UniffiTraitMetadata>)
  {
    /** The symbol of the function that frees an instance of this object. */
    function FreeFfiSymbolName(names: FfiNames): (r: string)
      ensures r == names.freeFnSymbolName(modulePath, name)
    {
      names.freeFnSymbolName(modulePath, name)
    }
  }

  datatype CallbackInterfaceMetadata = CallbackInterfaceMetadata(modulePath: string, name: string)

  /** The traits helper methods are generated for, with the methods implementing them. */
  datatype UniffiTraitMetadata =
    | Debug(fmt: MethodMetadata)
    | Display(fmt: MethodMetadata)
    | Eq(eq: MethodMetadata, ne: MethodMetadata)
    | Hash(hash: MethodMetadata)

  datatype ErrorMetadata = Enum(enumMeta: EnumMetadata, isFlat: bool)
  {
    /** The name of the enum the error wraps. */
    function Name(): (r: string)
      ensures r == enumMeta.name
    {
      match this
      case Enum(e, _) => e.name
    }

    /** The module path of the enum the error wraps. */
    function ModulePath(): (r: string)
      ensures r == enumMeta.modulePath
    {
      match this
      case Enum(e, _) => e.modulePath
    }
  }

  datatype CustomTypeMetadata = CustomTypeMetadata(modulePath: string, name: string, builtin: Type)

  /** Every kind of metadata item. */
  datatype Metadata =
    | Namespace(namespaceMeta: NamespaceMetadata)
    | UdlFile(udlFile: UdlFile)
    | Func(fnMeta: FnMetadata)
    | Object(objectMeta: ObjectMetadata)
    | CallbackInterface(callbackInterfaceMeta: CallbackInterfaceMetadata)
    | Record(recordMeta: RecordMetadata)
    | Enum(enumMeta: EnumMetadata)
    | Error(errorMeta: ErrorMetadata)
    | Constructor(constructorMeta: ConstructorMetadata)
    | Method(methodMeta: MethodMetadata)
    | TraitMethod(traitMethodMeta: TraitMethodMetadata)
    | CustomType(customTypeMeta: CustomTypeMetadata)

  function FromNamespace(value: NamespaceMetadata): (m: Metadata)
    ensures m.Namespace? && m.namespaceMeta == value
  {
    Metadata.Namespace(value)
  }

  function FromUdlFile(value: UdlFile): (m: Metadata)
    ensures m.UdlFile? && m.udlFile == value
  {
    Metadata.UdlFile(value)
  }

  function FromFn(value: FnMetadata): (m: Metadata)
    ensures m.Func? && m.fnMeta == value
  {
    Func(value)
  }

  function FromConstructor(c: ConstructorMetadata): (m: Metadata)
    ensures m.Constructor? && m.constructorMeta == c
  {
    Constructor(c)
  }

  function FromMethod(meth: MethodMetadata): (m: Metadata)
    ensures m.Method? && m.methodMeta == meth
  {
    Method(meth)
  }

  function FromRecord(r: RecordMetadata): (m: Metadata)
    ensures m.Record? && m.recordMeta == r
  {
    Record(r)
  }

  function FromEnum(e: EnumMetadata): (m: Metadata)
    ensures m.Enum? && m.enumMeta == e
  {
    Metadata.Enum(e)
  }

  function FromError(e: ErrorMetadata): (m: Metadata)
    ensures m.Error? && m.errorMeta == e
  {
    Error(e)
  }

  function FromObject(v: ObjectMetadata): (m: Metadata)
    ensures m.Object? && m.objectMeta == v
  {
    Object(v)
  }

  function FromCallbackInterface(v: CallbackInterfaceMetadata): (m: Metadata)
    ensures m.CallbackInterface? && m.callbackInterfaceMeta == v
  {
    CallbackInterface(v)
  }

  function FromTraitMethod(v: TraitMethodMetadata): (m: Metadata)
    ensures m.TraitMethod? && m.traitMethodMeta == v
  {
    TraitMethod(v)
  }

  function FromCustomType(v: CustomTypeMetadata): (m: Metadata)
    ensures m.CustomType? && m.customTypeMeta == v
  {
    CustomType(v)
  }

  /**
    A function's symbols are decided by its module path and name alone; with
    distinguishing builders, no two functions that differ there share one.
   */
  lemma FnSymbolsIdentify(names: FfiNames, f1: FnMetadata, f2: FnMetadata)
    ensures f1.modulePath == f2.modulePath && f1.name == f2.name
        ==> f1.FfiSymbolName(names) == f2.FfiSymbolName(names)
            && f1.ChecksumSymbolName(names) == f2.ChecksumSymbolName(names)
    ensures Distinguishing(names) && f1.FfiSymbolName(names) == f2.FfiSymbolName(names)
        ==> f1.modulePath == f2.modulePath && f1.name == f2.name
    ensures Distinguishing(names) && f1.ChecksumSymbolName(names) == f2.ChecksumSymbolName(names)
        ==> f1.modulePath == f2.modulePath && f1.name == f2.name
  {
  }

  /** A constructor's symbols are decided by module path, owner and name. */
  lemma ConstructorSymbolsIdentify(names: FfiNames, c1: ConstructorMetadata, c2: ConstructorMetadata)
    ensures c1.modulePath == c2.modulePath && c1.selfName == c2.selfName && c1.name == c2.name
        ==> c1.FfiSymbolName(names) == c2.FfiSymbolName(names)
            && c1.ChecksumSymbolName(names) == c2.ChecksumSymbolName(names)
    ensures Distinguishing(names) && c1.FfiSymbolName(names) == c2.FfiSymbolName(names)
        ==> c1.modulePath == c2.modulePath && c1.selfName == c2.selfName && c1.name == c2.name
    ensures Distinguishing(names) && c1.ChecksumSymbolName(names) == c2.ChecksumSymbolName(names)
        ==> c1.modulePath == c2.modulePath && c1.selfName == c2.selfName && c1.name == c2.name
  {
  }

  /**
    Primary constructors of one object all bear the name `new`, hence one
    symbol; with distinguishing builders, a constructor exported under the
    primary constructor's symbol is itself primary.
   */
  lemma PrimaryConstructorsAgree(names: FfiNames, c1: ConstructorMetadata, c2: ConstructorMetadata)
    requires c1.IsPrimary()
    requires c1.modulePath == c2.modulePath && c1.selfName == c2.selfName
    ensures c2.IsPrimary() ==> c1.FfiSymbolName(names) == c2.FfiSymbolName(names)
    ensures Distinguishing(names) && c1.FfiSymbolName(names) == c2.FfiSymbolName(names) ==> c2.IsPrimary()
  {
  }

  /** A method's symbols are decided by module path, owner and name. */
  lemma MethodSymbolsIdentify(names: FfiNames, m1: MethodMetadata, m2: MethodMetadata)
    ensures m1.modulePath == m2.modulePath && m1.selfName == m2.selfName && m1.name == m2.name
        ==> m1.FfiSymbolName(names) == m2.FfiSymbolName(names)
            && m1.ChecksumSymbolName(names) == m2.ChecksumSymbolName(names)
    ensures Distinguishing(names) && m1.FfiSymbolName(names) == m2.FfiSymbolName(names)
        ==> m1.modulePath == m2.modulePath && m1.selfName == m2.selfName && m1.name == m2.name
    ensures Distinguishing(names) && m1.ChecksumSymbolName(names) == m2.ChecksumSymbolName(names)
        ==> m1.modulePath == m2.modulePath && m1.selfName == m2.selfName && m1.name == m2.name
  {
  }

  /**
    A trait method gets the very symbols of a method whose owner is the
    trait, and with distinguishing builders only such a method shares them:
    the two kinds share one naming scheme.
   */
  lemma TraitMethodNamedAsMethod(names: FfiNames, t: TraitMethodMetadata, m: MethodMetadata)
    ensures t.modulePath == m.modulePath && t.traitName == m.selfName && t.name == m.name
        ==> t.FfiSymbolName(names) == m.FfiSymbolName(names)
            && t.ChecksumSymbolName(names) == m.ChecksumSymbolName(names)
    ensures Distinguishing(names) && t.FfiSymbolName(names) == m.FfiSymbolName(names)
        ==> t.modulePath == m.modulePath && t.traitName == m.selfName && t.name == m.name
  {
  }

  /** The free function's symbol is decided by the object's module path and name. */
  lemma FreeSymbolsIdentify(names: FfiNames, o1: ObjectMetadata, o2: ObjectMetadata)
    ensures o1.modulePath == o2.modulePath && o1.name == o2.name
        ==> o1.FreeFfiSymbolName(names) == o2.FreeFfiSymbolName(names)
    ensures Distinguishing(names) && o1.FreeFfiSymbolName(names) == o2.FreeFfiSymbolName(names)
        ==> o1.modulePath == o2.modulePath && o1.name == o2.name
  {
  }

  /** An error reports the name and module path of the enum it wraps, flat or not. */
  lemma ErrorAccessorsReadWrappedEnum(e: EnumMetadata, isFlat: bool)
    ensures ErrorMetadata.Enum(e, isFlat).Name() == e.name
    ensures ErrorMetadata.Enum(e, isFlat).ModulePath() == e.modulePath
  {
  }

  /** `simple` builds exactly the parameters that are by value, required and without default. */
  lemma SimpleCharacterised(p: FnParamMetadata)
    ensures p == FnParamMetadata.Simple(p.name, p.ty) <==> !p.byRef && !p.optional && p.default == None
  {
  }

  /** Each radix keeps a base of its own. */
  lemma RadixBasesDistinct(a: Radix, b: Radix)
    ensures a.Base() == b.Base() <==> a == b
  {
  }

  /** Every injection into `Metadata` is one-to-one, so wrapping loses nothing. */
  lemma FromInjective()
    ensures forall x, y :: FromNamespace(x) == FromNamespace(y) ==> x == y
    ensures forall x, y :: FromUdlFile(x) == FromUdlFile(y) ==> x == y
    ensures forall x, y :: FromFn(x) == FromFn(y) ==> x == y
    ensures forall x, y :: FromConstructor(x) == FromConstructor(y) ==> x == y
    ensures forall x, y :: FromMethod(x) == FromMethod(y) ==> x == y
    ensures forall x, y :: FromRecord(x) == FromRecord(y) ==> x == y
    ensures forall x, y :: FromEnum(x) == FromEnum(y) ==> x == y
    ensures forall x, y :: FromError(x) == FromError(y) ==> x == y
    ensures forall x, y :: FromObject(x) == FromObject(y) ==> x == y
    ensures forall x, y :: FromCallbackInterface(x) == FromCallbackInterface(y) ==> x == y
    ensures forall x, y :: FromTraitMethod(x) == FromTraitMethod(y) ==> x == y
    ensures forall x, y :: FromCustomType(x) == FromCustomType(y) ==> x == y
  {
  }

  /**
    With builders whose ranges are apart, a declaration's symbol never equals
    its checksum symbol, and the symbols of functions, constructors, methods
    and free functions never collide with one another.
   */
  lemma SymbolKindsApart(names: FfiNames, f: FnMetadata, c: ConstructorMetadata, m: MethodMetadata, o: ObjectMetadata)
    ensures RangesApart(names) ==> f.FfiSymbolName(names) != f.ChecksumSymbolName(names)
    ensures RangesApart(names) ==> c.FfiSymbolName(names) != c.ChecksumSymbolName(names)
    ensures RangesApart(names) ==> m.FfiSymbolName(names) != m.ChecksumSymbolName(names)
    ensures RangesApart(names) ==> f.FfiSymbolName(names) != c.FfiSymbolName(names)
    ensures RangesApart(names) ==> f.FfiSymbolName(names) != m.FfiSymbolName(names)
    ensures RangesApart(names) ==> f.FfiSymbolName(names) != o.FreeFfiSymbolName(names)
    ensures RangesApart(names) ==> c.FfiSymbolName(names) != m.FfiSymbolName(names)
    ensures RangesApart(names) ==> c.FfiSymbolName(names) != o.FreeFfiSymbolName(names)
    ensures RangesApart(names) ==> m.FfiSymbolName(names) != o.FreeFfiSymbolName(names)
    ensures RangesApart(names) ==> f.ChecksumSymbolName(names) != c.ChecksumSymbolName(names)
    ensures RangesApart(names) ==> f.ChecksumSymbolName(names) != m.ChecksumSymbolName(names)
    ensures RangesApart(names) ==> c.ChecksumSymbolName(names) != m.ChecksumSymbolName(names)
  {
  }

  /** Builders that give every kind of symbol a form of its own keep their ranges apart. */
  lemma RangesApartAchievable()
    ensures exists names :: RangesApart(names)
  {
    var names := FfiNames(
      (a: string, b: string) => "f",
      (a: string, b: string) => "g",
      (a: string, b: string, c: string) => "c",
      (a: string, b: string, c: string) => "d",
      (a: string, b: string, c: string) => "m",
      (a: string, b: string, c: string) => "n",
      (a: string, b: string) => "o");
    assert RangesApart(names);
  }
}
