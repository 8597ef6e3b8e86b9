/**
 * The handler of `push-class <class>`, an `ldc` of a class constant:
 * matching, creating, printing, validating, and the classes a line refers
 * to. The class parameter is an internal name (`java/lang/String`, `~Foo`)
 * or an array descriptor.
 */
module PushClassInstructions {
  import opened Outcomes
  import opened AsmTypes
  import opened AsmTree
  import opened Idents
  import opened Scopes
  import opened DescriptorMatching

  /** The instruction loads a class constant. */
  predicate LoadsClass(insn: Insn) {
    insn.LdcInsn? && insn.cst.TypeConst?
  }

  /**
   * Matches a line against an instruction: only a class constant can match;
   * `*` accepts any class; otherwise the class parameter, read as an
   * internal name, must match the constant's type, weak names binding.
   */
  function Check(scope: Option<Scope>, params: seq<string>, insn: Insn): (r: (bool, Option<Scope>))
    requires |params| >= 1
    ensures r.1.Some? <==> scope.Some?
    ensures scope.Some? ==> Extends(scope.value, r.1.value)
    ensures !LoadsClass(insn) ==> r == (false, scope)
    ensures LoadsClass(insn) && params[0] == "*" ==> r == (true, scope)
    ensures LoadsClass(insn) && params[0] != "*" ==> r == CheckTypes(scope, GetObjectType(params[0]), insn.cst.t)
    ensures LoadsClass(insn) && params[0] != "*" ==> (r.0 <==> TypesHold(r.1, GetObjectType(params[0]), insn.cst.t))
    ensures LoadsClass(insn) && scope.Some? && insn.cst.t.Object? && params[0] != "*"
            && (|params[0]| == 0 || params[0][0] != '[')
            && ParseIdent(params[0]).isWeak && ParseIdent(params[0]).name !in scope.value.classes ==>
      r.0 && r.1.value.classes[ParseIdent(params[0]).name] == insn.cst.t.name
  {
    if !LoadsClass(insn) then (false, scope)
    else if params[0] == "*" then (true, scope)
    else
      var pt := GetObjectType(params[0]);
      var r := CheckTypes(scope, pt, insn.cst.t);
      assert r.0 && r.1.Some? ==> TypesHold(r.1, pt, insn.cst.t) by {
        if r.0 && r.1.Some? {
          CheckTypesStable(scope.value, r.1.value, pt, insn.cst.t);
        }
      }
      r
  }

  /**
   * The instruction a line adds, as written: an `ldc` of the rewritten
   * descriptor as a String constant, so the class's descriptor text is
   * pushed rather than the class.
   */
  function Create(scope: Scope, params: seq<string>): (r: Result<Insn>)
    requires |params| >= 1
    ensures r.Ok? <==> WeakNamesBound(scope, GetObjectType(params[0]))
    ensures r.Ok? ==> r.value.LdcInsn? && r.value.cst.StringConst?
    ensures r.Ok? ==> Some(r.value.cst.s) == UpdatedTypeString(scope, GetObjectType(params[0]))
  {
    match UpdatedTypeString(scope, GetObjectType(params[0]))
    case None => Err("NullPointerException")
    case Some(desc) => Ok(LdcInsn(StringConst(desc)))
  }

  /** The instruction a line adds, corrected: an `ldc` of the class the rewritten descriptor names. */
  function CreateCorrected(scope: Scope, params: seq<string>): (r: Result<Insn>)
    requires |params| >= 1
    ensures r.Ok? <==> WeakNamesBound(scope, GetObjectType(params[0]))
    ensures r.Ok? ==> LoadsClass(r.value)
  {
    match UpdatedTypeString(scope, GetObjectType(params[0]))
    case None => Err("NullPointerException")
    case Some(desc) => Ok(LdcInsn(TypeConst(GetType(desc))))
  }

  /**
   * As written, the instruction a line adds after matching a class constant
   * is the descriptor as a String: the same line never matches it.
   */
  lemma CreateNotMatchedAsWritten(s: Scope, params: seq<string>, t: Type)
    requires |params| >= 1 && params[0] != "*" && FieldType(t)
    requires Check(Some(s), params, LdcInsn(TypeConst(t))).0
    ensures var s' := Check(Some(s), params, LdcInsn(TypeConst(t))).1.value;
      && Create(s', params) == Ok(LdcInsn(StringConst(Descriptor(t))))
      && !Check(Some(s'), params, Create(s', params).value).0
  {
    var s' := Check(Some(s), params, LdcInsn(TypeConst(t))).1.value;
    CheckTypesThenUpdate(s, GetObjectType(params[0]), t);
  }

  /**
   * Corrected, the instruction a line adds after matching a class constant
   * loads that same class, and the line matches it again binding nothing new.
   */
  lemma CheckThenCreateCorrected(s: Scope, params: seq<string>, t: Type)
    requires |params| >= 1 && params[0] != "*" && FieldType(t)
    requires Check(Some(s), params, LdcInsn(TypeConst(t))).0
    ensures var s' := Check(Some(s), params, LdcInsn(TypeConst(t))).1.value;
      && CreateCorrected(s', params) == Ok(LdcInsn(TypeConst(t)))
      && Check(Some(s'), params, LdcInsn(TypeConst(t))) == (true, Some(s'))
  {
    var pt := GetObjectType(params[0]);
    var s' := Check(Some(s), params, LdcInsn(TypeConst(t))).1.value;
    CheckTypesThenUpdate(s, pt, t);
    GetTypeDescriptor(t);
    CheckTypesStable(s, s', pt, t);
  }

  /** The template text of an instruction: `push-class` and the internal name, for a class constant only. */
  function Print(insn: Insn): (r: Option<string>)
    ensures r.Some? <==> LoadsClass(insn)
    ensures r.Some? ==> r.value == "push-class " + InternalName(insn.cst.t)
  {
    if LoadsClass(insn) then Some("push-class " + InternalName(insn.cst.t)) else None
  }

  /**
   * A printed class constant matches itself: its internal name, read back
   * as the class parameter, accepts the constant and binds nothing.
   */
  lemma PrintThenCheck(scope: Option<Scope>, t: Type)
    requires || (t.Object? && (|t.name| == 0 || (t.name[0] != WeakMarker && t.name[0] != '[')))
             || (t.Array? && FieldType(t) && NoWeakNames(t))
    ensures Print(LdcInsn(TypeConst(t))).Some?
    ensures Check(scope, [InternalName(t)], LdcInsn(TypeConst(t))) == (true, scope)
  {
    if t.Array? {
      GetTypeDescriptor(t);
    }
    CheckTypesSelf(scope, t);
  }

  /** A line is valid with exactly one parameter that names a valid class; only then can it be matched or created. */
  function Validate(params: seq<string>, validObjectType: string -> bool): (ok: bool)
    ensures ok ==> |params| >= 1
    ensures ok <==> |params| == 1 && validObjectType(params[0])
  {
    |params| == 1 && validObjectType(params[0])
  }

  /** The class a type refers to: its innermost object type's name, weak marker removed. */
  function RootClass(t: Type): (r: seq<string>)
    ensures |r| <= 1
    ensures r != [] <==> RootType(t).Object?
  {
    var rt := RootType(t);
    if rt.Object? then [ParseIdent(InternalName(rt)).name] else []
  }

  /**
   * The classes a line refers to, as written: the class parameter is read
   * as a descriptor, although `Check` and `Create` read it as an internal
   * name, so a plain class name refers to nothing, and a name starting with
   * `L` and holding no `;` makes ASM throw.
   */
  function ReferencedClassesAsWritten(params: seq<string>): (r: Result<seq<string>>)
    requires |params| >= 1
    ensures params[0] == "*" ==> r == Ok([])
    ensures r.Err? <==> params[0] != "*" && GetTypeThrows(params[0])
    ensures r.Ok? ==> |r.value| <= 1
    ensures r.Ok? ==> (r.value != [] <==> params[0] != "*" && RootType(GetType(params[0])).Object?)
  {
    if params[0] == "*" then Ok([])
    else if GetTypeThrows(params[0]) then Err("ArrayIndexOutOfBoundsException")
    else Ok(RootClass(GetType(params[0])))
  }

  /** The classes a line refers to, corrected: the class parameter read as an internal name, as `Check` reads it. */
  function ReferencedClasses(params: seq<string>): (r: seq<string>)
    requires |params| >= 1
    ensures |r| <= 1
    ensures params[0] == "*" ==> r == []
    ensures r != [] <==> params[0] != "*" && RootType(GetObjectType(params[0])).Object?
  {
    if params[0] == "*" then [] else RootClass(GetObjectType(params[0]))
  }

  /**
   * Corrected, a class name refers to that class, weak marker removed: the
   * class whose binding `Check` makes.
   */
  lemma ReferencedClassOfName(n: string)
    requires n != "*" && (|n| == 0 || n[0] != '[')
    ensures ReferencedClasses([n]) == [ParseIdent(n).name]
  {
  }

  /**
   * As written, `push-class ~Foo` and `push-class java/lang/String` refer to
   * no class, and `push-class Launcher` throws; corrected, they refer to
   * `Foo`, `java/lang/String` and `Launcher`.
   */
  lemma ClassNameNotReferencedAsWritten()
    ensures ReferencedClassesAsWritten(["~Foo"]) == Ok([])
    ensures ReferencedClasses(["~Foo"]) == ["Foo"]
    ensures ReferencedClassesAsWritten(["java/lang/String"]) == Ok([])
    ensures ReferencedClasses(["java/lang/String"]) == ["java/lang/String"]
    ensures ReferencedClassesAsWritten(["Launcher"]).Err?
    ensures ReferencedClasses(["Launcher"]) == ["Launcher"]
  {
    assert !IsPrimitiveCode('~') && !IsPrimitiveCode('j');
    assert ParseIdent("~Foo").name == "Foo";
    assert ';' !in "Launcher";
  }
}
