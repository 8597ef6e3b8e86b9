/**
 * The handler of the four field instructions (`get-field`, `get-static`,
 * `put-field`, `put-static`): matching a template line
 * `<mnemonic> <owner> <name> <descriptor>` against a concrete instruction,
 * building the instruction a template line adds, printing an instruction as
 * a template line, and the classes and fields a line refers to.
 */
module FieldInstructions {
  import opened Outcomes
  import opened AsmTypes
  import opened AsmTree
  import opened Idents
  import opened Scopes
  import opened Templates
  import opened DescriptorMatching
  import opened PatchClasses
  import opened MatchFields

  /** The template mnemonic of a field opcode. */
  function Mnemonic(opcode: int): (r: Option<string>)
    ensures r.Some? <==> opcode == GETFIELD || opcode == GETSTATIC || opcode == PUTFIELD || opcode == PUTSTATIC
  {
    if opcode == GETFIELD then Some("get-field")
    else if opcode == GETSTATIC then Some("get-static")
    else if opcode == PUTFIELD then Some("put-field")
    else if opcode == PUTSTATIC then Some("put-static")
    else None
  }

  /** Each mnemonic names one opcode, so a printed line says which handler reads it back. */
  lemma MnemonicInjective(a: int, b: int)
    requires Mnemonic(a).Some? && Mnemonic(a) == Mnemonic(b)
    ensures a == b
  {
    assert "get-field" != "get-static" && "get-field" != "put-field" && "get-field" != "put-static";
    assert "get-static" != "put-field" && "get-static" != "put-static" && "put-field" != "put-static";
  }

  /** The instruction is a field instruction with the handler's opcode. */
  predicate Handles(opcode: int, insn: Insn) {
    insn.FieldInsn? && insn.opcode == opcode
  }

  // ------------------------------------------------------------- matching

  /** The owner parameter holds in `s`: `*`, the owner itself, or a weak name bound to it (anything, with no scope). */
  predicate OwnerHolds(s: Option<Scope>, param: string, owner: string) {
    var id := ParseIdent(param);
    || id.name == "*"
    || (!id.isWeak && id.name == owner)
    || (id.isWeak && (s.None? || (id.name in s.value.classes && s.value.classes[id.name] == owner)))
  }

  /** The key a weak field name is bound under: the concrete owner, the weak name, the template descriptor. */
  function NameKey(owner: string, param: string, descParam: string): MemberKey {
    MemberKey(owner, ParseIdent(param).name, descParam)
  }

  /** The name parameter holds in `s`: `*`, the name itself, or a weak name whose bound field has that name. */
  predicate NameHolds(s: Option<Scope>, param: string, descParam: string, owner: string, name: string) {
    var id := ParseIdent(param);
    var key := NameKey(owner, param, descParam);
    || id.name == "*"
    || (!id.isWeak && id.name == name)
    || (id.isWeak && (s.None? || (key in s.value.fields && s.value.fields[key].name == name)))
  }

  /** A parameter that constrains nothing: `*`, or a weak name when there is no scope. */
  predicate Unconstrained(scope: Option<Scope>, param: string) {
    ParseIdent(param).name == "*" || (scope.None? && ParseIdent(param).isWeak)
  }

  /** The owner part of a match; an unbound weak owner is bound to the instruction's owner. */
  function CheckOwner(scope: Option<Scope>, param: string, owner: string): (r: (bool, Option<Scope>))
    ensures r.1.Some? <==> scope.Some?
    ensures scope.Some? ==> Extends(scope.value, r.1.value) && r.1.value.fields == scope.value.fields
    ensures r.0 ==> OwnerHolds(r.1, param, owner)
    ensures !r.0 ==> r.1 == scope && !OwnerHolds(scope, param, owner)
    ensures Unconstrained(scope, param) ==> r == (true, scope)
    ensures scope.Some? && ParseIdent(param).isWeak && ParseIdent(param).name != "*"
            && ParseIdent(param).name !in scope.value.classes ==>
      r.0 && r.1.value.classes[ParseIdent(param).name] == owner
  {
    if ParseIdent(param).name == "*" then (true, scope) else CheckObjectType(scope, param, owner)
  }

  /** The name part of a match; an unbound weak name is bound to the instruction's field. */
  function CheckName(scope: Option<Scope>, param: string, descParam: string, owner: string, name: string, desc: string)
    : (r: (bool, Option<Scope>))
    ensures r.1.Some? <==> scope.Some?
    ensures scope.Some? ==> Extends(scope.value, r.1.value) && r.1.value.classes == scope.value.classes
    ensures r.0 ==> NameHolds(r.1, param, descParam, owner, name)
    ensures !r.0 ==> r.1 == scope && !NameHolds(scope, param, descParam, owner, name)
    ensures Unconstrained(scope, param) ==> r == (true, scope)
    ensures scope.Some? && ParseIdent(param).isWeak && ParseIdent(param).name != "*"
            && NameKey(owner, param, descParam) !in scope.value.fields ==>
      r.0 && r.1.value.fields[NameKey(owner, param, descParam)] == FieldRef(owner, name, desc)
  {
    var id := ParseIdent(param);
    if id.name == "*" then (true, scope)
    else if !id.isWeak then (id.name == name, scope)
    else if scope.None? then (true, scope)
    else
      var key := NameKey(owner, param, descParam);
      if key in scope.value.fields then (scope.value.fields[key].name == name, scope)
      else (true, Some(PutField(scope.value, key, FieldRef(owner, name, desc))))
  }

  lemma OwnerHoldsExtends(s: Option<Scope>, s': Option<Scope>, param: string, owner: string)
    requires s.Some? <==> s'.Some?
    requires s.Some? ==> Extends(s.value, s'.value)
    requires OwnerHolds(s, param, owner)
    ensures OwnerHolds(s', param, owner)
  {
  }

  lemma NameHoldsExtends(s: Option<Scope>, s': Option<Scope>, param: string, descParam: string, owner: string, name: string)
    requires s.Some? <==> s'.Some?
    requires s.Some? ==> Extends(s.value, s'.value)
    requires NameHolds(s, param, descParam, owner, name)
    ensures NameHolds(s', param, descParam, owner, name)
  {
  }

  /**
   * Matches a template line against an instruction. The owner is checked
   * first, then the name, then the descriptors; a failing part ends the match
   * but keeps what the parts before it bound.
   */
  function Check(opcode: int, scope: Option<Scope>, params: seq<string>, insn: Insn): (r: (bool, Option<Scope>))
    requires |params| >= 3
    ensures r.1.Some? <==> scope.Some?
    ensures scope.Some? ==> Extends(scope.value, r.1.value)
    ensures !Handles(opcode, insn) ==> r == (false, scope)
    ensures Handles(opcode, insn) ==>
      (r.0 <==> && OwnerHolds(r.1, params[0], insn.owner)
                && NameHolds(r.1, params[1], params[2], insn.owner, insn.name)
                && TypesHold(r.1, GetType(params[2]), GetType(insn.desc)))
    ensures Handles(opcode, insn) && Unconstrained(scope, params[0]) && Unconstrained(scope, params[1]) ==>
      r == CheckTypes(scope, GetType(params[2]), GetType(insn.desc))
    ensures Handles(opcode, insn) && scope.Some? && ParseIdent(params[0]).isWeak && ParseIdent(params[0]).name != "*"
            && ParseIdent(params[0]).name !in scope.value.classes ==>
      ParseIdent(params[0]).name in r.1.value.classes && r.1.value.classes[ParseIdent(params[0]).name] == insn.owner
    ensures r.0 && scope.Some? && ParseIdent(params[1]).isWeak && ParseIdent(params[1]).name != "*"
            && NameKey(insn.owner, params[1], params[2]) !in scope.value.fields ==>
      r.1.value.fields[NameKey(insn.owner, params[1], params[2])] == FieldRef(insn.owner, insn.name, insn.desc)
  {
    if !Handles(opcode, insn) then (false, scope)
    else
      var (ownerOk, s1) := CheckOwner(scope, params[0], insn.owner);
      if !ownerOk then (false, s1)
      else
        var (nameOk, s2) := CheckName(s1, params[1], params[2], insn.owner, insn.name, insn.desc);
        if !nameOk then (false, s2)
        else
          var pt, t := GetType(params[2]), GetType(insn.desc);
          var r := CheckTypes(s2, pt, t);
          OwnerHoldsExtends(s1, r.1, params[0], insn.owner);
          NameHoldsExtends(s2, r.1, params[1], params[2], insn.owner, insn.name);
          assert scope.Some? ==> Extends(s1.value, r.1.value) by {
            if scope.Some? {
              ExtendsTransitive(s1.value, s2.value, r.1.value);
            }
          }
          assert r.0 && r.1.Some? ==> TypesHold(r.1, pt, t) by {
            if r.0 && r.1.Some? {
              CheckTypesStable(s2.value, r.1.value, pt, t);
            }
          }
          r
  }

  // ------------------------------------------------------------- creating

  /** The name an added instruction refers to: a bound weak name's field name, else the name as written. */
  function CreatedName(scope: Scope, owner: string, param: string, descParam: string): (r: string)
    ensures var key := NameKey(owner, param, descParam);
      r == if ParseIdent(param).isWeak && key in scope.fields then scope.fields[key].name else ParseIdent(param).name
  {
    var id := ParseIdent(param);
    var key := NameKey(owner, param, descParam);
    if id.isWeak && key in scope.fields then scope.fields[key].name else id.name
  }

  /**
   * The instruction a template line adds: the owner resolved through the
   * scope, the name resolved when it is bound, the descriptor rewritten
   * through the bindings. An unbound weak owner or descriptor class fails.
   */
  function Create(opcode: int, scope: Scope, params: seq<string>): (r: Result<Insn>)
    requires |params| >= 3
    ensures r.Ok? <==> Resolve(scope, ParseIdent(params[0])).Some? && WeakNamesBound(scope, GetType(params[2]))
    ensures r.Ok? ==>
      var owner := Resolve(scope, ParseIdent(params[0])).value;
      && r.value.FieldInsn? && r.value.opcode == opcode && r.value.owner == owner
      && r.value.name == CreatedName(scope, owner, params[1], params[2])
      && Some(r.value.desc) == UpdatedTypeString(scope, GetType(params[2]))
  {
    match Resolve(scope, ParseIdent(params[0]))
    case None => Err("NullPointerException")
    case Some(owner) =>
      var name := CreatedName(scope, owner, params[1], params[2]);
      match UpdatedTypeString(scope, GetType(params[2]))
      case None => Err("NullPointerException")
      case Some(desc) => Ok(FieldInsn(opcode, owner, name, desc))
  }

  /**
   * A line that matched an instruction adds that same instruction again:
   * creating under the scope the match produced rebuilds the owner, the name
   * and the descriptor that were matched.
   */
  lemma CheckThenCreate(opcode: int, s: Scope, params: seq<string>, insn: Insn, t: Type)
    requires |params| >= 3 && Handles(opcode, insn)
    requires ParseIdent(params[0]).name != "*" && ParseIdent(params[1]).name != "*"
    requires FieldType(t) && insn.desc == Descriptor(t)
    requires Check(opcode, Some(s), params, insn).0
    ensures Create(opcode, Check(opcode, Some(s), params, insn).1.value, params) == Ok(insn)
  {
    var s' := Check(opcode, Some(s), params, insn).1.value;
    var pt := GetType(params[2]);
    GetTypeDescriptor(t);
    assert MatchesIn(s', pt, t);
    CheckTypesThenUpdate(s', pt, t);
    assert Resolve(s', ParseIdent(params[0])) == Some(insn.owner);
    assert CreatedName(s', insn.owner, params[1], params[2]) == insn.name;
  }

  // ------------------------------------------------------------- printing

  /**
   * The template text of an instruction: nothing for one that is not a
   * field instruction, an error for a field opcode the handler does not
   * know, else the mnemonic, owner, name and descriptor separated by spaces.
   */
  function Print(insn: Insn): (r: Result<Option<string>>)
    ensures !insn.FieldInsn? ==> r == Ok(None)
    ensures insn.FieldInsn? ==> (r.Ok? <==> Mnemonic(insn.opcode).Some?)
    ensures insn.FieldInsn? && r.Ok? ==>
      r.value == Some(Mnemonic(insn.opcode).value + " " + Join([insn.owner, insn.name, insn.desc]))
  {
    if !insn.FieldInsn? then Ok(None)
    else match Mnemonic(insn.opcode)
      case None => Err("IllegalArgumentException")
      case Some(m) =>
        var text := m + " " + insn.owner + " " + insn.name + " " + insn.desc;
        assert text == m + " " + Join([insn.owner, insn.name, insn.desc]) by {
          var ps := [insn.owner, insn.name, insn.desc];
          assert ps[1..] == [insn.name, insn.desc];
          assert ps[1..][1..] == [insn.desc];
          assert Join(ps[1..]) == insn.name + " " + insn.desc;
          assert Join(ps) == insn.owner + " " + (insn.name + " " + insn.desc);
        }
        Ok(Some(text))
  }

  /**
   * A printed instruction matches itself: read back as a template line, its
   * owner, name and descriptor (all literal) accept the instruction and
   * bind nothing.
   */
  lemma PrintThenCheck(scope: Option<Scope>, insn: Insn)
    requires insn.FieldInsn? && Print(insn).Ok?
    requires |insn.owner| == 0 || insn.owner[0] != WeakMarker
    requires |insn.name| == 0 || insn.name[0] != WeakMarker
    requires NoWeakNames(GetType(insn.desc))
    ensures Check(insn.opcode, scope, [insn.owner, insn.name, insn.desc], insn) == (true, scope)
  {
    CheckTypesSelf(scope, GetType(insn.desc));
  }

  // ------------------------------------------------------------- validating

  /** A line is valid with exactly three parameters and a valid descriptor; only then can it be matched or created. */
  function Validate(params: seq<string>, validType: string -> bool): (ok: bool)
    ensures ok ==> |params| >= 3
    ensures ok <==> |params| == 3 && validType(params[2])
  {
    |params| == 3 && validType(params[2])
  }

  // ------------------------------------------------------------- references

  /** The class the descriptor parameter refers to: its innermost object type's name, unless it is `*`. */
  function DescClass(descParam: string): (r: Option<string>)
    ensures r.Some? ==> r.value != "*"
  {
    if descParam == "*" then None
    else
      var rt := RootType(GetType(descParam));
      if rt.Object? && ParseIdent(InternalName(rt)).name != "*" then Some(ParseIdent(InternalName(rt)).name) else None
  }

  /** A descriptor of an object type, or of arrays of one, refers to that class, weak marker removed. */
  lemma DescClassOfDescriptor(t: Type, n: string)
    requires FieldType(t) && RootType(t) == Object(n) && ParseIdent(n).name != "*"
    ensures DescClass(Descriptor(t)) == Some(ParseIdent(n).name)
  {
    GetTypeDescriptor(t);
    assert Descriptor(t) != "*" by {
      if t.Array? {
        assert Descriptor(t)[0] == '[';
      } else {
        assert Descriptor(t)[0] == 'L';
      }
    }
  }

  /** The classes a line refers to: the owner unless it is `*`, then the descriptor's class. */
  function ReferencedClasses(params: seq<string>): (r: seq<string>)
    requires |params| >= 3
    ensures "*" !in r
    ensures |r| <= 2
    ensures forall n :: n in r <==> (n == ParseIdent(params[0]).name && n != "*") || DescClass(params[2]) == Some(n)
    ensures ParseIdent(params[0]).name != "*" ==> |r| > 0 && r[0] == ParseIdent(params[0]).name
  {
    var owner := ParseIdent(params[0]).name;
    (if owner != "*" then [owner] else [])
      + (match DescClass(params[2]) case Some(c) => [c] case None => [])
  }

  /**
   * The field a line refers to: one, by the owner's name, the field's name
   * and the descriptor, unless the owner or the name is `*`.
   */
  method ReferencedFields(params: seq<string>) returns (r: seq<MatchField>)
    requires |params| >= 3
    ensures ParseIdent(params[0]).name == "*" || ParseIdent(params[1]).name == "*" ==> r == []
    ensures ParseIdent(params[0]).name != "*" && ParseIdent(params[1]).name != "*" ==>
      && |r| == 1 && fresh(r[0])
      && r[0].owner == ParseIdent(params[0]).name && r[0].name == ParseIdent(params[1]).name
      && r[0].desc == params[2] && r[0].fieldType == Some(GetType(params[2]))
      && r[0].matched == [] && r[0].checked == {}
  {
    var owner := ParseIdent(params[0]);
    var field := ParseIdent(params[1]);
    if owner.name != "*" && field.name != "*" {
      var mf := new MatchField(owner.name, field.name, params[2]);
      mf.SetType(GetType(params[2]));
      return [mf];
    }
    return [];
  }
}
