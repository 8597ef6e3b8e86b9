/**
 * A field declaration of a class template, read from its argument tokens:
 * `field <name> <descriptor> [static|private]... [<constant>]`.
 */
module PatchFields {
  import opened Outcomes
  import opened AsmTypes
  import opened AsmTree
  import opened Idents
  import opened Templates
  import opened InsnUtils

  /** A parsed field declaration; `value` is the constant it must hold, if any. */
  datatype PatchField = PatchField(
    ident: Ident,
    desc: string,
    mode: Mode,
    value: Option<Constant>,
    isStatic: bool,
    isPrivate: bool)

  /** The declared descriptor as a type; ASM 5 reads a field descriptor here as itself. */
  function FieldDesc(f: PatchField): Type {
    GetType(f.desc)
  }

  /** The declared descriptor of a field is the type it names. */
  lemma FieldDescOfFieldType(f: PatchField, t: Type)
    requires FieldType(t) && f.desc == Descriptor(t)
    ensures FieldDesc(f) == t
  {
    GetTypeDescriptor(t);
  }

  predicate IsAccessToken(token: string) {
    token == "static" || token == "private"
  }

  /** Where the run of `static`/`private` tokens starting at `i` ends. */
  function ModifiersEnd(args: seq<string>, i: nat): (r: nat)
    requires i <= |args|
    ensures i <= r <= |args|
    ensures forall j :: i <= j < r ==> IsAccessToken(args[j])
    ensures r < |args| ==> !IsAccessToken(args[r])
    decreases |args| - i
  {
    if i < |args| && IsAccessToken(args[i]) then ModifiersEnd(args, i + 1) else i
  }

  /** The constant spelled by the tokens after the modifiers: none if there are none. */
  function FieldValue(rest: seq<string>): (r: Result<Option<Constant>>)
    ensures rest == [] ==> r == Ok(None)
    ensures rest != [] ==> (r.Ok? <==> ParseConstant(Join(rest)).Ok?)
    ensures rest != [] && r.Ok? ==> r.value == Some(StringConst(ParseConstant(Join(rest)).value))
  {
    if rest == [] then Ok(None)
    else match ParseConstant(Join(rest))
      case Ok(s) => Ok(Some(StringConst(s)))
      case Err(e) => Err(e)
  }

  /** A quoted string written as one token is read back as that string. */
  lemma FieldValueQuoted(s: string)
    ensures FieldValue([PrintConstant(StringConst(s))]) == Ok(Some(StringConst(s)))
  {
    ParsePrintConstant(s);
  }

  /**
   * What a field declaration means: fewer than two arguments, a descriptor
   * the validator rejects, or trailing tokens that are not a quoted string
   * are errors; otherwise the name, the descriptor, the mode, the flags the
   * modifier run names and the constant the rest spells.
   */
  function FieldDeclaration(cmd: Command, validType: string -> bool): (r: Result<PatchField>)
    ensures |cmd.args| < 2 ==> r.Err?
    ensures |cmd.args| >= 2 && !validType(cmd.args[1]) ==> r.Err?
    ensures |cmd.args| >= 2 && validType(cmd.args[1]) ==>
      var args := cmd.args;
      var end := ModifiersEnd(args, 2);
      && (r.Ok? <==> FieldValue(args[end..]).Ok?)
      && (r.Ok? ==>
            && r.value.ident == ParseIdent(args[0]) && r.value.desc == args[1] && r.value.mode == cmd.mode
            && r.value.value == FieldValue(args[end..]).value
            && (r.value.isStatic <==> "static" in args[2..end])
            && (r.value.isPrivate <==> "private" in args[2..end]))
  {
    var args := cmd.args;
    if |args| < 2 || !validType(args[1]) then Err("ValidateException")
    else
      var end := ModifiersEnd(args, 2);
      match FieldValue(args[end..])
      case Err(e) => Err(e)
      case Ok(v) => Ok(PatchField(ParseIdent(args[0]), args[1], cmd.mode, v, "static" in args[2..end], "private" in args[2..end]))
  }

  /** A declaration with only a name and a descriptor is an instance field with no constant. */
  lemma PlainFieldDeclaration(name: string, desc: string, mode: Mode, validType: string -> bool)
    requires validType(desc)
    ensures FieldDeclaration(Command("field", mode, [name, desc]), validType)
         == Ok(PatchField(ParseIdent(name), desc, mode, None, false, false))
  {
    var args := [name, desc];
    assert ModifiersEnd(args, 2) == 2;
    assert args[2..2] == [];
  }

  /** Reads a field declaration, scanning the modifier tokens one by one. */
  method ParseField(cmd: Command, validType: string -> bool) returns (r: Result<PatchField>)
    ensures r == FieldDeclaration(cmd, validType)
  {
    var args := cmd.args;
    if |args| < 2 {
      return Err("ValidateException");
    }
    var ident := ParseIdent(args[0]);
    var mode := cmd.mode;
    var desc := args[1];
    if !validType(desc) {
      return Err("ValidateException");
    }
    var isStatic, isPrivate := false, false;
    var value: Option<Constant> := None;
    if |args| >= 3 {
      var i := 2;
      while i < |args| && IsAccessToken(args[i])
        invariant 2 <= i <= |args|
        invariant forall j :: 2 <= j < i ==> IsAccessToken(args[j])
        invariant isStatic <==> "static" in args[2..i]
        invariant isPrivate <==> "private" in args[2..i]
        decreases |args| - i
      {
        assert args[2..i + 1] == args[2..i] + [args[i]];
        if args[i] == "static" {
          isStatic := true;
        } else {
          isPrivate := true;
        }
        i := i + 1;
      }
      assert i == ModifiersEnd(args, 2);
      var parts := args[i..];
      if |parts| != 0 {
        var cst := ParseConstant(Join(parts));
        if cst.Err? {
          return Err(cst.message);
        }
        value := Some(StringConst(cst.value));
      }
    }
    r := Ok(PatchField(ident, desc, mode, value, isStatic, isPrivate));
  }
}
