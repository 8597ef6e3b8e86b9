/**
 * The part of the ASM 5 bytecode library's `Type` that the patcher relies on:
 * field and method descriptors (sections 4.3.2 and 4.3.3 of the Java Virtual
 * Machine Specification) read into a small tree, their sorts, and the access
 * flags and opcodes the core compares against.
 */
module AsmTypes {
  import opened Outcomes

  /** One ASM sort per primitive descriptor letter, plus arrays, objects and methods. */
  datatype Sort = PrimSort(code: char) | ArraySort | ObjectSort | MethodSort

  /**
   * A descriptor. ASM keeps a method type as its descriptor text and reads
   * its argument and return types on demand, so `Method` holds that text.
   */
  datatype Type =
    | Prim(code: char)
    | Array(elem: Type)
    | Object(name: string)
    | Method(desc: string)

  predicate IsPrimitiveCode(c: char) {
    c in "VZCBSIFJD"
  }

  function SortOf(t: Type): Sort {
    match t
    case Prim(c) => PrimSort(c)
    case Array(_) => ArraySort
    case Object(_) => ObjectSort
    case Method(_) => MethodSort
  }

  /** ASM's `getDescriptor`. */
  function Descriptor(t: Type): string {
    match t
    case Prim(c) => [c]
    case Array(e) => "[" + Descriptor(e)
    case Object(n) => "L" + n + ";"
    case Method(d) => d
  }

  /** ASM's `getInternalName`: the class name of an object type, the descriptor otherwise. */
  function InternalName(t: Type): string {
    if t.Object? then t.name else Descriptor(t)
  }

  /** Number of array levels above the innermost type. */
  function Depth(t: Type): nat {
    if t.Array? then 1 + Depth(t.elem) else 0
  }

  /**
   * ASM's `getElementType`: the type under ALL the dimensions of an array
   * type (the element type of `[[I` is `I`, not `[I`).
   */
  function ElementType(t: Type): (r: Type)
    requires t.Array?
    ensures !r.Array? && Depth(r) < Depth(t)
    decreases t
  {
    if t.elem.Array? then ElementType(t.elem) else t.elem
  }

  /** The innermost type of a descriptor: arrays stripped, anything else unchanged. */
  function RootType(t: Type): (r: Type)
    ensures !r.Array?
  {
    if t.Array? then ElementType(t) else t
  }

  /** Position of the first `c` in `s`. */
  function IndexOf(s: string, c: char): (r: Option<nat>)
    ensures r.Some? ==> r.value < |s| && s[r.value] == c
    ensures r.Some? ==> forall j :: 0 <= j < r.value ==> s[j] != c
    ensures r.None? ==> forall j :: 0 <= j < |s| ==> s[j] != c
  {
    if |s| == 0 then None
    else if s[0] == c then Some(0)
    else match IndexOf(s[1..], c)
      case None => None
      case Some(k) => Some(k + 1)
  }

  /**
   * ASM's `getType(buf, off)` at the start of `s`: the type read and the
   * number of characters it spans. A leading character that starts no field
   * descriptor makes the whole text a method type, as in ASM.
   */
  function ReadType(s: string): (r: (Type, nat))
    ensures r.1 <= |s|
    ensures |s| > 0 && s[0] != '(' ==> 0 < r.1
    decreases |s|
  {
    if |s| == 0 then (Method(s), 0)
    else if IsPrimitiveCode(s[0]) then (Prim(s[0]), 1)
    else if s[0] == '[' then
      var (e, n) := ReadType(s[1..]);
      (Array(e), n + 1)
    else if s[0] == 'L' then
      match IndexOf(s, ';')
      case Some(k) => (Object(s[1..k]), k + 1)
      case None => (Method(s), |s|)
    else (Method(s), |s|)
  }

  /**
   * The texts on which ASM 5's `Type.getType(String)` reads past the end of
   * its buffer and throws: nothing left after the leading `[`s, or an object
   * descriptor with no closing `;`.
   */
  predicate GetTypeThrows(s: string)
    decreases |s|
  {
    |s| == 0 || (s[0] == '[' && GetTypeThrows(s[1..])) || (s[0] == 'L' && ';' !in s)
  }

  /**
   * ASM's `Type.getType(String)`; in ASM 5 `Type.getMethodType(String)` is
   * the same function. On the texts where ASM throws (`GetTypeThrows`) it
   * gives a method type instead; callers that can meet such a text test
   * `GetTypeThrows` first.
   */
  function GetType(s: string): Type {
    ReadType(s).0
  }

  /** ASM's `Type.getObjectType`: an internal name, or an array descriptor when it starts with `[`. */
  function GetObjectType(internalName: string): (t: Type)
    ensures |internalName| > 0 && internalName[0] == '[' ==> t == GetType(internalName)
    ensures (|internalName| == 0 || internalName[0] != '[') ==> t == Object(internalName)
  {
    if |internalName| > 0 && internalName[0] == '[' then GetType(internalName) else Object(internalName)
  }

  /** Argument types read after the `(` of a method descriptor, up to its `)`. */
  function ReadArgs(s: string): seq<Type>
    decreases |s|
  {
    if |s| == 0 || s[0] == ')' then []
    else
      var (t, n) := ReadType(s);
      if n == 0 then [] else [t] + ReadArgs(s[n..])
  }

  /** ASM's `getArgumentTypes` on a method type. */
  function ArgumentTypes(t: Type): seq<Type> {
    var d := Descriptor(t);
    if |d| == 0 then [] else ReadArgs(d[1..])
  }

  /** ASM's `getReturnType` on a method type: the type after the first `)`. */
  function ReturnType(t: Type): Type {
    var d := Descriptor(t);
    match IndexOf(d, ')')
    case Some(k) => GetType(d[k + 1..])
    case None => GetType(d)
  }

  /** A field descriptor as section 4.3.2 of the JVM Specification allows it (names without `;` or `)`). */
  predicate FieldType(t: Type) {
    match t
    case Prim(c) => IsPrimitiveCode(c)
    case Array(e) => FieldType(e)
    case Object(n) => forall i :: 0 <= i < |n| ==> n[i] != ';' && n[i] != ')'
    case Method(_) => false
  }

  /** Concatenated descriptors of a list of types. */
  function Descriptors(ts: seq<Type>): string {
    if ts == [] then "" else Descriptor(ts[0]) + Descriptors(ts[1..])
  }

  /** The method descriptor of section 4.3.3 of the JVM Specification. */
  function MethodDescriptor(args: seq<Type>, ret: Type): string {
    "(" + Descriptors(args) + ")" + Descriptor(ret)
  }

  lemma {:induction false} NoCloseParenInFieldDescriptor(t: Type)
    requires FieldType(t)
    ensures forall i :: 0 <= i < |Descriptor(t)| ==> Descriptor(t)[i] != ')'
  {
    match t
    case Prim(_) =>
    case Array(e) =>
      NoCloseParenInFieldDescriptor(e);
      assert Descriptor(t) == "[" + Descriptor(e);
    case Object(n) =>
  }

  lemma {:induction false} NoCloseParenInDescriptors(ts: seq<Type>)
    requires forall i :: 0 <= i < |ts| ==> FieldType(ts[i])
    ensures forall i :: 0 <= i < |Descriptors(ts)| ==> Descriptors(ts)[i] != ')'
  {
    if ts != [] {
      NoCloseParenInFieldDescriptor(ts[0]);
      NoCloseParenInDescriptors(ts[1..]);
    }
  }

  /** Reading a field descriptor, whatever follows it, gives back the type and its exact length. */
  lemma {:induction false} ReadTypeDescriptor(t: Type, rest: string)
    requires FieldType(t)
    ensures ReadType(Descriptor(t) + rest) == (t, |Descriptor(t)|)
  {
    var s := Descriptor(t) + rest;
    match t
    case Prim(c) =>
    case Array(e) =>
      assert s[1..] == Descriptor(e) + rest;
      ReadTypeDescriptor(e, rest);
    case Object(n) =>
      assert s[1 + |n|] == ';';
      assert forall j :: 0 <= j < 1 + |n| ==> s[j] != ';' by {
        forall j | 0 <= j < 1 + |n| ensures s[j] != ';' {
          if j > 0 { assert s[j] == n[j - 1]; }
        }
      }
      assert IndexOf(s, ';') == Some(1 + |n|);
      assert s[1..1 + |n|] == n;
  }

  /** `GetType` inverts `Descriptor` on field descriptors and on method descriptors. */
  lemma GetTypeDescriptor(t: Type)
    requires FieldType(t) || (t.Method? && |t.desc| > 0 && t.desc[0] == '(')
    ensures GetType(Descriptor(t)) == t
  {
    if FieldType(t) {
      ReadTypeDescriptor(t, "");
      assert Descriptor(t) + "" == Descriptor(t);
    }
  }

  /** A text that does not start with `)` and whose first type is not empty reads that type first. */
  lemma ReadArgsCons(s: string)
    requires |s| > 0 && s[0] != ')' && ReadType(s).1 > 0
    ensures ReadArgs(s) == [ReadType(s).0] + ReadArgs(s[ReadType(s).1..])
  {
  }

  lemma {:induction false} ReadArgsDescriptors(ts: seq<Type>, rest: string)
    requires forall i :: 0 <= i < |ts| ==> FieldType(ts[i])
    ensures ReadArgs(Descriptors(ts) + ")" + rest) == ts
  {
    var s := Descriptors(ts) + ")" + rest;
    if ts == [] {
      assert s[0] == ')';
    } else {
      var d := Descriptor(ts[0]);
      var tail := Descriptors(ts[1..]) + ")" + rest;
      assert ReadType(s) == (ts[0], |d|) && s[0] != ')' && s[|d|..] == tail by {
        assert s == d + tail;
        ReadTypeDescriptor(ts[0], tail);
        NoCloseParenInFieldDescriptor(ts[0]);
        assert |d| > 0 && s[0] == d[0];
      }
      ReadArgsCons(s);
      ReadArgsDescriptors(ts[1..], rest);
      assert ts == [ts[0]] + ts[1..];
    }
  }

  /** The first `c` in `p + [c] + rest` is the one after `p` when `p` holds none. */
  lemma {:induction false} IndexOfAfter(p: string, c: char, rest: string)
    requires forall i :: 0 <= i < |p| ==> p[i] != c
    ensures IndexOf(p + [c] + rest, c) == Some(|p|)
  {
    if p != [] {
      assert (p + [c] + rest)[1..] == p[1..] + [c] + rest;
      IndexOfAfter(p[1..], c, rest);
    }
  }

  /**
   * Reading back a method descriptor built from field types yields exactly
   * the argument types and the return type it was built from.
   */
  lemma MethodDescriptorRoundTrip(args: seq<Type>, ret: Type)
    requires forall i :: 0 <= i < |args| ==> FieldType(args[i])
    requires FieldType(ret)
    ensures ArgumentTypes(Method(MethodDescriptor(args, ret))) == args
    ensures ReturnType(Method(MethodDescriptor(args, ret))) == ret
  {
    var d := MethodDescriptor(args, ret);
    var inner := Descriptors(args);
    assert d[1..] == inner + ")" + Descriptor(ret);
    ReadArgsDescriptors(args, Descriptor(ret));
    NoCloseParenInDescriptors(args);
    var p := "(" + inner;
    assert forall i :: 0 <= i < |p| ==> p[i] != ')' by {
      forall i | 0 <= i < |p| ensures p[i] != ')' {
        if i > 0 { assert p[i] == inner[i - 1]; }
      }
    }
    assert d == p + ")" + Descriptor(ret);
    IndexOfAfter(p, ')', Descriptor(ret));
    assert d[|p| + 1..] == Descriptor(ret);
    GetTypeDescriptor(ret);
  }

  // Access flags (section 4.1 of the JVM Specification).
  const ACC_PUBLIC: bv32 := 0x0001
  const ACC_PRIVATE: bv32 := 0x0002
  const ACC_PROTECTED: bv32 := 0x0004
  const ACC_STATIC: bv32 := 0x0008
  const ACC_INTERFACE: bv32 := 0x0200
  const ACC_ENUM: bv32 := 0x4000

  // Opcodes (section 6.5 of the JVM Specification).
  const LDC: int := 18
  const GETSTATIC: int := 178
  const PUTSTATIC: int := 179
  const GETFIELD: int := 180
  const PUTFIELD: int := 181
}
