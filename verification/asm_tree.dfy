/**
 * The nodes of the ASM tree model that the patcher reads and edits: classes,
 * fields, methods, labels and instructions, and the set of all classes.
 */
module AsmTree {
  import opened Outcomes
  import opened AsmTypes

  /** A constant: a field's initial value or the operand of an `ldc`. */
  datatype Constant =
    | StringConst(s: string)
    | TypeConst(t: Type)
    | OtherConst(kind: string, repr: string)  // a boxed number, by its class and its printed form

  /** ASM's `Label`; only its identity matters. */
  class Label {
    constructor () { }
  }

  /** ASM's `LabelNode`, wrapping one `Label`. */
  class LabelNode {
    const asmLabel: Label

    constructor ()
      ensures fresh(asmLabel)
    {
      asmLabel := new Label();
    }
  }

  class FieldNode {
    const access: bv32
    const name: string
    const desc: string
    const value: Option<Constant>

    constructor (access: bv32, name: string, desc: string, value: Option<Constant>)
      ensures this.access == access && this.name == name && this.desc == desc && this.value == value
    {
      this.access := access;
      this.name := name;
      this.desc := desc;
      this.value := value;
    }
  }

  class MethodNode {
    const access: bv32
    const name: string
    const desc: string

    constructor (access: bv32, name: string, desc: string)
      ensures this.access == access && this.name == name && this.desc == desc
    {
      this.access := access;
      this.name := name;
      this.desc := desc;
    }
  }

  /** A class under patching: its name is fixed, the rest is edited in place. */
  class ClassNode {
    var access: bv32
    const name: string
    var superName: string
    var interfaces: seq<string>
    var fields: seq<FieldNode>
    var methods: seq<MethodNode>

    constructor (access: bv32, name: string, superName: string)
      ensures this.access == access && this.name == name && this.superName == superName
      ensures interfaces == [] && fields == [] && methods == []
    {
      this.access := access;
      this.name := name;
      this.superName := superName;
      interfaces := [];
      fields := [];
      methods := [];
    }
  }

  /** All classes being patched, by internal name. */
  class ClassSet {
    var classes: map<string, ClassNode>

    constructor ()
      ensures classes == map[]
    {
      classes := map[];
    }

    method Add(node: ClassNode)
      modifies this
      ensures classes == old(classes)[node.name := node]
    {
      classes := classes[node.name := node];
    }
  }

  /** An instruction of a method body, as far as the two handlers look at it. */
  datatype Insn =
    | FieldInsn(opcode: int, owner: string, name: string, desc: string)
    | LdcInsn(cst: Constant)
    | OtherInsn(opcode: int)
}
