/**
 * `PatchClass.apply`: the edits a class template makes to the class it was
 * matched with (or to the class it creates), and `searchParent`, the search
 * up the class hierarchy for the method an added method overrides.
 *
 * The `extends`, `interface` and field lines are each specified by a left
 * fold of one step function over the lines; the methods that edit the
 * class node in place are proved against those folds.
 */
module PatchApply {
  import opened Outcomes
  import opened AsmTypes
  import opened AsmTree
  import opened Idents
  import opened Scopes
  import opened Templates
  import opened PatchFields
  import opened DescriptorMatching
  import opened PatchClasses

  const ObjectClass: string := "java/lang/Object"

  // ------------------------------------------------------------- the class

  /**
   * The access flags of an added class: public, plus the enum flag for the
   * kind `enum` and, as the source is written, for the kind `interface` too.
   */
  function ClassAccess(kind: string): (r: bv32)
    ensures r & ACC_PUBLIC != 0
    ensures (r & ACC_ENUM != 0) <==> (kind == "enum" || kind == "interface")
    ensures r & ACC_INTERFACE == 0
  {
    if kind == "enum" || kind == "interface" then ACC_PUBLIC | ACC_ENUM else ACC_PUBLIC
  }

  /**
   * An added `class` or `enum` passes the kind check of a later match; an
   * added `interface` does not, since it never gets the interface flag.
   */
  lemma AddedClassKinds()
    ensures KindHolds(KindMask("class").value, ClassAccess("class"))
    ensures KindHolds(KindMask("enum").value, ClassAccess("enum"))
    ensures !KindHolds(KindMask("interface").value, ClassAccess("interface"))
  {
  }

  /** Creates the class of an added template: public, extending `java/lang/Object`, with no members. */
  method CreateClass(pc: PatchClass, cs: ClassSet) returns (node: ClassNode)
    modifies cs
    ensures fresh(node)
    ensures node.access == ClassAccess(pc.kind) && node.name == pc.ident.name && node.superName == ObjectClass
    ensures node.interfaces == [] && node.fields == [] && node.methods == []
    ensures cs.classes == old(cs.classes)[pc.ident.name := node]
  {
    var access := ACC_PUBLIC;
    if pc.kind == "enum" {
      access := access | ACC_ENUM;
    } else if pc.kind == "interface" {
      access := access | ACC_ENUM;
    }
    node := new ClassNode(access, pc.ident.name, ObjectClass);
    cs.Add(node);
  }

  // ------------------------------------------------------------ superclass

  /**
   * One `extends` line applied to the superclass `cur`: an added line sets
   * it to the class it names, a removed line resets it to
   * `java/lang/Object` exactly when the line, matched, would hold, and a
   * matched line changes nothing. A weak name that is not bound fails.
   */
  function SuperStep(s: Scope, cur: string, m: ModifierClass): (r: Result<string>)
    ensures m.mode == Match ==> r == Ok(cur)
    ensures m.mode != Match ==> (r.Ok? <==> Resolve(s, m.ident).Some?)
    ensures m.mode == Add && r.Ok? ==> r.value == Resolve(s, m.ident).value && SuperHolds(s, m.(mode := Match), r.value)
    ensures m.mode == Remove && r.Ok? ==> r.value == (if SuperHolds(s, m, cur) then ObjectClass else cur)
  {
    if m.mode == Match then Ok(cur)
    else match Resolve(s, m.ident)
      case None => Err("IllegalStateException")
      case Some(n) =>
        if m.mode == Add then Ok(n)
        else if n == "*" || n == cur then Ok(ObjectClass)
        else Ok(cur)
  }

  /** The superclass after the `extends` lines, applied in order. */
  function SupersAfter(s: Scope, cur: string, ms: seq<ModifierClass>): Result<string>
    decreases |ms|
  {
    if ms == [] then Ok(cur)
    else match SuperStep(s, cur, ms[0])
      case Err(e) => Err(e)
      case Ok(c) => SupersAfter(s, c, ms[1..])
  }

  /** Applies the `extends` lines to the class node. */
  method ApplySupers(supers: seq<ModifierClass>, node: ClassNode, scope: Scope) returns (r: Result<string>)
    modifies node
    ensures r == SupersAfter(scope, old(node.superName), supers)
    ensures r.Ok? ==> node.superName == r.value
    ensures node.access == old(node.access) && node.interfaces == old(node.interfaces)
    ensures node.fields == old(node.fields) && node.methods == old(node.methods)
  {
    var i := 0;
    while i < |supers|
      invariant i <= |supers|
      invariant SupersAfter(scope, old(node.superName), supers) == SupersAfter(scope, node.superName, supers[i..])
      invariant node.access == old(node.access) && node.interfaces == old(node.interfaces)
      invariant node.fields == old(node.fields) && node.methods == old(node.methods)
    {
      assert supers[i..][1..] == supers[i + 1..];
      var m := supers[i];
      if m.mode == Add {
        var n := Resolve(scope, m.ident);
        if n.None? {
          return Err("IllegalStateException");
        }
        node.superName := n.value;
      } else if m.mode == Remove {
        var n := Resolve(scope, m.ident);
        if n.None? {
          return Err("IllegalStateException");
        }
        if n.value == "*" || n.value == node.superName {
          node.superName := ObjectClass;
        }
      }
      i := i + 1;
    }
    assert supers[i..] == [];
    return Ok(node.superName);
  }

  /** Lines that only match leave the superclass as it is. */
  lemma {:induction false} MatchedSupersKeep(s: Scope, cur: string, ms: seq<ModifierClass>)
    requires forall i :: 0 <= i < |ms| ==> ms[i].mode == Match
    ensures SupersAfter(s, cur, ms) == Ok(cur)
    decreases |ms|
  {
    if ms != [] {
      MatchedSupersKeep(s, cur, ms[1..]);
    }
  }

  /** Applying one more line is applying it to the superclass the earlier lines left. */
  lemma {:induction false} SupersAfterAppend(s: Scope, cur: string, ms: seq<ModifierClass>, m: ModifierClass)
    ensures SupersAfter(s, cur, ms + [m])
         == (match SupersAfter(s, cur, ms) case Err(e) => Err(e) case Ok(c) => SuperStep(s, c, m))
    decreases |ms|
  {
    if ms == [] {
      assert ms + [m] == [m];
      assert [m][1..] == [];
    } else {
      assert (ms + [m])[0] == ms[0];
      assert (ms + [m])[1..] == ms[1..] + [m];
      match SuperStep(s, cur, ms[0])
      case Err(_) =>
      case Ok(c) => SupersAfterAppend(s, c, ms[1..], m);
    }
  }

  /**
   * After a last added `extends` line the class extends the class that line
   * names, so the same line, matched, holds.
   */
  lemma LastAddedSuperHolds(s: Scope, cur: string, ms: seq<ModifierClass>, m: ModifierClass)
    requires SupersAfter(s, cur, ms).Ok? && m.mode == Add && Resolve(s, m.ident).Some?
    ensures SupersAfter(s, cur, ms + [m]) == Ok(Resolve(s, m.ident).value)
    ensures SuperHolds(s, m.(mode := Match), SupersAfter(s, cur, ms + [m]).value)
  {
    SupersAfterAppend(s, cur, ms, m);
  }

  /** Adding a superclass and then removing the same line leaves `java/lang/Object`. */
  lemma AddThenRemoveSuper(s: Scope, cur: string, id: Ident)
    requires Resolve(s, id).Some?
    ensures SupersAfter(s, cur, [ModifierClass(id, Add), ModifierClass(id, Remove)]) == Ok(ObjectClass)
  {
    var ms := [ModifierClass(id, Add), ModifierClass(id, Remove)];
    var n := Resolve(s, id).value;
    assert SuperStep(s, cur, ms[0]) == Ok(n);
    assert SuperStep(s, n, ms[1]) == Ok(ObjectClass);
    assert ms[1..] == [ModifierClass(id, Remove)];
    assert ms[1..][1..] == [];
    assert SupersAfter(s, ObjectClass, []) == Ok(ObjectClass);
  }

  // ------------------------------------------------------------ interfaces

  /**
   * One `interface` line applied to the interface list `cur`: a line that
   * is not added must hold as `checkAttributes` reads it (or the patch
   * fails) and changes nothing; an added line appends the one class it
   * names.
   */
  function InterfaceStep(s: Scope, cur: seq<string>, m: ModifierClass): (r: Result<seq<string>>)
    ensures m.mode != Add ==> (r.Ok? <==> InterfaceHolds(s, m, cur)) && (r.Ok? ==> r.value == cur)
    ensures m.mode == Add ==> (r.Ok? <==> Resolve(s, m.ident).Some?)
    ensures m.mode == Add && r.Ok? ==> r.value == cur + [Resolve(s, m.ident).value]
  {
    if m.mode != Add then
      if m.ident.name == "*" && |cur| > 0 then Ok(cur)
      else match Resolve(s, m.ident)
        case None => Err("RuntimeException")
        case Some(n) => if n in cur then Ok(cur) else Err("RuntimeException")
    else match Resolve(s, m.ident)
      case None => Err("RuntimeException")
      case Some(n) => Ok(cur + [n])
  }

  /** The interface list after the `interface` lines, applied in order. */
  function InterfacesAfter(s: Scope, cur: seq<string>, ms: seq<ModifierClass>): Result<seq<string>>
    decreases |ms|
  {
    if ms == [] then Ok(cur)
    else match InterfaceStep(s, cur, ms[0])
      case Err(e) => Err(e)
      case Ok(c) => InterfacesAfter(s, c, ms[1..])
  }

  /** Scans a list for a name. */
  method Contains(names: seq<string>, name: string) returns (found: bool)
    ensures found <==> name in names
  {
    var i := 0;
    while i < |names|
      invariant i <= |names|
      invariant name !in names[..i]
    {
      if names[i] == name {
        return true;
      }
      assert names[..i + 1] == names[..i] + [names[i]];
      i := i + 1;
    }
    assert names[..i] == names;
    return false;
  }

  /** Applies the `interface` lines to the class node. */
  method ApplyInterfaces(modifiers: seq<ModifierClass>, node: ClassNode, scope: Scope) returns (r: Result<seq<string>>)
    modifies node
    ensures r == InterfacesAfter(scope, old(node.interfaces), modifiers)
    ensures r.Ok? ==> node.interfaces == r.value
    ensures node.access == old(node.access) && node.superName == old(node.superName)
    ensures node.fields == old(node.fields) && node.methods == old(node.methods)
  {
    var i := 0;
    while i < |modifiers|
      invariant i <= |modifiers|
      invariant InterfacesAfter(scope, old(node.interfaces), modifiers) == InterfacesAfter(scope, node.interfaces, modifiers[i..])
      invariant node.access == old(node.access) && node.superName == old(node.superName)
      invariant node.fields == old(node.fields) && node.methods == old(node.methods)
    {
      assert modifiers[i..][1..] == modifiers[i + 1..];
      var m := modifiers[i];
      var n := Resolve(scope, m.ident);
      if m.mode != Add {
        if !(m.ident.name == "*" && |node.interfaces| > 0) {
          if n.None? {
            return Err("RuntimeException");
          }
          var found := Contains(node.interfaces, n.value);
          if !found {
            return Err("RuntimeException");
          }
        }
      } else {
        if n.None? {
          return Err("RuntimeException");
        }
        node.interfaces := node.interfaces + [n.value];
      }
      i := i + 1;
    }
    assert modifiers[i..] == [];
    return Ok(node.interfaces);
  }

  /**
   * Once the `interface` lines apply, the old interfaces are still there and
   * every line, read as a matched line, holds on the new interface list.
   */
  lemma {:induction false} InterfacesAfterHold(s: Scope, cur: seq<string>, ms: seq<ModifierClass>)
    requires InterfacesAfter(s, cur, ms).Ok?
    ensures var r := InterfacesAfter(s, cur, ms).value;
      && |cur| <= |r| && r[..|cur|] == cur
      && forall i :: 0 <= i < |ms| ==> InterfaceHolds(s, ms[i].(mode := Match), r)
    decreases |ms|
  {
    if ms != [] {
      var c := InterfaceStep(s, cur, ms[0]).value;
      InterfacesAfterHold(s, c, ms[1..]);
      var r := InterfacesAfter(s, cur, ms).value;
      assert r[..|c|] == c;
      assert |cur| <= |c| && c[..|cur|] == cur;
      assert r[..|cur|] == cur;
      forall i | 0 <= i < |ms|
        ensures InterfaceHolds(s, ms[i].(mode := Match), r)
      {
        if i == 0 {
          var m := ms[0];
          if m.ident.name == "*" && |cur| > 0 {
            assert |r| > 0;
          } else {
            var n := Resolve(s, m.ident).value;
            assert n in c;
            assert n in r by {
              var k :| 0 <= k < |c| && c[k] == n;
              assert r[..|c|][k] == n;
            }
          }
        } else {
          assert ms[i] == ms[1..][i - 1];
        }
      }
    }
  }

  /**
   * The check of a line that is not added, as written: for every interface
   * the weak name is looked up again, after it has been replaced by the
   * class found for the previous interface.
   */
  function InterfaceScanApplyAsWritten(s: Scope, isWeak: bool, clName: string, interfaces: seq<string>): Result<bool>
    decreases |interfaces|
  {
    if interfaces == [] then Ok(false)
    else if isWeak && clName !in s.classes then Err("RuntimeException")
    else
      var name := if isWeak then s.classes[clName] else clName;
      if name == interfaces[0] then Ok(true)
      else InterfaceScanApplyAsWritten(s, isWeak, name, interfaces[1..])
  }

  /** A line that is not added, applied as written. */
  function InterfaceStepAsWritten(s: Scope, cur: seq<string>, m: ModifierClass): Result<seq<string>> {
    if m.ident.name == "*" && |cur| > 0 then Ok(cur)
    else match InterfaceScanApplyAsWritten(s, m.ident.isWeak, m.ident.name, cur)
      case Ok(true) => Ok(cur)
      case _ => Err("RuntimeException")
  }

  /**
   * With `~I` bound to `Foo` and the interfaces `Bar` and `Foo`, the line
   * `interface ~I` holds, but as written the patch fails: at `Foo` it looks
   * up `Foo` as a weak name, which is not bound.
   */
  lemma InterfaceApplyRejectsAsWritten()
    ensures
      var s := EmptyScope.(classes := map["I" := "Foo"]);
      var m := ModifierClass(Ident(true, "I"), Match);
      && InterfaceHolds(s, m, ["Bar", "Foo"])
      && InterfaceStep(s, ["Bar", "Foo"], m) == Ok(["Bar", "Foo"])
      && InterfaceStepAsWritten(s, ["Bar", "Foo"], m).Err?
  {
    var s := EmptyScope.(classes := map["I" := "Foo"]);
    var ifaces: seq<string> := ["Bar", "Foo"];
    assert ifaces[1] == "Foo";
    assert "Foo" in ifaces;
    assert ifaces[1..] == ["Foo"];
    assert "Foo" !in s.classes;
    assert InterfaceScanApplyAsWritten(s, true, "Foo", ["Foo"]) == Err("RuntimeException");
  }

  /**
   * The check as written and `apply` as written agree: when the matching scan
   * of an `interface` line passed, the scan of `apply` passes too, in any
   * scope that keeps the bindings the matching made and on any interface
   * list that starts with the matched one. The matching scan binds every
   * name that `apply` will look up.
   */
  lemma {:induction false} InterfaceScanThenApplyAsWritten(s: Scope, isWeak: bool, clName: string,
                                                           interfaces: seq<string>, s2: Scope, later: seq<string>)
    requires InterfaceScanAsWritten(s, isWeak, clName, interfaces).0
    requires Extends(InterfaceScanAsWritten(s, isWeak, clName, interfaces).1, s2)
    requires |interfaces| <= |later| && later[..|interfaces|] == interfaces
    ensures InterfaceScanApplyAsWritten(s2, isWeak, clName, later) == Ok(true)
    decreases |interfaces|
  {
    var s1 := if isWeak && clName !in s.classes then PutClass(s, clName, interfaces[0]) else s;
    var name := if isWeak then s1.classes[clName] else clName;
    var r := InterfaceScanAsWritten(s, isWeak, clName, interfaces);
    assert later[0] == interfaces[0];
    if name != interfaces[0] {
      ExtendsTransitive(s1, r.1, s2);
      assert later[1..][..|interfaces[1..]|] == interfaces[1..];
      InterfaceScanThenApplyAsWritten(s1, isWeak, name, interfaces[1..], s2, later[1..]);
    } else {
      ExtendsTransitive(s1, r.1, s2);
    }
  }

  // ---------------------------------------------------------------- fields

  /**
   * The access flags of an added field or method: private or else public,
   * plus static when static.
   */
  function MemberAccess(isPrivate: bool, isStatic: bool): (a: bv32)
    ensures (a & ACC_PUBLIC != 0) <==> !isPrivate
    ensures (a & ACC_PRIVATE != 0) <==> isPrivate
    ensures (a & ACC_STATIC != 0) <==> isStatic
    ensures a & ACC_PROTECTED == 0
  {
    (if isPrivate then ACC_PRIVATE else ACC_PUBLIC) | (if isStatic then ACC_STATIC else 0)
  }

  /** What a field node holds. */
  datatype FieldView = FieldView(access: bv32, name: string, desc: string, value: Option<Constant>)

  function ViewOf(n: FieldNode): FieldView {
    FieldView(n.access, n.name, n.desc, n.value)
  }

  function Views(ns: seq<FieldNode>): (r: seq<FieldView>)
    ensures |r| == |ns| && forall i :: 0 <= i < |ns| ==> r[i] == ViewOf(ns[i])
  {
    if ns == [] then [] else [ViewOf(ns[0])] + Views(ns[1..])
  }

  /** The position of the first field with the given name and descriptor. */
  function FirstMatch(views: seq<FieldView>, name: string, desc: string): (r: Option<nat>)
    ensures r.Some? ==> r.value < |views| && views[r.value].name == name && views[r.value].desc == desc
    ensures r.Some? ==> forall j :: 0 <= j < r.value ==> views[j].name != name || views[j].desc != desc
    ensures r.None? ==> forall j :: 0 <= j < |views| ==> views[j].name != name || views[j].desc != desc
  {
    if views == [] then None
    else if views[0].name == name && views[0].desc == desc then Some(0)
    else match FirstMatch(views[1..], name, desc)
      case None => None
      case Some(k) => Some(k + 1)
  }

  /** A field view agrees with its line: its name, its flags and its constant. */
  predicate ViewAgrees(v: FieldView, f: PatchField) {
    && v.name == f.ident.name
    && v.access == MemberAccess(f.isPrivate, f.isStatic)
    && v.value == f.value
  }

  /**
   * One field line applied to the fields of class `owner`: a matched line
   * changes nothing; a removed line deletes the first field with the name
   * and descriptor bound to it (none, if there is none) and fails when
   * nothing is bound; an added line appends a field with the descriptor
   * rewritten through the bindings and binds the line to it, and fails when
   * a weak class name in the descriptor is unbound.
   */
  function FieldStep(s: Scope, owner: string, views: seq<FieldView>, f: PatchField): (r: Result<(seq<FieldView>, Scope)>)
    ensures f.mode == Match ==> r == Ok((views, s))
    ensures f.mode == Remove ==> (r.Ok? <==> FieldKey(owner, f) in s.fields)
    ensures f.mode == Remove && r.Ok? ==>
      var b := s.fields[FieldKey(owner, f)];
      && r.value.1 == s
      && (FirstMatch(views, b.name, b.desc).None? ==> r.value.0 == views)
      && (FirstMatch(views, b.name, b.desc).Some? ==>
            var k := FirstMatch(views, b.name, b.desc).value;
            |r.value.0| == |views| - 1 && r.value.0[..k] == views[..k] && r.value.0[k..] == views[k + 1..])
    ensures f.mode == Add ==> (r.Ok? <==> WeakNamesBound(s, FieldDesc(f)))
    ensures f.mode == Add && r.Ok? ==>
      && |r.value.0| == |views| + 1 && r.value.0[..|views|] == views
      && ViewAgrees(r.value.0[|views|], f)
      && Some(r.value.0[|views|].desc) == UpdatedTypeString(s, FieldDesc(f))
      && Extends(s, r.value.1) && FieldKey(owner, f) in r.value.1.fields
      && r.value.1.classes == s.classes && r.value.1.methods == s.methods && r.value.1.labels == s.labels
  {
    match f.mode
    case Match => Ok((views, s))
    case Remove =>
      var key := FieldKey(owner, f);
      if key !in s.fields then Err("NullPointerException")
      else
        var b := s.fields[key];
        (match FirstMatch(views, b.name, b.desc)
         case None => Ok((views, s))
         case Some(k) => Ok((views[..k] + views[k + 1..], s)))
    case Add =>
      match UpdatedTypeString(s, FieldDesc(f))
      case None => Err("NullPointerException")
      case Some(d) =>
        var v := FieldView(MemberAccess(f.isPrivate, f.isStatic), f.ident.name, d, f.value);
        Ok((views + [v], PutField(s, FieldKey(owner, f), FieldRef(owner, f.ident.name, d))))
  }

  /** The fields and the scope after the field lines, applied in order. */
  function FieldsAfter(s: Scope, owner: string, views: seq<FieldView>, fs: seq<PatchField>): Result<(seq<FieldView>, Scope)>
    decreases |fs|
  {
    if fs == [] then Ok((views, s))
    else match FieldStep(s, owner, views, fs[0])
      case Err(e) => Err(e)
      case Ok((v, s')) => FieldsAfter(s', owner, v, fs[1..])
  }

  /** The field lines only add bindings, and only field bindings. */
  lemma {:induction false} FieldsAfterExtends(s: Scope, owner: string, views: seq<FieldView>, fs: seq<PatchField>)
    requires FieldsAfter(s, owner, views, fs).Ok?
    ensures var s' := FieldsAfter(s, owner, views, fs).value.1;
      Extends(s, s') && s'.classes == s.classes && s'.methods == s.methods && s'.labels == s.labels
    decreases |fs|
  {
    if fs != [] {
      var (v, s1) := FieldStep(s, owner, views, fs[0]).value;
      FieldsAfterExtends(s1, owner, v, fs[1..]);
      ExtendsTransitive(s, s1, FieldsAfter(s, owner, views, fs).value.1);
    }
  }

  /** Field lines that only match leave the class and the scope untouched. */
  lemma {:induction false} MatchedFieldsKeep(s: Scope, owner: string, views: seq<FieldView>, fs: seq<PatchField>)
    requires forall i :: 0 <= i < |fs| ==> fs[i].mode == Match
    ensures FieldsAfter(s, owner, views, fs) == Ok((views, s))
    decreases |fs|
  {
    if fs != [] {
      MatchedFieldsKeep(s, owner, views, fs[1..]);
    }
  }

  /**
   * Adding a field and then removing the same line restores the fields,
   * when the line was unbound and no field had its name and rewritten
   * descriptor before.
   */
  lemma AddThenRemoveField(s: Scope, owner: string, views: seq<FieldView>, f: PatchField)
    requires f.mode == Add && FieldKey(owner, f) !in s.fields && WeakNamesBound(s, FieldDesc(f))
    requires forall j :: 0 <= j < |views| ==>
      views[j].name != f.ident.name || views[j].desc != UpdatedTypeString(s, FieldDesc(f)).value
    ensures FieldsAfter(s, owner, views, [f, f.(mode := Remove)]).Ok?
    ensures FieldsAfter(s, owner, views, [f, f.(mode := Remove)]).value.0 == views
  {
    var d := UpdatedTypeString(s, FieldDesc(f)).value;
    var v1 := views + [FieldView(MemberAccess(f.isPrivate, f.isStatic), f.ident.name, d, f.value)];
    var s1 := PutField(s, FieldKey(owner, f), FieldRef(owner, f.ident.name, d));
    assert FieldStep(s, owner, views, f) == Ok((v1, s1));
    var g := f.(mode := Remove);
    assert FieldKey(owner, g) == FieldKey(owner, f);
    assert s1.fields[FieldKey(owner, g)] == FieldRef(owner, f.ident.name, d);
    FirstMatchAt(v1, f.ident.name, d, |views|);
    assert v1[..|views|] + v1[|views| + 1..] == views;
    assert FieldStep(s1, owner, v1, g) == Ok((views, s1));
    var fs := [f, g];
    assert fs[1..] == [g];
    assert [g][1..] == [];
    assert FieldsAfter(s1, owner, v1, [g]) == Ok((views, s1));
  }

  /** The first match is the first position that matches. */
  lemma {:induction false} FirstMatchAt(views: seq<FieldView>, name: string, desc: string, i: nat)
    requires i <= |views|
    requires forall j :: 0 <= j < i ==> views[j].name != name || views[j].desc != desc
    requires i < |views| ==> views[i].name == name && views[i].desc == desc
    ensures FirstMatch(views, name, desc) == if i < |views| then Some(i) else None
  {
    if views != [] && i > 0 {
      FirstMatchAt(views[1..], name, desc, i - 1);
    }
  }

  /** Finds the position of the first field node with the given name and descriptor. */
  method FindFieldIndex(ns: seq<FieldNode>, name: string, desc: string) returns (r: Option<nat>)
    ensures r == FirstMatch(Views(ns), name, desc)
  {
    var i := 0;
    while i < |ns|
      invariant i <= |ns|
      invariant forall j :: 0 <= j < i ==> ns[j].name != name || ns[j].desc != desc
    {
      if ns[i].name == name && ns[i].desc == desc {
        FirstMatchAt(Views(ns), name, desc, i);
        return Some(i);
      }
      i := i + 1;
    }
    FirstMatchAt(Views(ns), name, desc, i);
    return None;
  }

  /** Deletes the field at position `k` of the class node. */
  method RemoveFieldAt(node: ClassNode, k: nat)
    requires k < |node.fields|
    modifies node
    ensures Views(node.fields) == Views(old(node.fields))[..k] + Views(old(node.fields))[k + 1..]
    ensures node.access == old(node.access) && node.superName == old(node.superName)
    ensures node.interfaces == old(node.interfaces) && node.methods == old(node.methods)
  {
    var ns := node.fields;
    node.fields := ns[..k] + ns[k + 1..];
    assert Views(node.fields) == Views(ns)[..k] + Views(ns)[k + 1..];
  }

  /** Appends a field node to the class node. */
  method AppendField(node: ClassNode, fn: FieldNode)
    modifies node
    ensures node.fields == old(node.fields) + [fn]
    ensures Views(node.fields) == Views(old(node.fields)) + [ViewOf(fn)]
    ensures node.access == old(node.access) && node.superName == old(node.superName)
    ensures node.interfaces == old(node.interfaces) && node.methods == old(node.methods)
  {
    var ns := node.fields;
    node.fields := ns + [fn];
    assert Views(node.fields) == Views(ns) + [ViewOf(fn)];
  }

  /** Applies a removed field line: deletes the first field with the bound name and descriptor. */
  method ApplyRemovedField(f: PatchField, node: ClassNode, scope: Scope) returns (r: Result<Scope>)
    requires f.mode == Remove
    modifies node
    ensures var step := FieldStep(scope, node.name, Views(old(node.fields)), f);
      && (r.Ok? <==> step.Ok?)
      && (r.Ok? ==> Views(node.fields) == step.value.0 && r.value == step.value.1)
    ensures node.access == old(node.access) && node.superName == old(node.superName)
    ensures node.interfaces == old(node.interfaces) && node.methods == old(node.methods)
  {
    var key := FieldKey(node.name, f);
    if key !in scope.fields {
      return Err("NullPointerException");
    }
    var b := scope.fields[key];
    var k := FindFieldIndex(node.fields, b.name, b.desc);
    if k.Some? {
      RemoveFieldAt(node, k.value);
    }
    return Ok(scope);
  }

  /** Applies an added field line: appends a new field with the rewritten descriptor and binds the line to it. */
  method ApplyAddedField(f: PatchField, node: ClassNode, scope: Scope) returns (r: Result<Scope>)
    requires f.mode == Add
    modifies node
    ensures var step := FieldStep(scope, node.name, Views(old(node.fields)), f);
      && (r.Ok? <==> step.Ok?)
      && (r.Ok? ==> Views(node.fields) == step.value.0 && r.value == step.value.1)
    ensures r.Ok? ==>
      |node.fields| > 0 && fresh(node.fields[|node.fields| - 1])
      && node.fields[|node.fields| - 1].access == MemberAccess(f.isPrivate, f.isStatic)
      && node.fields[|node.fields| - 1].value == f.value
      && FieldNodeAgrees(node.fields[|node.fields| - 1], f)
    ensures node.access == old(node.access) && node.superName == old(node.superName)
    ensures node.interfaces == old(node.interfaces) && node.methods == old(node.methods)
  {
    var mapped := UpdatedTypeString(scope, FieldDesc(f));
    if mapped.None? {
      return Err("NullPointerException");
    }
    var fn := new FieldNode(MemberAccess(f.isPrivate, f.isStatic), f.ident.name, mapped.value, f.value);
    AppendField(node, fn);
    r := Ok(PutField(scope, FieldKey(node.name, f), FieldRef(node.name, f.ident.name, mapped.value)));
  }

  /** Applies one field line to the class node. */
  method ApplyField(f: PatchField, node: ClassNode, scope: Scope) returns (r: Result<Scope>)
    modifies node
    ensures var step := FieldStep(scope, node.name, Views(old(node.fields)), f);
      && (r.Ok? <==> step.Ok?)
      && (r.Ok? ==> Views(node.fields) == step.value.0 && r.value == step.value.1)
    ensures f.mode == Add && r.Ok? ==>
      |node.fields| > 0 && fresh(node.fields[|node.fields| - 1]) && FieldNodeAgrees(node.fields[|node.fields| - 1], f)
    ensures node.access == old(node.access) && node.superName == old(node.superName)
    ensures node.interfaces == old(node.interfaces) && node.methods == old(node.methods)
  {
    match f.mode
    case Match =>
      assert FieldStep(scope, node.name, Views(node.fields), f) == Ok((Views(node.fields), scope));
      return Ok(scope);
    case Remove =>
      r := ApplyRemovedField(f, node, scope);
    case Add =>
      r := ApplyAddedField(f, node, scope);
  }

  /** Applies the field lines to the class node, in order. */
  method ApplyFields(fs: seq<PatchField>, node: ClassNode, scope: Scope) returns (r: Result<Scope>)
    modifies node
    ensures var after := FieldsAfter(scope, node.name, Views(old(node.fields)), fs);
      && (r.Ok? <==> after.Ok?)
      && (r.Ok? ==> Views(node.fields) == after.value.0 && r.value == after.value.1)
    ensures node.access == old(node.access) && node.superName == old(node.superName)
    ensures node.interfaces == old(node.interfaces) && node.methods == old(node.methods)
  {
    var s := scope;
    var i := 0;
    while i < |fs|
      invariant i <= |fs|
      invariant FieldsAfter(scope, node.name, Views(old(node.fields)), fs) == FieldsAfter(s, node.name, Views(node.fields), fs[i..])
      invariant node.access == old(node.access) && node.superName == old(node.superName)
      invariant node.interfaces == old(node.interfaces) && node.methods == old(node.methods)
    {
      assert fs[i..][1..] == fs[i + 1..];
      var step := ApplyField(fs[i], node, s);
      if step.Err? {
        return Err(step.message);
      }
      s := step.value;
      i := i + 1;
    }
    assert fs[i..] == [];
    return Ok(s);
  }

  // --------------------------------------------------------------- methods

  /** Descriptors of a list of types, each rewritten through the bindings. */
  function MappedTypes(s: Scope, ts: seq<Type>): (r: Option<string>)
    ensures r.Some? <==> forall i :: 0 <= i < |ts| ==> WeakNamesBound(s, ts[i])
  {
    if ts == [] then Some("")
    else match (UpdatedTypeString(s, ts[0]), MappedTypes(s, ts[1..]))
      case (Some(a), Some(b)) => Some(a + b)
      case _ => None
  }

  /**
   * The descriptor of an added method with its weak class names replaced by
   * the bound classes; `None` where one is unbound.
   */
  function MappedMethodDesc(s: Scope, desc: string): (r: Option<string>)
    ensures r.Some? <==>
      (forall i :: 0 <= i < |ArgumentTypes(GetType(desc))| ==> WeakNamesBound(s, ArgumentTypes(GetType(desc))[i]))
      && WeakNamesBound(s, ReturnType(GetType(desc)))
  {
    var t := GetType(desc);
    match (MappedTypes(s, ArgumentTypes(t)), UpdatedTypeString(s, ReturnType(t)))
    case (Some(a), Some(ret)) => Some("(" + a + ")" + ret)
    case _ => None
  }

  lemma {:induction false} MappedTypesLiteral(s: Scope, ts: seq<Type>)
    requires forall i :: 0 <= i < |ts| ==> NoWeakNames(ts[i])
    ensures MappedTypes(s, ts) == Some(Descriptors(ts))
  {
    if ts != [] {
      UpdatedTypeStringLiteral(s, ts[0]);
      MappedTypesLiteral(s, ts[1..]);
    }
  }

  /** A method descriptor that names no class weakly is copied unchanged. */
  lemma MappedMethodDescLiteral(s: Scope, args: seq<Type>, ret: Type)
    requires forall i :: 0 <= i < |args| ==> FieldType(args[i]) && NoWeakNames(args[i])
    requires FieldType(ret) && NoWeakNames(ret)
    ensures MappedMethodDesc(s, MethodDescriptor(args, ret)) == Some(MethodDescriptor(args, ret))
  {
    var d := MethodDescriptor(args, ret);
    assert d[0] == '(';
    assert GetType(d) == Method(d);
    MethodDescriptorRoundTrip(args, ret);
    MappedTypesLiteral(s, args);
    UpdatedTypeStringLiteral(s, ret);
  }

  lemma {:induction false} UpdatedTypeStringSameClasses(s: Scope, s': Scope, t: Type)
    requires s.classes == s'.classes
    ensures UpdatedTypeString(s, t) == UpdatedTypeString(s', t)
  {
    match t
    case Array(e) => UpdatedTypeStringSameClasses(s, s', e);
    case _ =>
  }

  lemma {:induction false} MappedTypesSameClasses(s: Scope, s': Scope, ts: seq<Type>)
    requires s.classes == s'.classes
    ensures MappedTypes(s, ts) == MappedTypes(s', ts)
  {
    if ts != [] {
      UpdatedTypeStringSameClasses(s, s', ts[0]);
      MappedTypesSameClasses(s, s', ts[1..]);
    }
  }

  /** The rewrite depends on the class bindings only. */
  lemma MappedMethodDescSameClasses(s: Scope, s': Scope, desc: string)
    requires s.classes == s'.classes
    ensures MappedMethodDesc(s, desc) == MappedMethodDesc(s', desc)
  {
    MappedTypesSameClasses(s, s', ArgumentTypes(GetType(desc)));
    UpdatedTypeStringSameClasses(s, s', ReturnType(GetType(desc)));
  }

  /** The class declares a method with this name and descriptor. */
  predicate Declares(c: ClassNode, name: string, desc: string)
    reads c
  {
    exists i :: 0 <= i < |c.methods| && c.methods[i].name == name && c.methods[i].desc == desc
  }

  /**
   * A method with this name and descriptor is declared by `c` or, within
   * `fuel` levels, by a class above it in the class set: its superclass or
   * one of its interfaces.
   */
  predicate InHierarchy(cs: ClassSet, c: ClassNode, m: MethodRef, fuel: nat)
    reads cs, cs.classes.Values, c
    decreases fuel, 0
  {
    || Declares(c, m.name, m.desc)
    || (fuel > 0 && (|| NamedInHierarchy(cs, c.superName, m, fuel - 1)
                     || exists i :: 0 <= i < |c.interfaces| && NamedInHierarchy(cs, c.interfaces[i], m, fuel - 1)))
  }

  /** The class of that name is in the set, and the method is declared by it or above it. */
  predicate NamedInHierarchy(cs: ClassSet, className: string, m: MethodRef, fuel: nat)
    reads cs, cs.classes.Values
    decreases fuel, 1
  {
    className in cs.classes && InHierarchy(cs, cs.classes[className], m, fuel)
  }

  /**
   * The name the class itself is searched under: a literal name, or the
   * method a weak name's line is bound to in this class; none for an unbound
   * weak name.
   */
  function OwnName(scope: Scope, c: ClassNode, name: Ident, desc: string): Option<string>
    reads c
  {
    var key := MemberKey(c.name, name.name, desc);
    if !name.isWeak then Some(name.name)
    else if key in scope.methods then Some(scope.methods[key].name)
    else None
  }

  /** The class itself declares no method under its own search name. */
  predicate OwnMiss(scope: Scope, c: ClassNode, name: Ident, desc: string)
    reads c
  {
    || OwnName(scope, c, name, desc).None?
    || (MappedMethodDesc(scope, desc).Some? && !Declares(c, OwnName(scope, c, name, desc).value, MappedMethodDesc(scope, desc).value))
  }

  /**
   * `searchParent`: the method an added method with this name and (already
   * rewritten) descriptor overrides. The class itself is searched first,
   * under `OwnName`. Then the superclass is searched, then each interface
   * in order. A weak class name left in the descriptor makes the search
   * fail. `fuel` bounds how many levels up it goes.
   */
  function SearchParent(cs: ClassSet, scope: Scope, c: ClassNode, name: Ident, desc: string, fuel: nat): (r: Result<Option<MethodRef>>)
    reads cs, cs.classes.Values, c
    ensures r.Ok? && r.value.Some? ==>
      MappedMethodDesc(scope, desc).Some? && r.value.value.desc == MappedMethodDesc(scope, desc).value
    ensures r.Ok? && r.value.Some? && !name.isWeak ==> r.value.value.name == name.name
    ensures r.Ok? && r.value.Some? ==> InHierarchy(cs, c, r.value.value, fuel)
    ensures OwnName(scope, c, name, desc).Some? && MappedMethodDesc(scope, desc).Some?
            && Declares(c, OwnName(scope, c, name, desc).value, MappedMethodDesc(scope, desc).value) ==>
      r == Ok(Some(MethodRef(OwnName(scope, c, name, desc).value, MappedMethodDesc(scope, desc).value)))
    ensures OwnMiss(scope, c, name, desc) && fuel == 0 ==> r == Ok(None)
    decreases fuel, 0, 0
  {
    var pName := OwnName(scope, c, name, desc);
    var own: Result<Option<MethodRef>> :=
      if pName.None? then Ok(None)
      else match MappedMethodDesc(scope, desc)
        case None => Err("NullPointerException")
        case Some(mapped) => if Declares(c, pName.value, mapped) then Ok(Some(MethodRef(pName.value, mapped))) else Ok(None);
    if own.Err? || own.value.Some? || fuel == 0 then own
    else match SearchNamed(cs, scope, c.superName, name, desc, fuel - 1)
      case Err(e) => Err(e)
      case Ok(Some(m)) => Ok(Some(m))
      case Ok(None) => SearchInterfaces(cs, scope, c.interfaces, name, desc, fuel - 1)
  }

  /** `searchParent` on the class of that name; nothing is found for a class outside the set. */
  function SearchNamed(cs: ClassSet, scope: Scope, className: string, name: Ident, desc: string, fuel: nat): (r: Result<Option<MethodRef>>)
    reads cs, cs.classes.Values
    ensures r.Ok? && r.value.Some? ==>
      MappedMethodDesc(scope, desc).Some? && r.value.value.desc == MappedMethodDesc(scope, desc).value
    ensures r.Ok? && r.value.Some? && !name.isWeak ==> r.value.value.name == name.name
    ensures r.Ok? && r.value.Some? ==> NamedInHierarchy(cs, className, r.value.value, fuel)
    ensures className !in cs.classes ==> r == Ok(None)
    decreases fuel, 1, 0
  {
    if className !in cs.classes then Ok(None)
    else SearchParent(cs, scope, cs.classes[className], name, desc, fuel)
  }

  /** `searchParent` on each interface in turn, up to the first that finds the method. */
  function SearchInterfaces(cs: ClassSet, scope: Scope, interfaces: seq<string>, name: Ident, desc: string, fuel: nat): (r: Result<Option<MethodRef>>)
    reads cs, cs.classes.Values
    ensures r.Ok? && r.value.Some? ==>
      MappedMethodDesc(scope, desc).Some? && r.value.value.desc == MappedMethodDesc(scope, desc).value
    ensures r.Ok? && r.value.Some? && !name.isWeak ==> r.value.value.name == name.name
    ensures r.Ok? && r.value.Some? ==>
      exists i :: 0 <= i < |interfaces| && NamedInHierarchy(cs, interfaces[i], r.value.value, fuel)
    ensures interfaces == [] ==> r == Ok(None)
    decreases fuel, 2, |interfaces|
  {
    if interfaces == [] then Ok(None)
    else match SearchNamed(cs, scope, interfaces[0], name, desc, fuel)
      case Err(e) => Err(e)
      case Ok(Some(m)) => Ok(Some(m))
      case Ok(None) =>
        var rest := SearchInterfaces(cs, scope, interfaces[1..], name, desc, fuel);
        assert rest.Ok? && rest.value.Some? ==>
          exists i :: 0 <= i < |interfaces| && NamedInHierarchy(cs, interfaces[i], rest.value.value, fuel) by {
          if rest.Ok? && rest.value.Some? {
            var i :| 0 <= i < |interfaces[1..]| && NamedInHierarchy(cs, interfaces[1..][i], rest.value.value, fuel);
            assert interfaces[1..][i] == interfaces[i + 1];
          }
        }
        rest
  }

  /**
   * The order of `searchParent` after a miss in the class itself: a hit in
   * the superclass is the result, an error there is an error, and a miss
   * there continues with the interfaces.
   */
  lemma SearchParentOrder(cs: ClassSet, scope: Scope, c: ClassNode, name: Ident, desc: string, fuel: nat)
    requires OwnMiss(scope, c, name, desc) && fuel > 0
    ensures var sup := SearchNamed(cs, scope, c.superName, name, desc, fuel - 1);
      && (sup.Ok? && sup.value.Some? ==> SearchParent(cs, scope, c, name, desc, fuel) == sup)
      && (sup.Err? ==> SearchParent(cs, scope, c, name, desc, fuel).Err?)
      && (sup == Ok(None) ==>
            SearchParent(cs, scope, c, name, desc, fuel) == SearchInterfaces(cs, scope, c.interfaces, name, desc, fuel - 1))
  {
  }

  /**
   * The order of the interface search: a hit in the first interface is the
   * result, an error there is an error, and a miss there continues with the
   * rest.
   */
  lemma SearchInterfacesOrder(cs: ClassSet, scope: Scope, interfaces: seq<string>, name: Ident, desc: string, fuel: nat)
    requires interfaces != []
    ensures var first := SearchNamed(cs, scope, interfaces[0], name, desc, fuel);
      && (first.Ok? && first.value.Some? ==> SearchInterfaces(cs, scope, interfaces, name, desc, fuel) == first)
      && (first.Err? ==> SearchInterfaces(cs, scope, interfaces, name, desc, fuel).Err?)
      && (first == Ok(None) ==>
            SearchInterfaces(cs, scope, interfaces, name, desc, fuel) == SearchInterfaces(cs, scope, interfaces[1..], name, desc, fuel))
  {
  }

  /**
   * With a literal name and a descriptor the rewrite accepts, the search
   * never fails, and it finds a method whenever the class or, within the
   * fuel, a class above it declares one with that name and descriptor.
   */
  lemma {:induction false} SearchParentComplete(cs: ClassSet, scope: Scope, c: ClassNode, name: Ident, desc: string, fuel: nat)
    requires !name.isWeak && MappedMethodDesc(scope, desc).Some?
    ensures SearchParent(cs, scope, c, name, desc, fuel).Ok?
    ensures InHierarchy(cs, c, MethodRef(name.name, MappedMethodDesc(scope, desc).value), fuel) ==>
      SearchParent(cs, scope, c, name, desc, fuel).value.Some?
    decreases fuel, 0
  {
    var d := MappedMethodDesc(scope, desc).value;
    var m := MethodRef(name.name, d);
    var r := SearchParent(cs, scope, c, name, desc, fuel);
    assert OwnName(scope, c, name, desc) == Some(name.name);
    if Declares(c, name.name, d) {
      assert r == Ok(Some(m));
    } else if fuel == 0 {
      assert OwnMiss(scope, c, name, desc);
      assert r == Ok(None);
      assert !InHierarchy(cs, c, m, fuel);
    } else {
      assert OwnMiss(scope, c, name, desc);
      SearchNamedComplete(cs, scope, c.superName, name, desc, fuel - 1);
      var sup := SearchNamed(cs, scope, c.superName, name, desc, fuel - 1);
      SearchParentOrder(cs, scope, c, name, desc, fuel);
      if sup == Ok(None) {
        SearchInterfacesComplete(cs, scope, c.interfaces, name, desc, fuel - 1);
      }
    }
  }

  /** `SearchParentComplete` for the class of a given name. */
  lemma {:induction false} SearchNamedComplete(cs: ClassSet, scope: Scope, className: string, name: Ident, desc: string, fuel: nat)
    requires !name.isWeak && MappedMethodDesc(scope, desc).Some?
    ensures SearchNamed(cs, scope, className, name, desc, fuel).Ok?
    ensures NamedInHierarchy(cs, className, MethodRef(name.name, MappedMethodDesc(scope, desc).value), fuel) ==>
      SearchNamed(cs, scope, className, name, desc, fuel).value.Some?
    decreases fuel, 1
  {
    if className in cs.classes {
      SearchParentComplete(cs, scope, cs.classes[className], name, desc, fuel);
    }
  }

  /** `SearchParentComplete` for a list of interfaces: a method above any of them is found. */
  lemma {:induction false} SearchInterfacesComplete(cs: ClassSet, scope: Scope, interfaces: seq<string>, name: Ident, desc: string, fuel: nat)
    requires !name.isWeak && MappedMethodDesc(scope, desc).Some?
    ensures SearchInterfaces(cs, scope, interfaces, name, desc, fuel).Ok?
    ensures (exists i :: 0 <= i < |interfaces|
               && NamedInHierarchy(cs, interfaces[i], MethodRef(name.name, MappedMethodDesc(scope, desc).value), fuel)) ==>
      SearchInterfaces(cs, scope, interfaces, name, desc, fuel).value.Some?
    decreases fuel, 2, |interfaces|
  {
    if interfaces != [] {
      var m := MethodRef(name.name, MappedMethodDesc(scope, desc).value);
      SearchInterfacesOrder(cs, scope, interfaces, name, desc, fuel);
      SearchNamedComplete(cs, scope, interfaces[0], name, desc, fuel);
      SearchInterfacesComplete(cs, scope, interfaces[1..], name, desc, fuel);
      if exists i :: 0 <= i < |interfaces| && NamedInHierarchy(cs, interfaces[i], m, fuel) {
        var i :| 0 <= i < |interfaces| && NamedInHierarchy(cs, interfaces[i], m, fuel);
        if i > 0 {
          assert interfaces[1..][i - 1] == interfaces[i];
        }
      }
    }
  }

  /**
   * The node of an added method agrees with its line: the rewritten
   * descriptor, the access flags, and its own name unless it may override.
   */
  predicate AddedAs(n: MethodNode, m: PatchMethod, s: Scope) {
    && MappedMethodDesc(s, m.desc).Some?
    && n.desc == MappedMethodDesc(s, m.desc).value
    && n.access == MemberAccess(m.isPrivate, m.isStatic)
    && (m.isPrivate || m.isStatic ==> n.name == m.ident.name)
  }

  /**
   * Applies one method line: an added method gets a node with the rewritten
   * descriptor, named after the method it overrides if `searchParent` finds
   * one (only public instance methods are searched), and its line is bound
   * to that method. Other lines change nothing here.
   */
  method ApplyMethod(m: PatchMethod, node: ClassNode, cs: ClassSet, scope: Scope, fuel: nat) returns (r: Result<Scope>)
    modifies node
    ensures m.mode != Add ==> r == Ok(scope) && node.methods == old(node.methods)
    ensures m.mode == Add && MappedMethodDesc(scope, m.desc).None? ==> r.Err?
    ensures m.mode == Add && MappedMethodDesc(scope, m.desc).Some? && !m.isPrivate && !m.isStatic ==>
      (old(SearchParent(cs, scope, node, m.ident, MappedMethodDesc(scope, m.desc).value, fuel)).Err? ==> r.Err?)
    ensures m.mode == Add && r.Ok? ==>
      var mapped := MappedMethodDesc(scope, m.desc).value;
      var found := if !m.isPrivate && !m.isStatic
                   then old(SearchParent(cs, scope, node, m.ident, mapped, fuel)).value
                   else None;
      && |node.methods| == |old(node.methods)| + 1
      && var added := node.methods[|old(node.methods)|];
      && node.methods == old(node.methods) + [added]
      && fresh(added) && AddedAs(added, m, scope)
      && added.name == (if found.Some? then found.value.name else m.ident.name)
      && r.value == PutMethod(scope, MethodKey(node.name, m), if found.Some? then found.value else MethodRef(m.ident.name, mapped))
      && r.value.methods.Keys == scope.methods.Keys + {MethodKey(node.name, m)}
      && (MethodKey(node.name, m) !in scope.methods ==> r.value.methods[MethodKey(node.name, m)].name == added.name)
    ensures node.access == old(node.access) && node.superName == old(node.superName)
    ensures node.interfaces == old(node.interfaces) && node.fields == old(node.fields)
  {
    if m.mode != Add {
      return Ok(scope);
    }
    var mapped := MappedMethodDesc(scope, m.desc);
    if mapped.None? {
      return Err("NullPointerException");
    }
    var access := (if m.isPrivate then ACC_PRIVATE else ACC_PUBLIC) | (if m.isStatic then ACC_STATIC else 0);
    var found: Option<MethodRef> := None;
    if (access & ACC_PUBLIC != 0 || access & ACC_PROTECTED != 0) && access & ACC_STATIC == 0 {
      var search := SearchParent(cs, scope, node, m.ident, mapped.value, fuel);
      if search.Err? {
        return Err(search.message);
      }
      found := search.value;
    }
    var bound := if found.Some? then found.value else MethodRef(m.ident.name, mapped.value);
    var mn := new MethodNode(access, bound.name, mapped.value);
    node.methods := node.methods + [mn];
    r := Ok(PutMethod(scope, MethodKey(node.name, m), bound));
  }

  /** The positions of the added lines among the first `i`, in order, every one of them. */
  function AddIndices(ms: seq<PatchMethod>, i: nat): (r: seq<nat>)
    requires i <= |ms|
    ensures |r| <= i
    ensures forall j :: 0 <= j < |r| ==> r[j] < i && ms[r[j]].mode == Add
    ensures forall j, j' :: 0 <= j < j' < |r| ==> r[j] < r[j']
    ensures forall k :: 0 <= k < i && ms[k].mode == Add ==> k in r
  {
    if i == 0 then []
    else AddIndices(ms, i - 1) + (if ms[i - 1].mode == Add then [i - 1] else [])
  }

  /** The number of added lines. */
  function AddCount(ms: seq<PatchMethod>): (n: nat)
    ensures n <= |ms|
  {
    |AddIndices(ms, |ms|)|
  }

  /** The scope keys of the added lines among the first `i`. */
  function AddedKeys(ms: seq<PatchMethod>, i: nat, owner: string): set<MemberKey>
    requires i <= |ms|
  {
    set k | 0 <= k < i && ms[k].mode == Add :: MethodKey(owner, ms[k])
  }

  /** Line `k` is added and its key is bound neither before the method lines nor by an earlier added line. */
  predicate FirstBinding(ms: seq<PatchMethod>, k: nat, owner: string, scope: Scope)
    requires k <= |ms|
  {
    k < |ms| && MethodKey(owner, ms[k]) !in scope.methods && MethodKey(owner, ms[k]) !in AddedKeys(ms, k, owner)
  }

  /** Every position `idx[j]` is a line. */
  predicate Positions(ms: seq<PatchMethod>, idx: seq<nat>) {
    forall j :: 0 <= j < |idx| ==> idx[j] < |ms|
  }

  /** Each node agrees with the line at its position. */
  ghost predicate AgreeInOrder(nodes: seq<MethodNode>, ms: seq<PatchMethod>, idx: seq<nat>, scope: Scope)
    requires |nodes| <= |idx| && Positions(ms, idx)
  {
    forall j :: 0 <= j < |nodes| ==> AddedAs(nodes[j], ms[idx[j]], scope)
  }

  /** Each line at a position, when bound for the first time, is bound in `s` to a method of its node's name. */
  ghost predicate BoundInOrder(nodes: seq<MethodNode>, ms: seq<PatchMethod>, idx: seq<nat>, owner: string, scope: Scope, s: Scope)
    requires |nodes| <= |idx| && Positions(ms, idx)
  {
    forall j :: 0 <= j < |nodes| && FirstBinding(ms, idx[j], owner, scope) ==>
      MethodKey(owner, ms[idx[j]]) in s.methods && s.methods[MethodKey(owner, ms[idx[j]])].name == nodes[j].name
  }

  /**
   * `nodes` are the nodes of the added lines among the first `i`, in the
   * lines' order: each agrees with its line, and a line bound for the first
   * time is bound in `s` to a method of its node's name (the method
   * `searchParent` found, or the node itself).
   */
  ghost predicate AddedInOrder(nodes: seq<MethodNode>, ms: seq<PatchMethod>, i: nat, owner: string, scope: Scope, s: Scope)
    requires i <= |ms|
  {
    var idx := AddIndices(ms, i);
    && |nodes| == |idx|
    && AgreeInOrder(nodes, ms, idx, scope)
    && BoundInOrder(nodes, ms, idx, owner, scope, s)
  }

  /** `AddedInOrder` depends on the scope before the method lines through its class and method bindings only. */
  lemma AddedInOrderSameScope(nodes: seq<MethodNode>, ms: seq<PatchMethod>, i: nat, owner: string, s1: Scope, s2: Scope, s: Scope)
    requires i <= |ms| && s1.classes == s2.classes && s1.methods == s2.methods
    requires AddedInOrder(nodes, ms, i, owner, s1, s)
    ensures AddedInOrder(nodes, ms, i, owner, s2, s)
  {
    forall k | 0 <= k < |ms| {
      MappedMethodDescSameClasses(s1, s2, ms[k].desc);
    }
  }

  /** One more node agrees with the line at one more position. */
  lemma AgreeStep(nodes: seq<MethodNode>, ms: seq<PatchMethod>, idx: seq<nat>, scope: Scope, k: nat, n: MethodNode)
    requires |nodes| == |idx| && Positions(ms, idx) && k < |ms|
    requires AgreeInOrder(nodes, ms, idx, scope) && AddedAs(n, ms[k], scope)
    ensures Positions(ms, idx + [k]) && AgreeInOrder(nodes + [n], ms, idx + [k], scope)
  {
    forall j | 0 <= j < |nodes| + 1
      ensures AddedAs((nodes + [n])[j], ms[(idx + [k])[j]], scope)
    {
      if j < |nodes| {
        assert (nodes + [n])[j] == nodes[j] && (idx + [k])[j] == idx[j];
      } else {
        assert (nodes + [n])[j] == n && (idx + [k])[j] == k;
      }
    }
  }

  /** One more line bound as its node says keeps the first bindings of the earlier lines. */
  lemma BoundStep(nodes: seq<MethodNode>, ms: seq<PatchMethod>, idx: seq<nat>, owner: string, scope: Scope,
                  s: Scope, s': Scope, k: nat, n: MethodNode)
    requires |nodes| == |idx| && Positions(ms, idx) && k < |ms|
    requires BoundInOrder(nodes, ms, idx, owner, scope, s) && Extends(s, s')
    requires FirstBinding(ms, k, owner, scope) ==>
      MethodKey(owner, ms[k]) in s'.methods && s'.methods[MethodKey(owner, ms[k])].name == n.name
    ensures Positions(ms, idx + [k]) && BoundInOrder(nodes + [n], ms, idx + [k], owner, scope, s')
  {
    forall j | 0 <= j < |nodes| + 1 && FirstBinding(ms, (idx + [k])[j], owner, scope)
      ensures MethodKey(owner, ms[(idx + [k])[j]]) in s'.methods
      ensures s'.methods[MethodKey(owner, ms[(idx + [k])[j]])].name == (nodes + [n])[j].name
    {
      if j < |nodes| {
        assert (nodes + [n])[j] == nodes[j] && (idx + [k])[j] == idx[j];
      } else {
        assert (nodes + [n])[j] == n && (idx + [k])[j] == k;
      }
    }
  }

  /**
   * What the first `i` method lines leave: the scope only gained the
   * bindings of the added lines, and `added` holds their nodes in order.
   */
  ghost predicate MethodsApplied(ms: seq<PatchMethod>, i: nat, owner: string, scope: Scope, s: Scope, added: seq<MethodNode>)
    requires i <= |ms|
  {
    && Extends(scope, s)
    && s.classes == scope.classes && s.fields == scope.fields && s.labels == scope.labels
    && s.methods.Keys == scope.methods.Keys + AddedKeys(ms, i, owner)
    && AddedInOrder(added, ms, i, owner, scope, s)
  }

  /** The keys of one more line. */
  lemma AddedKeysStep(ms: seq<PatchMethod>, i: nat, owner: string)
    requires i < |ms|
    ensures AddedKeys(ms, i + 1, owner) == AddedKeys(ms, i, owner) + (if ms[i].mode == Add then {MethodKey(owner, ms[i])} else {})
  {
    var more := if ms[i].mode == Add then {MethodKey(owner, ms[i])} else {};
    forall key | key in AddedKeys(ms, i + 1, owner)
      ensures key in AddedKeys(ms, i, owner) + more
    {
      var k :| 0 <= k < i + 1 && ms[k].mode == Add && MethodKey(owner, ms[k]) == key;
      if k < i {
        assert key in AddedKeys(ms, i, owner);
      }
    }
  }

  /** One more added line keeps `AddedInOrder`, given its node and what its step binds. */
  lemma AddedInOrderStep(ms: seq<PatchMethod>, i: nat, owner: string, scope: Scope, s: Scope, s': Scope,
                         added: seq<MethodNode>, n: MethodNode)
    requires i < |ms| && ms[i].mode == Add && AddedInOrder(added, ms, i, owner, scope, s)
    requires s.methods.Keys == scope.methods.Keys + AddedKeys(ms, i, owner)
    requires Extends(s, s') && AddedAs(n, ms[i], scope)
    requires MethodKey(owner, ms[i]) !in s.methods ==>
      MethodKey(owner, ms[i]) in s'.methods && s'.methods[MethodKey(owner, ms[i])].name == n.name
    ensures AddedInOrder(added + [n], ms, i + 1, owner, scope, s')
  {
    var idx := AddIndices(ms, i);
    assert AddIndices(ms, i + 1) == idx + [i];
    AgreeStep(added, ms, idx, scope, i, n);
    BoundStep(added, ms, idx, owner, scope, s, s', i, n);
  }

  /** One more method line keeps `MethodsApplied`, given what `ApplyMethod` promises about it. */
  lemma MethodsAppliedStep(ms: seq<PatchMethod>, i: nat, owner: string, scope: Scope, s: Scope, s': Scope,
                           added: seq<MethodNode>, added': seq<MethodNode>)
    requires i < |ms| && MethodsApplied(ms, i, owner, scope, s, added)
    requires Extends(s, s') && s'.classes == s.classes && s'.fields == s.fields && s'.labels == s.labels
    requires ms[i].mode != Add ==> s' == s && added' == added
    requires ms[i].mode == Add ==>
      && s'.methods.Keys == s.methods.Keys + {MethodKey(owner, ms[i])}
      && |added'| == |added| + 1 && added' == added + [added'[|added|]]
      && AddedAs(added'[|added|], ms[i], scope)
      && (MethodKey(owner, ms[i]) !in s.methods ==>
            MethodKey(owner, ms[i]) in s'.methods && s'.methods[MethodKey(owner, ms[i])].name == added'[|added|].name)
    ensures MethodsApplied(ms, i + 1, owner, scope, s', added')
  {
    AddedKeysStep(ms, i, owner);
    ExtendsTransitive(scope, s, s');
    if ms[i].mode == Add {
      AddedInOrderStep(ms, i, owner, scope, s, s', added, added'[|added|]);
    } else {
      assert AddIndices(ms, i + 1) == AddIndices(ms, i);
    }
  }

  /** `ApplyMethod`, seen from the loop: the node it appends and what it binds. */
  method ApplyMethodLine(m: PatchMethod, node: ClassNode, cs: ClassSet, s: Scope, fuel: nat) returns (r: Result<Scope>, ghost n: Option<MethodNode>)
    modifies node
    ensures r.Ok? ==> Extends(s, r.value) && r.value.classes == s.classes && r.value.fields == s.fields && r.value.labels == s.labels
    ensures r.Ok? && m.mode != Add ==> r.value == s && node.methods == old(node.methods)
    ensures r.Ok? && m.mode == Add ==>
      && n.Some? && node.methods == old(node.methods) + [n.value] && fresh(n.value) && AddedAs(n.value, m, s)
      && r.value.methods.Keys == s.methods.Keys + {MethodKey(node.name, m)}
      && (MethodKey(node.name, m) !in s.methods ==>
            MethodKey(node.name, m) in r.value.methods && r.value.methods[MethodKey(node.name, m)].name == n.value.name)
    ensures node.access == old(node.access) && node.superName == old(node.superName)
    ensures node.interfaces == old(node.interfaces) && node.fields == old(node.fields)
  {
    r := ApplyMethod(m, node, cs, s, fuel);
    n := if |node.methods| > |old(node.methods)| then Some(node.methods[|old(node.methods)|]) else None;
  }

  /** Applies the method line `i`, one step of `ApplyMethods`; `base` is the class's methods before the first line. */
  method ApplyMethodAt(ms: seq<PatchMethod>, i: nat, node: ClassNode, cs: ClassSet, scope: Scope, s: Scope, fuel: nat,
                       ghost base: seq<MethodNode>, ghost added: seq<MethodNode>) returns (r: Result<Scope>, ghost added': seq<MethodNode>)
    requires i < |ms| && MethodsApplied(ms, i, node.name, scope, s, added)
    requires node.methods == base + added
    modifies node
    ensures r.Ok? ==> MethodsApplied(ms, i + 1, node.name, scope, r.value, added')
    ensures r.Ok? ==> node.methods == base + added'
    ensures r.Ok? ==> |added| <= |added'| && added'[..|added|] == added
    ensures r.Ok? ==> forall j :: |added| <= j < |added'| ==> fresh(added'[j])
    ensures node.access == old(node.access) && node.superName == old(node.superName)
    ensures node.interfaces == old(node.interfaces) && node.fields == old(node.fields)
  {
    added' := added;
    ghost var n;
    r, n := ApplyMethodLine(ms[i], node, cs, s, fuel);
    if r.Err? {
      return;
    }
    if ms[i].mode == Add {
      MappedMethodDescSameClasses(s, scope, ms[i].desc);
      added' := added + [n.value];
      assert node.methods == base + added';
      forall j | |added| <= j < |added'|
        ensures fresh(added'[j])
      {
        assert added'[j] == n.value;
      }
    }
    MethodsAppliedStep(ms, i, node.name, scope, s, r.value, added, added');
  }

  /** Once all lines are applied, every added line is bound and there is one node per added line. */
  lemma AllAddedBound(ms: seq<PatchMethod>, owner: string, scope: Scope, s: Scope, added: seq<MethodNode>)
    requires MethodsApplied(ms, |ms|, owner, scope, s, added)
    ensures forall k :: 0 <= k < |ms| && ms[k].mode == Add ==> MethodKey(owner, ms[k]) in s.methods
    ensures |added| == AddCount(ms)
  {
    forall k | 0 <= k < |ms| && ms[k].mode == Add
      ensures MethodKey(owner, ms[k]) in s.methods
    {
      assert MethodKey(owner, ms[k]) in AddedKeys(ms, |ms|, owner);
    }
  }

  /**
   * Applies the method lines in order. The class gets one new node per
   * added line, after its old methods and in the lines' order, each
   * agreeing with its line; the scope gains exactly the added lines'
   * bindings.
   */
  method ApplyMethods(ms: seq<PatchMethod>, node: ClassNode, cs: ClassSet, scope: Scope, fuel: nat) returns (r: Result<Scope>)
    modifies node
    ensures r.Ok? ==> Extends(scope, r.value)
    ensures r.Ok? ==> r.value.classes == scope.classes && r.value.fields == scope.fields && r.value.labels == scope.labels
    ensures r.Ok? ==> r.value.methods.Keys == scope.methods.Keys + AddedKeys(ms, |ms|, node.name)
    ensures r.Ok? ==> forall i :: 0 <= i < |ms| && ms[i].mode == Add ==> MethodKey(node.name, ms[i]) in r.value.methods
    ensures r.Ok? ==> |node.methods| == |old(node.methods)| + AddCount(ms)
    ensures r.Ok? ==> node.methods[..|old(node.methods)|] == old(node.methods)
    ensures r.Ok? ==> AddedInOrder(node.methods[|old(node.methods)|..], ms, |ms|, node.name, scope, r.value)
    ensures r.Ok? ==> forall j :: |old(node.methods)| <= j < |node.methods| ==> fresh(node.methods[j])
    ensures node.access == old(node.access) && node.superName == old(node.superName)
    ensures node.interfaces == old(node.interfaces) && node.fields == old(node.fields)
  {
    var s := scope;
    var i := 0;
    ghost var added: seq<MethodNode> := [];
    assert AddedKeys(ms, 0, node.name) == {};
    while i < |ms|
      invariant i <= |ms|
      invariant MethodsApplied(ms, i, node.name, scope, s, added)
      invariant node.methods == old(node.methods) + added
      invariant forall j :: 0 <= j < |added| ==> fresh(added[j])
      invariant node.access == old(node.access) && node.superName == old(node.superName)
      invariant node.interfaces == old(node.interfaces) && node.fields == old(node.fields)
    {
      var step;
      step, added := ApplyMethodAt(ms, i, node, cs, scope, s, fuel, old(node.methods), added);
      if step.Err? {
        return Err(step.message);
      }
      s := step.value;
      i := i + 1;
    }
    assert node.methods[|old(node.methods)|..] == added;
    AllAddedBound(ms, node.name, scope, s, added);
    return Ok(s);
  }

  // ------------------------------------------------------------ the whole

  /**
   * The edits of `apply` to one class: the `extends`, `interface`, field and
   * method lines, in that order.
   */
  method EditClass(pc: PatchClass, node: ClassNode, cs: ClassSet, scope: Scope, fuel: nat) returns (r: Result<Scope>)
    modifies node
    ensures node.access == old(node.access)
    ensures r.Ok? ==> Extends(scope, r.value) && r.value.classes == scope.classes
    ensures r.Ok? ==>
      && SupersAfter(scope, old(node.superName), pc.supers) == Ok(node.superName)
      && InterfacesAfter(scope, old(node.interfaces), pc.interfaces) == Ok(node.interfaces)
      && FieldsAfter(scope, node.name, Views(old(node.fields)), pc.fields).Ok?
      && Views(node.fields) == FieldsAfter(scope, node.name, Views(old(node.fields)), pc.fields).value.0
      && |node.methods| == |old(node.methods)| + AddCount(pc.methods)
      && node.methods[..|old(node.methods)|] == old(node.methods)
      && AddedInOrder(node.methods[|old(node.methods)|..], pc.methods, |pc.methods|, node.name, scope, r.value)
      && r.value.methods.Keys == scope.methods.Keys + AddedKeys(pc.methods, |pc.methods|, node.name)
  {
    var supers := ApplySupers(pc.supers, node, scope);
    if supers.Err? {
      return Err(supers.message);
    }
    var interfaces := ApplyInterfaces(pc.interfaces, node, scope);
    if interfaces.Err? {
      return Err(interfaces.message);
    }
    ghost var fields0 := node.fields;
    var afterFields := ApplyFields(pc.fields, node, scope);
    if afterFields.Err? {
      return Err(afterFields.message);
    }
    FieldsAfterExtends(scope, node.name, Views(fields0), pc.fields);
    var s := afterFields.value;
    var afterMethods := ApplyMethods(pc.methods, node, cs, s, fuel);
    if afterMethods.Err? {
      return Err(afterMethods.message);
    }
    ExtendsTransitive(scope, s, afterMethods.value);
    AddedInOrderSameScope(node.methods[|old(node.methods)|..], pc.methods, |pc.methods|, node.name, s, scope, afterMethods.value);
    r := afterMethods;
  }

  /**
   * `apply`: creates and registers the class of an added template and binds
   * its name to it, then edits the class bound to the template.
   */
  method Apply(pc: PatchClass, scope: Scope, cs: ClassSet, fuel: nat) returns (r: Result<Scope>)
    requires pc.mode == Add ==> pc.ident.name !in scope.classes
    requires pc.mode != Add ==> pc.ident.name in scope.classes && scope.classes[pc.ident.name] in cs.classes
    modifies cs, if pc.mode == Add then {} else {cs.classes[scope.classes[pc.ident.name]]}
    ensures pc.mode == Add ==> cs.classes.Keys == old(cs.classes.Keys) + {pc.ident.name}
    ensures pc.mode == Add ==>
      forall n :: n in old(cs.classes) && n != pc.ident.name ==> n in cs.classes && cs.classes[n] == old(cs.classes)[n]
    ensures pc.mode == Add ==> fresh(cs.classes[pc.ident.name]) && cs.classes[pc.ident.name].access == ClassAccess(pc.kind)
    ensures pc.mode != Add ==> cs.classes == old(cs.classes)
    ensures r.Ok? ==> Extends(scope, r.value) && pc.ident.name in r.value.classes && r.value.classes[pc.ident.name] in cs.classes
    ensures r.Ok? && pc.mode == Add ==>
      var node := cs.classes[pc.ident.name];
      var s0 := PutClass(scope, pc.ident.name, pc.ident.name);
      && SupersAfter(s0, ObjectClass, pc.supers) == Ok(node.superName)
      && InterfacesAfter(s0, [], pc.interfaces) == Ok(node.interfaces)
      && FieldsAfter(s0, node.name, [], pc.fields).Ok? && Views(node.fields) == FieldsAfter(s0, node.name, [], pc.fields).value.0
      && |node.methods| == AddCount(pc.methods)
      && AddedInOrder(node.methods, pc.methods, |pc.methods|, node.name, s0, r.value)
    ensures pc.mode != Add ==> cs.classes[scope.classes[pc.ident.name]].access == old(cs.classes[scope.classes[pc.ident.name]].access)
    ensures r.Ok? && pc.mode != Add ==>
      var node := cs.classes[scope.classes[pc.ident.name]];
      && SupersAfter(scope, old(node.superName), pc.supers) == Ok(node.superName)
      && InterfacesAfter(scope, old(node.interfaces), pc.interfaces) == Ok(node.interfaces)
      && FieldsAfter(scope, node.name, Views(old(node.fields)), pc.fields).Ok?
      && Views(node.fields) == FieldsAfter(scope, node.name, Views(old(node.fields)), pc.fields).value.0
      && |node.methods| == |old(node.methods)| + AddCount(pc.methods)
      && node.methods[..|old(node.methods)|] == old(node.methods)
      && AddedInOrder(node.methods[|old(node.methods)|..], pc.methods, |pc.methods|, node.name, scope, r.value)
  {
    if pc.mode == Add {
      var node := CreateClass(pc, cs);
      var s := PutClass(scope, pc.ident.name, pc.ident.name);
      r := EditClass(pc, node, cs, s, fuel);
    } else {
      var node := cs.classes[scope.classes[pc.ident.name]];
      r := EditClass(pc, node, cs, scope, fuel);
    }
  }
}
