/**
 * A class template: how it is read from template lines, and how it is
 * checked against a concrete class under a scope (its kind flag, its
 * `extends` and `interface` lines, its fields and its method signatures).
 */
module PatchClasses {
  import opened Outcomes
  import opened AsmTypes
  import opened AsmTree
  import opened Idents
  import opened Scopes
  import opened Templates
  import opened PatchFields
  import opened DescriptorMatching

  /** A class template; `kind` is the command that opened it (`class`, `interface` or `enum`). */
  datatype PatchClass = PatchClass(
    kind: string,
    ident: Ident,
    mode: Mode,
    supers: seq<ModifierClass>,
    interfaces: seq<ModifierClass>,
    methods: seq<PatchMethod>,
    fields: seq<PatchField>)

  // ----------------------------------------------------------------- reading

  /**
   * Reads the declaration of one method and its body from the lines that
   * follow it: the method and the number of lines it consumed.
   */
  type MethodReader = (Command, seq<string>) -> Result<(PatchMethod, nat)>

  /** The class a header command opens, before any of its lines are read. */
  function ClassHeader(header: Command): PatchClass
    requires |header.args| == 1
  {
    PatchClass(header.name, ParseIdent(header.args[0]), header.mode, [], [], [], [])
  }

  /** A nested line's mode is allowed: everything in an added class is added, everything in a removed class removed. */
  predicate ModeAllowed(classMode: Mode, mode: Mode) {
    (classMode == Add ==> mode == Add) && (classMode == Remove ==> mode == Remove)
  }

  /** What one template line does to the class being read: go on from line `next`, or stop with a result. */
  datatype Step = Next(pc: PatchClass, next: nat) | Stop(result: Result<(PatchClass, nat)>)

  /**
   * The effect of line `i`: a blank line or a comment is skipped, a nested
   * line must have a mode the class allows, `extends` and `interface` take
   * one argument, `method` hands the following lines to the method reader,
   * `field` reads a field declaration, `end-class` ends the class, and any
   * other command is refused.
   */
  function ReadStep(pc: PatchClass, lines: seq<string>, i: nat,
                    commandOf: string -> Command, readMethod: MethodReader, validType: string -> bool)
    : (r: Step)
    requires i < |lines|
    ensures r.Next? ==> i < r.next <= |lines|
    ensures r.Stop? && r.result.Ok? ==> r.result.value == (pc, i + 1)
  {
    if IsSkipped(lines[i]) then Next(pc, i + 1)
    else
      var cmd := commandOf(Trim(lines[i]));
      if !ModeAllowed(pc.mode, cmd.mode) then Stop(Err("IllegalArgumentException"))
      else if cmd.name == "extends" then
        if |cmd.args| != 1 then Stop(Err("IllegalArgumentException"))
        else Next(pc.(supers := pc.supers + [ModifierClass(ParseIdent(cmd.args[0]), cmd.mode)]), i + 1)
      else if cmd.name == "interface" then
        if |cmd.args| != 1 then Stop(Err("IllegalArgumentException"))
        else Next(pc.(interfaces := pc.interfaces + [ModifierClass(ParseIdent(cmd.args[0]), cmd.mode)]), i + 1)
      else if cmd.name == "method" then
        match readMethod(cmd, lines[i + 1..])
        case Err(e) => Stop(Err(e))
        case Ok((m, n)) => Next(pc.(methods := pc.methods + [m]), if i + 1 + n <= |lines| then i + 1 + n else |lines|)
      else if cmd.name == "field" then
        match FieldDeclaration(cmd, validType)
        case Err(e) => Stop(Err(e))
        case Ok(f) => Next(pc.(fields := pc.fields + [f]), i + 1)
      else if cmd.name == "end-class" then Stop(Ok((pc, i + 1)))
      else Stop(Err("IllegalArgumentException"))
  }

  /**
   * What reading the lines of a class from line `i` on yields: the class
   * and the index of the first line not read; the end of the input ends
   * the class too.
   */
  function ReadBody(pc: PatchClass, lines: seq<string>, i: nat,
                    commandOf: string -> Command, readMethod: MethodReader, validType: string -> bool)
    : (r: Result<(PatchClass, nat)>)
    requires i <= |lines|
    ensures r.Ok? ==> i <= r.value.1 <= |lines|
    decreases |lines| - i
  {
    if i == |lines| then Ok((pc, i))
    else match ReadStep(pc, lines, i, commandOf, readMethod, validType)
      case Next(pc', next) => ReadBody(pc', lines, next, commandOf, readMethod, validType)
      case Stop(r) => r
  }

  /** Reads line `i` of a class template. */
  method ReadLine(pc: PatchClass, lines: seq<string>, i: nat,
                  commandOf: string -> Command, readMethod: MethodReader, validType: string -> bool)
    returns (step: Step)
    requires i < |lines|
    ensures step == ReadStep(pc, lines, i, commandOf, readMethod, validType)
  {
    var line := Trim(lines[i]);
    if |line| == 0 || (|line| >= 2 && line[..2] == "//") {
      return Next(pc, i + 1);
    }
    var cmd := commandOf(line);
    if pc.mode == Add && cmd.mode != Add {
      return Stop(Err("IllegalArgumentException"));
    } else if pc.mode == Remove && cmd.mode != Remove {
      return Stop(Err("IllegalArgumentException"));
    }
    if cmd.name == "extends" {
      if |cmd.args| != 1 {
        return Stop(Err("IllegalArgumentException"));
      }
      return Next(pc.(supers := pc.supers + [ModifierClass(ParseIdent(cmd.args[0]), cmd.mode)]), i + 1);
    } else if cmd.name == "interface" {
      if |cmd.args| != 1 {
        return Stop(Err("IllegalArgumentException"));
      }
      return Next(pc.(interfaces := pc.interfaces + [ModifierClass(ParseIdent(cmd.args[0]), cmd.mode)]), i + 1);
    } else if cmd.name == "method" {
      var read := readMethod(cmd, lines[i + 1..]);
      if read.Err? {
        return Stop(Err(read.message));
      }
      var (m, n) := read.value;
      return Next(pc.(methods := pc.methods + [m]), if i + 1 + n <= |lines| then i + 1 + n else |lines|);
    } else if cmd.name == "field" {
      var f := ParseField(cmd, validType);
      if f.Err? {
        return Stop(Err(f.message));
      }
      return Next(pc.(fields := pc.fields + [f.value]), i + 1);
    } else if cmd.name == "end-class" {
      return Stop(Ok((pc, i + 1)));
    } else {
      return Stop(Err("IllegalArgumentException"));
    }
  }

  /**
   * Reads a class template from the lines after its header: the class and
   * the number of lines read. The header must have exactly one argument.
   */
  method ParseClass(header: Command, lines: seq<string>,
                    commandOf: string -> Command, readMethod: MethodReader, validType: string -> bool)
    returns (r: Result<(PatchClass, nat)>)
    ensures |header.args| != 1 ==> r.Err?
    ensures |header.args| == 1 ==> r == ReadBody(ClassHeader(header), lines, 0, commandOf, readMethod, validType)
  {
    if |header.args| != 1 {
      return Err("IllegalArgumentException");
    }
    var pc := ClassHeader(header);
    var i := 0;
    while i < |lines|
      invariant i <= |lines|
      invariant ReadBody(ClassHeader(header), lines, 0, commandOf, readMethod, validType)
             == ReadBody(pc, lines, i, commandOf, readMethod, validType)
      decreases |lines| - i
    {
      var step := ReadLine(pc, lines, i, commandOf, readMethod, validType);
      if step.Stop? {
        return step.result;
      }
      pc, i := step.pc, step.next;
    }
    return Ok((pc, i));
  }

  /** Every line of the class has the mode its class allows. */
  predicate Nested(pc: PatchClass) {
    && (forall i :: 0 <= i < |pc.supers| ==> ModeAllowed(pc.mode, pc.supers[i].mode))
    && (forall i :: 0 <= i < |pc.interfaces| ==> ModeAllowed(pc.mode, pc.interfaces[i].mode))
    && (forall i :: 0 <= i < |pc.methods| ==> ModeAllowed(pc.mode, pc.methods[i].mode))
    && (forall i :: 0 <= i < |pc.fields| ==> ModeAllowed(pc.mode, pc.fields[i].mode))
  }

  /** One line keeps the class nested, its kind, its name and its mode. */
  lemma ReadStepNested(pc: PatchClass, lines: seq<string>, i: nat,
                       commandOf: string -> Command, readMethod: MethodReader, validType: string -> bool)
    requires i < |lines| && Nested(pc)
    requires forall c, ls :: readMethod(c, ls).Ok? ==> readMethod(c, ls).value.0.mode == c.mode
    ensures var r := ReadStep(pc, lines, i, commandOf, readMethod, validType);
      r.Next? ==> Nested(r.pc) && r.pc.mode == pc.mode && r.pc.kind == pc.kind && r.pc.ident == pc.ident
  {
    if !IsSkipped(lines[i]) {
      var cmd := commandOf(Trim(lines[i]));
      if ModeAllowed(pc.mode, cmd.mode) && cmd.name == "method" {
        var read := readMethod(cmd, lines[i + 1..]);
        if read.Ok? {
          assert read.value.0.mode == cmd.mode;
        }
      }
    }
  }

  /**
   * In a class that was read successfully, everything nested in an added
   * class is added and everything nested in a removed class is removed
   * (given a method reader that gives a method its command's mode).
   */
  lemma {:induction false} ReadBodyNested(pc: PatchClass, lines: seq<string>, i: nat,
                                          commandOf: string -> Command, readMethod: MethodReader, validType: string -> bool)
    requires i <= |lines| && Nested(pc)
    requires forall c, ls :: readMethod(c, ls).Ok? ==> readMethod(c, ls).value.0.mode == c.mode
    ensures var r := ReadBody(pc, lines, i, commandOf, readMethod, validType);
      r.Ok? ==> Nested(r.value.0) && r.value.0.mode == pc.mode && r.value.0.kind == pc.kind && r.value.0.ident == pc.ident
    decreases |lines| - i
  {
    if i < |lines| {
      ReadStepNested(pc, lines, i, commandOf, readMethod, validType);
      var step := ReadStep(pc, lines, i, commandOf, readMethod, validType);
      if step.Next? {
        ReadBodyNested(step.pc, lines, step.next, commandOf, readMethod, validType);
      }
    }
  }

  /** Blank lines and comments change nothing: reading resumes at the next command. */
  lemma {:induction false} SkippedLines(pc: PatchClass, lines: seq<string>, i: nat, k: nat,
                                        commandOf: string -> Command, readMethod: MethodReader, validType: string -> bool)
    requires i <= k <= |lines|
    requires forall j :: i <= j < k ==> IsSkipped(lines[j])
    ensures ReadBody(pc, lines, i, commandOf, readMethod, validType) == ReadBody(pc, lines, k, commandOf, readMethod, validType)
    decreases k - i
  {
    if i < k {
      SkippedLines(pc, lines, i + 1, k, commandOf, readMethod, validType);
    }
  }

  /** The next command after blank lines and comments is `end-class`: the class ends there, as read so far. */
  lemma EndClassStops(pc: PatchClass, lines: seq<string>, i: nat, k: nat,
                      commandOf: string -> Command, readMethod: MethodReader, validType: string -> bool)
    requires i <= k < |lines|
    requires forall j :: i <= j < k ==> IsSkipped(lines[j])
    requires !IsSkipped(lines[k])
    requires commandOf(Trim(lines[k])).name == "end-class" && ModeAllowed(pc.mode, commandOf(Trim(lines[k])).mode)
    ensures ReadBody(pc, lines, i, commandOf, readMethod, validType) == Ok((pc, k + 1))
  {
    SkippedLines(pc, lines, i, k, commandOf, readMethod, validType);
  }

  /**
   * The next command is refused when its mode does not fit the class, when
   * it is unknown, or when it is an `extends` or `interface` line without
   * exactly one argument.
   */
  lemma BadCommandRejected(pc: PatchClass, lines: seq<string>, i: nat, k: nat,
                           commandOf: string -> Command, readMethod: MethodReader, validType: string -> bool)
    requires i <= k < |lines|
    requires forall j :: i <= j < k ==> IsSkipped(lines[j])
    requires !IsSkipped(lines[k])
    requires var cmd := commandOf(Trim(lines[k]));
      || !ModeAllowed(pc.mode, cmd.mode)
      || cmd.name !in ["extends", "interface", "method", "field", "end-class"]
      || (cmd.name in ["extends", "interface"] && |cmd.args| != 1)
    ensures ReadBody(pc, lines, i, commandOf, readMethod, validType).Err?
  {
    SkippedLines(pc, lines, i, k, commandOf, readMethod, validType);
  }

  // --------------------------------------------------------- class attributes

  /** The access flag a class kind requires; `None` for a kind the patcher does not know. */
  function KindMask(kind: string): (r: Option<bv32>)
    ensures r.Some? <==> kind in ["class", "interface", "enum"]
  {
    if kind == "class" then Some(0)
    else if kind == "interface" then Some(ACC_INTERFACE)
    else if kind == "enum" then Some(ACC_ENUM)
    else None
  }

  /** The class name an identifier stands for: a literal name itself, a weak one its binding. */
  function Resolve(s: Scope, id: Ident): (r: Option<string>)
    ensures !id.isWeak ==> r == Some(id.name)
    ensures id.isWeak ==> (r.Some? <==> id.name in s.classes)
    ensures id.isWeak && r.Some? ==> r.value == s.classes[id.name]
  {
    if !id.isWeak then Some(id.name)
    else if id.name in s.classes then Some(s.classes[id.name])
    else None
  }

  /** An `extends` line holds: added ones always, others when they name `*` or the superclass. */
  predicate SuperHolds(s: Scope, m: ModifierClass, superName: string) {
    m.mode == Add || (Resolve(s, m.ident).Some? && (Resolve(s, m.ident).value == "*" || Resolve(s, m.ident).value == superName))
  }

  /** An `interface` line holds: added ones always, `*` when there is an interface, others when they name one. */
  predicate InterfaceHolds(s: Scope, m: ModifierClass, interfaces: seq<string>) {
    || m.mode == Add
    || (m.ident.name == "*" && |interfaces| > 0)
    || (Resolve(s, m.ident).Some? && Resolve(s, m.ident).value in interfaces)
  }

  lemma SuperHoldsExtends(s: Scope, s': Scope, m: ModifierClass, superName: string)
    requires SuperHolds(s, m, superName) && Extends(s, s')
    ensures SuperHolds(s', m, superName)
  {
  }

  lemma InterfaceHoldsExtends(s: Scope, s': Scope, m: ModifierClass, interfaces: seq<string>)
    requires InterfaceHolds(s, m, interfaces) && Extends(s, s')
    ensures InterfaceHolds(s', m, interfaces)
  {
  }

  /** A matched or removed line whose weak name is bound when unbound; with `skipStar`, not a `*` line. */
  predicate BindsWeakName(m: ModifierClass, skipStar: bool) {
    m.mode != Add && m.ident.isWeak && !(skipStar && m.ident.name == "*")
  }

  /** The scope once the line has bound its weak name, if it was unbound, to `target`. */
  function BindLine(s: Scope, m: ModifierClass, target: string, skipStar: bool): Scope {
    if BindsWeakName(m, skipStar) then PutClass(s, m.ident.name, target) else s
  }

  /**
   * The scope once every line of `ms` that binds its weak name has bound it,
   * if it was unbound, to `target`.
   */
  function BindWeakNames(s: Scope, ms: seq<ModifierClass>, target: string, skipStar: bool): (r: Scope)
    ensures Extends(s, r)
    ensures r.fields == s.fields && r.methods == s.methods && r.labels == s.labels
    ensures forall n :: n in r.classes && n !in s.classes ==> r.classes[n] == target
    ensures forall i :: 0 <= i < |ms| && BindsWeakName(ms[i], skipStar) ==> ms[i].ident.name in r.classes
    decreases |ms|
  {
    if ms == [] then s
    else
      var r := BindWeakNames(BindLine(s, ms[0], target, skipStar), ms[1..], target, skipStar);
      assert forall i :: 1 <= i < |ms| ==> ms[i] == ms[1..][i - 1];
      r
  }

  /** The verdict on an `extends` line over the scope before the check: it holds, or its weak name is still unbound. */
  predicate SuperAccepts(s: Scope, m: ModifierClass, superName: string) {
    SuperHolds(s, m, superName) || (BindsWeakName(m, false) && m.ident.name !in s.classes)
  }

  /** The verdict on an `interface` line over the scope before the check: it holds, or there is an interface and its weak name is still unbound. */
  predicate InterfaceAccepts(s: Scope, m: ModifierClass, interfaces: seq<string>) {
    InterfaceHolds(s, m, interfaces) || (|interfaces| > 0 && BindsWeakName(m, true) && m.ident.name !in s.classes)
  }

  /** The scope once the `interface` lines have bound their unbound weak names to the first interface. */
  function InterfaceBindings(s: Scope, ms: seq<ModifierClass>, interfaces: seq<string>): Scope {
    if |interfaces| == 0 then s else BindWeakNames(s, ms, interfaces[0], true)
  }

  /** One `extends` line: bind its weak name, then it must hold. */
  function SuperLine(s: Scope, m: ModifierClass, superName: string): (bool, Scope) {
    var s1 := BindLine(s, m, superName, false);
    (SuperHolds(s1, m, superName), s1)
  }

  /**
   * The `extends` lines in order, threading the scope and stopping at the
   * first that fails. Only class bindings are added, each to the superclass.
   */
  function SupersCheck(s: Scope, ms: seq<ModifierClass>, superName: string): (r: (bool, Scope))
    ensures Extends(s, r.1)
    ensures r.1.fields == s.fields && r.1.methods == s.methods && r.1.labels == s.labels
    ensures forall n :: n in r.1.classes && n !in s.classes ==> r.1.classes[n] == superName
    decreases |ms|
  {
    if ms == [] then (true, s)
    else
      var (ok, s1) := SuperLine(s, ms[0], superName);
      if !ok then (false, s1) else SupersCheck(s1, ms[1..], superName)
  }

  /** One `interface` line: bind its weak name to the first interface, then it must hold. */
  function InterfaceLine(s: Scope, m: ModifierClass, interfaces: seq<string>): (bool, Scope) {
    var s1 := if |interfaces| > 0 then BindLine(s, m, interfaces[0], true) else s;
    (InterfaceHolds(s1, m, interfaces), s1)
  }

  /**
   * The `interface` lines in order, threading the scope and stopping at the
   * first that fails. Only class bindings are added, each to the first interface.
   */
  function InterfacesCheck(s: Scope, ms: seq<ModifierClass>, interfaces: seq<string>): (r: (bool, Scope))
    ensures Extends(s, r.1)
    ensures r.1.fields == s.fields && r.1.methods == s.methods && r.1.labels == s.labels
    ensures forall n :: n in r.1.classes && n !in s.classes ==> |interfaces| > 0 && r.1.classes[n] == interfaces[0]
    decreases |ms|
  {
    if ms == [] then (true, s)
    else
      var (ok, s1) := InterfaceLine(s, ms[0], interfaces);
      if !ok then (false, s1) else InterfacesCheck(s1, ms[1..], interfaces)
  }

  /** Binding a weak name to the superclass does not change any `extends` line's verdict. */
  lemma SuperAcceptsBind(s: Scope, name: string, superName: string, m: ModifierClass)
    ensures SuperAccepts(PutClass(s, name, superName), m, superName) <==> SuperAccepts(s, m, superName)
  {
  }

  /** Binding a weak name to the first interface does not change any `interface` line's verdict. */
  lemma InterfaceAcceptsBind(s: Scope, name: string, interfaces: seq<string>, m: ModifierClass)
    requires |interfaces| > 0
    ensures InterfaceAccepts(PutClass(s, name, interfaces[0]), m, interfaces) <==> InterfaceAccepts(s, m, interfaces)
  {
  }

  /** The `extends` lines pass iff each is accepted over the scope before the check. */
  lemma {:induction false} SupersCheckAccepts(s: Scope, ms: seq<ModifierClass>, superName: string)
    ensures SupersCheck(s, ms, superName).0 <==> forall i :: 0 <= i < |ms| ==> SuperAccepts(s, ms[i], superName)
    decreases |ms|
  {
    if ms != [] {
      var s1 := BindLine(s, ms[0], superName, false);
      forall m | m in ms[1..] ensures SuperAccepts(s1, m, superName) <==> SuperAccepts(s, m, superName) {
        if BindsWeakName(ms[0], false) { SuperAcceptsBind(s, ms[0].ident.name, superName, m); }
      }
      assert SuperHolds(s1, ms[0], superName) <==> SuperAccepts(s, ms[0], superName);
      SupersCheckAccepts(s1, ms[1..], superName);
      assert forall i :: 1 <= i < |ms| ==> ms[i] == ms[1..][i - 1];
    }
  }

  /** After the `extends` lines pass, every one holds in the final scope, which binds exactly their weak names. */
  lemma {:induction false} SupersCheckBinds(s: Scope, ms: seq<ModifierClass>, superName: string)
    ensures var r := SupersCheck(s, ms, superName);
      && (r.0 <==> forall i :: 0 <= i < |ms| ==> SuperHolds(r.1, ms[i], superName))
      && (r.0 ==> r.1 == BindWeakNames(s, ms, superName, false))
    decreases |ms|
  {
    if ms != [] {
      var s1 := BindLine(s, ms[0], superName, false);
      if SuperHolds(s1, ms[0], superName) {
        SupersCheckBinds(s1, ms[1..], superName);
        SuperHoldsExtends(s1, SupersCheck(s1, ms[1..], superName).1, ms[0], superName);
        assert forall i :: 1 <= i < |ms| ==> ms[i] == ms[1..][i - 1];
      }
    }
  }

  /** The `interface` lines pass iff each is accepted over the scope before the check. */
  lemma {:induction false} InterfacesCheckAccepts(s: Scope, ms: seq<ModifierClass>, interfaces: seq<string>)
    ensures InterfacesCheck(s, ms, interfaces).0 <==> forall i :: 0 <= i < |ms| ==> InterfaceAccepts(s, ms[i], interfaces)
    decreases |ms|
  {
    if ms != [] {
      var s1 := if |interfaces| > 0 then BindLine(s, ms[0], interfaces[0], true) else s;
      forall m | m in ms[1..] ensures InterfaceAccepts(s1, m, interfaces) <==> InterfaceAccepts(s, m, interfaces) {
        if |interfaces| > 0 && BindsWeakName(ms[0], true) { InterfaceAcceptsBind(s, ms[0].ident.name, interfaces, m); }
      }
      assert InterfaceHolds(s1, ms[0], interfaces) <==> InterfaceAccepts(s, ms[0], interfaces);
      InterfacesCheckAccepts(s1, ms[1..], interfaces);
      assert forall i :: 1 <= i < |ms| ==> ms[i] == ms[1..][i - 1];
    }
  }

  /** After the `interface` lines pass, every one holds in the final scope, which binds exactly their weak names. */
  lemma {:induction false} InterfacesCheckBinds(s: Scope, ms: seq<ModifierClass>, interfaces: seq<string>)
    ensures var r := InterfacesCheck(s, ms, interfaces);
      && (r.0 <==> forall i :: 0 <= i < |ms| ==> InterfaceHolds(r.1, ms[i], interfaces))
      && (r.0 ==> r.1 == InterfaceBindings(s, ms, interfaces))
    decreases |ms|
  {
    if ms != [] {
      var s1 := if |interfaces| > 0 then BindLine(s, ms[0], interfaces[0], true) else s;
      if InterfaceHolds(s1, ms[0], interfaces) {
        InterfacesCheckBinds(s1, ms[1..], interfaces);
        InterfaceHoldsExtends(s1, InterfacesCheck(s1, ms[1..], interfaces).1, ms[0], interfaces);
        assert forall i :: 1 <= i < |ms| ==> ms[i] == ms[1..][i - 1];
      }
    }
  }

  /** One `extends` line: binds an unbound weak name to the superclass, then checks the line. */
  method CheckSuperLine(m: ModifierClass, superName: string, scope: Scope) returns (ok: bool, scope': Scope)
    ensures (ok, scope') == SuperLine(scope, m, superName)
  {
    scope' := scope;
    if m.mode != Add {
      var clName := m.ident.name;
      if m.ident.isWeak {
        if clName !in scope'.classes {
          scope' := PutClass(scope', clName, superName);
        }
        clName := scope'.classes[clName];
      }
      if clName != "*" && clName != superName {
        return false, scope';
      }
    }
    return true, scope';
  }

  /**
   * Checks the `extends` lines against the superclass, binding an unbound
   * weak name to the superclass.
   */
  method CheckSupers(supers: seq<ModifierClass>, superName: string, scope: Scope) returns (ok: bool, scope': Scope)
    ensures (ok, scope') == SupersCheck(scope, supers, superName)
    ensures Extends(scope, scope')
    ensures scope'.fields == scope.fields && scope'.methods == scope.methods && scope'.labels == scope.labels
    ensures ok <==> forall i :: 0 <= i < |supers| ==> SuperHolds(scope', supers[i], superName)
    ensures ok <==> forall i :: 0 <= i < |supers| ==> SuperAccepts(scope, supers[i], superName)
    ensures forall n :: n in scope'.classes && n !in scope.classes ==> scope'.classes[n] == superName
    ensures ok ==> scope' == BindWeakNames(scope, supers, superName, false)
  {
    scope' := scope;
    var i := 0;
    while i < |supers|
      invariant i <= |supers|
      invariant SupersCheck(scope', supers[i..], superName) == SupersCheck(scope, supers, superName)
    {
      assert supers[i..][1..] == supers[i + 1..];
      var lineOk;
      lineOk, scope' := CheckSuperLine(supers[i], superName, scope');
      if !lineOk {
        SupersCheckAccepts(scope, supers, superName);
        SupersCheckBinds(scope, supers, superName);
        return false, scope';
      }
      i := i + 1;
    }
    assert supers[i..] == [];
    SupersCheckAccepts(scope, supers, superName);
    SupersCheckBinds(scope, supers, superName);
    return true, scope';
  }

  /**
   * One `interface` line. A weak name is resolved once; when it is unbound
   * it is bound to the first interface. `*` matches when there is an interface.
   */
  method CheckInterfaceLine(m: ModifierClass, interfaces: seq<string>, scope: Scope) returns (ok: bool, scope': Scope)
    ensures (ok, scope') == InterfaceLine(scope, m, interfaces)
  {
    scope' := scope;
    if m.mode != Add && !(m.ident.name == "*" && |interfaces| > 0) {
      var clName := m.ident.name;
      if m.ident.isWeak && |interfaces| > 0 {
        if clName !in scope'.classes {
          scope' := PutClass(scope', clName, interfaces[0]);
        }
        clName := scope'.classes[clName];
      }
      var j := 0;
      while j < |interfaces| && interfaces[j] != clName
        invariant j <= |interfaces|
        invariant forall k :: 0 <= k < j ==> interfaces[k] != clName
      {
        j := j + 1;
      }
      if j == |interfaces| {
        return false, scope';
      }
    }
    return true, scope';
  }

  /** Checks the `interface` lines against the class's interfaces. */
  method CheckInterfaces(modifiers: seq<ModifierClass>, interfaces: seq<string>, scope: Scope) returns (ok: bool, scope': Scope)
    ensures (ok, scope') == InterfacesCheck(scope, modifiers, interfaces)
    ensures Extends(scope, scope')
    ensures scope'.fields == scope.fields && scope'.methods == scope.methods && scope'.labels == scope.labels
    ensures ok <==> forall i :: 0 <= i < |modifiers| ==> InterfaceHolds(scope', modifiers[i], interfaces)
    ensures ok <==> forall i :: 0 <= i < |modifiers| ==> InterfaceAccepts(scope, modifiers[i], interfaces)
    ensures forall n :: n in scope'.classes && n !in scope.classes ==> |interfaces| > 0 && scope'.classes[n] == interfaces[0]
    ensures ok ==> scope' == InterfaceBindings(scope, modifiers, interfaces)
  {
    scope' := scope;
    var i := 0;
    while i < |modifiers|
      invariant i <= |modifiers|
      invariant InterfacesCheck(scope', modifiers[i..], interfaces) == InterfacesCheck(scope, modifiers, interfaces)
    {
      assert modifiers[i..][1..] == modifiers[i + 1..];
      var lineOk;
      lineOk, scope' := CheckInterfaceLine(modifiers[i], interfaces, scope');
      if !lineOk {
        InterfacesCheckAccepts(scope, modifiers, interfaces);
        InterfacesCheckBinds(scope, modifiers, interfaces);
        return false, scope';
      }
      i := i + 1;
    }
    assert modifiers[i..] == [];
    InterfacesCheckAccepts(scope, modifiers, interfaces);
    InterfacesCheckBinds(scope, modifiers, interfaces);
    return true, scope';
  }

  /** The class's access flags carry the flag its kind requires. */
  predicate KindHolds(mask: bv32, access: bv32) {
    mask == 0 || access & mask != 0
  }

  /** Every `extends` and `interface` line holds in `s`. */
  predicate ModifiersHold(s: Scope, supers: seq<ModifierClass>, inters: seq<ModifierClass>, superName: string, interfaces: seq<string>) {
    && (forall i :: 0 <= i < |supers| ==> SuperHolds(s, supers[i], superName))
    && (forall i :: 0 <= i < |inters| ==> InterfaceHolds(s, inters[i], interfaces))
  }

  /**
   * Every `extends` line is accepted over `s`, and every `interface` line
   * is accepted once the `extends` lines have bound their weak names to the
   * superclass.
   */
  predicate ModifiersAccept(s: Scope, supers: seq<ModifierClass>, inters: seq<ModifierClass>, superName: string, interfaces: seq<string>) {
    && (forall i :: 0 <= i < |supers| ==> SuperAccepts(s, supers[i], superName))
    && (forall i :: 0 <= i < |inters| ==>
          InterfaceAccepts(BindWeakNames(s, supers, superName, false), inters[i], interfaces))
  }

  /** Everything `checkAttributes` requires of a class that is matched, not added. */
  predicate AttributesHold(pc: PatchClass, s: Scope, access: bv32, superName: string, interfaces: seq<string>)
    requires KindMask(pc.kind).Some?
  {
    KindHolds(KindMask(pc.kind).value, access) && ModifiersHold(s, pc.supers, pc.interfaces, superName, interfaces)
  }

  /** The `extends` lines and then the `interface` lines of a class, threading the scope. */
  method CheckModifiers(supers: seq<ModifierClass>, inters: seq<ModifierClass>, superName: string, interfaces: seq<string>,
                        scope: Scope) returns (ok: bool, scope': Scope)
    ensures Extends(scope, scope')
    ensures ok <==> ModifiersHold(scope', supers, inters, superName, interfaces)
    ensures ok <==> ModifiersAccept(scope, supers, inters, superName, interfaces)
    ensures forall n :: n in scope'.classes && n !in scope.classes ==>
      scope'.classes[n] == superName || (|interfaces| > 0 && scope'.classes[n] == interfaces[0])
    ensures ok ==> scope' == InterfaceBindings(BindWeakNames(scope, supers, superName, false), inters, interfaces)
  {
    var okSupers, s1 := CheckSupers(supers, superName, scope);
    if !okSupers {
      return false, s1;
    }
    var s2;
    ok, s2 := CheckInterfaces(inters, interfaces, s1);
    ExtendsTransitive(scope, s1, s2);
    forall i | 0 <= i < |supers|
      ensures SuperHolds(s2, supers[i], superName)
    {
      SuperHoldsExtends(s1, s2, supers[i], superName);
    }
    forall n | n in s2.classes && n !in scope.classes
      ensures s2.classes[n] == superName || (|interfaces| > 0 && s2.classes[n] == interfaces[0])
    {
      if n in s1.classes {
        assert s2.classes[n] == s1.classes[n];
      }
    }
    return ok, s2;
  }

  /** The verdict of `checkAttributes` on a matched class over the scope before the check. */
  predicate AttributesAccept(pc: PatchClass, s: Scope, access: bv32, superName: string, interfaces: seq<string>)
    requires KindMask(pc.kind).Some?
  {
    KindHolds(KindMask(pc.kind).value, access) && ModifiersAccept(s, pc.supers, pc.interfaces, superName, interfaces)
  }

  /**
   * `checkAttributes`: an added class passes; otherwise a literal name must
   * be the bound class's name, the kind's access flag must be set, and the
   * `extends` and `interface` lines must hold, binding weak names on the way.
   */
  method CheckAttributes(pc: PatchClass, scope: Scope, node: ClassNode) returns (r: Result<bool>, scope': Scope)
    requires pc.mode != Add ==> pc.ident.name in scope.classes && scope.classes[pc.ident.name] == node.name
    ensures Extends(scope, scope')
    ensures pc.mode == Add ==> r == Ok(true) && scope' == scope
    ensures pc.mode != Add && !pc.ident.isWeak && node.name != pc.ident.name ==> r == Ok(false) && scope' == scope
    ensures pc.mode != Add && (pc.ident.isWeak || node.name == pc.ident.name) && KindMask(pc.kind).None? ==> r.Err?
    ensures pc.mode != Add && (pc.ident.isWeak || node.name == pc.ident.name) && KindMask(pc.kind).Some? ==>
      r == Ok(AttributesHold(pc, scope', node.access, node.superName, node.interfaces))
    ensures pc.mode != Add && (pc.ident.isWeak || node.name == pc.ident.name) && KindMask(pc.kind).Some? ==>
      r == Ok(AttributesAccept(pc, scope, node.access, node.superName, node.interfaces))
    ensures forall n :: n in scope'.classes && n !in scope.classes ==>
      scope'.classes[n] == node.superName || (|node.interfaces| > 0 && scope'.classes[n] == node.interfaces[0])
    ensures pc.mode != Add && r == Ok(true) ==>
      scope' == InterfaceBindings(BindWeakNames(scope, pc.supers, node.superName, false), pc.interfaces, node.interfaces)
  {
    if pc.mode == Add {
      return Ok(true), scope;
    }
    if !pc.ident.isWeak && node.name != pc.ident.name {
      return Ok(false), scope;
    }
    var mask := KindMask(pc.kind);
    if mask.None? {
      return Err("IllegalArgumentException"), scope;
    }
    if mask.value != 0 && node.access & mask.value == 0 {
      return Ok(false), scope;
    }
    var ok;
    ok, scope' := CheckModifiers(pc.supers, pc.interfaces, node.superName, node.interfaces, scope);
    return Ok(ok), scope';
  }

  /**
   * The inner scan of an `interface` line as written: the name is looked up
   * again for every interface, after it has been replaced by the class found
   * for the previous one.
   */
  function InterfaceScanAsWritten(s: Scope, isWeak: bool, clName: string, interfaces: seq<string>): (r: (bool, Scope))
    ensures Extends(s, r.1)
    decreases |interfaces|
  {
    if interfaces == [] then (false, s)
    else
      var s1 := if isWeak && clName !in s.classes then PutClass(s, clName, interfaces[0]) else s;
      var name := if isWeak then s1.classes[clName] else clName;
      if name == interfaces[0] then (true, s1)
      else InterfaceScanAsWritten(s1, isWeak, name, interfaces[1..])
  }

  /**
   * With `~I` bound to `Foo` and the interfaces `Bar` and `Baz`, the scan as
   * written passes and binds `Foo` to `Baz`; the line does not hold.
   */
  lemma InterfaceRebindAsWritten()
    ensures
      var s := EmptyScope.(classes := map["I" := "Foo"]);
      && InterfaceScanAsWritten(s, true, "I", ["Bar", "Baz"])
         == (true, s.(classes := map["I" := "Foo", "Foo" := "Baz"]))
      && !InterfaceHolds(s, ModifierClass(Ident(true, "I"), Match), ["Bar", "Baz"])
  {
    var s := EmptyScope.(classes := map["I" := "Foo"]);
    var s1 := PutClass(s, "Foo", "Baz");
    assert s1.classes == map["I" := "Foo", "Foo" := "Baz"];
    assert InterfaceScanAsWritten(s1, true, "Baz", []) == (false, s1);
    assert ["Bar", "Baz"][1..] == ["Baz"];
    assert ["Baz"][1..] == [];
  }


  // ------------------------------------------------------------------ fields

  /** The first field of a class with the given name and descriptor. */
  function FindField(fields: seq<FieldNode>, name: string, desc: string): (r: Option<FieldNode>)
    ensures r.Some? ==> r.value in fields && r.value.name == name && r.value.desc == desc
    ensures r.None? ==> forall i :: 0 <= i < |fields| ==> fields[i].name != name || fields[i].desc != desc
  {
    if fields == [] then None
    else if fields[0].name == name && fields[0].desc == desc then Some(fields[0])
    else FindField(fields[1..], name, desc)
  }

  /** The scope key of a field line of the class `owner`. */
  function FieldKey(owner: string, f: PatchField): MemberKey {
    MemberKey(owner, f.ident.name, f.desc)
  }

  /** The static and private flags and the constant of a field agree with its line. */
  predicate FieldNodeAgrees(n: FieldNode, f: PatchField) {
    && ((n.access & ACC_STATIC != 0) <==> f.isStatic)
    && ((n.access & ACC_PRIVATE != 0) <==> f.isPrivate)
    && n.value == f.value
  }

  /**
   * A field line holds: added ones always; otherwise the field bound to it
   * has its name (unless weak) and its type, exists in the class, and has
   * the same static and private flags and the same constant.
   */
  predicate FieldHolds(s: Scope, node: ClassNode, f: PatchField)
    reads node
  {
    || f.mode == Add
    || (var key := FieldKey(node.name, f);
        && key in s.fields
        && (f.ident.isWeak || s.fields[key].name == f.ident.name)
        && MatchesIn(s, FieldDesc(f), GetType(s.fields[key].desc))
        && FindField(node.fields, s.fields[key].name, s.fields[key].desc).Some?
        && FieldNodeAgrees(FindField(node.fields, s.fields[key].name, s.fields[key].desc).value, f))
  }

  /** A field line the source dereferences without a check: its binding or its node is missing. */
  predicate FieldMissing(s: Scope, node: ClassNode, f: PatchField)
    reads node
  {
    && f.mode != Add
    && (FieldKey(node.name, f) !in s.fields
        || FindField(node.fields, s.fields[FieldKey(node.name, f)].name, s.fields[FieldKey(node.name, f)].desc).None?)
  }

  /** Matches that hold keep holding in a scope with more bindings. */
  lemma MatchesInExtends(s: Scope, s': Scope, pt: Type, t: Type)
    requires MatchesIn(s, pt, t) && Extends(s, s')
    ensures MatchesIn(s', pt, t)
  {
    CheckTypesStable(s, s', pt, t);
  }

  /** A field line that holds keeps holding in a scope with more class bindings. */
  lemma FieldHoldsExtends(s: Scope, s': Scope, node: ClassNode, f: PatchField)
    requires FieldHolds(s, node, f) && Extends(s, s') && s'.fields == s.fields
    ensures FieldHolds(s', node, f)
  {
    if f.mode != Add {
      var bound := s.fields[FieldKey(node.name, f)];
      MatchesInExtends(s, s', FieldDesc(f), GetType(bound.desc));
    }
  }

  /**
   * The verdict on one field line that is not added and the scope after it:
   * an unbound key is an error; a literal name must be the bound field's;
   * the descriptor must match through `checkTypes`, whose bindings are kept;
   * then a missing node is an error, and otherwise the flags and the
   * constant decide.
   */
  function FieldCheck(s: Scope, node: ClassNode, f: PatchField): (r: (Result<bool>, Scope))
    reads node
    ensures Extends(s, r.1)
    ensures r.1.fields == s.fields && r.1.methods == s.methods && r.1.labels == s.labels
  {
    var key := FieldKey(node.name, f);
    if key !in s.fields then (Err("NullPointerException"), s)
    else
      var bound := s.fields[key];
      if !f.ident.isWeak && bound.name != f.ident.name then (Ok(false), s)
      else
        var (ok, s1) := CheckTypes(Some(s), FieldDesc(f), GetType(bound.desc));
        if !ok then (Ok(false), s)
        else
          var found := FindField(node.fields, bound.name, bound.desc);
          if found.None? then (Err("NullPointerException"), s1.value)
          else (Ok(FieldNodeAgrees(found.value, f)), s1.value)
  }

  /**
   * A field line passes iff it holds in the scope after it; an error means
   * its binding or its node is missing, and an unbound key is an error.
   */
  lemma FieldCheckSpec(s: Scope, node: ClassNode, f: PatchField)
    requires f.mode != Add
    ensures var r := FieldCheck(s, node, f);
      && (r.0 == Ok(true) <==> FieldHolds(r.1, node, f))
      && (r.0.Err? ==> FieldMissing(s, node, f))
      && (FieldKey(node.name, f) !in s.fields ==> r.0.Err? && r.1 == s)
  {
    var key := FieldKey(node.name, f);
    if key in s.fields {
      var bound := s.fields[key];
      var (ok, s1) := CheckTypes(Some(s), FieldDesc(f), GetType(bound.desc));
      if ok {
        CheckTypesStable(s, s1.value, FieldDesc(f), GetType(bound.desc));
      }
    }
  }

  /** Checks one field line that is not added. */
  method CheckField(f: PatchField, scope: Scope, node: ClassNode) returns (r: Result<bool>, scope': Scope)
    requires f.mode != Add
    ensures (r, scope') == FieldCheck(scope, node, f)
    ensures Extends(scope, scope')
    ensures scope'.fields == scope.fields && scope'.methods == scope.methods && scope'.labels == scope.labels
    ensures r == Ok(true) <==> FieldHolds(scope', node, f)
    ensures r.Err? ==> FieldMissing(scope, node, f)
    ensures FieldKey(node.name, f) !in scope.fields ==> r.Err? && scope' == scope
  {
    FieldCheckSpec(scope, node, f);
    var key := FieldKey(node.name, f);
    if key !in scope.fields {
      return Err("NullPointerException"), scope;
    }
    var bound := scope.fields[key];
    if !f.ident.isWeak && bound.name != f.ident.name {
      return Ok(false), scope;
    }
    var (ok, s1) := CheckTypes(Some(scope), FieldDesc(f), GetType(bound.desc));
    if !ok {
      return Ok(false), scope;
    }
    var found := FindField(node.fields, bound.name, bound.desc);
    if found.None? {
      return Err("NullPointerException"), s1.value;
    }
    if !FieldNodeAgrees(found.value, f) {
      return Ok(false), s1.value;
    }
    return Ok(true), s1.value;
  }

  /** The field lines in order, skipping added ones, threading the scope and stopping at the first that does not pass. */
  function FieldsCheck(s: Scope, node: ClassNode, fs: seq<PatchField>): (r: (Result<bool>, Scope))
    reads node
    ensures Extends(s, r.1)
    ensures r.1.fields == s.fields && r.1.methods == s.methods && r.1.labels == s.labels
    decreases |fs|
  {
    if fs == [] then (Ok(true), s)
    else if fs[0].mode == Add then FieldsCheck(s, node, fs[1..])
    else
      var (r, s1) := FieldCheck(s, node, fs[0]);
      if r != Ok(true) then (r, s1) else FieldsCheck(s1, node, fs[1..])
  }

  /**
   * The field lines pass iff every one holds in the final scope; an error
   * means some line's binding or node is missing.
   */
  lemma {:induction false} FieldsCheckSpec(s: Scope, node: ClassNode, fs: seq<PatchField>)
    ensures var r := FieldsCheck(s, node, fs);
      && (r.0 == Ok(true) <==> forall i :: 0 <= i < |fs| ==> FieldHolds(r.1, node, fs[i]))
      && (r.0.Err? ==> exists i :: 0 <= i < |fs| && FieldMissing(s, node, fs[i]))
    decreases |fs|
  {
    if fs != [] {
      assert forall i :: 1 <= i < |fs| ==> fs[i] == fs[1..][i - 1];
      var s1 := s;
      if fs[0].mode != Add {
        FieldCheckSpec(s, node, fs[0]);
        s1 := FieldCheck(s, node, fs[0]).1;
      }
      if fs[0].mode == Add || FieldCheck(s, node, fs[0]).0 == Ok(true) {
        FieldsCheckSpec(s1, node, fs[1..]);
        var r := FieldsCheck(s1, node, fs[1..]);
        if fs[0].mode != Add {
          FieldHoldsExtends(s1, r.1, node, fs[0]);
        }
        if r.0.Err? {
          var i :| 0 <= i < |fs[1..]| && FieldMissing(s1, node, fs[1..][i]);
          assert FieldMissing(s, node, fs[i + 1]);
        }
      }
    }
  }

  /**
   * `checkFields`: an added class passes; otherwise every field line must
   * hold, binding weak classes of the descriptors on the way.
   */
  method CheckFields(pc: PatchClass, scope: Scope, node: ClassNode) returns (r: Result<bool>, scope': Scope)
    requires pc.mode != Add ==> pc.ident.name in scope.classes && scope.classes[pc.ident.name] == node.name
    ensures Extends(scope, scope')
    ensures pc.mode == Add ==> r == Ok(true) && scope' == scope
    ensures pc.mode != Add ==> (r, scope') == FieldsCheck(scope, node, pc.fields)
    ensures pc.mode != Add ==> (r == Ok(true) <==> forall i :: 0 <= i < |pc.fields| ==> FieldHolds(scope', node, pc.fields[i]))
    ensures r.Err? ==> exists i :: 0 <= i < |pc.fields| && FieldMissing(scope, node, pc.fields[i])
  {
    if pc.mode == Add {
      return Ok(true), scope;
    }
    FieldsCheckSpec(scope, node, pc.fields);
    scope' := scope;
    var i := 0;
    while i < |pc.fields|
      invariant i <= |pc.fields|
      invariant FieldsCheck(scope', node, pc.fields[i..]) == FieldsCheck(scope, node, pc.fields)
    {
      var f := pc.fields[i];
      assert pc.fields[i..][1..] == pc.fields[i + 1..];
      if f.mode != Add {
        r, scope' := CheckField(f, scope', node);
        if r != Ok(true) {
          return;
        }
      }
      i := i + 1;
    }
    assert pc.fields[i..] == [];
    return Ok(true), scope';
  }

  // ----------------------------------------------------------------- methods

  /** The scope key of a method line of the class `owner`. */
  function MethodKey(owner: string, m: PatchMethod): MemberKey {
    MemberKey(owner, m.ident.name, m.desc)
  }

  /** Each template type matches the concrete type at the same position. */
  predicate AllMatchIn(s: Scope, pts: seq<Type>, ts: seq<Type>) {
    |pts| == |ts| && forall i :: 0 <= i < |pts| ==> MatchesIn(s, pts[i], ts[i])
  }

  lemma AllMatchInExtends(s: Scope, s': Scope, pts: seq<Type>, ts: seq<Type>)
    requires AllMatchIn(s, pts, ts) && Extends(s, s')
    ensures AllMatchIn(s', pts, ts)
  {
    forall i | 0 <= i < |pts|
      ensures MatchesIn(s', pts[i], ts[i])
    {
      MatchesInExtends(s, s', pts[i], ts[i]);
    }
  }

  /**
   * A method line holds: added ones always; otherwise the method bound to
   * it has its name (unless weak), as many arguments, and matching argument
   * and return types.
   */
  predicate MethodHolds(s: Scope, owner: string, m: PatchMethod) {
    || m.mode == Add
    || (var key := MethodKey(owner, m);
        && key in s.methods
        && (m.ident.isWeak || s.methods[key].name == m.ident.name)
        && AllMatchIn(s, ArgumentTypes(MethodDesc(m)), ArgumentTypes(GetType(s.methods[key].desc)))
        && MatchesIn(s, ReturnType(MethodDesc(m)), ReturnType(GetType(s.methods[key].desc))))
  }

  /** A method line that holds keeps holding in a scope with more class bindings. */
  lemma MethodHoldsExtends(s: Scope, s': Scope, owner: string, m: PatchMethod)
    requires MethodHolds(s, owner, m) && Extends(s, s') && s'.methods == s.methods
    ensures MethodHolds(s', owner, m)
  {
    if m.mode != Add {
      var bound := s.methods[MethodKey(owner, m)];
      AllMatchInExtends(s, s', ArgumentTypes(MethodDesc(m)), ArgumentTypes(GetType(bound.desc)));
      MatchesInExtends(s, s', ReturnType(MethodDesc(m)), ReturnType(GetType(bound.desc)));
    }
  }

  /** `checkTypes` over the pairs in order, threading the scope and stopping at the first mismatch. */
  function MatchAll(s: Scope, pts: seq<Type>, ts: seq<Type>): (r: (bool, Scope))
    requires |pts| == |ts|
    ensures Extends(s, r.1)
    ensures r.1.fields == s.fields && r.1.methods == s.methods && r.1.labels == s.labels
    decreases |pts|
  {
    if pts == [] then (true, s)
    else
      var (ok, s1) := CheckTypes(Some(s), pts[0], ts[0]);
      if !ok then (false, s) else MatchAll(s1.value, pts[1..], ts[1..])
  }

  /** The pairs pass iff each matches in the final scope, with nothing left to bind. */
  lemma {:induction false} MatchAllSpec(s: Scope, pts: seq<Type>, ts: seq<Type>)
    requires |pts| == |ts|
    ensures MatchAll(s, pts, ts).0 <==> AllMatchIn(MatchAll(s, pts, ts).1, pts, ts)
    decreases |pts|
  {
    if pts != [] {
      var (ok, s1) := CheckTypes(Some(s), pts[0], ts[0]);
      if ok {
        MatchAllSpec(s1.value, pts[1..], ts[1..]);
        var r := MatchAll(s1.value, pts[1..], ts[1..]);
        CheckTypesStable(s, s1.value, pts[0], ts[0]);
        MatchesInExtends(s1.value, r.1, pts[0], ts[0]);
        assert forall i :: 1 <= i < |pts| ==> pts[i] == pts[1..][i - 1] && ts[i] == ts[1..][i - 1];
      }
    }
  }

  /** Matching one more pair continues from the scope the earlier pairs left. */
  lemma {:induction false} MatchAllSnoc(s: Scope, pts: seq<Type>, ts: seq<Type>, pt: Type, t: Type)
    requires |pts| == |ts|
    ensures var r := MatchAll(s, pts, ts);
      MatchAll(s, pts + [pt], ts + [t])
      == if !r.0 then r else (CheckTypes(Some(r.1), pt, t).0, CheckTypes(Some(r.1), pt, t).1.value)
    decreases |pts|
  {
    if pts == [] {
      assert (pts + [pt])[1..] == [] && (ts + [t])[1..] == [];
    } else {
      assert (pts + [pt])[1..] == pts[1..] + [pt] && (ts + [t])[1..] == ts[1..] + [t];
      var (ok, s1) := CheckTypes(Some(s), pts[0], ts[0]);
      if ok {
        MatchAllSnoc(s1.value, pts[1..], ts[1..], pt, t);
      }
    }
  }

  /** Matches argument types pairwise, threading the scope. */
  method CheckArguments(pts: seq<Type>, ts: seq<Type>, scope: Scope) returns (ok: bool, scope': Scope)
    requires |pts| == |ts|
    ensures (ok, scope') == MatchAll(scope, pts, ts)
    ensures Extends(scope, scope')
    ensures scope'.fields == scope.fields && scope'.methods == scope.methods && scope'.labels == scope.labels
    ensures ok <==> AllMatchIn(scope', pts, ts)
  {
    MatchAllSpec(scope, pts, ts);
    scope' := scope;
    var i := 0;
    while i < |pts|
      invariant i <= |pts|
      invariant MatchAll(scope', pts[i..], ts[i..]) == MatchAll(scope, pts, ts)
    {
      assert pts[i..][1..] == pts[i + 1..] && ts[i..][1..] == ts[i + 1..];
      var (matched, s1) := CheckTypes(Some(scope'), pts[i], ts[i]);
      if !matched {
        return false, scope';
      }
      scope' := s1.value;
      i := i + 1;
    }
    assert pts[i..] == [] && ts[i..] == [];
    return true, scope';
  }

  /**
   * The verdict on one method line that is not added and the scope after
   * it: an unbound key is an error; a literal name must be the bound
   * method's; the argument counts must agree; then the argument types and
   * the return type are matched in order through `checkTypes`.
   */
  function MethodCheck(s: Scope, owner: string, m: PatchMethod): (r: (Result<bool>, Scope))
    ensures Extends(s, r.1)
    ensures r.1.fields == s.fields && r.1.methods == s.methods && r.1.labels == s.labels
  {
    var key := MethodKey(owner, m);
    if key !in s.methods then (Err("NullPointerException"), s)
    else
      var bound := s.methods[key];
      var patchDesc := MethodDesc(m);
      var desc := GetType(bound.desc);
      if !m.ident.isWeak && bound.name != m.ident.name then (Ok(false), s)
      else if |ArgumentTypes(patchDesc)| != |ArgumentTypes(desc)| then (Ok(false), s)
      else
        var (ok, s1) := MatchAll(s, ArgumentTypes(patchDesc) + [ReturnType(patchDesc)],
                                    ArgumentTypes(desc) + [ReturnType(desc)]);
        (Ok(ok), s1)
  }

  /** Matching pairs with one more pair appended is matching the pairs and that pair. */
  lemma AllMatchInSnoc(s: Scope, pts: seq<Type>, ts: seq<Type>, pt: Type, t: Type)
    requires |pts| == |ts|
    ensures AllMatchIn(s, pts + [pt], ts + [t]) <==> AllMatchIn(s, pts, ts) && MatchesIn(s, pt, t)
  {
    if AllMatchIn(s, pts + [pt], ts + [t]) {
      assert MatchesIn(s, (pts + [pt])[|pts|], (ts + [t])[|pts|]);
      forall i | 0 <= i < |pts| ensures MatchesIn(s, pts[i], ts[i]) {
        assert MatchesIn(s, (pts + [pt])[i], (ts + [t])[i]);
      }
    }
  }

  /** A method line passes iff it holds in the scope after it, and is an error iff its key is unbound. */
  lemma MethodCheckSpec(s: Scope, owner: string, m: PatchMethod)
    requires m.mode != Add
    ensures var r := MethodCheck(s, owner, m);
      && (r.0 == Ok(true) <==> MethodHolds(r.1, owner, m))
      && (r.0.Err? <==> MethodKey(owner, m) !in s.methods)
  {
    var key := MethodKey(owner, m);
    if key in s.methods {
      var bound := s.methods[key];
      var args, ret := ArgumentTypes(MethodDesc(m)), ReturnType(MethodDesc(m));
      var args', ret' := ArgumentTypes(GetType(bound.desc)), ReturnType(GetType(bound.desc));
      if (m.ident.isWeak || bound.name == m.ident.name) && |args| == |args'| {
        MatchAllSpec(s, args + [ret], args' + [ret']);
        AllMatchInSnoc(MatchAll(s, args + [ret], args' + [ret']).1, args, args', ret, ret');
      }
    }
  }

  /** Checks one method line that is not added. */
  method CheckMethod(m: PatchMethod, owner: string, scope: Scope) returns (r: Result<bool>, scope': Scope)
    requires m.mode != Add
    ensures (r, scope') == MethodCheck(scope, owner, m)
    ensures Extends(scope, scope')
    ensures scope'.fields == scope.fields && scope'.methods == scope.methods && scope'.labels == scope.labels
    ensures r == Ok(true) <==> MethodHolds(scope', owner, m)
    ensures r.Err? <==> MethodKey(owner, m) !in scope.methods
  {
    MethodCheckSpec(scope, owner, m);
    var key := MethodKey(owner, m);
    if key !in scope.methods {
      return Err("NullPointerException"), scope;
    }
    var bound := scope.methods[key];
    if !m.ident.isWeak && bound.name != m.ident.name {
      return Ok(false), scope;
    }
    var patchDesc := MethodDesc(m);
    var desc := GetType(bound.desc);
    if |ArgumentTypes(patchDesc)| != |ArgumentTypes(desc)| {
      return Ok(false), scope;
    }
    MatchAllSnoc(scope, ArgumentTypes(patchDesc), ArgumentTypes(desc), ReturnType(patchDesc), ReturnType(desc));
    var argsOk, s1 := CheckArguments(ArgumentTypes(patchDesc), ArgumentTypes(desc), scope);
    if !argsOk {
      return Ok(false), s1;
    }
    var (retOk, s2) := CheckTypes(Some(s1), ReturnType(patchDesc), ReturnType(desc));
    if !retOk {
      return Ok(false), s1;
    }
    return Ok(true), s2.value;
  }

  /** The method lines in order, skipping added ones, threading the scope and stopping at the first that does not pass. */
  function MethodsCheck(s: Scope, owner: string, ms: seq<PatchMethod>): (r: (Result<bool>, Scope))
    ensures Extends(s, r.1)
    ensures r.1.fields == s.fields && r.1.methods == s.methods && r.1.labels == s.labels
    decreases |ms|
  {
    if ms == [] then (Ok(true), s)
    else if ms[0].mode == Add then MethodsCheck(s, owner, ms[1..])
    else
      var (r, s1) := MethodCheck(s, owner, ms[0]);
      if r != Ok(true) then (r, s1) else MethodsCheck(s1, owner, ms[1..])
  }

  /**
   * The method lines pass iff every one holds in the final scope; an error
   * means some line that is not added has an unbound key.
   */
  lemma {:induction false} MethodsCheckSpec(s: Scope, owner: string, ms: seq<PatchMethod>)
    ensures var r := MethodsCheck(s, owner, ms);
      && (r.0 == Ok(true) <==> forall i :: 0 <= i < |ms| ==> MethodHolds(r.1, owner, ms[i]))
      && (r.0.Err? ==> exists i :: 0 <= i < |ms| && ms[i].mode != Add && MethodKey(owner, ms[i]) !in s.methods)
    decreases |ms|
  {
    if ms != [] {
      assert forall i :: 1 <= i < |ms| ==> ms[i] == ms[1..][i - 1];
      var s1 := s;
      if ms[0].mode != Add {
        MethodCheckSpec(s, owner, ms[0]);
        s1 := MethodCheck(s, owner, ms[0]).1;
      }
      if ms[0].mode == Add || MethodCheck(s, owner, ms[0]).0 == Ok(true) {
        MethodsCheckSpec(s1, owner, ms[1..]);
        var r := MethodsCheck(s1, owner, ms[1..]);
        if ms[0].mode != Add {
          MethodHoldsExtends(s1, r.1, owner, ms[0]);
        }
        if r.0.Err? {
          var i :| 0 <= i < |ms[1..]| && ms[1..][i].mode != Add && MethodKey(owner, ms[1..][i]) !in s1.methods;
          assert ms[i + 1].mode != Add && MethodKey(owner, ms[i + 1]) !in s.methods;
        }
      }
    }
  }

  /**
   * `checkMethods`: an added class passes; otherwise every method line must
   * hold, binding weak classes of the descriptors on the way.
   */
  method CheckMethods(pc: PatchClass, scope: Scope) returns (r: Result<bool>, scope': Scope)
    requires pc.mode != Add ==> pc.ident.name in scope.classes
    ensures Extends(scope, scope')
    ensures pc.mode == Add ==> r == Ok(true) && scope' == scope
    ensures pc.mode != Add ==> (r, scope') == MethodsCheck(scope, scope.classes[pc.ident.name], pc.methods)
    ensures pc.mode != Add ==>
      (r == Ok(true) <==> forall i :: 0 <= i < |pc.methods| ==> MethodHolds(scope', scope.classes[pc.ident.name], pc.methods[i]))
    ensures pc.mode != Add && r.Err? ==>
      exists i :: 0 <= i < |pc.methods| && pc.methods[i].mode != Add
                  && MethodKey(scope.classes[pc.ident.name], pc.methods[i]) !in scope.methods
  {
    if pc.mode == Add {
      return Ok(true), scope;
    }
    var owner := scope.classes[pc.ident.name];
    MethodsCheckSpec(scope, owner, pc.methods);
    scope' := scope;
    var i := 0;
    while i < |pc.methods|
      invariant i <= |pc.methods|
      invariant MethodsCheck(scope', owner, pc.methods[i..]) == MethodsCheck(scope, owner, pc.methods)
    {
      var m := pc.methods[i];
      assert pc.methods[i..][1..] == pc.methods[i + 1..];
      if m.mode != Add {
        r, scope' := CheckMethod(m, owner, scope');
        if r != Ok(true) {
          return;
        }
      }
      i := i + 1;
    }
    assert pc.methods[i..] == [];
    return Ok(true), scope';
  }
}
