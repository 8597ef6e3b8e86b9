/**
 * Matching a template descriptor against a concrete one, binding weak class
 * names on the way, and rewriting a template descriptor through the bindings
 * (`PatchClass.checkTypes` and `PatchClass.updatedTypeString`).
 *
 * Both are given twice: as written, and corrected. The rest of the model
 * uses the corrected versions; the lemmas at the end show where the two
 * differ.
 */
module DescriptorMatching {
  import opened Outcomes
  import opened AsmTypes
  import opened Idents
  import opened Scopes

  // ------------------------------------------------------------- matching

  /**
   * The verdict on an object type against an object type: a literal name
   * must be the concrete name, a bound weak name must be bound to it, and an
   * unbound weak name is bound to it (with no scope, a weak name passes).
   */
  function CheckObjectType(scope: Option<Scope>, templateName: string, concrete: string): (r: (bool, Option<Scope>))
    ensures !ParseIdent(templateName).isWeak ==> r == (templateName == concrete, scope)
    ensures ParseIdent(templateName).isWeak && scope.None? ==> r == (true, None)
    ensures scope.Some? ==> r.1.Some? && Extends(scope.value, r.1.value)
    ensures ParseIdent(templateName).isWeak && scope.Some? ==>
      var name := ParseIdent(templateName).name;
      && name in r.1.value.classes
      && (r.0 <==> r.1.value.classes[name] == concrete)
      && (name in scope.value.classes ==> r.1 == scope)
      && (name !in scope.value.classes ==> r.0 && r.1 == Some(PutClass(scope.value, name, concrete)))
  {
    var id := ParseIdent(templateName);
    if !id.isWeak then (id.name == concrete, scope)
    else if scope.None? then (true, scope)
    else if id.name in scope.value.classes then (scope.value.classes[id.name] == concrete, scope)
    else (true, Some(PutClass(scope.value, id.name, concrete)))
  }

  /**
   * `checkTypes`, corrected: the sorts must agree, primitive and method
   * types must be equal, object types go through `CheckObjectType`, and an
   * array matches an array when their element types (one level down) match.
   */
  function CheckTypes(scope: Option<Scope>, pt: Type, t: Type): (r: (bool, Option<Scope>))
    ensures r.1.Some? <==> scope.Some?
    ensures scope.Some? ==> Extends(scope.value, r.1.value)
    ensures SortOf(pt) != SortOf(t) ==> r == (false, scope)
    ensures pt.Prim? || pt.Method? ==> r == (pt == t, scope)
    ensures pt.Object? && t.Object? ==> r == CheckObjectType(scope, pt.name, t.name)
    ensures pt.Array? && t.Array? ==> r == CheckTypes(scope, pt.elem, t.elem)
    ensures !r.0 ==> r.1 == scope
    ensures scope.Some? ==> r.1.value.fields == scope.value.fields && r.1.value.methods == scope.value.methods
                            && r.1.value.labels == scope.value.labels
  {
    if SortOf(pt) != SortOf(t) then (false, scope)
    else match pt
      case Object(n) => CheckObjectType(scope, n, t.name)
      case Array(e) => CheckTypes(scope, e, t.elem)
      case _ => (pt == t, scope)
  }

  /**
   * `checkTypes` as written: an unbound weak name is bound under the
   * concrete class's name instead of under itself, and arrays compare the
   * types under all their dimensions.
   */
  function CheckTypesAsWritten(scope: Option<Scope>, pt: Type, t: Type): (r: (bool, Option<Scope>))
    ensures r.1.Some? <==> scope.Some?
    ensures scope.Some? ==> Extends(scope.value, r.1.value)
    ensures SortOf(pt) != SortOf(t) ==> r == (false, scope)
    decreases Depth(pt)
  {
    if SortOf(pt) != SortOf(t) then (false, scope)
    else match pt
      case Object(n) =>
        var id := ParseIdent(n);
        if scope.None? && id.isWeak then (true, scope)
        else if !id.isWeak then (id.name == t.name, scope)
        else if id.name in scope.value.classes then (scope.value.classes[id.name] == t.name, scope)
        else (true, Some(PutClass(scope.value, t.name, t.name)))
      case Array(_) => CheckTypesAsWritten(scope, ElementType(pt), ElementType(t))
      case _ => (pt == t, scope)
  }

  // ------------------------------------------------------------- rewriting

  /** Every weak class name in `t` is bound in `scope`. */
  predicate WeakNamesBound(scope: Scope, t: Type) {
    match t
    case Object(n) => ParseIdent(n).isWeak ==> ParseIdent(n).name in scope.classes
    case Array(e) => WeakNamesBound(scope, e)
    case _ => true
  }

  /** `t` names no class weakly. */
  predicate NoWeakNames(t: Type) {
    match t
    case Object(n) => !ParseIdent(n).isWeak
    case Array(e) => NoWeakNames(e)
    case _ => true
  }

  /**
   * `updatedTypeString`, corrected: one `[` per array level, object types
   * with weak names replaced by the bound class, everything else copied.
   * `None` where an unbound weak name makes the source fail.
   */
  function UpdatedTypeString(scope: Scope, t: Type): (r: Option<string>)
    ensures r.Some? <==> WeakNamesBound(scope, t)
  {
    match t
    case Object(n) =>
      var id := ParseIdent(n);
      if !id.isWeak then Some("L" + id.name + ";")
      else if id.name in scope.classes then Some("L" + scope.classes[id.name] + ";")
      else None
    case Array(e) =>
      (match UpdatedTypeString(scope, e)
       case Some(s) => Some("[" + s)
       case None => None)
    case _ => Some(Descriptor(t))
  }

  /** `updatedTypeString` as written: below an array it continues with the type under all dimensions. */
  function UpdatedTypeStringAsWritten(scope: Scope, t: Type): (r: Option<string>)
    decreases Depth(t)
  {
    match t
    case Object(n) =>
      var id := ParseIdent(n);
      if !id.isWeak then Some("L" + id.name + ";")
      else if id.name in scope.classes then Some("L" + scope.classes[id.name] + ";")
      else None
    case Array(_) =>
      (match UpdatedTypeStringAsWritten(scope, ElementType(t))
       case Some(s) => Some("[" + s)
       case None => None)
    case _ => Some(Descriptor(t))
  }

  /** A descriptor without weak names is copied unchanged. */
  lemma {:induction false} UpdatedTypeStringLiteral(scope: Scope, t: Type)
    requires NoWeakNames(t)
    ensures UpdatedTypeString(scope, t) == Some(Descriptor(t))
  {
    match t
    case Object(n) =>
    case Array(e) => UpdatedTypeStringLiteral(scope, e);
    case Prim(_) =>
    case Method(_) =>
  }

  /** More bindings do not change a rewrite that already succeeds. */
  lemma {:induction false} UpdatedTypeStringExtends(s: Scope, s': Scope, t: Type)
    requires Extends(s, s') && WeakNamesBound(s, t)
    ensures UpdatedTypeString(s', t) == UpdatedTypeString(s, t)
  {
    match t
    case Object(n) =>
    case Array(e) => UpdatedTypeStringExtends(s, s', e);
    case Prim(_) =>
    case Method(_) =>
  }

  /**
   * What a successful match binds is what the rewrite uses: rewriting the
   * template through the resulting scope yields the concrete descriptor.
   */
  lemma {:induction false} CheckTypesThenUpdate(s: Scope, pt: Type, t: Type)
    requires CheckTypes(Some(s), pt, t).0
    ensures UpdatedTypeString(CheckTypes(Some(s), pt, t).1.value, pt) == Some(Descriptor(t))
  {
    match pt
    case Object(n) =>
    case Array(e) => CheckTypesThenUpdate(s, e, t.elem);
    case Prim(_) =>
    case Method(_) =>
  }

  /**
   * Within one scope a template descriptor matches one concrete descriptor:
   * once it has matched `t1`, matching it again succeeds only on a type
   * with the same descriptor.
   */
  lemma CheckTypesDeterminesMatch(s: Scope, pt: Type, t1: Type, t2: Type)
    requires CheckTypes(Some(s), pt, t1).0
    requires CheckTypes(CheckTypes(Some(s), pt, t1).1, pt, t2).0
    ensures Descriptor(t1) == Descriptor(t2)
  {
    var s1 := CheckTypes(Some(s), pt, t1).1.value;
    var s2 := CheckTypes(Some(s1), pt, t2).1.value;
    CheckTypesThenUpdate(s, pt, t1);
    CheckTypesThenUpdate(s1, pt, t2);
    UpdatedTypeStringExtends(s1, s2, pt);
  }

  /** `pt` already matches `t` in `s`, binding nothing new. */
  predicate MatchesIn(s: Scope, pt: Type, t: Type) {
    CheckTypes(Some(s), pt, t) == (true, Some(s))
  }

  /** The template descriptor matches the concrete one in `s` (if there is a scope, with nothing left to bind). */
  predicate TypesHold(s: Option<Scope>, pt: Type, t: Type) {
    match s
    case None => CheckTypes(None, pt, t).0
    case Some(v) => MatchesIn(v, pt, t)
  }

  /** A match, once made, still holds, with nothing new to bind, in every scope that keeps its bindings. */
  lemma {:induction false} CheckTypesStable(s: Scope, s': Scope, pt: Type, t: Type)
    requires CheckTypes(Some(s), pt, t).0
    requires Extends(CheckTypes(Some(s), pt, t).1.value, s')
    ensures MatchesIn(s', pt, t)
  {
    if pt.Array? {
      CheckTypesStable(s, s', pt.elem, t.elem);
    }
  }

  /** A descriptor naming no class weakly matches itself and binds nothing. */
  lemma {:induction false} CheckTypesSelf(scope: Option<Scope>, t: Type)
    requires NoWeakNames(t)
    ensures CheckTypes(scope, t, t) == (true, scope)
  {
    if t.Array? {
      CheckTypesSelf(scope, t.elem);
    }
  }

  /** A corrected match keeps the number of array dimensions. */
  lemma {:induction false} CheckTypesSameDepth(scope: Option<Scope>, pt: Type, t: Type)
    requires CheckTypes(scope, pt, t).0
    ensures Depth(pt) == Depth(t)
  {
    if pt.Array? {
      CheckTypesSameDepth(scope, pt.elem, t.elem);
    }
  }

  // --------------------------------------------------- where the two differ

  /**
   * As written, a weak class name stays unbound after it matched, so the
   * same weak name then matches a different class too; corrected, it does
   * not.
   */
  lemma WeakNameRebindsAsWritten()
    ensures
      var pt := Object("~A");
      var (ok1, s1) := CheckTypesAsWritten(Some(EmptyScope), pt, Object("Foo"));
      && ok1 && "A" !in s1.value.classes
      && CheckTypesAsWritten(s1, pt, Object("Bar")).0
    ensures
      var pt := Object("~A");
      var (ok1, s1) := CheckTypes(Some(EmptyScope), pt, Object("Foo"));
      && ok1 && s1.value.classes["A"] == "Foo"
      && !CheckTypes(s1, pt, Object("Bar")).0
  {
    assert ParseIdent("~A") == Ident(true, "A");
  }

  /** As written, `[[I` matches `[I`; corrected, it does not. */
  lemma ArrayDepthIgnoredAsWritten()
    ensures CheckTypesAsWritten(Some(EmptyScope), Array(Array(Prim('I'))), Array(Prim('I'))).0
    ensures !CheckTypes(Some(EmptyScope), Array(Array(Prim('I'))), Array(Prim('I'))).0
  {
  }

  /** As written, `[[I` is rewritten to `[I`; corrected, it is copied. */
  lemma ArrayDepthLostAsWritten()
    ensures UpdatedTypeStringAsWritten(EmptyScope, Array(Array(Prim('I')))) == Some("[I")
    ensures UpdatedTypeString(EmptyScope, Array(Array(Prim('I')))) == Some("[[I")
  {
    assert UpdatedTypeString(EmptyScope, Prim('I')) == Some("I");
    assert UpdatedTypeString(EmptyScope, Array(Prim('I'))) == Some("[" + "I");
    assert "[" + ("[" + "I") == "[[I";
    assert ElementType(Array(Array(Prim('I')))) == Prim('I');
    assert UpdatedTypeStringAsWritten(EmptyScope, Prim('I')) == Some("I");
    assert "[" + "I" == "[I";
  }
}
