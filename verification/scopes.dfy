/**
 * The binding table of one match: weak names bound to classes, fields,
 * methods and labels. A binding, once made, is never replaced.
 */
module Scopes {
  import opened AsmTree

  /** Key of a field or method binding: the owning class's name, the weak name, the template descriptor. */
  datatype MemberKey = MemberKey(owner: string, name: string, desc: string)

  /** A concrete field, by owner, name and descriptor. */
  datatype FieldRef = FieldRef(owner: string, name: string, desc: string)

  /** A concrete method, by name and descriptor. */
  datatype MethodRef = MethodRef(name: string, desc: string)

  /**
   * The four binding maps. A class binding maps a weak name to the internal
   * name of the bound class; labels are bound per method.
   */
  datatype Scope = Scope(
    classes: map<string, string>,
    fields: map<MemberKey, FieldRef>,
    methods: map<MemberKey, MethodRef>,
    labels: map<(MethodNode, string), LabelNode>)

  const EmptyScope: Scope := Scope(map[], map[], map[], map[])

  /** `r` keeps every binding of `s`. */
  predicate Extends(s: Scope, r: Scope) {
    && (forall k :: k in s.classes ==> k in r.classes && r.classes[k] == s.classes[k])
    && (forall k :: k in s.fields ==> k in r.fields && r.fields[k] == s.fields[k])
    && (forall k :: k in s.methods ==> k in r.methods && r.methods[k] == s.methods[k])
    && (forall k :: k in s.labels ==> k in r.labels && r.labels[k] == s.labels[k])
  }

  lemma ExtendsTransitive(s1: Scope, s2: Scope, s3: Scope)
    requires Extends(s1, s2) && Extends(s2, s3)
    ensures Extends(s1, s3)
  {
  }

  /** Binds a weak class name unless it is bound already. */
  function PutClass(s: Scope, name: string, cls: string): (r: Scope)
    ensures Extends(s, r) && name in r.classes
    ensures name !in s.classes ==> r.classes[name] == cls
    ensures r.classes.Keys == s.classes.Keys + {name}
    ensures r.fields == s.fields && r.methods == s.methods && r.labels == s.labels
  {
    if name in s.classes then s else s.(classes := s.classes[name := cls])
  }

  /** Binds a field key unless it is bound already. */
  function PutField(s: Scope, key: MemberKey, f: FieldRef): (r: Scope)
    ensures Extends(s, r) && key in r.fields
    ensures key !in s.fields ==> r.fields[key] == f
    ensures r.fields.Keys == s.fields.Keys + {key}
    ensures r.classes == s.classes && r.methods == s.methods && r.labels == s.labels
  {
    if key in s.fields then s else s.(fields := s.fields[key := f])
  }

  /** Binds a method key unless it is bound already. */
  function PutMethod(s: Scope, key: MemberKey, m: MethodRef): (r: Scope)
    ensures Extends(s, r) && key in r.methods
    ensures key !in s.methods ==> r.methods[key] == m
    ensures r.methods.Keys == s.methods.Keys + {key}
    ensures r.classes == s.classes && r.fields == s.fields && r.labels == s.labels
  {
    if key in s.methods then s else s.(methods := s.methods[key := m])
  }

  /** Binds a label name of one method unless it is bound already. */
  function PutLabel(s: Scope, m: MethodNode, name: string, l: LabelNode): (r: Scope)
    ensures Extends(s, r) && (m, name) in r.labels
    ensures (m, name) !in s.labels ==> r.labels[(m, name)] == l
    ensures r.labels.Keys == s.labels.Keys + {(m, name)}
    ensures r.classes == s.classes && r.fields == s.fields && r.methods == s.methods
  {
    if (m, name) in s.labels then s else s.(labels := s.labels[(m, name) := l])
  }
}
