/**
 * Helpers shared by the instruction handlers: quoted string constants,
 * per-method weak labels, integer-or-wildcard parameters and the names given
 * to labels when a method body is printed as a template.
 */
module InsnUtils {
  import opened Outcomes
  import opened AsmTypes
  import opened AsmTree
  import opened Idents
  import opened Scopes

  // ---------------------------------------------------------------- constants

  /** Reads a template constant: the text between the surrounding double quotes. */
  function ParseConstant(cst: string): (r: Result<string>)
    ensures r.Ok? <==> |cst| >= 2 && cst[0] == '"' && cst[|cst| - 1] == '"'
    ensures r.Ok? ==> cst == "\"" + r.value + "\""
  {
    if |cst| >= 2 && cst[0] == '"' && cst[|cst| - 1] == '"' then Ok(cst[1..|cst| - 1])
    else if |cst| == 1 && cst[0] == '"' then Err("StringIndexOutOfBoundsException")
    else Err("UnsupportedOperationException")
  }

  /** The template text of a constant; only strings have a form that reads back. */
  function PrintConstant(value: Constant): string {
    match value
    case StringConst(s) => "\"" + s + "\""
    case TypeConst(t) => "unsupported: " + Descriptor(t)
    case OtherConst(_, repr) => "unsupported: " + repr
  }

  /** Printing a string constant and reading it back gives the same string. */
  lemma ParsePrintConstant(s: string)
    ensures ParseConstant(PrintConstant(StringConst(s))) == Ok(s)
  {
    var p := PrintConstant(StringConst(s));
    assert p[1..|p| - 1] == s;
  }

  /** Only string constants print as something `ParseConstant` accepts. */
  lemma PrintedNonStringIsRejected(value: Constant)
    requires !value.StringConst?
    ensures ParseConstant(PrintConstant(value)).Err?
  {
    assert PrintConstant(value)[0] == 'u';
  }

  // ------------------------------------------------------------------- labels

  /**
   * Checks a template label against a label of the concrete method, binding a
   * weak label name to it on first sight.
   */
  function CheckOrSetLabel(scope: Option<Scope>, m: MethodNode, labelName: string, target: LabelNode)
    : (r: (bool, Option<Scope>))
    ensures !ParseIdent(labelName).isWeak ==> r == (labelName == "*", scope)
    ensures ParseIdent(labelName).isWeak && scope.None? ==> r == (true, None)
    ensures scope.Some? ==> r.1.Some? && Extends(scope.value, r.1.value)
    ensures ParseIdent(labelName).isWeak && scope.Some? ==>
      var key := (m, ParseIdent(labelName).name);
      && key in r.1.value.labels
      && (r.0 <==> r.1.value.labels[key] == target)
      && (key in scope.value.labels ==> r.1 == scope)
      && (key !in scope.value.labels ==> r.0)
  {
    var id := ParseIdent(labelName);
    if !id.isWeak then (id.name == "*", scope)
    else if scope.None? then (true, scope)
    else if (m, id.name) in scope.value.labels then (scope.value.labels[(m, id.name)] == target, scope)
    else (true, Some(PutLabel(scope.value, m, id.name, target)))
  }

  /**
   * A weak label met twice in one method (a forward jump and its target, or
   * a loop's back edge) passes the second time exactly when it is the same
   * label as the first time.
   */
  lemma {:induction false} CheckOrSetLabelTwice(s: Scope, m: MethodNode, labelName: string, first: LabelNode, second: LabelNode)
    requires ParseIdent(labelName).isWeak
    requires (m, ParseIdent(labelName).name) !in s.labels
    ensures
      var (ok1, s1) := CheckOrSetLabel(Some(s), m, labelName, first);
      ok1 && CheckOrSetLabel(s1, m, labelName, second) == (first == second, s1)
  {
    var (ok1, s1) := CheckOrSetLabel(Some(s), m, labelName, first);
    assert s1 == Some(PutLabel(s, m, ParseIdent(labelName).name, first));
  }

  /**
   * The label a weak name stands for when a method body is created: the
   * bound one, or a fresh label that is bound from then on. A literal name
   * is refused.
   */
  method GetLabel(scope: Scope, m: MethodNode, labelName: string) returns (r: Result<LabelNode>, scope': Scope)
    ensures !ParseIdent(labelName).isWeak ==> r.Err? && scope' == scope
    ensures ParseIdent(labelName).isWeak ==>
      var key := (m, ParseIdent(labelName).name);
      && r.Ok? && Extends(scope, scope')
      && key in scope'.labels && scope'.labels[key] == r.value
      && (key in scope.labels ==> r.value == scope.labels[key] && scope' == scope)
      && (key !in scope.labels ==> fresh(r.value) && scope' == PutLabel(scope, m, key.1, r.value))
  {
    var id := ParseIdent(labelName);
    if !id.isWeak {
      return Err("UnsupportedOperationException"), scope;
    }
    if (m, id.name) in scope.labels {
      return Ok(scope.labels[(m, id.name)]), scope;
    }
    var target := new LabelNode();
    r, scope' := Ok(target), PutLabel(scope, m, id.name, target);
  }

  /** Asking twice for the same weak label gives the same label. */
  method GetLabelTwice(scope: Scope, m: MethodNode, labelName: string) returns (a: LabelNode, b: LabelNode)
    requires ParseIdent(labelName).isWeak
    ensures a == b
  {
    var r1, s1 := GetLabel(scope, m, labelName);
    var r2, s2 := GetLabel(s1, m, labelName);
    a, b := r1.value, r2.value;
  }

  // ------------------------------------------------------- integer parameters

  predicate IsDigit(c: char) {
    '0' <= c <= '9'
  }

  predicate AllDigits(s: string) {
    forall i :: 0 <= i < |s| ==> IsDigit(s[i])
  }

  /** Value of a string of decimal digits. */
  function DigitsValue(s: string): nat
    requires AllDigits(s)
  {
    if |s| == 0 then 0 else DigitsValue(s[..|s| - 1]) * 10 + (s[|s| - 1] as int - '0' as int)
  }

  const MinInt: int := -0x8000_0000
  const MaxInt: int := 0x7fff_ffff

  /**
   * Java's `Integer.parseInt` in radix 10 on ASCII text: an optional `-` or
   * `+`, at least one digit, and a value that fits 32 bits; `None` where
   * Java throws `NumberFormatException`.
   */
  function ParseInt(s: string): (r: Option<int>)
    ensures r.Some? ==> MinInt <= r.value <= MaxInt
    ensures |s| == 0 || s == "-" || s == "+" ==> r.None?
    ensures |s| > 0 && !IsDigit(s[0]) && s[0] != '-' && s[0] != '+' ==> r.None?
    ensures forall i :: 0 < i < |s| && !IsDigit(s[i]) ==> r.None?
    ensures |s| > 0 && AllDigits(s) ==>
      r == (if DigitsValue(s) <= MaxInt then Some(DigitsValue(s)) else None)
    ensures |s| > 1 && s[0] == '+' && AllDigits(s[1..]) ==>
      r == (if DigitsValue(s[1..]) <= MaxInt then Some(DigitsValue(s[1..])) else None)
    ensures |s| > 1 && s[0] == '-' && AllDigits(s[1..]) ==>
      r == (if DigitsValue(s[1..]) <= -MinInt then Some(0 - DigitsValue(s[1..])) else None)
  {
    if |s| == 0 then None
    else
      var body := if s[0] == '-' || s[0] == '+' then s[1..] else s;
      if |body| == 0 || !AllDigits(body) then None
      else
        var v: int := if s[0] == '-' then 0 - DigitsValue(body) else DigitsValue(body);
        if MinInt <= v <= MaxInt then Some(v) else None
  }

  function DigitChar(d: nat): char
    requires d < 10
  {
    ('0' as int + d) as char
  }

  /** Decimal digits of a natural number, most significant first. */
  function NatDigits(n: nat): string
  {
    if n < 10 then [DigitChar(n)] else NatDigits(n / 10) + [DigitChar(n % 10)]
  }

  /** Java's `Integer.toString`. */
  function IntToString(n: int): string {
    if n < 0 then "-" + NatDigits(-n) else NatDigits(n)
  }

  lemma {:induction false} NatDigitsValue(n: nat)
    ensures |NatDigits(n)| > 0 && NatDigits(n)[0] != '-' && NatDigits(n)[0] != '+'
    ensures AllDigits(NatDigits(n)) && DigitsValue(NatDigits(n)) == n
  {
    if n >= 10 {
      NatDigitsValue(n / 10);
      var s := NatDigits(n);
      assert s[..|s| - 1] == NatDigits(n / 10);
    }
  }

  /** `ParseInt` reads back every 32-bit integer that `IntToString` prints. */
  lemma ParseIntToString(n: int)
    requires MinInt <= n <= MaxInt
    ensures ParseInt(IntToString(n)) == Some(n)
  {
    var s := IntToString(n);
    if n < 0 {
      NatDigitsValue(-n);
      assert s[1..] == NatDigits(-n);
    } else {
      NatDigitsValue(n);
    }
  }

  /** A numeric template parameter: `*` matches anything, otherwise the number must be equal. */
  function EqualOrWild(val: string, other: int): (r: Result<bool>)
    ensures r == Ok(true) <==> val == "*" || ParseInt(val) == Some(other)
    ensures r.Err? <==> val != "*" && ParseInt(val).None?
  {
    if val == "*" then Ok(true)
    else match ParseInt(val)
      case None => Err("NumberFormatException")
      case Some(v) => Ok(v == other)
  }

  /** A number printed as a parameter matches itself and nothing else. */
  lemma EqualOrWildPrinted(n: int, other: int)
    requires MinInt <= n <= MaxInt
    ensures EqualOrWild(IntToString(n), other) == Ok(n == other)
  {
    ParseIntToString(n);
    NatDigitsValue(if n < 0 then -n else n);
    assert IntToString(n) != "*" by {
      if n < 0 { assert IntToString(n)[1..] == NatDigits(-n); assert |IntToString(n)| > 1; }
      else { assert IsDigit(IntToString(n)[0]); }
    }
  }

  // -------------------------------------------------------------- label names

  function Letter(d: nat): char
    requires d < 26
  {
    ('A' as int + d) as char
  }

  /** Base-26 letters of `n`, least significant first, `A` standing for 0. */
  function Letters(n: nat): (r: string)
    ensures |r| > 0 && r[0] == Letter(n % 26)
    ensures n / 26 > 0 <==> |r| > 1
    ensures n / 26 > 0 ==> r[1..] == Letters(n / 26)
  {
    [Letter(n % 26)] + (if n / 26 > 0 then Letters(n / 26) else [])
  }

  function LabelName(n: nat): string {
    "label-" + Letters(n)
  }

  /** Different counts get different letters. */
  lemma {:induction false} LettersInjective(a: nat, b: nat)
    requires Letters(a) == Letters(b)
    ensures a == b
  {
    assert a % 26 == b % 26;
    if a / 26 > 0 {
      LettersInjective(a / 26, b / 26);
    }
  }

  lemma LabelNameInjective(a: nat, b: nat)
    requires LabelName(a) == LabelName(b)
    ensures a == b
  {
    assert Letters(a) == LabelName(a)[6..] == LabelName(b)[6..] == Letters(b);
    LettersInjective(a, b);
  }

  /** The name for the `n`-th label, built one letter at a time. */
  method NewLabelName(n: nat) returns (id: string)
    ensures id == LabelName(n)
  {
    var i := n;
    id := "label-";
    id := id + [Letter(i % 26)];
    i := i / 26;
    while i > 0
      invariant id + (if i > 0 then Letters(i) else []) == LabelName(n)
      decreases i
    {
      id := id + [Letter(i % 26)];
      i := i / 26;
    }
  }

  /** `s` is one of the first `n` label names. */
  ghost predicate NamedBelow(s: string, n: nat) {
    exists k :: 0 <= k < n && s == LabelName(k)
  }

  /** The names already handed out in one method: the first |names| label names, each once. */
  ghost predicate WellNamed(names: map<Label, string>) {
    && (forall l :: l in names ==> NamedBelow(names[l], |names|))
    && (forall l1, l2 :: l1 in names && l2 in names && l1 != l2 ==> names[l1] != names[l2])
  }

  /** The next label name is not among the earlier ones. */
  lemma NextNameIsNew(s: string, n: nat)
    requires NamedBelow(s, n)
    ensures s != LabelName(n)
  {
    var k :| 0 <= k < n && s == LabelName(k);
    if s == LabelName(n) {
      LabelNameInjective(k, n);
    }
  }

  /** After naming one more label with the next count, every name is among the first |names| + 1. */
  lemma FreshNamesBelow(names: map<Label, string>, l: Label, n: nat, names': map<Label, string>)
    requires forall l1 :: l1 in names ==> NamedBelow(names[l1], n)
    requires names' == names[l := LabelName(n)]
    ensures forall l1 :: l1 in names' ==> NamedBelow(names'[l1], n + 1)
  {
    forall l1 | l1 in names'
      ensures NamedBelow(names'[l1], n + 1)
    {
      if l1 == l {
        assert names'[l1] == LabelName(n);
      } else {
        var k :| 0 <= k < n && names[l1] == LabelName(k);
        assert names'[l1] == LabelName(k);
      }
    }
  }

  /** Naming one more label with the next count keeps the names distinct. */
  lemma FreshNamesDistinct(names: map<Label, string>, l: Label, n: nat, names': map<Label, string>)
    requires l !in names
    requires forall l1 :: l1 in names ==> NamedBelow(names[l1], n)
    requires forall l1, l2 :: l1 in names && l2 in names && l1 != l2 ==> names[l1] != names[l2]
    requires names' == names[l := LabelName(n)]
    ensures forall l1, l2 :: l1 in names' && l2 in names' && l1 != l2 ==> names'[l1] != names'[l2]
  {
    forall l1 | l1 in names
      ensures names[l1] != LabelName(n)
    {
      NextNameIsNew(names[l1], n);
    }
  }

  /** Naming one more label with the next count keeps the names of a method well formed. */
  lemma FreshLabelName(names: map<Label, string>, l: Label)
    requires WellNamed(names) && l !in names
    ensures WellNamed(names[l := LabelName(|names|)])
  {
    var n := |names|;
    var names' := names[l := LabelName(n)];
    assert |names'| == n + 1;
    FreshNamesBelow(names, l, n, names');
    FreshNamesDistinct(names, l, n, names');
  }

  /** The names given to labels when method bodies are printed, per method. */
  class LabelNames {
    var names: map<MethodNode, map<Label, string>>

    ghost predicate Valid()
      reads this
    {
      forall m :: m in names ==> WellNamed(names[m])
    }

    constructor ()
      ensures Valid() && names == map[]
    {
      names := map[];
    }

    /**
     * The name of a label of a method: the one it already has, or, for a
     * label not yet named in that method, `label-` and the letters of the
     * number of labels named there so far.
     */
    method PrintLabel(m: MethodNode, target: LabelNode) returns (name: string)
      requires Valid()
      modifies this
      ensures Valid()
      ensures m in names && target.asmLabel in names[m] && name == names[m][target.asmLabel]
      ensures m in old(names) && target.asmLabel in old(names)[m] ==> names == old(names)
      ensures m !in old(names) || target.asmLabel !in old(names)[m] ==>
        var before: map<Label, string> := if m in old(names) then old(names)[m] else map[];
        && name == LabelName(|before|)
        && names == old(names)[m := before[target.asmLabel := name]]
    {
      var lbls: map<Label, string> := if m in names then names[m] else map[];
      if m in names && target.asmLabel in lbls {
        return lbls[target.asmLabel];
      }
      name := NewLabelName(|lbls|);
      FreshLabelName(lbls, target.asmLabel);
      names := names[m := lbls[target.asmLabel := name]];
    }

    /** Two different labels of one method never get the same name. */
    method DistinctLabelNames(m: MethodNode, a: LabelNode, b: LabelNode) returns (na: string, nb: string)
      requires Valid()
      requires a.asmLabel != b.asmLabel
      modifies this
      ensures Valid()
      ensures na != nb
    {
      na := PrintLabel(m, a);
      nb := PrintLabel(m, b);
      assert a.asmLabel in names[m] && names[m][a.asmLabel] == na;
      assert WellNamed(names[m]);
    }
  }
}
