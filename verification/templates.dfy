/**
 * The parsed forms of a patch template: commands, their modes, the class
 * modifiers (`extends`, `interface`), method declarations and instruction
 * parameters, and the text helpers the template reader uses.
 */
module Templates {
  import opened Outcomes
  import opened AsmTypes
  import opened Idents

  /** `+` adds, `-` removes, anything else only matches. */
  datatype Mode = Add | Remove | Match

  /** One template line, split into its mode, its name and its argument tokens. */
  datatype Command = Command(name: string, mode: Mode, args: seq<string>)

  /** An `extends` or `interface` line of a class template. */
  datatype ModifierClass = ModifierClass(ident: Ident, mode: Mode)

  /**
   * A method declaration of a class template. Its body and the way it is
   * read are not part of this model; the parser receives them as a parameter.
   */
  datatype PatchMethod = PatchMethod(ident: Ident, desc: string, mode: Mode, isStatic: bool, isPrivate: bool)

  /** The parameters of one instruction line of a method body. */
  datatype PatchInstruction = PatchInstruction(params: seq<string>)

  /** A method's template descriptor as a type (ASM 5 reads method and field descriptors alike). */
  function MethodDesc(m: PatchMethod): Type {
    GetType(m.desc)
  }

  /** `r` is `s` with `i` characters up to the space cut from its front and the rest from its back. */
  predicate TrimmedAt(s: string, i: nat, r: string) {
    && i + |r| <= |s| && r == s[i..i + |r|]
    && (forall k :: 0 <= k < i ==> s[k] <= ' ')
    && (forall k :: i + |r| <= k < |s| ==> s[k] <= ' ')
  }

  /** Java's `String.trim`: strips characters up to and including the space from both ends. */
  function Trim(s: string): (r: string)
    ensures |r| <= |s|
    ensures |r| > 0 ==> r[0] > ' ' && r[|r| - 1] > ' '
    ensures forall i :: 0 <= i < |s| && s[i] > ' ' ==> |r| > 0
  {
    if |s| > 0 && s[0] <= ' ' then Trim(s[1..])
    else if |s| > 0 && s[|s| - 1] <= ' ' then Trim(s[..|s| - 1])
    else s
  }

  /** Putting back a character up to the space in front keeps a trimmed infix. */
  lemma TrimmedAtFront(s: string, j: nat, r: string)
    requires |s| > 0 && s[0] <= ' ' && TrimmedAt(s[1..], j, r)
    ensures TrimmedAt(s, j + 1, r)
  {
    assert s[j + 1..j + 1 + |r|] == s[1..][j..j + |r|];
  }

  /** Putting back a character up to the space at the end keeps a trimmed infix. */
  lemma TrimmedAtBack(s: string, j: nat, r: string)
    requires |s| > 0 && s[|s| - 1] <= ' ' && TrimmedAt(s[..|s| - 1], j, r)
    ensures TrimmedAt(s, j, r)
  {
    assert s[j..j + |r|] == s[..|s| - 1][j..j + |r|];
  }

  /**
   * The trimmed text is the infix of `s` left once the characters up to
   * the space are cut from both ends, and it begins and ends above the space.
   */
  lemma {:induction false} TrimInfix(s: string) returns (i: nat)
    ensures TrimmedAt(s, i, Trim(s))
    ensures |Trim(s)| > 0 ==> Trim(s)[0] > ' ' && Trim(s)[|Trim(s)| - 1] > ' '
    decreases |s|
  {
    if |s| > 0 && s[0] <= ' ' {
      var j := TrimInfix(s[1..]);
      TrimmedAtFront(s, j, Trim(s));
      i := j + 1;
    } else if |s| > 0 && s[|s| - 1] <= ' ' {
      i := TrimInfix(s[..|s| - 1]);
      TrimmedAtBack(s, i, Trim(s));
    } else {
      i := 0;
      assert s[0..|s|] == s;
    }
  }

  /** A line the class reader skips: empty once trimmed, or a `//` comment. */
  predicate IsSkipped(line: string) {
    var t := Trim(line);
    |t| == 0 || (|t| >= 2 && t[..2] == "//")
  }

  /** The total length of the tokens. */
  function TotalLength(parts: seq<string>): nat {
    if parts == [] then 0 else |parts[0]| + TotalLength(parts[1..])
  }

  /** Tokens joined with single spaces. */
  function Join(parts: seq<string>): (r: string)
    ensures parts == [] ==> r == ""
    ensures |parts| == 1 ==> r == parts[0]
    ensures parts != [] ==> |r| == TotalLength(parts) + |parts| - 1
  {
    if parts == [] then ""
    else if |parts| == 1 then parts[0]
    else parts[0] + " " + Join(parts[1..])
  }

  /** The text cut at every space; the pieces hold no space, and two adjacent spaces leave an empty piece. */
  function SplitSpaces(s: string): (r: seq<string>)
    ensures |r| >= 1
    ensures forall i :: 0 <= i < |r| ==> ' ' !in r[i]
    decreases |s|
  {
    if s == [] then [""]
    else
      var rest := SplitSpaces(s[1..]);
      if s[0] == ' ' then [""] + rest
      else [[s[0]] + rest[0]] + rest[1..]
  }

  /** Joining the pieces of a text cut at its spaces gives the text back. */
  lemma {:induction false} SplitThenJoin(s: string)
    ensures Join(SplitSpaces(s)) == s
    decreases |s|
  {
    if s != [] {
      SplitThenJoin(s[1..]);
      var rest := SplitSpaces(s[1..]);
      if s[0] == ' ' {
        assert ([""] + rest)[1..] == rest;
      } else if |rest| > 1 {
        assert ([[s[0]] + rest[0]] + rest[1..])[1..] == rest[1..];
        assert Join(rest) == rest[0] + " " + Join(rest[1..]);
      }
      assert s == [s[0]] + s[1..];
    }
  }

  /** Cutting a text that starts with a token without spaces puts that token in front of the first piece. */
  lemma {:induction false} SplitAfterToken(p: string, s: string)
    requires ' ' !in p
    ensures SplitSpaces(p + s) == [p + SplitSpaces(s)[0]] + SplitSpaces(s)[1..]
    decreases |p|
  {
    if p != [] {
      assert (p + s)[1..] == p[1..] + s;
      assert p[0] != ' ' by { assert p[0] in p; }
      SplitAfterToken(p[1..], s);
      assert [p[0]] + (p[1..] + SplitSpaces(s)[0]) == p + SplitSpaces(s)[0];
    } else {
      var r := SplitSpaces(s);
      assert p + s == s;
      assert p + r[0] == r[0];
      assert [r[0]] + r[1..] == r;
    }
  }

  /** Tokens without spaces, joined and cut at the spaces again, are the tokens. */
  lemma {:induction false} JoinThenSplit(parts: seq<string>)
    requires parts != []
    requires forall i :: 0 <= i < |parts| ==> ' ' !in parts[i]
    ensures SplitSpaces(Join(parts)) == parts
    decreases |parts|
  {
    if |parts| == 1 {
      SplitAfterToken(parts[0], "");
      assert parts[0] + "" == parts[0];
    } else {
      var rest := Join(parts[1..]);
      JoinThenSplit(parts[1..]);
      assert parts[0] + " " + rest == parts[0] + (" " + rest);
      SplitAfterToken(parts[0], " " + rest);
      assert (" " + rest)[1..] == rest;
      assert SplitSpaces(" " + rest) == [""] + parts[1..];
      assert parts[0] + "" == parts[0];
    }
  }
}
