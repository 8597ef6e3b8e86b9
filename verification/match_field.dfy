/**
 * What the matcher knows about one field a template refers to: the
 * concrete fields that are still candidates for it, each with the class
 * declaring it, and the fields already checked.
 */
module MatchFields {
  import opened Outcomes
  import opened AsmTypes
  import opened AsmTree

  /** The identity of a template field: its owner class's name, its name and its descriptor. */
  datatype FieldKey = FieldKey(owner: string, name: string, desc: string)

  /** A value wrapped to Java's 32-bit `int`. */
  function Wrap32(x: int): (r: int)
    ensures -0x8000_0000 <= r < 0x8000_0000
    ensures (r - x) % 0x1_0000_0000 == 0
  {
    (x + 0x8000_0000) % 0x1_0000_0000 - 0x8000_0000
  }

  /** Wrapping before a multiply-add changes the result by a multiple of 2^32 only. */
  lemma Wrap32Linear(x: int, k: int, y: int)
    ensures (Wrap32(k * Wrap32(x) + y) - (k * x + y)) % 0x1_0000_0000 == 0
  {
    var w := Wrap32(x);
    var q := (w - x) / 0x1_0000_0000;
    assert w - x == q * 0x1_0000_0000;
    assert k * w + y - (k * x + y) == (k * q) * 0x1_0000_0000;
  }

  /** Java's `String.hashCode`: the characters as a polynomial in 31, in 32-bit arithmetic. */
  function StringHash(s: string): (h: int)
    ensures -0x8000_0000 <= h < 0x8000_0000
  {
    if |s| == 0 then 0 else Wrap32(31 * StringHash(s[..|s| - 1]) + s[|s| - 1] as int)
  }

  /** A candidate: a concrete field and the class it was found in. Pairs are equal when both nodes are the same objects. */
  datatype FieldPair = FieldPair(owner: ClassNode, node: FieldNode)

  // ------------------------------------------------ the list operations

  /** The pairs whose field has not been checked, in their order. */
  function UncheckedIn(ps: seq<FieldPair>, checked: set<FieldNode>): (r: seq<FieldPair>)
    ensures |r| <= |ps|
    ensures forall p :: p in r ==> p in ps && p.node !in checked
    ensures forall p :: p in ps && p.node !in checked ==> p in r
  {
    if ps == [] then []
    else
      assert ps == [ps[0]] + ps[1..];
      (if ps[0].node in checked then [] else [ps[0]]) + UncheckedIn(ps[1..], checked)
  }

  /** The pairs declared by `c`, in their order. */
  function OwnedBy(ps: seq<FieldPair>, c: ClassNode): (r: seq<FieldPair>)
    ensures |r| <= |ps|
    ensures forall p :: p in r ==> p in ps && p.owner == c
    ensures forall p :: p in ps && p.owner == c ==> p in r
  {
    if ps == [] then []
    else
      assert ps == [ps[0]] + ps[1..];
      (if ps[0].owner == c then [ps[0]] else []) + OwnedBy(ps[1..], c)
  }

  /** The pairs not declared by `c`, in their order. */
  function WithoutOwner(ps: seq<FieldPair>, c: ClassNode): (r: seq<FieldPair>)
    ensures |r| <= |ps|
    ensures forall p :: p in r ==> p in ps && p.owner != c
    ensures forall p :: p in ps && p.owner != c ==> p in r
  {
    if ps == [] then []
    else
      assert ps == [ps[0]] + ps[1..];
      (if ps[0].owner == c then [] else [ps[0]]) + WithoutOwner(ps[1..], c)
  }

  /** The field of each pair, pair by pair. */
  function NodesOf(ps: seq<FieldPair>): (r: seq<FieldNode>)
    ensures |r| == |ps|
    ensures forall i :: 0 <= i < |ps| ==> r[i] == ps[i].node
  {
    if ps == [] then [] else [ps[0].node] + NodesOf(ps[1..])
  }

  /** `List.remove(Object)`: drops the first pair equal to `p`, if there is one. */
  function RemoveFirst(ps: seq<FieldPair>, p: FieldPair): (r: seq<FieldPair>)
    ensures p !in ps ==> r == ps
    ensures p in ps ==> |r| == |ps| - 1
    ensures multiset(r) == multiset(ps) - multiset{p}
  {
    if ps == [] then []
    else
      assert ps == [ps[0]] + ps[1..];
      if ps[0] == p then ps[1..] else [ps[0]] + RemoveFirst(ps[1..], p)
  }

  /** The pair removed is the first equal one; the pairs around it keep their order. */
  lemma {:induction false} RemoveFirstAt(ps: seq<FieldPair>, p: FieldPair, i: nat)
    requires i < |ps| && ps[i] == p && p !in ps[..i]
    ensures RemoveFirst(ps, p) == ps[..i] + ps[i + 1..]
  {
    if i > 0 {
      assert ps[0] in ps[..i];
      assert ps[1..][..i - 1] == ps[1..i];
      assert p !in ps[1..][..i - 1];
      RemoveFirstAt(ps[1..], p, i - 1);
      assert ps[1..][i..] == ps[i + 1..];
      assert [ps[0]] + ps[1..i] == ps[..i];
    }
  }

  /** Keeping the pairs of one class commutes with concatenation: their order is kept. */
  lemma {:induction false} OwnedByAppend(ps: seq<FieldPair>, qs: seq<FieldPair>, c: ClassNode)
    ensures OwnedBy(ps + qs, c) == OwnedBy(ps, c) + OwnedBy(qs, c)
  {
    if ps != [] {
      assert (ps + qs)[0] == ps[0];
      assert (ps + qs)[1..] == ps[1..] + qs;
      OwnedByAppend(ps[1..], qs, c);
      var h := if ps[0].owner == c then [ps[0]] else [];
      assert OwnedBy(ps + qs, c) == h + OwnedBy(ps[1..] + qs, c);
      assert h + (OwnedBy(ps[1..], c) + OwnedBy(qs, c)) == (h + OwnedBy(ps[1..], c)) + OwnedBy(qs, c);
    } else {
      assert ps + qs == qs;
    }
  }

  /** Dropping the pairs of one class commutes with concatenation: the rest keep their order. */
  lemma {:induction false} WithoutOwnerAppend(ps: seq<FieldPair>, qs: seq<FieldPair>, c: ClassNode)
    ensures WithoutOwner(ps + qs, c) == WithoutOwner(ps, c) + WithoutOwner(qs, c)
  {
    if ps != [] {
      assert (ps + qs)[0] == ps[0];
      assert (ps + qs)[1..] == ps[1..] + qs;
      WithoutOwnerAppend(ps[1..], qs, c);
      var h := if ps[0].owner == c then [] else [ps[0]];
      assert WithoutOwner(ps + qs, c) == h + WithoutOwner(ps[1..] + qs, c);
      assert h + (WithoutOwner(ps[1..], c) + WithoutOwner(qs, c)) == (h + WithoutOwner(ps[1..], c)) + WithoutOwner(qs, c);
    } else {
      assert ps + qs == qs;
    }
  }

  /** One step of the in-place removal: dropping a pair of `c` at `i` leaves the eventual result unchanged. */
  lemma DropStep(ps: seq<FieldPair>, i: nat, c: ClassNode)
    requires i < |ps| && ps[i].owner == c
    ensures var qs := ps[..i] + ps[i + 1..];
      qs[..i] + WithoutOwner(qs[i..], c) == ps[..i] + WithoutOwner(ps[i..], c)
  {
    var qs := ps[..i] + ps[i + 1..];
    assert qs[..i] == ps[..i];
    assert qs[i..] == ps[i + 1..];
    assert ps[i..] == [ps[i]] + ps[i + 1..];
    assert WithoutOwner(ps[i..], c) == WithoutOwner(ps[i + 1..], c);
  }

  /** One step of the in-place removal: a pair of another class is passed over. */
  lemma KeepStep(ps: seq<FieldPair>, i: nat, c: ClassNode)
    requires i < |ps| && ps[i].owner != c
    ensures ps[..i + 1] + WithoutOwner(ps[i + 1..], c) == ps[..i] + WithoutOwner(ps[i..], c)
  {
    assert ps[i..] == [ps[i]] + ps[i + 1..];
    assert WithoutOwner(ps[i..], c) == [ps[i]] + WithoutOwner(ps[i + 1..], c);
    assert ps[..i + 1] == ps[..i] + [ps[i]];
  }

  /** Dropping one class's pairs leaves the pairs of every other class exactly as they were. */
  lemma {:induction false} WithoutOwnerKeepsOthers(ps: seq<FieldPair>, c: ClassNode, d: ClassNode)
    requires c != d
    ensures OwnedBy(WithoutOwner(ps, c), d) == OwnedBy(ps, d)
    ensures OwnedBy(WithoutOwner(ps, c), c) == []
  {
    if ps != [] {
      var rest := WithoutOwner(ps[1..], c);
      WithoutOwnerKeepsOthers(ps[1..], c, d);
      var head := if ps[0].owner == c then [] else [ps[0]];
      assert WithoutOwner(ps, c) == head + rest;
      OwnedByAppend(head, rest, d);
      OwnedByAppend(head, rest, c);
      if ps[0].owner != c {
        assert OwnedBy(head, d) == (if ps[0].owner == d then [ps[0]] else []) + OwnedBy([], d);
        assert OwnedBy(head, c) == [] + OwnedBy([], c);
      }
    }
  }

  /** Dropping the pairs of a class that declares none changes nothing. */
  lemma {:induction false} WithoutAbsentOwner(ps: seq<FieldPair>, c: ClassNode)
    requires forall p :: p in ps ==> p.owner != c
    ensures WithoutOwner(ps, c) == ps
  {
    if ps != [] {
      assert ps[0] in ps;
      assert forall p :: p in ps[1..] ==> p in ps;
      WithoutAbsentOwner(ps[1..], c);
      assert [ps[0]] + ps[1..] == ps;
    }
  }

  /** Marking more fields checked never makes a pair unchecked again. */
  lemma {:induction false} UncheckedShrinks(ps: seq<FieldPair>, checked: set<FieldNode>, more: set<FieldNode>)
    requires checked <= more
    ensures forall p :: p in UncheckedIn(ps, more) ==> p in UncheckedIn(ps, checked)
  {
  }

  // ------------------------------------------------ the field being matched

  class MatchField {
    /** The name of the template class that declares the field. */
    const owner: string
    const name: string
    const desc: string
    var fieldType: Option<Type>
    var matched: seq<FieldPair>
    var checked: set<FieldNode>

    constructor (owner: string, name: string, desc: string)
      ensures this.owner == owner && this.name == name && this.desc == desc
      ensures fieldType == None && matched == [] && checked == {}
    {
      this.owner := owner;
      this.name := name;
      this.desc := desc;
      fieldType := None;
      matched := [];
      checked := {};
    }

    method SetType(t: Type)
      modifies this
      ensures fieldType == Some(t)
      ensures matched == old(matched) && checked == old(checked)
    {
      fieldType := Some(t);
    }

    /** Records a candidate, unless its field was checked already; the same pair may be recorded twice. */
    method AddMatch(cls: ClassNode, node: FieldNode)
      modifies this
      ensures node in old(checked) ==> matched == old(matched)
      ensures node !in old(checked) ==> matched == old(matched) + [FieldPair(cls, node)]
      ensures checked == old(checked) && fieldType == old(fieldType)
    {
      if node !in checked {
        matched := matched + [FieldPair(cls, node)];
      }
    }

    /** Drops the first record of the pair, if there is one. */
    method RemoveMatch(cls: ClassNode, node: FieldNode)
      modifies this
      ensures matched == RemoveFirst(old(matched), FieldPair(cls, node))
      ensures checked == old(checked) && fieldType == old(fieldType)
    {
      matched := RemoveFirst(matched, FieldPair(cls, node));
    }

    /** `Iterator.remove` on the candidate at position `i`. */
    method DropAt(i: nat)
      requires i < |matched|
      modifies this
      ensures matched == old(matched)[..i] + old(matched)[i + 1..]
      ensures checked == old(checked) && fieldType == old(fieldType)
    {
      matched := matched[..i] + matched[i + 1..];
    }

    /** Drops, in place, every candidate found in `clazz`; afterwards the field no longer uses that class. */
    method RemoveMatchesOf(clazz: ClassNode)
      modifies this
      ensures matched == WithoutOwner(old(matched), clazz)
      ensures !UsesNode(clazz)
      ensures checked == old(checked) && fieldType == old(fieldType)
    {
      var i := 0;
      while i < |matched|
        invariant i <= |matched|
        invariant forall j :: 0 <= j < i ==> matched[j].owner != clazz
        invariant matched[..i] + WithoutOwner(matched[i..], clazz) == WithoutOwner(old(matched), clazz)
        invariant checked == old(checked) && fieldType == old(fieldType)
        decreases |matched| - i
      {
        if matched[i].owner == clazz {
          DropStep(matched, i, clazz);
          DropAt(i);
        } else {
          KeepStep(matched, i, clazz);
          i := i + 1;
        }
      }
      assert matched[..i] == matched;
    }

    /** Marks a field checked; the candidates stay as they are. */
    method AddChecked(node: FieldNode)
      modifies this
      ensures checked == old(checked) + {node}
      ensures matched == old(matched) && fieldType == old(fieldType)
      ensures forall p :: p in Unchecked() ==> p.node != node
    {
      checked := checked + {node};
    }

    /** `getUncheckedMethods`: the candidates whose field is not checked, in order. */
    function Unchecked(): (r: seq<FieldPair>)
      reads this
      ensures forall p :: p in r ==> p in matched && p.node !in checked
      ensures forall p :: p in matched && p.node !in checked ==> p in r
    {
      UncheckedIn(matched, checked)
    }

    /** Some candidate's field is not checked yet; exactly when `Unchecked` is not empty. */
    predicate HasUnchecked()
      reads this
      ensures HasUnchecked() <==> Unchecked() != []
    {
      var r := Unchecked();
      assert r != [] ==> r[0] in r;
      exists p :: p in matched && p.node !in checked
    }

    /** `getMatches()`: the field of every candidate, in the order they were recorded. */
    function Matches(): (r: seq<FieldNode>)
      reads this
      ensures |r| == |matched|
      ensures forall i :: 0 <= i < |matched| ==> r[i] == matched[i].node
    {
      NodesOf(matched)
    }

    /** `getMatches(owner)`: the fields of the candidates found in `cls`, in order. */
    function MatchesOf(cls: ClassNode): (r: seq<FieldNode>)
      reads this
      ensures forall n :: n in r ==> FieldPair(cls, n) in matched
      ensures forall p :: p in matched && p.owner == cls ==> p.node in r
    {
      var owned := OwnedBy(matched, cls);
      var r := NodesOf(owned);
      assert forall n :: n in r ==> FieldPair(cls, n) in owned;
      assert forall p :: p in owned ==> p.node in r by {
        forall p | p in owned
          ensures p.node in r
        {
          var i :| 0 <= i < |owned| && owned[i] == p;
          assert r[i] == p.node;
        }
      }
      r
    }

    /** Some candidate was found in `cls`; exactly when `getMatches(cls)` is not empty. */
    predicate UsesNode(cls: ClassNode)
      reads this
      ensures UsesNode(cls) <==> MatchesOf(cls) != []
    {
      exists p :: p in matched && p.owner == cls
    }

    /** What identifies a template field: its owner, name and descriptor. */
    function Key(): FieldKey {
      FieldKey(owner, name, desc)
    }

    /** Two fields are the same template field when owner, name and descriptor agree; type and candidates do not count. */
    predicate Equals(other: MatchField)
      ensures Equals(other) <==> Key() == other.Key()
    {
      desc == other.desc && name == other.name && owner == other.owner
    }

    /**
     * `hashCode`: owner, name and descriptor combined with the factor 31 in
     * 32-bit arithmetic. The owner's hash is a parameter, since the owner
     * class's `hashCode` is not part of this model.
     */
    function HashCode(ownerHash: int): (h: int)
      ensures -0x8000_0000 <= h < 0x8000_0000
      ensures (h - (961 * ownerHash + 31 * StringHash(name) + StringHash(desc))) % 0x1_0000_0000 == 0
    {
      var r := Wrap32(31 * Wrap32(31 * ownerHash + StringHash(name)) + StringHash(desc));
      Wrap32Linear(31 * ownerHash + StringHash(name), 31, StringHash(desc));
      r
    }
  }

  /** Equal fields have equal hash codes, as Java's contract for `equals` and `hashCode` asks. */
  lemma EqualsHashCode(a: MatchField, b: MatchField, ownerHash: int)
    requires a.Equals(b)
    ensures a.HashCode(ownerHash) == b.HashCode(ownerHash)
  {
  }
}
