/** Values shared by every module: bytes, 32-byte identifiers, opouts and their order. */
module Base {

  datatype Option<+T> = None | Some(value: T)

  datatype Result<+T, +E> = Ok(value: T) | Err(error: E)

  type Byte = x: int | 0 <= x < 0x100
  type U16 = x: int | 0 <= x < 0x1_0000
  type Bytes = seq<Byte>

  /** A 32-byte hash: operation, contract, protocol and bundle identifiers. */
  type Id = s: Bytes | |s| == 32 witness seq(32, i => 0)
  type OpId = Id
  type ContractId = Id

  /** The position of the first element that satisfies `p`, or the length. */
  function FirstIndex<T>(s: seq<T>, p: T -> bool): (i: nat)
    ensures i <= |s|
    ensures i < |s| ==> p(s[i])
    ensures forall j :: 0 <= j < i ==> !p(s[j])
  {
    if s == [] || p(s[0]) then 0 else 1 + FirstIndex(s[1..], p)
  }

  /** An input allocation: an assignment of type `ty`, number `no`, made by operation `op`. */
  datatype Opout = Opout(op: OpId, ty: U16, no: U16)

  /* Lexicographic order of byte arrays of one length. */
  predicate BytesBelow(a: Bytes, b: Bytes)
    requires |a| == |b|
  {
    a != [] && (a[0] < b[0] || (a[0] == b[0] && BytesBelow(a[1..], b[1..])))
  }

  /* The order in which a `BTreeMap` or `BTreeSet` of opouts iterates. */
  predicate Below(a: Opout, b: Opout) {
    || BytesBelow(a.op, b.op)
    || (a.op == b.op && (a.ty < b.ty || (a.ty == b.ty && a.no < b.no)))
  }

  ghost predicate DiffersFirstAt(a: Bytes, b: Bytes, i: nat)
    requires |a| == |b| && i < |a|
  {
    a[i] != b[i] && forall j :: 0 <= j < i ==> a[j] == b[j]
  }

  /** Byte arrays are ordered by the first byte in which they differ, opouts by operation, then type, then number. */
  lemma {:induction false} BytesBelowAt(a: Bytes, b: Bytes, i: nat)
    requires |a| == |b| && i < |a| && DiffersFirstAt(a, b, i)
    ensures BytesBelow(a, b) <==> a[i] < b[i]
  {
    if i > 0 {
      assert a[0] == b[0] && DiffersFirstAt(a[1..], b[1..], i - 1);
      BytesBelowAt(a[1..], b[1..], i - 1);
    }
  }

  lemma BelowByFields(a: Opout, b: Opout)
    ensures forall i :: 0 <= i < 32 && DiffersFirstAt(a.op, b.op, i) ==> (Below(a, b) <==> a.op[i] < b.op[i])
    ensures a.op == b.op && a.ty != b.ty ==> (Below(a, b) <==> a.ty < b.ty)
    ensures a.op == b.op && a.ty == b.ty ==> (Below(a, b) <==> a.no < b.no)
  {
    forall i | 0 <= i < 32 && DiffersFirstAt(a.op, b.op, i) ensures Below(a, b) <==> a.op[i] < b.op[i] {
      BytesBelowAt(a.op, b.op, i);
    }
    BytesBelowTotal(a.op, b.op);
  }

  lemma {:induction false} BytesBelowTotal(a: Bytes, b: Bytes)
    requires |a| == |b|
    ensures a == b || BytesBelow(a, b) || BytesBelow(b, a)
    ensures BytesBelow(a, b) ==> !BytesBelow(b, a) && a != b
  {
    if a != [] {
      BytesBelowTotal(a[1..], b[1..]);
      assert a == [a[0]] + a[1..] && b == [b[0]] + b[1..];
    }
  }

  lemma {:induction false} BytesBelowTransitive(a: Bytes, b: Bytes, c: Bytes)
    requires |a| == |b| == |c|
    requires BytesBelow(a, b) && BytesBelow(b, c)
    ensures BytesBelow(a, c)
  {
    if a[0] == b[0] == c[0] {
      BytesBelowTransitive(a[1..], b[1..], c[1..]);
    }
  }

  lemma BelowTotal(a: Opout, b: Opout)
    ensures a == b || Below(a, b) || Below(b, a)
    ensures Below(a, b) ==> !Below(b, a) && a != b
  {
    BytesBelowTotal(a.op, b.op);
    BytesBelowTotal(b.op, a.op);
  }

  lemma BelowTransitive(a: Opout, b: Opout, c: Opout)
    requires Below(a, b) && Below(b, c)
    ensures Below(a, c)
  {
    if BytesBelow(a.op, b.op) && BytesBelow(b.op, c.op) {
      BytesBelowTransitive(a.op, b.op, c.op);
    }
  }

  ghost predicate IsLeast(o: Opout, s: set<Opout>) {
    o in s && forall p :: p in s && p != o ==> Below(o, p)
  }

  lemma {:induction false} LeastExists(s: set<Opout>)
    requires s != {}
    ensures exists o :: IsLeast(o, s)
  {
    var x :| x in s;
    if s == {x} {
      assert IsLeast(x, s);
    } else {
      LeastExists(s - {x});
      var y :| IsLeast(y, s - {x});
      BelowTotal(x, y);
      if Below(x, y) {
        forall p | p in s && p != x ensures Below(x, p) {
          if p != y { BelowTransitive(x, y, p); }
        }
        assert IsLeast(x, s);
      } else {
        assert IsLeast(y, s);
      }
    }
  }

  ghost function Least(s: set<Opout>): (o: Opout)
    requires s != {}
    ensures IsLeast(o, s)
  {
    LeastExists(s);
    var o :| IsLeast(o, s);
    o
  }

  /** The elements of `s` in iteration order. */
  ghost function Ascending(s: set<Opout>): (r: seq<Opout>)
    ensures |r| == |s|
    ensures forall o :: o in r <==> o in s
  {
    if s == {} then [] else [Least(s)] + Ascending(s - {Least(s)})
  }

  ghost predicate IsAscending(xs: seq<Opout>) {
    forall i, j :: 0 <= i < j < |xs| ==> Below(xs[i], xs[j])
  }

  lemma {:induction false} AscendingIsAscending(s: set<Opout>)
    ensures IsAscending(Ascending(s))
  {
    if s != {} {
      var o := Least(s);
      var xs, rest := Ascending(s), Ascending(s - {o});
      AscendingIsAscending(s - {o});
      forall i, j | 0 <= i < j < |xs| ensures Below(xs[i], xs[j]) {
        assert xs[j] == rest[j - 1] && rest[j - 1] in rest;
        if i > 0 { assert xs[i] == rest[i - 1]; }
      }
    }
  }

  lemma AscendingHead(xs: seq<Opout>, s: set<Opout>)
    requires IsAscending(xs) && s != {}
    requires forall o :: o in xs <==> o in s
    ensures xs != [] && xs[0] == Least(s)
  {
    var o := Least(s);
    assert o in xs;
    var k :| 0 <= k < |xs| && xs[k] == o;
    assert xs[0] in xs && xs[0] in s;
    BelowTotal(xs[0], o);
  }

  lemma AscendingTail(xs: seq<Opout>, s: set<Opout>)
    requires IsAscending(xs) && xs != []
    requires forall o :: o in xs <==> o in s
    ensures IsAscending(xs[1..])
    ensures forall o :: o in xs[1..] <==> o in s - {xs[0]}
  {
    forall o ensures o in xs[1..] <==> o in s - {xs[0]} {
      if o in xs[1..] {
        assert o in xs;
        var j :| 0 <= j < |xs[1..]| && xs[1..][j] == o;
        BelowTotal(xs[0], xs[j + 1]);
      }
    }
  }

  /* Iteration order is canonical: only one ascending sequence has these elements. */
  lemma {:induction false} AscendingUnique(xs: seq<Opout>, s: set<Opout>)
    requires IsAscending(xs)
    requires forall o :: o in xs <==> o in s
    ensures xs == Ascending(s)
  {
    if s != {} {
      AscendingHead(xs, s);
      AscendingTail(xs, s);
      AscendingUnique(xs[1..], s - {xs[0]});
    }
  }

  lemma {:induction false} SubsetSize<T>(a: set<T>, b: set<T>)
    requires a <= b
    ensures |a| <= |b|
    ensures a != b ==> |a| < |b|
  {
    if a != {} {
      var x :| x in a;
      SubsetSize(a - {x}, b - {x});
    } else if b != {} {
      var x :| x in b;
      assert |b| > 0;
    }
  }
}
