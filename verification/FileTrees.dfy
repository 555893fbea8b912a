/** Directory trees as finite maps from relative paths to entries, and the operations a move performs on them. */
module FileTrees {
  type Path = seq<string>

  datatype Node = Dir | File(text: string) | Link(to: string) | Other

  type Tree = map<Path, Node>

  ghost predicate Covered(roots: set<Path>, p: Path) {
    exists u :: u in roots && u <= p
  }

  lemma CoveredByOneMore(roots: set<Path>, u: Path, p: Path)
    ensures Covered(roots + {u}, p) <==> Covered(roots, p) || u <= p
  {
    if Covered(roots, p) {
      var v :| v in roots && v <= p;
      assert v in roots + {u};
    }
    if u <= p { assert u in roots + {u}; }
  }

  /** Every entry sits in a directory of the same tree. */
  ghost predicate Closed(t: Tree) {
    forall p :: p in t && |p| > 0 ==> p[..|p| - 1] in t && t[p[..|p| - 1]].Dir?
  }

  function Under(t: Tree, u: Path): Tree {
    map p | p in t && u <= p :: t[p]
  }

  ghost function Without(t: Tree, roots: set<Path>): Tree {
    map p | p in t && !Covered(roots, p) :: t[p]
  }

  ghost function Within(t: Tree, roots: set<Path>): Tree {
    map p | p in t && Covered(roots, p) :: t[p]
  }

  function Children(t: Tree, p: Path): set<string> {
    set q | q in t && |q| == |p| + 1 && p <= q :: q[|p|]
  }

  /** The entries strictly below `p` that go through one of the named children. */
  ghost function Through(t: Tree, p: Path, names: set<string>): Tree {
    map q | q in t && p < q && q[|p|] in names :: t[q]
  }

  lemma {:induction false} AncestorsPresent(t: Tree, p: Path, q: Path)
    requires Closed(t) && p in t && q <= p
    ensures q in t && (q != p ==> t[q].Dir?)
    decreases |p| - |q|
  {
    if |q| < |p| {
      var parent := p[..|p| - 1];
      assert parent in t;
      assert q <= parent;
      AncestorsPresent(t, parent, q);
    } else {
      assert q == p;
    }
  }

  lemma NothingUnderAbsent(t: Tree, u: Path)
    requires Closed(t) && u !in t
    ensures Under(t, u) == map[]
  {
    forall p | p in t && u <= p ensures false {
      AncestorsPresent(t, p, u);
    }
  }

  lemma OnlyItselfUnderLeaf(t: Tree, p: Path)
    requires Closed(t) && p in t && !t[p].Dir?
    ensures Under(t, p) == map[p := t[p]]
  {
    forall q | q in t && p <= q ensures q == p {
      AncestorsPresent(t, q, p);
    }
  }

  lemma ChildBelow(t: Tree, p: Path, q: Path)
    requires Closed(t) && q in t && p < q
    ensures q[|p|] in Children(t, p) && p + [q[|p|]] <= q
  {
    var c := q[..|p| + 1];
    assert c == p + [q[|p|]];
    AncestorsPresent(t, q, c);
    assert c in t && |c| == |p| + 1 && p <= c && c[|p|] == q[|p|];
  }

  /** Going through one more child adds exactly what lies under it. */
  lemma OneMoreChild(t: Tree, p: Path, names: set<string>, n: string)
    requires n !in names
    ensures Through(t, p, names + {n}) == Through(t, p, names) + Under(t, p + [n])
    ensures Through(t, p, names).Keys !! Under(t, p + [n]).Keys
  {
    var c := p + [n];
    forall q ensures c <= q <==> (p < q && q[|p|] == n) {
      if p < q && q[|p|] == n { assert q[..|c|] == c; }
    }
  }

  lemma UnderShrinks(t: Tree, p: Path, n: string)
    requires p in t
    ensures |Under(t, p + [n])| < |Under(t, p)|
  {
    var c := p + [n];
    assert Under(t, c).Keys <= Under(t, p).Keys by {
      forall q | q in Under(t, c) ensures q in Under(t, p) { assert p <= c <= q; }
    }
    assert p in Under(t, p) && p !in Under(t, c);
    ProperSubsetIsSmaller(Under(t, c).Keys, Under(t, p).Keys);
  }

  lemma ProperSubsetIsSmaller<T>(a: set<T>, b: set<T>)
    requires a < b
    ensures |a| < |b|
  {
    var rest := b - a;
    assert b == a + rest;
    assert rest != {};
  }

  function Bytes(n: Node): nat {
    if n.File? then |n.text| else 0
  }

  ghost function TotalBytes(t: Tree): nat
    decreases |t|
  {
    if t == map[] then 0 else
      var p :| p in t;
      Bytes(t[p]) + TotalBytes(t - {p})
  }

  lemma {:induction false} TotalBytesSplit(t: Tree, p: Path)
    requires p in t
    ensures TotalBytes(t) == Bytes(t[p]) + TotalBytes(t - {p})
    decreases |t|
  {
    var q :| q in t && TotalBytes(t) == Bytes(t[q]) + TotalBytes(t - {q});
    if q != p {
      TotalBytesSplit(t - {q}, p);
      TotalBytesSplit(t - {p}, q);
      assert t - {q} - {p} == t - {p} - {q};
    }
  }

  lemma RemoveFromUnion(a: Tree, b: Tree, p: Path)
    requires p in a && p !in b
    ensures (a + b) - {p} == (a - {p}) + b
    ensures p in a + b && (a + b)[p] == a[p]
    ensures |a - {p}| < |a|
  {
    ProperSubsetIsSmaller((a - {p}).Keys, a.Keys);
  }

  lemma {:induction false} TotalBytesUnion(a: Tree, b: Tree)
    requires a.Keys !! b.Keys
    ensures TotalBytes(a + b) == TotalBytes(a) + TotalBytes(b)
    decreases |a|
  {
    if a.Keys == {} {
      assert a + b == b;
    } else {
      var p :| p in a.Keys;
      RemoveFromUnion(a, b, p);
      TotalBytesSplit(a, p);
      TotalBytesSplit(a + b, p);
      TotalBytesUnion(a - {p}, b);
    }
  }
}
