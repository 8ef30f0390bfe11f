// The node store shared by data trees and compiled schemas: a forest of
// top-level siblings, each node addressed by the path of child indices
// leading to it. A path is the node's identity, so the pointer comparison
// `self.raw == other.raw` of the bindings is path equality here.
module Forest {
  import opened Common

  datatype Tree<L> = Node(info: L, children: seq<Tree<L>>)

  type Path = seq<nat>

  function Init(p: Path): Path
    requires |p| > 0
  {
    p[..|p| - 1]
  }

  function Last(p: Path): nat
    requires |p| > 0
  {
    p[|p| - 1]
  }

  /** `a` is `b` or one of its ancestors. */
  predicate IsPrefix(a: Path, b: Path) {
    |a| <= |b| && b[..|a|] == a
  }

  /** `r` leads from `t` to one of its descendants (or to `t` itself). */
  predicate ValidRel<L>(t: Tree<L>, r: Path)
    decreases r
  {
    r == [] || (r[0] < |t.children| && ValidRel(t.children[r[0]], r[1..]))
  }

  function AtRel<L>(t: Tree<L>, r: Path): Tree<L>
    requires ValidRel(t, r)
    decreases r
  {
    if r == [] then t else AtRel(t.children[r[0]], r[1..])
  }

  /** `p` names a node of the forest `f`. */
  predicate ValidIn<L>(f: seq<Tree<L>>, p: Path) {
    |p| > 0 && p[0] < |f| && ValidRel(f[p[0]], p[1..])
  }

  /** The subtree rooted at node `p`. */
  function At<L>(f: seq<Tree<L>>, p: Path): Tree<L>
    requires ValidIn(f, p)
  {
    AtRel(f[p[0]], p[1..])
  }

  lemma {:induction false} RelCompose<L>(t: Tree<L>, a: Path, b: Path)
    ensures ValidRel(t, a + b) <==> ValidRel(t, a) && ValidRel(AtRel(t, a), b)
    ensures ValidRel(t, a + b) ==> AtRel(t, a + b) == AtRel(AtRel(t, a), b)
    decreases a
  {
    if a == [] {
      assert a + b == b;
    } else {
      assert (a + b)[0] == a[0];
      assert (a + b)[1..] == a[1..] + b;
      if a[0] < |t.children| {
        RelCompose(t.children[a[0]], a[1..], b);
      }
    }
  }

  /** Validity and subtree of a path extended by `b`, relative to the node it extends. */
  lemma Compose<L>(f: seq<Tree<L>>, p: Path, b: Path)
    requires |p| > 0
    ensures ValidIn(f, p + b) <==> ValidIn(f, p) && ValidRel(At(f, p), b)
    ensures ValidIn(f, p + b) ==> At(f, p + b) == AtRel(At(f, p), b)
  {
    assert (p + b)[0] == p[0];
    assert (p + b)[1..] == p[1..] + b;
    if p[0] < |f| {
      RelCompose(f[p[0]], p[1..], b);
    }
  }

  /** The `i`-th child of node `p` is the node at `p + [i]`. */
  lemma ChildAt<L>(f: seq<Tree<L>>, p: Path, i: nat)
    requires |p| > 0
    ensures ValidIn(f, p + [i]) <==> ValidIn(f, p) && i < |At(f, p).children|
    ensures ValidIn(f, p + [i]) ==> At(f, p + [i]) == At(f, p).children[i]
  {
    Compose(f, p, [i]);
    if ValidIn(f, p) && i < |At(f, p).children| {
      assert [i][1..] == [];
    }
  }

  /** A node below the top level: its parent is a node and it is that parent's child. */
  lemma ParentAt<L>(f: seq<Tree<L>>, q: Path)
    requires ValidIn(f, q) && |q| > 1
    ensures ValidIn(f, Init(q)) && Last(q) < |At(f, Init(q)).children|
    ensures At(f, q) == At(f, Init(q)).children[Last(q)]
  {
    assert q == Init(q) + [Last(q)];
    ChildAt(f, Init(q), Last(q));
  }

  /** Number of nodes in the sibling list holding `p` (top level or a parent's children). */
  function SiblingCount<L>(f: seq<Tree<L>>, p: Path): nat
    requires ValidIn(f, p)
  {
    if |p| == 1 then |f| else ParentAt(f, p); |At(f, Init(p)).children|
  }

  /** A node's position is within its sibling list. */
  lemma PositionInSiblings<L>(f: seq<Tree<L>>, p: Path)
    requires ValidIn(f, p)
    ensures Last(p) < SiblingCount(f, p)
  {
    if |p| > 1 {
      ParentAt(f, p);
    }
  }

  /** NodeIterable::parent: the enclosing node, none for a top-level node. */
  function Parent<L>(f: seq<Tree<L>>, p: Path): (r: Option<Path>)
    requires ValidIn(f, p)
    ensures r.None? <==> |p| == 1
    ensures r.Some? ==> ValidIn(f, r.value) && |r.value| == |p| - 1 && IsPrefix(r.value, p)
  {
    if |p| == 1 then None else ParentAt(f, p); Some(Init(p))
  }

  /** NodeIterable::next_sibling: the node after `p` in its sibling list. */
  function NextSibling<L>(f: seq<Tree<L>>, p: Path): (r: Option<Path>)
    requires ValidIn(f, p)
    ensures r.None? <==> Last(p) + 1 == SiblingCount(f, p)
    ensures r.Some? ==>
              && ValidIn(f, r.value) && |r.value| == |p| && Init(r.value) == Init(p)
              && Last(r.value) == Last(p) + 1 && SiblingCount(f, r.value) == SiblingCount(f, p)
  {
    var q := Init(p) + [Last(p) + 1];
    assert Init(q) == Init(p) && Last(q) == Last(p) + 1;
    if |p| == 1 then
      if p[0] + 1 < |f| then Some(q) else None
    else
      ParentAt(f, p);
      ChildAt(f, Init(p), Last(p) + 1);
      if Last(p) + 1 < |At(f, Init(p)).children| then Some(q) else None
  }

  /** NodeIterable::first_child: the first of the node's children. */
  function FirstChild<L>(f: seq<Tree<L>>, p: Path): (r: Option<Path>)
    requires ValidIn(f, p)
    ensures r.None? <==> At(f, p).children == []
    ensures r.Some? ==> r.value == p + [0] && ValidIn(f, r.value) && At(f, r.value) == At(f, p).children[0]
  {
    ChildAt(f, p, 0);
    if |At(f, p).children| > 0 then Some(p + [0]) else None
  }

  /** lyd_first_sibling: the first node of the sibling list holding `p`. */
  function FirstSibling(p: Path): (r: Path)
    requires |p| > 0
    ensures |r| == |p| && Init(r) == Init(p) && Last(r) == 0
  {
    Init(p) + [0]
  }

  lemma FirstSiblingValid<L>(f: seq<Tree<L>>, p: Path)
    requires ValidIn(f, p)
    ensures ValidIn(f, FirstSibling(p))
  {
    if |p| == 1 {
      assert FirstSibling(p) == [0];
    } else {
      ParentAt(f, p);
      ChildAt(f, Init(p), 0);
    }
  }

  // ---------------------------------------------------------------------
  // Pre-order listings

  /** Pre-order listing of the subtree `t`, whose root is the node at `q`. */
  function Pre<L>(t: Tree<L>, q: Path): seq<Path>
    decreases t, |t.children| + 1
  {
    [q] + PreChildren(t, q, 0)
  }

  /** Pre-order listings of the children `i..` of `t`, one after the other. */
  function PreChildren<L>(t: Tree<L>, q: Path, i: nat): seq<Path>
    decreases t, |t.children| - i
  {
    if i >= |t.children| then [] else Pre(t.children[i], q + [i]) + PreChildren(t, q, i + 1)
  }

  /** Pre-order listing of the whole forest from the top-level node `i` on. */
  function TopPre<L>(f: seq<Tree<L>>, i: nat): seq<Path>
    decreases |f| - i
  {
    if i >= |f| then [] else Pre(f[i], [i]) + TopPre(f, i + 1)
  }

  /** The nodes of the subtree rooted at node `s`, in pre-order. */
  function Subtree<L>(f: seq<Tree<L>>, s: Path): seq<Path>
    requires ValidIn(f, s)
  {
    Pre(At(f, s), s)
  }

  lemma {:induction false} PreMembers<L>(t: Tree<L>, q: Path)
    ensures forall p :: p in Pre(t, q) <==> IsPrefix(q, p) && ValidRel(t, p[|q|..])
    ensures NoDup(Pre(t, q))
    decreases t, |t.children| + 1
  {
    PreChildrenMembers(t, q, 0);
    forall p | IsPrefix(q, p) && ValidRel(t, p[|q|..])
      ensures p in Pre(t, q)
    {
      if |p| == |q| {
        assert p == q;
      } else {
        assert p[|q|..][0] == p[|q|];
        assert p[|q|..][1..] == p[|q| + 1..];
      }
    }
    forall p | p in Pre(t, q)
      ensures IsPrefix(q, p) && ValidRel(t, p[|q|..])
    {
      if p != q {
        assert p in PreChildren(t, q, 0);
        assert p[|q|..][0] == p[|q|];
        assert p[|q|..][1..] == p[|q| + 1..];
      } else {
        assert p[|q|..] == [];
      }
    }
    NoDupConcat([q], PreChildren(t, q, 0));
  }

  /** `p` lies below the `i`-th child of `q` exactly when it extends `q` with index `i`. */
  lemma ChildPrefix(q: Path, i: nat, p: Path)
    ensures IsPrefix(q + [i], p) <==> |p| > |q| && p[..|q|] == q && p[|q|] == i
  {
    if |p| > |q| && p[..|q|] == q && p[|q|] == i {
      assert p[..|q| + 1] == q + [i];
    }
    if IsPrefix(q + [i], p) {
      assert p[..|q|] == p[..|q| + 1][..|q|];
      assert p[|q|] == p[..|q| + 1][|q|];
    }
  }

  lemma {:induction false} PreChildrenMembers<L>(t: Tree<L>, q: Path, i: nat)
    ensures forall p :: p in PreChildren(t, q, i) <==>
      |p| > |q| && p[..|q|] == q && i <= p[|q|] < |t.children| && ValidRel(t.children[p[|q|]], p[|q| + 1..])
    ensures NoDup(PreChildren(t, q, i))
    decreases t, |t.children| - i
  {
    if i < |t.children| {
      var c := t.children[i];
      var head, rest := Pre(c, q + [i]), PreChildren(t, q, i + 1);
      PreMembers(c, q + [i]);
      PreChildrenMembers(t, q, i + 1);
      assert PreChildren(t, q, i) == head + rest;
      forall p
        ensures p in head <==>
          |p| > |q| && p[..|q|] == q && p[|q|] == i && ValidRel(c, p[|q| + 1..])
      {
        ChildPrefix(q, i, p);
      }
      forall p | p in head
        ensures p !in rest
      {
      }
      NoDupConcat(head, rest);
    }
  }

  /** Node `p` is listed in the pre-order of node `s`'s subtree exactly when it is `s` or a descendant of `s`. */
  lemma SubtreeMembers<L>(f: seq<Tree<L>>, s: Path)
    requires ValidIn(f, s)
    ensures forall p :: p in Subtree(f, s) <==> ValidIn(f, p) && IsPrefix(s, p)
    ensures NoDup(Subtree(f, s))
  {
    PreMembers(At(f, s), s);
    forall p
      ensures p in Subtree(f, s) <==> ValidIn(f, p) && IsPrefix(s, p)
    {
      if IsPrefix(s, p) {
        assert p == s + p[|s|..];
        Compose(f, s, p[|s|..]);
      }
    }
  }

  lemma {:induction false} TopPreMembers<L>(f: seq<Tree<L>>, i: nat)
    ensures forall p :: p in TopPre(f, i) <==> ValidIn(f, p) && p[0] >= i
    ensures NoDup(TopPre(f, i))
    decreases |f| - i
  {
    if i < |f| {
      SubtreeMembers(f, [i]);
      assert At(f, [i]) == f[i] by { assert [i][1..] == []; }
      TopPreMembers(f, i + 1);
      forall p
        ensures p in Pre(f[i], [i]) <==> ValidIn(f, p) && p[0] == i
      {
        if |p| > 0 {
          assert IsPrefix([i], p) <==> p[0] == i by { assert p[..1] == [p[0]]; }
        }
      }
      NoDupConcat(Pre(f[i], [i]), TopPre(f, i + 1));
    }
  }

  // ---------------------------------------------------------------------
  // Chains

  /** Node `p` followed by every later sibling, as Siblings yields them. */
  function SiblingChain<L>(f: seq<Tree<L>>, p: Path): (r: seq<Path>)
    requires ValidIn(f, p)
    ensures forall q :: q in r ==> ValidIn(f, q)
    decreases SiblingCount(f, p) - Last(p)
  {
    match NextSibling(f, p)
    case None => [p]
    case Some(q) => [p] + SiblingChain(f, q)
  }

  /** Node `p` followed by its ancestors up to the top level, as Ancestors yields them. */
  function AncestorChain<L>(f: seq<Tree<L>>, p: Path): seq<Path>
    requires ValidIn(f, p)
    decreases |p|
  {
    match Parent(f, p)
    case None => [p]
    case Some(q) => [p] + AncestorChain(f, q)
  }

  /** The chain of siblings from `p` is every sibling at position `Last(p)` or later, in order. */
  lemma {:induction false} SiblingChainSpec<L>(f: seq<Tree<L>>, p: Path)
    requires ValidIn(f, p)
    ensures |SiblingChain(f, p)| == SiblingCount(f, p) - Last(p)
    ensures forall k :: 0 <= k < |SiblingChain(f, p)| ==> SiblingChain(f, p)[k] == Init(p) + [Last(p) + k]
    decreases SiblingCount(f, p) - Last(p)
  {
    assert p == Init(p) + [Last(p) + 0];
    match NextSibling(f, p)
    case None =>
    case Some(q) =>
      SiblingChainSpec(f, q);
      assert q == Init(p) + [Last(p) + 1];
  }

  /** The ancestor chain of `p` lists `p` and each of its proper prefixes, longest first. */
  lemma {:induction false} AncestorChainSpec<L>(f: seq<Tree<L>>, p: Path)
    requires ValidIn(f, p)
    ensures |AncestorChain(f, p)| == |p|
    ensures forall k :: 0 <= k < |p| ==> AncestorChain(f, p)[k] == p[..|p| - k]
    decreases |p|
  {
    match Parent(f, p)
    case None =>
    case Some(q) =>
      AncestorChainSpec(f, q);
      forall k | 1 <= k < |p|
        ensures AncestorChain(f, p)[k] == p[..|p| - k]
      {
        assert AncestorChain(f, p)[k] == AncestorChain(f, q)[k - 1];
        assert q[..|q| - (k - 1)] == p[..|p| - k];
      }
  }

  // ---------------------------------------------------------------------
  // Filtering children

  /** The children of `p` from index `i` on whose labels `keep` accepts, in child order. */
  function ChildrenWhere<L>(f: seq<Tree<L>>, p: Path, i: nat, keep: L -> bool): seq<Path>
    requires ValidIn(f, p)
    decreases |At(f, p).children| - i
  {
    if i >= |At(f, p).children| then []
    else
      var rest := ChildrenWhere(f, p, i + 1, keep);
      if keep(At(f, p).children[i].info) then [p + [i]] + rest else rest
  }

  /** Every selected path is a child of `p` at index `i` or later. */
  lemma {:induction false} ChildrenWhereBounds<L>(f: seq<Tree<L>>, p: Path, i: nat, keep: L -> bool)
    requires ValidIn(f, p)
    ensures forall q :: q in ChildrenWhere(f, p, i, keep) ==>
              |q| == |p| + 1 && q[..|p|] == p && i <= Last(q) < |At(f, p).children|
    decreases |At(f, p).children| - i
  {
    if i < |At(f, p).children| {
      ChildrenWhereBounds(f, p, i + 1, keep);
      assert (p + [i])[..|p|] == p && Last(p + [i]) == i;
    }
  }

  /** Every selected path is a child of `p` at index `i` or later, listed in increasing child order. */
  lemma {:induction false} ChildrenWhereOrdered<L>(f: seq<Tree<L>>, p: Path, i: nat, keep: L -> bool)
    requires ValidIn(f, p)
    ensures forall q :: q in ChildrenWhere(f, p, i, keep) ==>
              |q| == |p| + 1 && q[..|p|] == p && i <= Last(q) < |At(f, p).children|
    ensures forall a, b :: 0 <= a < b < |ChildrenWhere(f, p, i, keep)| ==>
              Last(ChildrenWhere(f, p, i, keep)[a]) < Last(ChildrenWhere(f, p, i, keep)[b])
    decreases |At(f, p).children| - i
  {
    ChildrenWhereBounds(f, p, i, keep);
    if i < |At(f, p).children| {
      ChildrenWhereOrdered(f, p, i + 1, keep);
      ChildrenWhereBounds(f, p, i + 1, keep);
      var rest := ChildrenWhere(f, p, i + 1, keep);
      var r := ChildrenWhere(f, p, i, keep);
      if keep(At(f, p).children[i].info) {
        assert r == [p + [i]] + rest;
        forall a, b | 0 <= a < b < |r|
          ensures Last(r[a]) < Last(r[b])
        {
          assert r[b] == rest[b - 1];
          if a > 0 {
            assert r[a] == rest[a - 1];
          } else {
            assert Last(r[a]) == i;
            assert rest[b - 1] in rest;
          }
        }
      } else {
        assert r == rest;
      }
    }
  }

  /** The selected paths are exactly the children at index `i` or later whose labels `keep` accepts. */
  lemma {:induction false} ChildrenWhereMembers<L>(f: seq<Tree<L>>, p: Path, i: nat, keep: L -> bool)
    requires ValidIn(f, p)
    ensures forall c :: p + [c] in ChildrenWhere(f, p, i, keep) <==>
              i <= c < |At(f, p).children| && keep(At(f, p).children[c].info)
    decreases |At(f, p).children| - i
  {
    ChildrenWhereOrdered(f, p, i, keep);
    if i < |At(f, p).children| {
      ChildrenWhereMembers(f, p, i + 1, keep);
      ChildrenWhereOrdered(f, p, i + 1, keep);
      forall c | p + [c] in ChildrenWhere(f, p, i, keep)
        ensures i <= c < |At(f, p).children| && keep(At(f, p).children[c].info)
      {
        assert Last(p + [c]) == c;
        if p + [c] !in ChildrenWhere(f, p, i + 1, keep) {
          assert p + [c] == p + [i];
          assert c == Last(p + [i]);
        }
      }
    }
  }
}
