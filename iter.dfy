// The iterators of src/iter.rs. Each is a class whose fields are the
// cursor the Rust struct keeps; `Remaining()` is the sequence of items the
// iterator still yields, and every `Next` is proved to yield its head and
// leave its tail. The `...All` methods drive an iterator to exhaustion the
// way a Rust consumer (`collect`, `for`) does.
module Iter {
  import opened Common
  import opened Forest

  /** Head of a listing: what the next call of `next()` returns. */
  function Head<T>(s: seq<T>): (r: Option<T>)
    ensures r.None? <==> s == []
    ensures r.Some? ==> r.value == s[0]
  {
    if s == [] then None else Some(s[0])
  }

  function Tail<T>(s: seq<T>): seq<T> {
    if s == [] then [] else s[1..]
  }

  /** One step of draining a listing: the item taken moves from what remains to what was collected. */
  lemma DrainStep<T>(out: seq<T>, rem: seq<T>, x: T)
    requires Head(rem) == Some(x)
    ensures (out + [x]) + Tail(rem) == out + rem
  {
    assert rem == [x] + rem[1..];
  }

  /** A drained listing adds nothing to what was collected. */
  lemma DrainDone<T>(out: seq<T>, rem: seq<T>)
    requires Head(rem).None?
    ensures out + rem == out
  {
  }

  // ---------------------------------------------------------------------
  // Siblings and Ancestors

  class Siblings<L> {
    const forest: seq<Tree<L>>
    var next: Option<Path>

    ghost predicate Valid()
      reads this
    {
      next.Some? ==> ValidIn(forest, next.value)
    }

    ghost function Remaining(): seq<Path>
      reads this
      requires Valid()
    {
      if next.None? then [] else SiblingChain(forest, next.value)
    }

    constructor (forest: seq<Tree<L>>, next: Option<Path>)
      requires next.Some? ==> ValidIn(forest, next.value)
      ensures Valid() && this.forest == forest && this.next == next
    {
      this.forest := forest;
      this.next := next;
    }

    method Next() returns (ret: Option<Path>)
      requires Valid()
      modifies this
      ensures Valid()
      ensures ret == Head(old(Remaining())) && Remaining() == Tail(old(Remaining()))
      ensures ret.Some? ==> ValidIn(forest, ret.value)
    {
      ret := next;
      if next.Some? {
        next := NextSibling(forest, next.value);
      }
    }
  }

  class Ancestors<L> {
    const forest: seq<Tree<L>>
    var next: Option<Path>

    ghost predicate Valid()
      reads this
    {
      next.Some? ==> ValidIn(forest, next.value)
    }

    ghost function Remaining(): seq<Path>
      reads this
      requires Valid()
    {
      if next.None? then [] else AncestorChain(forest, next.value)
    }

    constructor (forest: seq<Tree<L>>, next: Option<Path>)
      requires next.Some? ==> ValidIn(forest, next.value)
      ensures Valid() && this.forest == forest && this.next == next
    {
      this.forest := forest;
      this.next := next;
    }

    method Next() returns (ret: Option<Path>)
      requires Valid()
      modifies this
      ensures Valid()
      ensures ret == Head(old(Remaining())) && Remaining() == Tail(old(Remaining()))
    {
      ret := next;
      if next.Some? {
        next := Parent(forest, next.value);
      }
    }
  }

  /** Collects `Siblings::new(start)`: `start` and every later sibling, in order. */
  method SiblingsAll<L>(f: seq<Tree<L>>, start: Option<Path>) returns (out: seq<Path>)
    requires start.Some? ==> ValidIn(f, start.value)
    ensures start.None? ==> out == []
    ensures start.Some? ==> |out| == SiblingCount(f, start.value) - Last(start.value)
    ensures start.Some? ==> forall k :: 0 <= k < |out| ==>
                              out[k] == Init(start.value) + [Last(start.value) + k]
  {
    var it := new Siblings(f, start);
    ghost var all := it.Remaining();
    if start.Some? {
      SiblingChainSpec(f, start.value);
    }
    out := [];
    while true
      invariant it.Valid() && out + it.Remaining() == all
      decreases |it.Remaining()|
    {
      ghost var rem := it.Remaining();
      var x := it.Next();
      if x.None? {
        DrainDone(out, rem);
        break;
      }
      DrainStep(out, rem, x.value);
      out := out + [x.value];
    }
    assert out == all;
  }

  /** Collects `Ancestors::new(start)`: `start` and each ancestor up to the top level. */
  method AncestorsAll<L>(f: seq<Tree<L>>, start: Option<Path>) returns (out: seq<Path>)
    requires start.Some? ==> ValidIn(f, start.value)
    ensures start.None? ==> out == []
    ensures start.Some? ==> |out| == |start.value|
    ensures start.Some? ==> forall k :: 0 <= k < |out| ==>
                              out[k] == start.value[..|start.value| - k]
  {
    var it := new Ancestors(f, start);
    ghost var all := it.Remaining();
    if start.Some? {
      AncestorChainSpec(f, start.value);
    }
    out := [];
    while true
      invariant it.Valid() && out + it.Remaining() == all
      decreases |it.Remaining()|
    {
      ghost var rem := it.Remaining();
      var x := it.Next();
      if x.None? {
        DrainDone(out, rem);
        break;
      }
      DrainStep(out, rem, x.value);
      out := out + [x.value];
    }
    assert out == all;
  }

  // ---------------------------------------------------------------------
  // Traverse

  /**
   * What a traversal started at `s` still owes once the subtree of `q` is
   * done: the subtrees of `q`'s later siblings, then the same for `q`'s
   * parent, climbing until `s` is reached.
   */
  function After<L>(f: seq<Tree<L>>, s: Path, q: Path): seq<Path>
    requires ValidIn(f, q) && IsPrefix(s, q) && |s| > 0
    decreases |q| - |s|
  {
    if |q| == |s| then []
    else
      ParentAt(f, q);
      assert Init(q)[..|s|] == q[..|s|];
      PreChildren(At(f, Init(q)), Init(q), Last(q) + 1) + After(f, s, Init(q))
  }

  lemma AfterUnfold<L>(f: seq<Tree<L>>, s: Path, q: Path)
    requires ValidIn(f, q) && IsPrefix(s, q) && |s| > 0 && |q| > |s|
    ensures ValidIn(f, Init(q)) && IsPrefix(s, Init(q))
    ensures After(f, s, q) == PreChildren(At(f, Init(q)), Init(q), Last(q) + 1) + After(f, s, Init(q))
  {
    ParentAt(f, q);
    assert Init(q)[..|s|] == q[..|s|];
  }

  /** A cursor of a traversal started at `s`: none, or a node of `s`'s subtree. */
  ghost predicate CursorIn<L>(f: seq<Tree<L>>, s: Path, n: Option<Path>) {
    n.Some? ==> ValidIn(f, n.value) && IsPrefix(s, n.value)
  }

  /** Everything a traversal started at `s` still yields when its cursor is `n`. */
  function Owed<L>(f: seq<Tree<L>>, s: Path, n: Option<Path>): seq<Path>
    requires |s| > 0 && CursorIn(f, s, n)
  {
    if n.None? then [] else Subtree(f, n.value) + After(f, s, n.value)
  }

  /**
   * After yielding `e`: what is owed is the subtree of `e`'s first child and
   * what follows it, or, for a childless `e`, what follows `e`.
   */
  lemma DescendStep<L>(f: seq<Tree<L>>, s: Path, e: Path)
    requires ValidIn(f, e) && IsPrefix(s, e) && |s| > 0
    ensures CursorIn(f, s, FirstChild(f, e))
    ensures FirstChild(f, e).Some? ==> Owed(f, s, Some(e)) == [e] + Owed(f, s, FirstChild(f, e))
    ensures FirstChild(f, e).None? ==> Owed(f, s, Some(e)) == [e] + After(f, s, e)
  {
    var kids := PreChildren(At(f, e), e, 0);
    var after := After(f, s, e);
    assert Owed(f, s, Some(e)) == [e] + (kids + after) by {
      assert Subtree(f, e) == [e] + kids;
      AppendAssoc([e], kids, after);
    }
    if At(f, e).children == [] {
      assert kids == [];
      assert kids + after == after;
    } else {
      var c := e + [0];
      ChildAt(f, e, 0);
      assert IsPrefix(s, c) by {
        assert c[..|s|] == e[..|s|];
      }
      FirstChildOwed(f, s, e);
    }
  }

  /** Concatenation regroups freely. */
  lemma AppendAssoc<T>(a: seq<T>, b: seq<T>, c: seq<T>)
    ensures (a + b) + c == a + (b + c)
  {
  }

  lemma FirstChildOwed<L>(f: seq<Tree<L>>, s: Path, e: Path)
    requires ValidIn(f, e) && IsPrefix(s, e) && |s| > 0 && At(f, e).children != []
    requires ValidIn(f, e + [0]) && IsPrefix(s, e + [0])
    ensures PreChildren(At(f, e), e, 0) + After(f, s, e) == Subtree(f, e + [0]) + After(f, s, e + [0])
  {
    var t := At(f, e);
    var c := e + [0];
    ChildAt(f, e, 0);
    AfterUnfold(f, s, c);
    assert Init(c) == e && Last(c) == 0;
    var first := Subtree(f, c);
    var tail := PreChildren(t, e, 1);
    var up := After(f, s, e);
    assert After(f, s, c) == tail + up;
    assert PreChildren(t, e, 0) == first + tail;
    AppendAssoc(first, tail, up);
  }

  /** Leaving a finished subtree: move to the next sibling, or owe what the parent owes. */
  lemma AfterStep<L>(f: seq<Tree<L>>, s: Path, e: Path)
    requires ValidIn(f, e) && IsPrefix(s, e) && |s| > 0 && |e| > |s|
    ensures ValidIn(f, Init(e)) && IsPrefix(s, Init(e))
    ensures CursorIn(f, s, NextSibling(f, e))
    ensures NextSibling(f, e).None? ==> After(f, s, e) == After(f, s, Init(e))
    ensures NextSibling(f, e).Some? ==> After(f, s, e) == Owed(f, s, NextSibling(f, e))
  {
    ParentAt(f, e);
    var p := Init(e);
    assert p[..|s|] == e[..|s|];
    match NextSibling(f, e)
    case None =>
    case Some(n) =>
      assert n == p + [Last(e) + 1];
      ChildAt(f, p, Last(e) + 1);
      assert n[..|s|] == e[..|s|];
  }

  class Traverse<L> {
    const forest: seq<Tree<L>>
    const start: Path
    var next: Option<Path>

    ghost predicate Valid()
      reads this
    {
      ValidIn(forest, start) && CursorIn(forest, start, next)
    }

    ghost function Remaining(): seq<Path>
      reads this
      requires Valid()
    {
      Owed(forest, start, next)
    }

    constructor (forest: seq<Tree<L>>, start: Path)
      requires ValidIn(forest, start)
      ensures Valid() && this.forest == forest && this.start == start
      ensures Remaining() == Subtree(forest, start)
    {
      this.forest := forest;
      this.start := start;
      this.next := Some(start);
    }

    /**
     * One step of the boundary-aware depth-first walk: descend to the first
     * child, else move to the next sibling, else climb parents until one has
     * a next sibling; stop whenever the walk is back at `start`. The
     * `parent.value` access is the source's `unwrap()`, proved never to fail.
     */
    method Next() returns (ret: Option<Path>)
      requires Valid()
      modifies this
      ensures Valid()
      ensures ret == Head(old(Remaining())) && Remaining() == Tail(old(Remaining()))
    {
      ret := next;
      if next.None? {
        return;
      }
      var elem := next.value;
      DescendStep(forest, start, elem);
      ghost var rest := if FirstChild(forest, elem).Some? then Owed(forest, start, FirstChild(forest, elem))
                        else After(forest, start, elem);
      var nextElem := FirstChild(forest, elem);
      if nextElem.None? {
        if elem == start {
          next := None;
          return;
        }
        assert |elem| > |start| by {
          assert elem[..|start|] == start;
        }
        AfterStep(forest, start, elem);
        nextElem := NextSibling(forest, elem);
      }
      while nextElem.None?
        invariant ValidIn(forest, elem) && IsPrefix(start, elem) && CursorIn(forest, start, nextElem)
        invariant nextElem.None? ==>
                    && |elem| > |start| && NextSibling(forest, elem).None?
                    && rest == After(forest, start, elem)
        invariant nextElem.Some? ==> rest == Owed(forest, start, nextElem)
        decreases |elem|
      {
        AfterStep(forest, start, elem);
        var parent := Parent(forest, elem);
        elem := parent.value;
        if elem == start {
          next := None;
          return;
        }
        assert |elem| > |start| by {
          assert elem[..|start|] == start;
        }
        AfterStep(forest, start, elem);
        nextElem := NextSibling(forest, elem);
      }
      next := nextElem;
    }
  }

  /**
   * Collects `Traverse::new(start)`: exactly the nodes of `start`'s subtree,
   * each once, in pre-order, beginning with `start`.
   */
  method TraverseAll<L>(f: seq<Tree<L>>, start: Path) returns (out: seq<Path>)
    requires ValidIn(f, start)
    ensures out == Subtree(f, start)
  {
    var it := new Traverse(f, start);
    out := [];
    while true
      invariant it.Valid() && it.forest == f && it.start == start
      invariant out + it.Remaining() == Subtree(f, start)
      decreases |it.Remaining()|
    {
      ghost var rem := it.Remaining();
      var x := it.Next();
      if x.None? {
        DrainDone(out, rem);
        break;
      }
      DrainStep(out, rem, x.value);
      out := out + [x.value];
    }
  }

  /**
   * What the traversal of `start` yields: `start` first, then every
   * descendant of `start`, each exactly once; never a node outside the
   * subtree, so never `start`'s siblings or ancestors; a childless `start`
   * yields only itself.
   */
  lemma TraverseYieldsSubtree<L>(f: seq<Tree<L>>, start: Path)
    requires ValidIn(f, start)
    ensures Subtree(f, start)[0] == start
    ensures forall p :: p in Subtree(f, start) <==> ValidIn(f, p) && IsPrefix(start, p)
    ensures NoDup(Subtree(f, start))
    ensures forall p :: p in Subtree(f, start) ==> p == start || |p| > |start|
    ensures At(f, start).children == [] ==> Subtree(f, start) == [start]
  {
    SubtreeMembers(f, start);
    if At(f, start).children == [] {
      assert PreChildren(At(f, start), start, 0) == [];
    }
  }

  // ---------------------------------------------------------------------
  // Siblings(start).flat_map(traverse)

  /** The chain `Siblings::new(start)` yields. */
  function ChainFrom<L>(f: seq<Tree<L>>, start: Option<Path>): (r: seq<Path>)
    requires start.Some? ==> ValidIn(f, start.value)
    ensures forall q :: q in r ==> ValidIn(f, q)
  {
    if start.None? then [] else SiblingChain(f, start.value)
  }

  /** The traversals of the nodes of `chain`, one after the other (a path naming no node contributes nothing). */
  function FlatTraverse<L>(f: seq<Tree<L>>, chain: seq<Path>): seq<Path> {
    if chain == [] then []
    else (if ValidIn(f, chain[0]) then Subtree(f, chain[0]) else []) + FlatTraverse(f, chain[1..])
  }

  lemma {:induction false} FlatTraverseFrom<L>(f: seq<Tree<L>>, i: nat)
    requires i < |f|
    ensures FlatTraverse(f, SiblingChain(f, [i])) == TopPre(f, i)
    decreases |f| - i
  {
    assert At(f, [i]) == f[i] by { assert [i][1..] == []; }
    assert Last([i]) == i && Init([i]) == [];
    var chain := SiblingChain(f, [i]);
    assert chain[0] == [i];
    if i + 1 < |f| {
      assert NextSibling(f, [i]) == Some([i + 1]);
      assert chain[1..] == SiblingChain(f, [i + 1]);
      FlatTraverseFrom(f, i + 1);
    } else {
      assert chain[1..] == [];
    }
  }

  /** Traversing every top-level node in turn lists the whole forest in pre-order. */
  lemma FlatTraverseTop<L>(f: seq<Tree<L>>)
    ensures f != [] ==> ValidIn(f, [0])
    ensures FlatTraverse(f, ChainFrom(f, if f == [] then None else Some([0]))) == TopPre(f, 0)
  {
    if f != [] {
      assert [0][1..] == [];
      FlatTraverseFrom(f, 0);
    }
  }

  /** Collects `Siblings::new(start).flat_map(|n| n.traverse())` with the two iterators nested. */
  method FlatTraverseAll<L>(f: seq<Tree<L>>, start: Option<Path>) returns (out: seq<Path>)
    requires start.Some? ==> ValidIn(f, start.value)
    ensures out == FlatTraverse(f, ChainFrom(f, start))
  {
    var sibs := new Siblings(f, start);
    ghost var chain := ChainFrom(f, start);
    ghost var done: seq<Path> := [];
    out := [];
    while true
      invariant sibs.Valid() && sibs.forest == f
      invariant done + sibs.Remaining() == chain
      invariant out == FlatTraverse(f, done)
      decreases |sibs.Remaining()|
    {
      ghost var rem := sibs.Remaining();
      var s := sibs.Next();
      if s.None? {
        DrainDone(done, rem);
        break;
      }
      DrainStep(done, rem, s.value);
      var sub := TraverseAll(f, s.value);
      FlatTraverseAppend(f, done, s.value);
      done := done + [s.value];
      out := out + sub;
    }
  }

  lemma {:induction false} FlatTraverseAppend<L>(f: seq<Tree<L>>, chain: seq<Path>, q: Path)
    requires ValidIn(f, q)
    ensures FlatTraverse(f, chain + [q]) == FlatTraverse(f, chain) + Subtree(f, q)
    decreases |chain|
  {
    if chain == [] {
      assert chain + [q] == [q];
      assert [q][1..] == [];
    } else {
      assert (chain + [q])[1..] == chain[1..] + [q];
      FlatTraverseAppend(f, chain[1..], q);
    }
  }

  // ---------------------------------------------------------------------
  // Set

  /** A Set over the engine's array of node pointers; a node view is modelled by its handle. */
  class Set<R> {
    var slice: seq<R>

    constructor (slice: seq<R>)
      ensures this.slice == slice
    {
      this.slice := slice;
    }

    method Next() returns (ret: Option<R>)
      modifies this
      ensures ret == Head(old(slice)) && slice == Tail(old(slice))
    {
      if |slice| > 0 {
        ret := Some(slice[0]);
        slice := slice[1..];
      } else {
        ret := None;
      }
    }

    /** Lower and upper bound on the number of items still to come. */
    function SizeHint(): (r: (nat, Option<nat>))
      reads this
      ensures r.0 == 0 && r.1.Some? && r.1.value == |slice|
    {
      (0, Some(|slice|))
    }
  }

  /**
   * Collects a Set: every element of the slice, in order; the size hint
   * taken before the first step has lower bound 0 and an upper bound equal
   * to the number of items then collected.
   */
  method SetAll<R>(slice: seq<R>) returns (out: seq<R>, hint: (nat, Option<nat>))
    ensures out == slice
    ensures hint.0 == 0 && hint.1 == Some(|out|)
  {
    var it := new Set(slice);
    hint := it.SizeHint();
    out := [];
    while true
      invariant out + it.slice == slice
      decreases |it.slice|
    {
      ghost var rem := it.slice;
      var x := it.Next();
      if x.None? {
        DrainDone(out, rem);
        break;
      }
      DrainStep(out, rem, x.value);
      out := out + [x.value];
    }
  }

  // ---------------------------------------------------------------------
  // Array

  /** Size of a pointer-sized word, and the range of a `usize`. */
  const USIZE_BYTES: nat := 8
  const USIZE_MODULUS: nat := 0x1_0000_0000_0000_0000

  /** Element count of a libyang sized array: zero for a null base, else the word just before element 0. */
  function ArrayCount(mem: map<nat, nat>, raw: nat): nat
    requires raw != 0 ==> raw >= USIZE_BYTES && raw - USIZE_BYTES in mem
  {
    if raw == 0 then 0 else mem[raw - USIZE_BYTES]
  }

  /** Address of element `k` when stepping `ptrSize` bytes at a time with `usize` wrap-around. */
  function ElementAddr(raw: nat, ptrSize: nat, k: nat): nat {
    if k == 0 then raw else (ElementAddr(raw, ptrSize, k - 1) + ptrSize) % USIZE_MODULUS
  }

  /** `Binding::from_raw_opt` on an address: no view for the null address. */
  function ViewAt(addr: nat): Option<nat> {
    if addr == 0 then None else Some(addr)
  }

  class Array {
    var raw: nat
    const ptrSize: nat
    var count: nat

    constructor (mem: map<nat, nat>, raw: nat, ptrSize: nat)
      requires raw != 0 ==> raw >= USIZE_BYTES && raw - USIZE_BYTES in mem
      ensures this.raw == raw && this.ptrSize == ptrSize && count == ArrayCount(mem, raw)
    {
      this.raw := raw;
      this.ptrSize := ptrSize;
      this.count := if raw == 0 then 0 else mem[raw - USIZE_BYTES];
    }

    method Next() returns (ret: Option<nat>)
      modifies this
      ensures old(count) == 0 ==> ret.None? && raw == old(raw) && count == 0
      ensures old(count) > 0 ==>
                && ret == ViewAt(old(raw)) && count == old(count) - 1
                && raw == (old(raw) + ptrSize) % USIZE_MODULUS
    {
      if count > 0 {
        ret := ViewAt(raw);
        count := count - 1;
        raw := (raw + ptrSize) % USIZE_MODULUS;
      } else {
        ret := None;
      }
    }

    /** Lower and upper bound on the number of items still to come: at most the remaining count. */
    function SizeHint(): (r: (nat, Option<nat>))
      reads this
      ensures r.0 == 0 && r.1.Some? && r.1.value == count
    {
      (0, Some(count))
    }
  }

  /**
   * Collects an Array until its first `None`: never more items than the
   * stored count (the size hint's upper bound), item `k` is the `k`-th
   * element address, and when no element address is null every element is
   * yielded.
   */
  method ArrayAll(mem: map<nat, nat>, raw: nat, ptrSize: nat) returns (out: seq<nat>, hint: (nat, Option<nat>))
    requires raw != 0 ==> raw >= USIZE_BYTES && raw - USIZE_BYTES in mem
    ensures hint.0 == 0 && hint.1 == Some(ArrayCount(mem, raw))
    ensures |out| <= ArrayCount(mem, raw)
    ensures forall k :: 0 <= k < |out| ==> out[k] == ElementAddr(raw, ptrSize, k) && out[k] != 0
    ensures (forall k :: 0 <= k < ArrayCount(mem, raw) ==> ElementAddr(raw, ptrSize, k) != 0) ==>
              |out| == ArrayCount(mem, raw)
  {
    var it := new Array(mem, raw, ptrSize);
    hint := it.SizeHint();
    var n := it.count;
    out := [];
    while true
      invariant it.ptrSize == ptrSize
      invariant |out| + it.count == n
      invariant it.raw == ElementAddr(raw, ptrSize, |out|)
      invariant forall k :: 0 <= k < |out| ==> out[k] == ElementAddr(raw, ptrSize, k) && out[k] != 0
      decreases it.count
    {
      var x := it.Next();
      if x.None? {
        break;
      }
      out := out + [x.value];
    }
  }

  // ---------------------------------------------------------------------
  // SchemaModules and MetadataList

  /** Index the module iteration starts from: past the internal modules when they are skipped. */
  function ModulesStart(skipInternal: bool, internalCount: nat): nat {
    if skipInternal then internalCount else 0
  }

  /**
   * The context's modules, walked with the engine's module cursor: each
   * step yields the module at the cursor and advances it, until the list
   * ends.
   */
  class SchemaModules<M> {
    const modules: seq<M>
    var index: nat

    constructor (modules: seq<M>, internalCount: nat, skipInternal: bool)
      ensures this.modules == modules && index == ModulesStart(skipInternal, internalCount)
    {
      this.modules := modules;
      this.index := if skipInternal then internalCount else 0;
    }

    ghost function Remaining(): seq<M>
      reads this
    {
      if index < |modules| then modules[index..] else []
    }

    method Next() returns (ret: Option<M>)
      modifies this
      ensures ret == Head(old(Remaining())) && Remaining() == Tail(old(Remaining()))
    {
      if index < |modules| {
        ret := Some(modules[index]);
        index := index + 1;
      } else {
        ret := None;
      }
    }
  }

  /** Collects `SchemaModules::new(skip_internal)`: with `skip_internal` the internal modules never appear. */
  method ModulesAll<M>(modules: seq<M>, internalCount: nat, skipInternal: bool) returns (out: seq<M>)
    requires internalCount <= |modules|
    ensures skipInternal ==> out == modules[internalCount..]
    ensures !skipInternal ==> out == modules
  {
    var it := new SchemaModules(modules, internalCount, skipInternal);
    ghost var all := modules[ModulesStart(skipInternal, internalCount)..];
    assert it.Remaining() == all;
    out := [];
    while true
      invariant it.modules == modules
      invariant out + it.Remaining() == all
      decreases |it.Remaining()|
    {
      ghost var rem := it.Remaining();
      var x := it.Next();
      if x.None? {
        DrainDone(out, rem);
        break;
      }
      DrainStep(out, rem, x.value);
      out := out + [x.value];
    }
  }

  /** A node's metadata list; the cursor is the position of the next entry. */
  class MetadataList<M> {
    const metas: seq<M>
    var next: Option<nat>

    ghost predicate Valid()
      reads this
    {
      next.Some? ==> next.value < |metas|
    }

    ghost function Remaining(): seq<M>
      reads this
      requires Valid()
    {
      if next.None? then [] else metas[next.value..]
    }

    constructor (metas: seq<M>)
      ensures Valid() && this.metas == metas && Remaining() == metas
    {
      this.metas := metas;
      this.next := if metas == [] then None else Some(0);
    }

    method Next() returns (ret: Option<M>)
      requires Valid()
      modifies this
      ensures Valid()
      ensures ret == Head(old(Remaining())) && Remaining() == Tail(old(Remaining()))
    {
      if next.Some? {
        ret := Some(metas[next.value]);
        next := if next.value + 1 < |metas| then Some(next.value + 1) else None;
      } else {
        ret := None;
      }
    }
  }

  /** Collects a node's metadata: every entry, in order. */
  method MetadataAll<M>(metas: seq<M>) returns (out: seq<M>)
    ensures out == metas
  {
    var it := new MetadataList(metas);
    out := [];
    while true
      invariant it.Valid() && it.metas == metas
      invariant out + it.Remaining() == metas
      decreases |it.Remaining()|
    {
      ghost var rem := it.Remaining();
      var x := it.Next();
      if x.None? {
        DrainDone(out, rem);
        break;
      }
      DrainStep(out, rem, x.value);
      out := out + [x.value];
    }
  }
}
