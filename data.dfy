// Data trees of src/data.rs: node navigation, the root bookkeeping of
// DataTree, the format check of the operation parsers and the diff
// classification. The engine calls a method makes (parse, dup, merge,
// new_path, implicit nodes) are parameters: their return code, the forest
// they leave behind and the last error they recorded.
module Data {
  import opened Common
  import opened Utils
  import opened Forest
  import opened Errors
  import opened Schema
  import Iter

  // ---------------------------------------------------------------------
  // Nodes

  /** `lyd_meta`: a metadata entry's name and its value in canonical form. */
  datatype Meta = Meta(name: string, value: string)

  /**
   * What a data node record holds that the bindings read: its schema node
   * (`None` for an opaque node, whose `schema` is null), its metadata list,
   * the value of a leaf or leaf-list (`lyd_node_term`), and whether the
   * engine reports the value as the default one (`lyd_is_default`).
   */
  datatype DataNode = DataNode(
    schema: Option<RawSchemaNode>,
    meta: seq<Meta>,
    value: LydValue,
    engineDefault: bool)

  /** Node types whose data records are `lyd_node_inner`, the ones with a child list. */
  predicate IsInnerType(t: nat) {
    t == LYS_CONTAINER || t == LYS_LIST || t == LYS_RPC || t == LYS_ACTION || t == LYS_NOTIF
  }

  /** The record has a child list: an opaque node or an inner node. */
  predicate HasChildList(n: DataNode) {
    n.schema.None? || IsInnerType(n.schema.value.nodetype)
  }

  /** Only records with a child list have children. */
  ghost predicate WellFormed(f: seq<Tree<DataNode>>) {
    forall p :: ValidIn(f, p) ==> HasChildList(At(f, p).info) || At(f, p).children == []
  }

  // ---------------------------------------------------------------------
  // Navigation (NodeIterable for DataNodeRef)

  /**
   * DataNodeRef::parent: none for a null reference and for a top-level node
   * (null parent pointer), otherwise the enclosing node.
   */
  function ParentOf(f: seq<Tree<DataNode>>, n: Option<Path>): (r: Option<Path>)
    requires n.Some? ==> ValidIn(f, n.value)
    ensures r.None? <==> n.None? || |n.value| == 1
    ensures r.Some? ==> ValidIn(f, r.value) && r.value == Init(n.value)
  {
    if n.None? then None else Parent(f, n.value)
  }

  /**
   * DataNodeRef::first_child: the child list of an opaque node or of a
   * container, list, rpc, action or notification; none for every other
   * kind, whose record has no child list. On a well-formed forest this is
   * the structural first child that Traverse and Siblings follow.
   */
  function DataFirstChild(f: seq<Tree<DataNode>>, p: Path): (r: Option<Path>)
    requires ValidIn(f, p)
    ensures !HasChildList(At(f, p).info) ==> r.None?
    ensures HasChildList(At(f, p).info) ==> r == FirstChild(f, p)
    ensures WellFormed(f) ==> r == FirstChild(f, p)
  {
    if HasChildList(At(f, p).info) then FirstChild(f, p) else None
  }

  /** Follows parent links from `p` to the node without a parent: the top-level node above `p`. */
  method ClimbToTop(f: seq<Tree<DataNode>>, p: Path) returns (top: Path)
    requires ValidIn(f, p)
    ensures top == [p[0]] && ValidIn(f, top)
  {
    top := p;
    var parent := ParentOf(f, Some(top));
    while parent.Some?
      invariant ValidIn(f, top) && top[0] == p[0]
      invariant parent == ParentOf(f, Some(top))
      decreases |top|
    {
      top := parent.value;
      parent := ParentOf(f, Some(top));
    }
    assert |top| == 1;
    assert top == [top[0]];
  }

  /** ancestors(): from the parent up to the top level, so never the node itself. */
  method Ancestors(f: seq<Tree<DataNode>>, p: Path) returns (out: seq<Path>)
    requires ValidIn(f, p)
    ensures |out| == |p| - 1
    ensures forall k :: 0 <= k < |out| ==> out[k] == p[..|p| - 1 - k]
  {
    var parent := ParentOf(f, Some(p));
    out := Iter.AncestorsAll(f, parent);
    if parent.Some? {
      forall k | 0 <= k < |out|
        ensures out[k] == p[..|p| - 1 - k]
      {
        assert out[k] == parent.value[..|parent.value| - k];
      }
    }
  }

  /** inclusive_ancestors(): the node itself, then each ancestor. */
  method InclusiveAncestors(f: seq<Tree<DataNode>>, p: Path) returns (out: seq<Path>)
    requires ValidIn(f, p)
    ensures |out| == |p| && |out| > 0 && out[0] == p
    ensures forall k :: 0 <= k < |out| ==> out[k] == p[..|p| - k]
  {
    out := Iter.AncestorsAll(f, Some(p));
    assert out[0] == p[..|p|];
  }

  /** siblings(): the later siblings, starting after the node itself. */
  method Siblings(f: seq<Tree<DataNode>>, p: Path) returns (out: seq<Path>)
    requires ValidIn(f, p)
    ensures |out| == SiblingCount(f, p) - Last(p) - 1
    ensures forall k :: 0 <= k < |out| ==> out[k] == Init(p) + [Last(p) + 1 + k]
  {
    var next := NextSibling(f, p);
    out := Iter.SiblingsAll(f, next);
  }

  /** inclusive_siblings(): the node itself, then its later siblings. */
  method InclusiveSiblings(f: seq<Tree<DataNode>>, p: Path) returns (out: seq<Path>)
    requires ValidIn(f, p)
    ensures |out| == SiblingCount(f, p) - Last(p)
    ensures |out| > 0 && out[0] == p
    ensures forall k :: 0 <= k < |out| ==> out[k] == Init(p) + [Last(p) + k]
  {
    PositionInSiblings(f, p);
    out := Iter.SiblingsAll(f, Some(p));
    assert out[0] == Init(p) + [Last(p)];
  }

  /** children(): every child, in order, for a node with a child list; none otherwise. */
  method Children(f: seq<Tree<DataNode>>, p: Path) returns (out: seq<Path>)
    requires ValidIn(f, p)
    ensures !HasChildList(At(f, p).info) ==> out == []
    ensures HasChildList(At(f, p).info) ==> |out| == |At(f, p).children|
    ensures forall k :: 0 <= k < |out| ==> out[k] == p + [k]
  {
    var first := DataFirstChild(f, p);
    out := Iter.SiblingsAll(f, first);
    if first.Some? {
      var c := first.value;
      ParentAt(f, c);
      assert Init(c) == p && Last(c) == 0;
    }
  }

  /** meta(): the node's metadata entries, in order. */
  method MetaList(f: seq<Tree<DataNode>>, p: Path) returns (out: seq<Meta>)
    requires ValidIn(f, p)
    ensures out == At(f, p).info.meta
  {
    out := Iter.MetadataAll(At(f, p).info.meta);
  }

  // ---------------------------------------------------------------------
  // Values

  /** The node's schema is present and its node type decodes (building the view panics otherwise). */
  predicate HasKnownSchema(n: DataNode) {
    n.schema.Some? && Known(n.schema.value)
  }

  function KindOf(n: DataNode): SchemaNodeKind
    requires HasKnownSchema(n)
  {
    View(n.schema.value).kind
  }

  predicate IsTerm(n: DataNode)
    requires HasKnownSchema(n)
  {
    KindOf(n) == Leaf || KindOf(n) == LeafList
  }

  /**
   * value_canonical: a leaf's or leaf-list's value as its cached canonical
   * string or, when none is cached, the one the engine computes (`engine`);
   * none for other kinds.
   */
  function ValueCanonical(n: DataNode, engine: CharPtr): (r: Option<string>)
    requires HasKnownSchema(n)
    ensures !IsTerm(n) ==> r.None?
    ensures IsTerm(n) ==> (r.None? <==> CanonicalPtr(n.value, engine).Null?)
    ensures r.Some? ==> r.value == CanonicalPtr(n.value, engine).text
  {
    match KindOf(n)
    case Leaf | LeafList => CharPtrToOptString(CanonicalPtr(n.value, engine))
    case _ => None
  }

  /** value: a leaf's or leaf-list's value decoded as a DataValue; none for other kinds. */
  function Value(n: DataNode, engine: CharPtr): (r: Option<DataValue>)
    requires HasKnownSchema(n) && (IsTerm(n) ==> Decodable(n.value, engine))
    ensures r.Some? <==> IsTerm(n)
    ensures r.Some? ==> r.value == ValueFromRaw(n.value, engine)
  {
    match KindOf(n)
    case Leaf | LeafList => Some(ValueFromRaw(n.value, engine))
    case _ => None
  }

  /** An untyped value reads as its canonical string, the same one value_canonical returns. */
  lemma ValueAgreesWithCanonical(n: DataNode, engine: CharPtr)
    requires HasKnownSchema(n) && IsTerm(n) && Decodable(n.value, engine)
    requires !IsTypedBase(n.value.basetype)
    ensures ValueCanonical(n, engine).Some?
    ensures Value(n, engine) == Some(Other(ValueCanonical(n, engine).value))
  {
  }

  /** is_default: what the engine reports for a leaf or leaf-list; false for every other kind. */
  function IsDefault(n: DataNode): (r: bool)
    requires HasKnownSchema(n)
    ensures r ==> IsTerm(n)
    ensures IsTerm(n) ==> (r <==> n.engineDefault)
  {
    match KindOf(n)
    case Leaf | LeafList => n.engineDefault
    case _ => false
  }

  /** A key child: its schema view is a list key. */
  predicate IsKeyNode(n: DataNode) {
    HasKnownSchema(n) && IsListKey(View(n.schema.value))
  }

  /** Every child has a schema whose type decodes, as list_keys needs to build each child's view. */
  predicate ChildrenHaveSchema(f: seq<Tree<DataNode>>, p: Path)
    requires ValidIn(f, p)
  {
    forall c :: 0 <= c < |At(f, p).children| ==> HasKnownSchema(At(f, p).children[c].info)
  }

  /** list_keys: children() filtered by the children's is_list_key. */
  function ListKeysOf(f: seq<Tree<DataNode>>, p: Path): (r: seq<Path>)
    requires ValidIn(f, p) && ChildrenHaveSchema(f, p)
    ensures forall q :: q in r ==> |q| == |p| + 1 && q[..|p|] == p && Last(q) < |At(f, p).children|
    ensures !HasChildList(At(f, p).info) ==> r == []
  {
    ChildrenWhereBounds(f, p, 0, IsKeyNode);
    if DataFirstChild(f, p).None? then [] else ChildrenWhere(f, p, 0, IsKeyNode)
  }

  /** The keys of a list instance are exactly its key children, in child order. */
  lemma ListKeysOfSpec(f: seq<Tree<DataNode>>, p: Path)
    requires ValidIn(f, p) && ChildrenHaveSchema(f, p) && HasChildList(At(f, p).info)
    ensures forall c: nat :: p + [c] in ListKeysOf(f, p) <==>
              c < |At(f, p).children| && IsListKey(View(At(f, p).children[c].info.schema.value))
    ensures forall q :: q in ListKeysOf(f, p) ==> |q| == |p| + 1 && q[..|p|] == p
    ensures forall a, b :: 0 <= a < b < |ListKeysOf(f, p)| ==> Last(ListKeysOf(f, p)[a]) < Last(ListKeysOf(f, p)[b])
  {
    ChildrenWhereMembers(f, p, 0, IsKeyNode);
    ChildrenWhereOrdered(f, p, 0, IsKeyNode);
    if At(f, p).children == [] {
      assert ChildrenWhere(f, p, 0, IsKeyNode) == [];
    }
  }

  // ---------------------------------------------------------------------
  // DataTree

  /** lyd_first_sibling: null for null, otherwise the first node of the sibling list. */
  function FirstSiblingOpt(p: Option<Path>): (r: Option<Path>)
    requires p.Some? ==> |p.value| > 0
    ensures r.None? <==> p.None?
    ensures r.Some? ==> r.value == FirstSibling(p.value)
  {
    if p.None? then None else Some(FirstSibling(p.value))
  }

  /**
   * A data tree: the forest of its top-level nodes and `raw`, the pointer
   * to the first of them (null for an empty tree).
   */
  class DataTree {
    var nodes: seq<Tree<DataNode>>
    var raw: Option<Path>

    /** `raw` is the first top-level node, null exactly when the tree is empty. */
    ghost predicate Valid()
      reads this
    {
      WellFormed(nodes) && (raw.None? <==> nodes == []) && (raw.Some? ==> raw.value == [0])
    }

    /** DataTree::new: an empty tree. */
    constructor ()
      ensures Valid() && nodes == [] && raw.None?
    {
      nodes := [];
      raw := None;
    }

    /** Binding::from_raw: a tree over the engine's nodes anchored at `raw`. */
    constructor FromRaw(nodes: seq<Tree<DataNode>>, raw: Option<Path>)
      ensures this.nodes == nodes && this.raw == raw
    {
      this.nodes := nodes;
      this.raw := raw;
    }

    /** reference: the first top-level node, none for an empty tree. */
    function Reference(): (r: Option<Path>)
      reads this
      requires Valid()
      ensures r.None? <==> nodes == []
      ensures r.Some? ==> r.value == [0] && ValidIn(nodes, r.value)
    {
      raw
    }

    /**
     * reroot: on an empty tree first climbs from `node` to its top-level
     * ancestor (a null `node` has no parent and stays null); then moves the
     * root to the first node of its sibling list.
     */
    method Reroot(node: Option<Path>)
      requires node.Some? ==> ValidIn(nodes, node.value)
      requires raw.Some? ==> ValidIn(nodes, raw.value)
      modifies this
      ensures nodes == old(nodes)
      ensures old(raw).None? ==> raw == (if node.None? then None else Some([0]))
      ensures old(raw).Some? ==> raw == Some(FirstSibling(old(raw).value))
    {
      if raw.None? && node.Some? {
        var top := ClimbToTop(nodes, node.value);
        raw := Some(top);
      }
      raw := FirstSiblingOpt(raw);
    }

    /**
     * DataTreeOwningRef::from_raw_node's tree: an empty tree rerooted at a
     * node of `forest`, hence anchored at the forest's first top-level node.
     */
    constructor FromRawNode(forest: seq<Tree<DataNode>>, node: Path)
      requires ValidIn(forest, node) && WellFormed(forest)
      ensures nodes == forest && raw == Some([0]) && Valid()
    {
      nodes := forest;
      raw := None;
      new;
      Reroot(Some(node));
    }

    /**
     * new_path: on success the tree becomes the engine's `forest` and the
     * root is re-anchored at the first sibling of the engine's new top node
     * (`createdRoot`) when the tree was empty, else of the old root (now at
     * `oldRoot`); the result is the last node created, if any. On failure
     * the error is built from the last engine error and the root is kept.
     */
    method NewPath(ret: LyErr, forest: seq<Tree<DataNode>>, createdRoot: Option<Path>, oldRoot: Path,
                   created: Option<Path>, last: Option<ErrRecord>)
      returns (r: Result<Option<Path>, Error>)
      requires Valid()
      requires ret == LY_SUCCESS ==> WellFormed(forest)
      requires ret == LY_SUCCESS && raw.None? ==>
                 && (createdRoot.None? <==> forest == [])
                 && (createdRoot.Some? ==> ValidIn(forest, createdRoot.value) && |createdRoot.value| == 1)
      requires ret == LY_SUCCESS && raw.Some? ==> ValidIn(forest, oldRoot) && |oldRoot| == 1
      requires ret == LY_SUCCESS && created.Some? ==> ValidIn(forest, created.value)
      modifies this
      ensures Valid()
      ensures ret != LY_SUCCESS ==> r == Err(New(last)) && nodes == old(nodes) && raw == old(raw)
      ensures ret == LY_SUCCESS ==>
                && r == Ok(created) && nodes == forest
                && raw == FirstSiblingOpt(if old(raw).None? then createdRoot else Some(oldRoot))
    {
      if ret != LY_SUCCESS {
        return Err(New(last));
      }
      if raw.None? {
        raw := FirstSiblingOpt(createdRoot);
      } else {
        raw := FirstSiblingOpt(Some(oldRoot));
      }
      nodes := forest;
      if raw.Some? {
        assert raw.value == [0];
      }
      return Ok(created);
    }

    /**
     * duplicate: an empty tree duplicates to an empty tree without calling
     * the engine; otherwise the engine copies every top-level sibling from
     * the root on, which is the whole forest.
     */
    method Duplicate(ret: LyErr, last: Option<ErrRecord>) returns (r: Result<DataTree, Error>)
      requires Valid()
      ensures raw.None? ==> r.Ok? && r.value.nodes == [] && r.value.raw.None?
      ensures raw.Some? && ret != LY_SUCCESS ==> r == Err(New(last))
      ensures raw.Some? && ret == LY_SUCCESS ==> r.Ok? && r.value.nodes == nodes && r.value.raw == raw
      ensures r.Ok? ==> fresh(r.value) && r.value.Valid()
    {
      if raw.None? {
        var empty := new DataTree.FromRaw([], None);
        return Ok(empty);
      }
      if ret != LY_SUCCESS {
        return Err(New(last));
      }
      var dup := new DataTree.FromRaw(nodes, raw);
      return Ok(dup);
    }

    /**
     * merge: into an empty tree, the target takes over a duplicate of the
     * source (and fails as that duplicate does); otherwise the engine merges
     * the source into the target's top-level siblings (`merged`).
     */
    method Merge(source: DataTree, dupRet: LyErr, mergeRet: LyErr, merged: seq<Tree<DataNode>>,
                 last: Option<ErrRecord>)
      returns (r: Result<(), Error>)
      requires Valid() && source.Valid() && source != this
      requires raw.Some? && mergeRet == LY_SUCCESS ==> merged != [] && WellFormed(merged)
      modifies this
      ensures Valid()
      ensures old(raw).None? && (source.raw.None? || dupRet == LY_SUCCESS) ==>
                r.Ok? && nodes == source.nodes && raw == source.raw
      ensures old(raw).None? && source.raw.Some? && dupRet != LY_SUCCESS ==>
                r == Err(New(last)) && nodes == old(nodes) && raw == old(raw)
      ensures old(raw).Some? && mergeRet != LY_SUCCESS ==>
                r == Err(New(last)) && nodes == old(nodes) && raw == old(raw)
      ensures old(raw).Some? && mergeRet == LY_SUCCESS ==> r.Ok? && nodes == merged && raw == Some([0])
    {
      if raw.None? {
        var dup := source.Duplicate(dupRet, last);
        if dup.Err? {
          return Err(dup.error);
        }
        nodes := dup.value.nodes;
        raw := dup.value.raw;
      } else {
        if mergeRet != LY_SUCCESS {
          return Err(New(last));
        }
        nodes := merged;
        raw := Some([0]);
      }
      return Ok(());
    }

    /**
     * add_implicit: on success the tree becomes the engine's `forest`, whose
     * top node the engine reports as `engineRoot`, and the root moves to the
     * first sibling of that node.
     */
    method AddImplicit(ret: LyErr, forest: seq<Tree<DataNode>>, engineRoot: Option<Path>, last: Option<ErrRecord>)
      returns (r: Result<(), Error>)
      requires Valid()
      requires ret == LY_SUCCESS ==>
                 && WellFormed(forest) && (engineRoot.None? <==> forest == [])
                 && (engineRoot.Some? ==> ValidIn(forest, engineRoot.value) && |engineRoot.value| == 1)
      modifies this
      ensures Valid()
      ensures ret != LY_SUCCESS ==> r == Err(New(last)) && nodes == old(nodes) && raw == old(raw)
      ensures ret == LY_SUCCESS ==> r.Ok? && nodes == forest && raw == FirstSiblingOpt(engineRoot)
    {
      if ret != LY_SUCCESS {
        return Err(New(last));
      }
      nodes := forest;
      raw := FirstSiblingOpt(engineRoot);
      if raw.Some? {
        assert raw.value == [0];
      }
      return Ok(());
    }

    /**
     * traverse: the traversals of the top-level siblings from the root, one
     * after the other; that is every node of the tree in pre-order.
     */
    method Traverse() returns (out: seq<Path>)
      requires Valid()
      ensures out == TopPre(nodes, 0)
    {
      out := Iter.FlatTraverseAll(nodes, raw);
      Iter.FlatTraverseTop(nodes);
    }
  }

  /**
   * DataNodeRef::duplicate: a null reference duplicates to an empty tree;
   * otherwise the engine copies the node into `dupForest` at `dupNode`, and
   * with parents the tree is anchored at the top of the copied parent chain.
   */
  method DuplicateNode(node: Option<Path>, withParents: bool, ret: LyErr, dupForest: seq<Tree<DataNode>>,
                       dupNode: Path, last: Option<ErrRecord>)
    returns (r: Result<DataTree, Error>)
    requires node.Some? && ret == LY_SUCCESS ==> ValidIn(dupForest, dupNode)
    ensures node.None? ==> r.Ok? && r.value.nodes == [] && r.value.raw.None?
    ensures node.Some? && ret != LY_SUCCESS ==> r == Err(New(last))
    ensures node.Some? && ret == LY_SUCCESS ==>
              && r.Ok? && r.value.nodes == dupForest
              && r.value.raw == Some(if withParents then [dupNode[0]] else dupNode)
    ensures r.Ok? ==> fresh(r.value)
  {
    if node.None? {
      var empty := new DataTree.FromRaw([], None);
      return Ok(empty);
    }
    if ret != LY_SUCCESS {
      return Err(New(last));
    }
    var dup := dupNode;
    if withParents {
      dup := ClimbToTop(dupForest, dup);
    }
    var tree := new DataTree.FromRaw(dupForest, Some(dup));
    return Ok(tree);
  }

  /** The traversal of a tree lists each of its nodes exactly once. */
  lemma TraverseCoversTree(f: seq<Tree<DataNode>>)
    ensures forall p :: p in TopPre(f, 0) <==> ValidIn(f, p)
    ensures NoDup(TopPre(f, 0))
  {
    TopPreMembers(f, 0);
  }

  // ---------------------------------------------------------------------
  // Operation parsers

  datatype DataFormat = XML | JSON | LYB

  /** What `_parse_op` returns and whether it got as far as trying to create an input handler. */
  datatype ParseOutcome = ParseOutcome(result: Result<(), Error>, inputAttempted: bool)

  /**
   * _parse_op: only JSON and XML are accepted; any other format fails with
   * LY_EINVAL and no text before any input creation is attempted. Creating
   * the input (`inRet`) and parsing (`parseRet`) then fail with the last
   * engine error.
   */
  function ParseOp(format: DataFormat, inRet: LyErr, parseRet: LyErr, last: Option<ErrRecord>): (r: ParseOutcome)
    ensures format == LYB ==> !r.inputAttempted && r.result.Err?
    ensures format == LYB ==> r.result.error == Error(LY_EINVAL, None, None, None)
    ensures format != LYB ==> r.inputAttempted
    ensures r.result.Ok? <==> format != LYB && inRet == LY_SUCCESS && parseRet == LY_SUCCESS
    ensures format != LYB && r.result.Err? ==> r.result.error == New(last)
  {
    if format != JSON && format != XML then
      assert format == LYB;
      ParseOutcome(Err(Default().(errcode := LY_EINVAL)), false)
    else if inRet != LY_SUCCESS then
      ParseOutcome(Err(New(last)), true)
    else if parseRet != LY_SUCCESS then
      ParseOutcome(Err(New(last)), true)
    else
      ParseOutcome(Ok(()), true)
  }

  /** parse_restconf_notif_op: XML stays XML, every other format is parsed as JSON. */
  function RestconfNotifFormat(format: DataFormat): (r: DataFormat)
    ensures r == XML <==> format == XML
    ensures r != LYB
  {
    if format == XML then XML else JSON
  }

  /**
   * The NETCONF parsers (always XML) and the RESTCONF notification parser
   * never reach the format rejection; only the RESTCONF rpc and reply
   * parsers, which pass the caller's format through, can.
   */
  lemma ParseOpFormatCheck(format: DataFormat, inRet: LyErr, parseRet: LyErr, last: Option<ErrRecord>)
    ensures ParseOp(XML, inRet, parseRet, last).inputAttempted
    ensures ParseOp(RestconfNotifFormat(format), inRet, parseRet, last).inputAttempted
    ensures ParseOp(format, inRet, parseRet, last).inputAttempted <==> format != LYB
  {
  }

  // ---------------------------------------------------------------------
  // Diffs

  datatype DiffOp = Create | Delete | Replace

  const OPERATION: string := "operation"

  /** Iterator::find over the metadata: the position of the first entry named `name`. */
  function FindMeta(metas: seq<Meta>, name: string): (r: Option<nat>)
    ensures r.Some? ==> r.value < |metas| && metas[r.value].name == name
    ensures r.Some? ==> forall j :: 0 <= j < r.value ==> metas[j].name != name
    ensures r.None? ==> forall j :: 0 <= j < |metas| ==> metas[j].name != name
    decreases |metas|
  {
    if metas == [] then None
    else if metas[0].name == name then Some(0)
    else match FindMeta(metas[1..], name)
      case None => None
      case Some(i) => Some(i + 1)
  }

  /** The values the diff's operation metadata may take. */
  predicate KnownOperation(v: string) {
    v == "create" || v == "delete" || v == "replace" || v == "none"
  }

  /** The metadata value naming each diff operation. */
  function OpName(op: DiffOp): string {
    match op
    case Create => "create"
    case Delete => "delete"
    case Replace => "replace"
  }

  /** The operation an operation value names; "none" names none. */
  function ClassifyOp(v: string): (r: Option<DiffOp>)
    requires KnownOperation(v)
    ensures r.None? <==> v == "none"
    ensures r.Some? ==> OpName(r.value) == v
  {
    if v == "create" then Some(Create)
    else if v == "delete" then Some(Delete)
    else if v == "replace" then Some(Replace)
    else None
  }

  /** Naming an operation and classifying the name give the operation back. */
  lemma ClassifyOpRoundTrip(op: DiffOp)
    ensures KnownOperation(OpName(op)) && ClassifyOp(OpName(op)) == Some(op)
  {
  }

  /** The node's own operation value, if it has one, is one of the four known ones (the source panics otherwise). */
  predicate OperationKnown(n: DataNode) {
    var i := FindMeta(n.meta, OPERATION);
    i.Some? ==> KnownOperation(n.meta[i.value].value)
  }

  /**
   * The change a diff node stands for: from its own first "operation"
   * metadata only; none without one or for "none". Operations are not
   * inherited from ancestors.
   */
  function NodeOp(n: DataNode): (r: Option<DiffOp>)
    requires OperationKnown(n)
    ensures r.Some? ==> FindMeta(n.meta, OPERATION).Some?
    ensures r.Some? ==> n.meta[FindMeta(n.meta, OPERATION).value].value == OpName(r.value)
    ensures r.None? && FindMeta(n.meta, OPERATION).Some? ==> n.meta[FindMeta(n.meta, OPERATION).value].value == "none"
  {
    match FindMeta(n.meta, OPERATION)
    case None => None
    case Some(i) => ClassifyOp(n.meta[i].value)
  }

  /** filter_map of NodeOp over a listing of nodes. */
  function DiffChanges(f: seq<Tree<DataNode>>, order: seq<Path>): seq<(DiffOp, Path)>
    requires forall q :: q in order ==> ValidIn(f, q) && OperationKnown(At(f, q).info)
    decreases |order|
  {
    if order == [] then []
    else
      var q := order[0];
      (match NodeOp(At(f, q).info) case None => [] case Some(op) => [(op, q)]) + DiffChanges(f, order[1..])
  }

  /** Every node of the forest carries a known operation value, if any. */
  ghost predicate DiffWellFormed(f: seq<Tree<DataNode>>) {
    WellFormed(f) && forall p :: ValidIn(f, p) ==> OperationKnown(At(f, p).info)
  }

  /** DataDiff::iter: the diff tree's traversal, keeping each node that names a change. */
  function DiffIter(f: seq<Tree<DataNode>>): (r: seq<(DiffOp, Path)>)
    requires DiffWellFormed(f)
    ensures forall k :: 0 <= k < |r| ==> ValidIn(f, r[k].1) && NodeOp(At(f, r[k].1).info) == Some(r[k].0)
  {
    TopPreMembers(f, 0);
    DiffChangesMembers(f, TopPre(f, 0));
    DiffChanges(f, TopPre(f, 0))
  }

  /** A pair is listed exactly when its node is in the listing and names that change. */
  lemma {:induction false} DiffChangesMembers(f: seq<Tree<DataNode>>, order: seq<Path>)
    requires forall q :: q in order ==> ValidIn(f, q) && OperationKnown(At(f, q).info)
    ensures forall op, q :: (op, q) in DiffChanges(f, order) <==> q in order && NodeOp(At(f, q).info) == Some(op)
    ensures NoDup(order) ==> NoDup(DiffChanges(f, order))
    decreases |order|
  {
    if order != [] {
      var rest := order[1..];
      DiffChangesMembers(f, rest);
      forall q | q in order
        ensures q == order[0] || q in rest
      {
      }
      if NoDup(order) {
        assert order[0] !in rest;
        var head: seq<(DiffOp, Path)> := match NodeOp(At(f, order[0]).info) case None => [] case Some(op) => [(op, order[0])];
        assert DiffChanges(f, order) == head + DiffChanges(f, rest);
        NoDupConcat(head, DiffChanges(f, rest));
      }
    }
  }

  /** Listing two runs of nodes one after the other lists their changes one after the other. */
  lemma {:induction false} DiffChangesConcat(f: seq<Tree<DataNode>>, a: seq<Path>, b: seq<Path>)
    requires forall q :: q in a + b ==> ValidIn(f, q) && OperationKnown(At(f, q).info)
    ensures DiffChanges(f, a + b) == DiffChanges(f, a) + DiffChanges(f, b)
    decreases |a|
  {
    if a == [] {
      assert a + b == b;
    } else {
      assert (a + b)[0] == a[0];
      assert (a + b)[1..] == a[1..] + b;
      DiffChangesConcat(f, a[1..], b);
    }
  }

  /**
   * The diff iterator lists each node of the diff tree that names a create,
   * delete or replace of its own, with that operation, exactly once; no
   * other node appears.
   */
  lemma DiffIterSpec(f: seq<Tree<DataNode>>)
    requires DiffWellFormed(f)
    ensures forall op, p :: (op, p) in DiffIter(f) <==> ValidIn(f, p) && NodeOp(At(f, p).info) == Some(op)
    ensures NoDup(DiffIter(f))
  {
    TopPreMembers(f, 0);
    DiffChangesMembers(f, TopPre(f, 0));
  }
}
