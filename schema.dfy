// Compiled schema nodes and values, as src/schema.rs reads them. A schema
// node is viewed through its raw record (`struct lysc_node` and the
// kind-specific structs that extend it) plus the kind decoded from its
// node type; kind decides which of the record's fields are read.
module Schema {
  import opened Common
  import opened Utils
  import opened Forest
  import Iter

  // ---------------------------------------------------------------------
  // Node types and kinds

  /** `nodetype` values of compiled schema nodes (libyang's LYS_* node types). */
  const LYS_CONTAINER: nat := 0x0001
  const LYS_CHOICE: nat := 0x0002
  const LYS_LEAF: nat := 0x0004
  const LYS_LEAFLIST: nat := 0x0008
  const LYS_LIST: nat := 0x0010
  const LYS_ANYXML: nat := 0x0020
  const LYS_ANYDATA: nat := 0x0060
  const LYS_CASE: nat := 0x0080
  const LYS_RPC: nat := 0x0100
  const LYS_ACTION: nat := 0x0200
  const LYS_NOTIF: nat := 0x0400
  const LYS_INPUT: nat := 0x1000
  const LYS_OUTPUT: nat := 0x2000

  datatype SchemaNodeKind =
    | Container | Case | Choice | Leaf | LeafList | List | AnyData
    | Rpc | Input | Output | Action | Notification

  /** The node type each kind is decoded from. */
  function NodeTypeOf(k: SchemaNodeKind): nat {
    match k
    case Container => LYS_CONTAINER
    case Case => LYS_CASE
    case Choice => LYS_CHOICE
    case Leaf => LYS_LEAF
    case LeafList => LYS_LEAFLIST
    case List => LYS_LIST
    case AnyData => LYS_ANYDATA
    case Action => LYS_ACTION
    case Rpc => LYS_RPC
    case Input => LYS_INPUT
    case Output => LYS_OUTPUT
    case Notification => LYS_NOTIF
  }

  /**
   * The kind `SchemaNode::from_raw` decodes from a node type; `None` where
   * the source panics with "unknown node type" (any other value, LYS_ANYXML
   * included).
   */
  function KindFromNodeType(t: nat): (r: Option<SchemaNodeKind>)
    ensures r.Some? ==> NodeTypeOf(r.value) == t
    ensures r.None? ==> forall k :: NodeTypeOf(k) != t
  {
    if t == LYS_CONTAINER then Some(Container)
    else if t == LYS_CASE then Some(Case)
    else if t == LYS_CHOICE then Some(Choice)
    else if t == LYS_LEAF then Some(Leaf)
    else if t == LYS_LEAFLIST then Some(LeafList)
    else if t == LYS_LIST then Some(List)
    else if t == LYS_ANYDATA then Some(AnyData)
    else if t == LYS_ACTION then Some(Action)
    else if t == LYS_RPC then Some(Rpc)
    else if t == LYS_INPUT then Some(Input)
    else if t == LYS_OUTPUT then Some(Output)
    else if t == LYS_NOTIF then Some(Notification)
    else None
  }

  /** Every kind is decoded from its own node type, so distinct kinds have distinct node types. */
  lemma KindRoundTrip(k: SchemaNodeKind)
    ensures KindFromNodeType(NodeTypeOf(k)) == Some(k)
  {
  }

  /** An anyxml node is not among the decoded types: decoding it is the panicking branch. */
  lemma AnyxmlPanics()
    ensures KindFromNodeType(LYS_ANYXML).None?
  {
  }

  // ---------------------------------------------------------------------
  // Raw records

  /** `lysc_type`: the resolved base type and, for a leafref, the type it finally refers to. */
  datatype RawType = RawType(basetype: nat, realtype: Option<RawType>)

  /** `lyd_value`: the real type's base type, the cached canonical string and the value union. */
  datatype LydValue = LydValue(basetype: nat, canonical: CharPtr, storage: nat)

  /** The child list and must array of an rpc's or action's input or output. */
  datatype RawInOut = RawInOut(child: seq<RawSchemaNode>, musts: nat)

  /**
   * A compiled schema node's record. Fields other than `nodetype` and
   * `flags` belong to kind-specific structs and are read only for those
   * kinds: `min`/`max`/`actions`/`notifs` for lists (and containers),
   * `dflt`/`leafType`/`units` for leaves, `dfltCase` for choices,
   * `input`/`output` for rpcs and actions.
   */
  datatype RawSchemaNode = RawSchemaNode(
    nodetype: nat,
    flags: bv16,
    min: nat,
    max: nat,
    dflt: Option<LydValue>,
    dfltCase: Option<RawSchemaNode>,
    leafType: RawType,
    units: CharPtr,
    actions: seq<RawSchemaNode>,
    notifs: seq<RawSchemaNode>,
    input: RawInOut,
    output: RawInOut)

  /** A SchemaNode view: the raw record and the kind decoded when the view was built. */
  datatype SchemaNode = SchemaNode(raw: RawSchemaNode, kind: SchemaNodeKind)

  /** SchemaNode::from_raw; `None` where it panics on an unknown node type. */
  function FromRaw(raw: RawSchemaNode): (r: Option<SchemaNode>)
    ensures r.None? <==> KindFromNodeType(raw.nodetype).None?
    ensures r.Some? ==> r.value.raw == raw && NodeTypeOf(r.value.kind) == raw.nodetype
  {
    match KindFromNodeType(raw.nodetype)
    case None => None
    case Some(k) => Some(SchemaNode(raw, k))
  }

  predicate Known(raw: RawSchemaNode) {
    KindFromNodeType(raw.nodetype).Some?
  }

  /** The view of a node whose type is known. */
  function View(raw: RawSchemaNode): SchemaNode
    requires Known(raw)
  {
    FromRaw(raw).value
  }

  // ---------------------------------------------------------------------
  // Flags

  /** Schema node flag bits (libyang's LYS_* flags); some bits mean different things for different kinds. */
  const LYS_CONFIG_W: bv32 := 0x01
  const LYS_CONFIG_R: bv32 := 0x02
  const LYS_STATUS_CURR: bv32 := 0x04
  const LYS_STATUS_DEPRC: bv32 := 0x08
  const LYS_STATUS_OBSLT: bv32 := 0x10
  const LYS_MAND_TRUE: bv32 := 0x20
  const LYS_ORDBY_USER: bv32 := 0x40
  const LYS_PRESENCE: bv32 := 0x80
  const LYS_KEY: bv32 := 0x0100
  const LYS_KEYLESS: bv32 := 0x0200
  const LYS_SET_DFLT: bv32 := 0x0200
  const LYS_IS_INPUT: bv32 := 0x1000
  const LYS_IS_OUTPUT: bv32 := 0x2000
  const LYS_IS_NOTIF: bv32 := 0x4000

  /** check_flag: the 16-bit flags widened to 32 bits share a bit with `flag`. */
  predicate CheckFlag(n: SchemaNode, flag: bv32)
    ensures flag == 0 ==> !CheckFlag(n, flag)
    ensures CheckFlag(n, flag) ==> n.raw.flags != 0
  {
    (n.raw.flags as bv32) & flag != 0
  }

  /** The kinds that carry config, mandatory-ness and input/output/notification placement. */
  predicate IsDataDefKind(k: SchemaNodeKind) {
    k in {Container, Case, Choice, Leaf, LeafList, List, AnyData}
  }

  predicate IsConfig(n: SchemaNode)
    ensures IsConfig(n) ==> IsDataDefKind(n.kind)
  {
    match n.kind
    case Container | Case | Choice | Leaf | LeafList | List | AnyData => CheckFlag(n, LYS_CONFIG_W)
    case _ => false
  }

  predicate IsState(n: SchemaNode)
    ensures IsState(n) ==> IsDataDefKind(n.kind)
  {
    match n.kind
    case Container | Case | Choice | Leaf | LeafList | List | AnyData => CheckFlag(n, LYS_CONFIG_R)
    case _ => false
  }

  predicate IsStatusCurrent(n: SchemaNode)
    ensures IsStatusCurrent(n) <==> n.raw.flags & 0x04 != 0
  {
    CheckFlag(n, LYS_STATUS_CURR)
  }

  predicate IsStatusDeprecated(n: SchemaNode)
    ensures IsStatusDeprecated(n) <==> n.raw.flags & 0x08 != 0
  {
    CheckFlag(n, LYS_STATUS_DEPRC)
  }

  predicate IsStatusObsolete(n: SchemaNode)
    ensures IsStatusObsolete(n) <==> n.raw.flags & 0x10 != 0
  {
    CheckFlag(n, LYS_STATUS_OBSLT)
  }

  predicate IsMandatory(n: SchemaNode)
    ensures IsMandatory(n) ==> IsDataDefKind(n.kind) && n.kind != Case
  {
    match n.kind
    case Container | Choice | Leaf | LeafList | List | AnyData => CheckFlag(n, LYS_MAND_TRUE)
    case _ => false
  }

  predicate IsNpContainer(n: SchemaNode)
    ensures IsNpContainer(n) ==> n.kind == Container
  {
    match n.kind
    case Container => !CheckFlag(n, LYS_PRESENCE)
    case _ => false
  }

  predicate IsListKey(n: SchemaNode)
    ensures IsListKey(n) ==> n.kind == Leaf
  {
    match n.kind
    case Leaf => CheckFlag(n, LYS_KEY)
    case _ => false
  }

  predicate IsKeylessList(n: SchemaNode)
    ensures IsKeylessList(n) ==> n.kind == List
  {
    match n.kind
    case List => CheckFlag(n, LYS_KEYLESS)
    case _ => false
  }

  predicate IsUserOrdered(n: SchemaNode)
    ensures IsUserOrdered(n) ==> n.kind in {LeafList, List}
  {
    match n.kind
    case LeafList | List => CheckFlag(n, LYS_ORDBY_USER)
    case _ => false
  }

  predicate IsSchemaOnly(n: SchemaNode)
    ensures IsSchemaOnly(n) ==> IsDataDefKind(n.kind) && !IsNpContainer(n) && LeafType(n).None?
  {
    n.kind == Choice || n.kind == Case
  }

  predicate IsWithinInput(n: SchemaNode)
    ensures IsWithinInput(n) ==> IsDataDefKind(n.kind)
  {
    match n.kind
    case Container | Case | Choice | Leaf | LeafList | List | AnyData => CheckFlag(n, LYS_IS_INPUT)
    case _ => false
  }

  predicate IsWithinOutput(n: SchemaNode)
    ensures IsWithinOutput(n) ==> IsDataDefKind(n.kind)
  {
    match n.kind
    case Container | Case | Choice | Leaf | LeafList | List | AnyData => CheckFlag(n, LYS_IS_OUTPUT)
    case _ => false
  }

  predicate IsWithinNotification(n: SchemaNode)
    ensures IsWithinNotification(n) ==> IsDataDefKind(n.kind)
  {
    match n.kind
    case Container | Case | Choice | Leaf | LeafList | List | AnyData => CheckFlag(n, LYS_IS_NOTIF)
    case _ => false
  }

  predicate HasDefault(n: SchemaNode)
    ensures HasDefault(n) ==> n.kind in {Case, Leaf, LeafList} && !IsKeylessList(n)
  {
    match n.kind
    case Case | Leaf | LeafList => CheckFlag(n, LYS_SET_DFLT)
    case _ => false
  }

  /**
   * Config, state and the input/output/notification placement hold exactly
   * for data-definition kinds whose flag is set; rpcs, actions, their
   * input/output and notifications are never config, state or placed.
   */
  lemma DataDefFlagsGated(n: SchemaNode)
    ensures IsConfig(n) <==> IsDataDefKind(n.kind) && CheckFlag(n, LYS_CONFIG_W)
    ensures IsState(n) <==> IsDataDefKind(n.kind) && CheckFlag(n, LYS_CONFIG_R)
    ensures IsWithinInput(n) <==> IsDataDefKind(n.kind) && CheckFlag(n, LYS_IS_INPUT)
    ensures IsWithinOutput(n) <==> IsDataDefKind(n.kind) && CheckFlag(n, LYS_IS_OUTPUT)
    ensures IsWithinNotification(n) <==> IsDataDefKind(n.kind) && CheckFlag(n, LYS_IS_NOTIF)
  {
  }

  /** Mandatory-ness covers the data-definition kinds except case. */
  lemma MandatoryGated(n: SchemaNode)
    ensures IsMandatory(n) <==> IsDataDefKind(n.kind) && n.kind != Case && CheckFlag(n, LYS_MAND_TRUE)
  {
  }

  /** The status predicates test their bit for every kind. */
  lemma StatusUngated(n: SchemaNode)
    ensures IsStatusCurrent(n) <==> n.raw.flags & 0x04 != 0
    ensures IsStatusDeprecated(n) <==> n.raw.flags & 0x08 != 0
    ensures IsStatusObsolete(n) <==> n.raw.flags & 0x10 != 0
  {
  }

  /**
   * LYS_KEYLESS and LYS_SET_DFLT are the same bit: the kind test is what
   * keeps a keyless list from reporting a default, and a keyed list's leaf
   * key flag from being read on other kinds.
   */
  lemma SharedBitsGated(n: SchemaNode)
    ensures LYS_KEYLESS == LYS_SET_DFLT
    ensures IsKeylessList(n) ==> !HasDefault(n) && CheckFlag(n, LYS_SET_DFLT)
    ensures HasDefault(n) ==> !IsKeylessList(n)
    ensures IsListKey(n) ==> n.kind == Leaf && !IsUserOrdered(n) && !IsKeylessList(n) && !IsNpContainer(n)
    ensures IsNpContainer(n) <==> n.kind == Container && !CheckFlag(n, LYS_PRESENCE)
    ensures IsUserOrdered(n) ==> n.kind in {LeafList, List}
  {
  }

  /** Only choices and cases are schema-only; only cases, leaves and leaf-lists report a default. */
  lemma SchemaOnlyAndDefaultKinds(n: SchemaNode)
    ensures IsSchemaOnly(n) <==> n.kind in {Choice, Case}
    ensures HasDefault(n) ==> n.kind in {Case, Leaf, LeafList}
  {
  }

  // ---------------------------------------------------------------------
  // Kind-specific accessors

  /** min_elements: the list or leaf-list bound, none when it is 0 or for other kinds. */
  function MinElements(n: SchemaNode): (r: Option<nat>)
    ensures r.Some? <==> n.kind in {LeafList, List} && n.raw.min != 0
    ensures r.Some? ==> r.value == n.raw.min && r.value > 0
  {
    match n.kind
    case LeafList | List => if n.raw.min != 0 then Some(n.raw.min) else None
    case _ => None
  }

  const U32_MAX: nat := 0xFFFF_FFFF

  /** max_elements: the list or leaf-list bound, none when it is `u32::MAX` (unbounded) or for other kinds. */
  function MaxElements(n: SchemaNode): (r: Option<nat>)
    ensures r.Some? <==> n.kind in {LeafList, List} && n.raw.max != U32_MAX
    ensures r.Some? ==> r.value == n.raw.max && r.value != U32_MAX
  {
    match n.kind
    case LeafList | List => if n.raw.max != U32_MAX then Some(n.raw.max) else None
    case _ => None
  }

  /** actions: a container's or list's action chain, empty for every other kind. */
  function Actions(n: SchemaNode): (r: seq<RawSchemaNode>)
    ensures n.kind !in {Container, List} ==> r == []
    ensures n.kind in {Container, List} ==> r == n.raw.actions
  {
    match n.kind
    case Container | List => n.raw.actions
    case _ => []
  }

  /** notifications: a container's or list's notification chain, empty for every other kind. */
  function Notifications(n: SchemaNode): (r: seq<RawSchemaNode>)
    ensures n.kind !in {Container, List} ==> r == []
    ensures n.kind in {Container, List} ==> r == n.raw.notifs
  {
    match n.kind
    case Container | List => n.raw.notifs
    case _ => []
  }

  /** input: the input's child list and must array of an rpc or action; none for every other kind. */
  function InputOf(n: SchemaNode): (r: Option<RawInOut>)
    ensures r.Some? <==> n.kind in {Rpc, Action}
    ensures r.Some? ==> r.value == n.raw.input
  {
    match n.kind
    case Rpc | Action => Some(n.raw.input)
    case _ => None
  }

  /** output: the output's child list and must array of an rpc or action; none for every other kind. */
  function OutputOf(n: SchemaNode): (r: Option<RawInOut>)
    ensures r.Some? <==> n.kind in {Rpc, Action}
    ensures r.Some? ==> r.value == n.raw.output
  {
    match n.kind
    case Rpc | Action => Some(n.raw.output)
    case _ => None
  }

  /**
   * all_children: the data children, then the actions, then the
   * notifications; for kinds other than container and list it is just the
   * children.
   */
  function AllChildren(n: SchemaNode, children: seq<RawSchemaNode>): (r: seq<RawSchemaNode>)
    ensures |r| == |children| + |Actions(n)| + |Notifications(n)|
    ensures r[..|children|] == children
    ensures n.kind !in {Container, List} ==> r == children
    ensures n.kind in {Container, List} ==> r[|children|..] == n.raw.actions + n.raw.notifs
  {
    var r := children + Actions(n) + Notifications(n);
    assert r[..|children|] == children;
    assert r[|children|..] == Actions(n) + Notifications(n);
    r
  }

  /** leaf_type: the type of a leaf or leaf-list; none for other kinds. */
  function LeafType(n: SchemaNode): (r: Option<RawType>)
    ensures r.Some? <==> n.kind in {Leaf, LeafList}
    ensures r.Some? ==> r.value == n.raw.leafType
  {
    match n.kind
    case Leaf | LeafList => Some(n.raw.leafType)
    case _ => None
  }

  /** units: the units of a leaf or leaf-list, when set; none for other kinds. */
  function Units(n: SchemaNode): (r: Option<string>)
    requires n.raw.units.Chars? ==> n.raw.units.utf8
    ensures r.Some? <==> n.kind in {Leaf, LeafList} && n.raw.units.Chars?
    ensures r.Some? ==> r.value == n.raw.units.text
  {
    match n.kind
    case Leaf | LeafList => CharPtrToOptStr(n.raw.units)
    case _ => None
  }

  /** The canonical string of a value: the cached one, else what the engine computes (`engine`). */
  function CanonicalPtr(v: LydValue, engine: CharPtr): (r: CharPtr)
    ensures v.canonical.Chars? ==> r == v.canonical
    ensures v.canonical.Null? ==> r == engine
  {
    if v.canonical.Null? then engine else v.canonical
  }

  /** A leaf's default, when it has one, has a canonical string that is valid UTF-8 (the source unwraps it). */
  predicate DefaultUtf8(n: SchemaNode, engine: CharPtr) {
    n.kind == Leaf && n.raw.dflt.Some? ==>
      (CanonicalPtr(n.raw.dflt.value, engine).Chars? ==> CanonicalPtr(n.raw.dflt.value, engine).utf8)
  }

  /** How reading a leaf's default can fail: through a null `dflt` pointer. */
  datatype Fault = NullDefault

  /**
   * default_value_canonical as written: a leaf's default is read through
   * `dflt` with no null check, so a leaf without a default faults; none for
   * other kinds.
   */
  function DefaultValueCanonicalAsWritten(n: SchemaNode, engine: CharPtr): (r: Result<Option<string>, Fault>)
    requires DefaultUtf8(n, engine)
    ensures n.kind != Leaf ==> r == Ok(None)
    ensures n.kind == Leaf ==> (r.Err? <==> n.raw.dflt.None?)
    ensures r.Ok? && r.value.Some? ==>
              n.kind == Leaf && n.raw.dflt.Some? && CanonicalPtr(n.raw.dflt.value, engine).Chars?
              && r.value.value == CanonicalPtr(n.raw.dflt.value, engine).text
  {
    match n.kind
    case Leaf =>
      if n.raw.dflt.None? then Err(NullDefault)
      else Ok(CharPtrToOptStr(CanonicalPtr(n.raw.dflt.value, engine)))
    case _ => Ok(None)
  }

  /**
   * default_value_canonical, as default_value reads the same pointer: a
   * leaf's default in canonical form; none for a leaf without a default and
   * for other kinds.
   */
  function DefaultValueCanonical(n: SchemaNode, engine: CharPtr): (r: Option<string>)
    requires DefaultUtf8(n, engine)
    ensures n.kind != Leaf || n.raw.dflt.None? ==> r.None?
    ensures n.kind == Leaf && n.raw.dflt.Some? ==> (r.Some? <==> CanonicalPtr(n.raw.dflt.value, engine).Chars?)
    ensures r.Some? ==> n.raw.dflt.Some? && r.value == CanonicalPtr(n.raw.dflt.value, engine).text
  {
    match n.kind
    case Leaf => if n.raw.dflt.None? then None else CharPtrToOptStr(CanonicalPtr(n.raw.dflt.value, engine))
    case _ => None
  }

  /**
   * A leaf without a default: the code as written faults, while
   * default_value answers none for the same node, and so does the
   * corrected reading.
   */
  lemma DefaultValueCanonicalNullDefault(n: SchemaNode, engine: CharPtr)
    requires n.kind == Leaf && n.raw.dflt.None?
    ensures DefaultValueCanonicalAsWritten(n, engine) == Err(NullDefault)
    ensures DefaultValue(n, engine).None? && DefaultValueCanonical(n, engine).None?
  {
  }

  /** Wherever the code as written does not fault, the corrected reading gives the same answer. */
  lemma DefaultValueCanonicalAgreesAsWritten(n: SchemaNode, engine: CharPtr)
    requires DefaultUtf8(n, engine)
    ensures DefaultValueCanonicalAsWritten(n, engine).Ok? ==>
              DefaultValueCanonicalAsWritten(n, engine).value == DefaultValueCanonical(n, engine)
  {
  }

  /**
   * The canonical default is there only when the typed default is, and for
   * an untyped default the typed one is that canonical text.
   */
  lemma DefaultValueCanonicalAgrees(n: SchemaNode, engine: CharPtr)
    requires DefaultUtf8(n, engine)
    requires n.kind == Leaf && n.raw.dflt.Some? ==> Decodable(n.raw.dflt.value, engine)
    ensures DefaultValueCanonical(n, engine).Some? ==> DefaultValue(n, engine).Some?
    ensures DefaultValue(n, engine).Some? && !IsTypedBase(n.raw.dflt.value.basetype) ==>
              DefaultValueCanonical(n, engine) == Some(DefaultValue(n, engine).value.s)
  {
  }

  /** default_value: a leaf's default decoded as a DataValue; none without a default or for other kinds. */
  function DefaultValue(n: SchemaNode, engine: CharPtr): (r: Option<DataValue>)
    requires n.kind == Leaf && n.raw.dflt.Some? ==> Decodable(n.raw.dflt.value, engine)
    ensures r.Some? <==> n.kind == Leaf && n.raw.dflt.Some?
    ensures r.Some? ==> r.value == ValueFromRaw(n.raw.dflt.value, engine)
  {
    match n.kind
    case Leaf => if n.raw.dflt.None? then None else Some(ValueFromRaw(n.raw.dflt.value, engine))
    case _ => None
  }

  /** default_case: a choice's default case, when it has one; none for other kinds. */
  function DefaultCase(n: SchemaNode): (r: Option<RawSchemaNode>)
    ensures r.Some? <==> n.kind == Choice && n.raw.dfltCase.Some?
    ensures r.Some? ==> r.value == n.raw.dfltCase.value
  {
    match n.kind
    case Choice => n.raw.dfltCase
    case _ => None
  }

  // ---------------------------------------------------------------------
  // Leaf types

  /** DataValueType values (libyang's LY_TYPE_* base types). */
  const LY_TYPE_UNKNOWN: nat := 0
  const LY_TYPE_UINT8: nat := 2
  const LY_TYPE_UINT16: nat := 3
  const LY_TYPE_UINT32: nat := 4
  const LY_TYPE_UINT64: nat := 5
  const LY_TYPE_STRING: nat := 6
  const LY_TYPE_BOOL: nat := 8
  const LY_TYPE_EMPTY: nat := 10
  const LY_TYPE_LEAFREF: nat := 14
  const LY_TYPE_INT8: nat := 16
  const LY_TYPE_INT16: nat := 17
  const LY_TYPE_INT32: nat := 18
  const LY_TYPE_INT64: nat := 19

  /** base_type: the `DataValueType` discriminant; `from_u32(..).unwrap()` panics outside 0..=19. */
  function BaseType(t: RawType): (r: nat)
    requires t.basetype <= LY_TYPE_INT64
    ensures r <= LY_TYPE_INT64 && r == t.basetype
  {
    t.basetype
  }

  /**
   * leafref_real_type: the resolved type of a leafref; none for any other
   * base type. A compiled leafref always carries its real type.
   */
  function LeafrefRealType(t: RawType): (r: Option<RawType>)
    requires t.basetype <= LY_TYPE_INT64
    requires t.basetype == LY_TYPE_LEAFREF ==> t.realtype.Some?
    ensures r.Some? <==> BaseType(t) == LY_TYPE_LEAFREF
    ensures r.Some? ==> r.value == t.realtype.value
  {
    if BaseType(t) != LY_TYPE_LEAFREF then None else Some(t.realtype.value)
  }

  // ---------------------------------------------------------------------
  // Values

  datatype DataValue =
    | Uint8(u: nat) | Uint16(u: nat) | Uint32(u: nat) | Uint64(u: nat)
    | Bool(b: bool)
    | Empty
    | Int8(i: int) | Int16(i: int) | Int32(i: int) | Int64(i: int)
    | Other(s: string)

  /** The base types decoded into a typed variant; every other one goes through the canonical string. */
  predicate IsTypedBase(t: nat) {
    t in {LY_TYPE_UINT8, LY_TYPE_UINT16, LY_TYPE_UINT32, LY_TYPE_UINT64, LY_TYPE_BOOL,
          LY_TYPE_INT8, LY_TYPE_INT16, LY_TYPE_INT32, LY_TYPE_INT64}
  }

  /** What `from_raw` needs: a non-null canonical string for the untyped case. */
  predicate Decodable(v: LydValue, engine: CharPtr) {
    !IsTypedBase(v.basetype) ==> CanonicalPtr(v, engine).Chars?
  }

  const TWO_8: nat := 0x100
  const TWO_16: nat := 0x1_0000
  const TWO_32: nat := 0x1_0000_0000
  const TWO_64: nat := 0x1_0000_0000_0000_0000

  /** Reading an unsigned union member of `m` values: the low bytes of the storage (little-endian). */
  function Unsigned(storage: nat, m: nat): nat
    requires m > 0
  {
    storage % m
  }

  /** Reading a signed union member: the low bytes as two's complement. */
  function Signed(storage: nat, m: nat): int
    requires m > 1
  {
    var u := storage % m;
    if u >= m / 2 then u - m else u
  }

  /**
   * DataValue::from_raw: fixed-width integers and booleans read from the
   * value union, everything else (the empty type included) as the canonical
   * string.
   */
  function ValueFromRaw(v: LydValue, engine: CharPtr): (r: DataValue)
    requires Decodable(v, engine)
    ensures !r.Empty?
    ensures r.Other? <==> !IsTypedBase(v.basetype)
    ensures r.Other? ==> r.s == CanonicalPtr(v, engine).text
    ensures r.Uint8? ==> r.u < TWO_8
    ensures r.Uint16? ==> r.u < TWO_16
    ensures r.Uint32? ==> r.u < TWO_32
    ensures r.Uint64? ==> r.u < TWO_64
    ensures r.Int8? ==> -0x80 <= r.i < 0x80
    ensures r.Int16? ==> -0x8000 <= r.i < 0x8000
    ensures r.Int32? ==> -0x8000_0000 <= r.i < 0x8000_0000
    ensures r.Int64? ==> -0x8000_0000_0000_0000 <= r.i < 0x8000_0000_0000_0000
  {
    var t := v.basetype;
    if t == LY_TYPE_UINT8 then Uint8(Unsigned(v.storage, TWO_8))
    else if t == LY_TYPE_UINT16 then Uint16(Unsigned(v.storage, TWO_16))
    else if t == LY_TYPE_UINT32 then Uint32(Unsigned(v.storage, TWO_32))
    else if t == LY_TYPE_UINT64 then Uint64(Unsigned(v.storage, TWO_64))
    else if t == LY_TYPE_BOOL then Bool(Unsigned(v.storage, TWO_8) != 0)
    else if t == LY_TYPE_INT8 then Int8(Signed(v.storage, TWO_8))
    else if t == LY_TYPE_INT16 then Int16(Signed(v.storage, TWO_16))
    else if t == LY_TYPE_INT32 then Int32(Signed(v.storage, TWO_32))
    else if t == LY_TYPE_INT64 then Int64(Signed(v.storage, TWO_64))
    else Other(CharPtrToString(CanonicalPtr(v, engine)))
  }

  /** A typed value within the range of its Rust type. */
  predicate InRange(d: DataValue) {
    match d
    case Uint8(u) => u < TWO_8
    case Uint16(u) => u < TWO_16
    case Uint32(u) => u < TWO_32
    case Uint64(u) => u < TWO_64
    case Bool(_) => true
    case Int8(i) => -0x80 <= i < 0x80
    case Int16(i) => -0x8000 <= i < 0x8000
    case Int32(i) => -0x8000_0000 <= i < 0x8000_0000
    case Int64(i) => -0x8000_0000_0000_0000 <= i < 0x8000_0000_0000_0000
    case _ => false
  }

  /** The base type a typed value is stored under. */
  function BaseTypeOf(d: DataValue): nat
    requires InRange(d)
  {
    match d
    case Uint8(_) => LY_TYPE_UINT8
    case Uint16(_) => LY_TYPE_UINT16
    case Uint32(_) => LY_TYPE_UINT32
    case Uint64(_) => LY_TYPE_UINT64
    case Bool(_) => LY_TYPE_BOOL
    case Int8(_) => LY_TYPE_INT8
    case Int16(_) => LY_TYPE_INT16
    case Int32(_) => LY_TYPE_INT32
    case Int64(_) => LY_TYPE_INT64
  }

  /** How the engine stores a typed value in the union: two's complement in the low bytes. */
  function Store(d: DataValue): nat
    requires InRange(d)
  {
    match d
    case Uint8(u) => u
    case Uint16(u) => u
    case Uint32(u) => u
    case Uint64(u) => u
    case Bool(b) => if b then 1 else 0
    case Int8(i) => if i < 0 then TWO_8 + i else i
    case Int16(i) => if i < 0 then TWO_16 + i else i
    case Int32(i) => if i < 0 then TWO_32 + i else i
    case Int64(i) => if i < 0 then TWO_64 + i else i
  }

  /** Decoding a stored typed value gives the value back, whatever the cached canonical string. */
  lemma ValueRoundTrip(d: DataValue, canonical: CharPtr, engine: CharPtr)
    requires InRange(d)
    ensures ValueFromRaw(LydValue(BaseTypeOf(d), canonical, Store(d)), engine) == d
  {
    match d
    case Uint8(u) => UnsignedRoundTrip(u, TWO_8);
    case Uint16(u) => UnsignedRoundTrip(u, TWO_16);
    case Uint32(u) => UnsignedRoundTrip(u, TWO_32);
    case Uint64(u) => UnsignedRoundTrip(u, TWO_64);
    case Bool(b) => UnsignedRoundTrip(if b then 1 else 0, TWO_8);
    case Int8(i) => SignedRoundTrip(i, TWO_8);
    case Int16(i) => SignedRoundTrip(i, TWO_16);
    case Int32(i) => SignedRoundTrip(i, TWO_32);
    case Int64(i) => SignedRoundTrip(i, TWO_64);
  }

  /** Reading back an unsigned value that fits gives it unchanged. */
  lemma UnsignedRoundTrip(u: nat, m: nat)
    requires u < m
    ensures Unsigned(u, m) == u
  {
  }

  /** Reading back a two's complement value that fits gives it unchanged. */
  lemma SignedRoundTrip(i: int, m: nat)
    requires m in {TWO_8, TWO_16, TWO_32, TWO_64} && -(m / 2) <= i < m / 2
    ensures Signed(if i < 0 then m + i else i, m) == i
  {
    var stored := if i < 0 then m + i else i;
    if m == TWO_8 {
      assert stored % TWO_8 == stored;
    } else if m == TWO_16 {
      assert stored % TWO_16 == stored;
    } else if m == TWO_32 {
      assert stored % TWO_32 == stored;
    } else {
      assert stored % TWO_64 == stored;
    }
  }

  // ---------------------------------------------------------------------
  // Modules

  /** The compiled part of a module: its data tree, its rpcs and its notifications, each a forest. */
  datatype Compiled = Compiled(
    data: seq<Tree<RawSchemaNode>>,
    rpcs: seq<Tree<RawSchemaNode>>,
    notifs: seq<Tree<RawSchemaNode>>)

  /** A module, compiled or not (`compiled` null). */
  datatype SchemaModule = SchemaModule(compiled: Option<Compiled>)

  datatype Section = DataSection | RpcSection | NotifSection

  /** A node of a module: the forest it lives in and its path there. */
  datatype SchemaRef = SchemaRef(section: Section, path: Path)

  function Tag(sec: Section, ps: seq<Path>): (r: seq<SchemaRef>)
    ensures |r| == |ps| && forall i :: 0 <= i < |ps| ==> r[i] == SchemaRef(sec, ps[i])
  {
    seq(|ps|, i requires 0 <= i < |ps| => SchemaRef(sec, ps[i]))
  }

  /** data / rpcs / notifications: the first top-level node of a section, none when empty or not compiled. */
  function SectionStart(m: SchemaModule, sec: Section): (r: Option<Path>)
    ensures r.Some? ==> r.value == [0] && m.compiled.Some? && |SectionForest(m.compiled.value, sec)| > 0
    ensures m.compiled.None? ==> r.None?
  {
    match m.compiled
    case None => None
    case Some(c) => if |SectionForest(c, sec)| > 0 then Some([0]) else None
  }

  function SectionForest(c: Compiled, sec: Section): seq<Tree<RawSchemaNode>> {
    match sec
    case DataSection => c.data
    case RpcSection => c.rpcs
    case NotifSection => c.notifs
  }

  /** Every node of the forest has a node type that decodes, so building its view does not panic. */
  ghost predicate AllKnown(f: seq<Tree<RawSchemaNode>>) {
    forall p :: ValidIn(f, p) ==> Known(At(f, p).info)
  }

  /** Every node of every section of a compiled module decodes. */
  ghost predicate SectionsKnown(m: SchemaModule) {
    m.compiled.Some? ==>
      AllKnown(m.compiled.value.data) && AllKnown(m.compiled.value.rpcs) && AllKnown(m.compiled.value.notifs)
  }

  /** One section of the module traversal: its nodes in pre-order, tagged with the section. */
  function SectionTraverse(m: SchemaModule, sec: Section): (r: seq<SchemaRef>)
    requires m.compiled.Some? && SectionsKnown(m)
    ensures forall i :: 0 <= i < |r| ==> r[i].section == sec
    ensures forall x :: x in r ==> x.section == sec
  {
    var f := SectionForest(m.compiled.value, sec);
    Tag(sec, Iter.FlatTraverse(f, Iter.ChainFrom(f, SectionStart(m, sec))))
  }

  /** SchemaModule::traverse: the data nodes, then the rpcs, then the notifications, each section in pre-order. */
  function ModuleTraverse(m: SchemaModule): (r: seq<SchemaRef>)
    requires SectionsKnown(m)
    ensures m.compiled.None? ==> r == []
    ensures m.compiled.Some? ==>
              |r| == |SectionTraverse(m, DataSection)| + |SectionTraverse(m, RpcSection)| + |SectionTraverse(m, NotifSection)|
  {
    match m.compiled
    case None => []
    case Some(c) =>
      SectionTraverse(m, DataSection) + SectionTraverse(m, RpcSection) + SectionTraverse(m, NotifSection)
  }

  lemma TagMembers(sec: Section, ps: seq<Path>)
    ensures forall x: SchemaRef :: x in Tag(sec, ps) <==> x.section == sec && x.path in ps
    ensures NoDup(ps) ==> NoDup(Tag(sec, ps))
  {
    var t := Tag(sec, ps);
    forall x: SchemaRef | x.section == sec && x.path in ps
      ensures x in t
    {
      var i :| 0 <= i < |ps| && ps[i] == x.path;
      assert t[i] == x;
    }
  }

  /** A section lists no node twice. */
  lemma SectionTraverseNoDup(m: SchemaModule, sec: Section)
    requires m.compiled.Some? && SectionsKnown(m)
    ensures NoDup(SectionTraverse(m, sec))
  {
    var f := SectionForest(m.compiled.value, sec);
    Iter.FlatTraverseTop(f);
    assert SectionStart(m, sec) == (if f == [] then None else Some([0]));
    TopPreMembers(f, 0);
    TagMembers(sec, TopPre(f, 0));
  }

  /** A section lists every node of its forest exactly once, each tagged with the section. */
  lemma SectionTraverseSpec(m: SchemaModule, sec: Section)
    requires m.compiled.Some? && SectionsKnown(m)
    ensures forall x: SchemaRef :: x in SectionTraverse(m, sec) <==>
              x.section == sec && ValidIn(SectionForest(m.compiled.value, sec), x.path)
    ensures NoDup(SectionTraverse(m, sec))
  {
    var f := SectionForest(m.compiled.value, sec);
    Iter.FlatTraverseTop(f);
    assert SectionStart(m, sec) == (if f == [] then None else Some([0]));
    TopPreMembers(f, 0);
    TagMembers(sec, TopPre(f, 0));
  }

  /** Three blocks, each tagged with one section, concatenated: the position decides the section. */
  lemma BlocksLayout(d: seq<SchemaRef>, r: seq<SchemaRef>, n: seq<SchemaRef>)
    requires forall i :: 0 <= i < |d| ==> d[i].section == DataSection
    requires forall i :: 0 <= i < |r| ==> r[i].section == RpcSection
    requires forall i :: 0 <= i < |n| ==> n[i].section == NotifSection
    ensures forall i :: 0 <= i < |d + r + n| ==>
              if i < |d| then (d + r + n)[i].section == DataSection
              else if i < |d| + |r| then (d + r + n)[i].section == RpcSection
              else (d + r + n)[i].section == NotifSection
  {
    var all := d + r + n;
    forall i | 0 <= i < |all|
      ensures if i < |d| then all[i].section == DataSection
              else if i < |d| + |r| then all[i].section == RpcSection
              else all[i].section == NotifSection
    {
      if i < |d| {
        assert all[i] == d[i];
      } else if i < |d| + |r| {
        assert all[i] == r[i - |d|];
      } else {
        assert all[i] == n[i - |d| - |r|];
      }
    }
  }

  /** The sections of the traversal are laid out one after the other: data, rpcs, notifications. */
  lemma ModuleTraverseLayout(m: SchemaModule)
    requires m.compiled.Some? && SectionsKnown(m)
    ensures forall i :: 0 <= i < |ModuleTraverse(m)| ==>
              if i < |SectionTraverse(m, DataSection)| then ModuleTraverse(m)[i].section == DataSection
              else if i < |SectionTraverse(m, DataSection)| + |SectionTraverse(m, RpcSection)|
              then ModuleTraverse(m)[i].section == RpcSection
              else ModuleTraverse(m)[i].section == NotifSection
  {
    BlocksLayout(SectionTraverse(m, DataSection), SectionTraverse(m, RpcSection), SectionTraverse(m, NotifSection));
  }

  /** The module traversal of a compiled module holds every node of its three sections. */
  lemma ModuleTraverseMembers(m: SchemaModule)
    requires m.compiled.Some? && SectionsKnown(m)
    ensures forall r :: r in ModuleTraverse(m) <==> ValidIn(SectionForest(m.compiled.value, r.section), r.path)
  {
    var c := m.compiled.value;
    var all := ModuleTraverse(m);
    forall x | true
      ensures x in all <==> ValidIn(SectionForest(c, x.section), x.path)
    {
      SectionTraverseSpec(m, x.section);
      assert x in all <==> x in SectionTraverse(m, x.section) by {
        InBlocks(x, SectionTraverse(m, DataSection), SectionTraverse(m, RpcSection), SectionTraverse(m, NotifSection));
        SectionTraverseSpec(m, DataSection);
        SectionTraverseSpec(m, RpcSection);
        SectionTraverseSpec(m, NotifSection);
      }
    }
  }

  /** An entry of three concatenated blocks is in one of them. */
  lemma InBlocks<T>(x: T, d: seq<T>, r: seq<T>, n: seq<T>)
    ensures x in d + r + n <==> x in d || x in r || x in n
  {
  }

  /** Three duplicate-free blocks tagged with distinct sections concatenate without duplicates. */
  lemma TaggedBlocksNoDup(d: seq<SchemaRef>, r: seq<SchemaRef>, n: seq<SchemaRef>)
    requires NoDup(d) && NoDup(r) && NoDup(n)
    requires forall x :: x in d ==> x.section == DataSection
    requires forall x :: x in r ==> x.section == RpcSection
    requires forall x :: x in n ==> x.section == NotifSection
    ensures NoDup(d + r + n)
  {
    NoDupConcat(d, r);
    forall x | x in d + r
      ensures x !in n
    {
      InBlocks(x, d, r, []);
    }
    NoDupConcat(d + r, n);
  }

  /** The module traversal of a compiled module lists no node twice. */
  lemma ModuleTraverseNoDup(m: SchemaModule)
    requires m.compiled.Some? && SectionsKnown(m)
    ensures NoDup(ModuleTraverse(m))
  {
    SectionTraverseNoDup(m, DataSection);
    SectionTraverseNoDup(m, RpcSection);
    SectionTraverseNoDup(m, NotifSection);
    TaggedBlocksNoDup(SectionTraverse(m, DataSection), SectionTraverse(m, RpcSection), SectionTraverse(m, NotifSection));
  }

  /** Layout read as order: nothing of an earlier section follows an entry of a later one. */
  lemma ModuleTraverseOrdered(m: SchemaModule)
    requires SectionsKnown(m)
    ensures forall i, j :: 0 <= i < j < |ModuleTraverse(m)| ==>
              ModuleTraverse(m)[i].section == RpcSection ==> ModuleTraverse(m)[j].section != DataSection
    ensures forall i, j :: 0 <= i < j < |ModuleTraverse(m)| ==>
              ModuleTraverse(m)[i].section == NotifSection ==> ModuleTraverse(m)[j].section == NotifSection
  {
    if m.compiled.Some? {
      ModuleTraverseLayout(m);
    }
  }

  /**
   * The module traversal lists every node of the three sections exactly
   * once, data nodes first, then rpcs, then notifications; a module that is
   * not compiled has none.
   */
  lemma ModuleTraverseSpec(m: SchemaModule)
    requires SectionsKnown(m)
    ensures m.compiled.None? ==> ModuleTraverse(m) == []
    ensures m.compiled.Some? ==>
              forall r :: r in ModuleTraverse(m) <==> ValidIn(SectionForest(m.compiled.value, r.section), r.path)
    ensures NoDup(ModuleTraverse(m))
    ensures forall i, j :: 0 <= i < j < |ModuleTraverse(m)| ==>
              ModuleTraverse(m)[i].section == RpcSection ==> ModuleTraverse(m)[j].section != DataSection
    ensures forall i, j :: 0 <= i < j < |ModuleTraverse(m)| ==>
              ModuleTraverse(m)[i].section == NotifSection ==> ModuleTraverse(m)[j].section == NotifSection
  {
    if m.compiled.Some? {
      ModuleTraverseMembers(m);
      ModuleTraverseNoDup(m);
    }
    ModuleTraverseOrdered(m);
  }

  // ---------------------------------------------------------------------
  // List keys

  /** The views of a node's children whose types are known. */
  predicate ChildrenKnown(f: seq<Tree<RawSchemaNode>>, p: Path)
    requires ValidIn(f, p)
  {
    forall c :: 0 <= c < |At(f, p).children| ==> Known(At(f, p).children[c].info)
  }

  /** is_list_key on the view of a raw node (false for a node whose type is not decoded). */
  predicate IsKeyRaw(raw: RawSchemaNode) {
    Known(raw) && IsListKey(View(raw))
  }

  /**
   * list_keys: the children, in order, that are key leaves; building each
   * child's view panics on an unknown node type, so all must be known.
   */
  function ListKeys(f: seq<Tree<RawSchemaNode>>, p: Path): (r: seq<Path>)
    requires ValidIn(f, p) && ChildrenKnown(f, p)
    ensures forall q :: q in r ==> |q| == |p| + 1 && q[..|p|] == p && Last(q) < |At(f, p).children|
  {
    ChildrenWhereBounds(f, p, 0, IsKeyRaw);
    ChildrenWhere(f, p, 0, IsKeyRaw)
  }

  /** The keys of a list node are exactly its key-leaf children, in child order. */
  lemma ListKeysSpec(f: seq<Tree<RawSchemaNode>>, p: Path)
    requires ValidIn(f, p) && ChildrenKnown(f, p)
    ensures forall c: nat :: p + [c] in ListKeys(f, p) <==>
              c < |At(f, p).children| && IsListKey(View(At(f, p).children[c].info))
    ensures forall q :: q in ListKeys(f, p) ==> |q| == |p| + 1 && q[..|p|] == p
    ensures forall a, b :: 0 <= a < b < |ListKeys(f, p)| ==> Last(ListKeys(f, p)[a]) < Last(ListKeys(f, p)[b])
  {
    ChildrenWhereMembers(f, p, 0, IsKeyRaw);
    ChildrenWhereOrdered(f, p, 0, IsKeyRaw);
  }
}
