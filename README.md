# yang-rs core, modelled in Dafny

yang-rs is a Rust binding over the libyang YANG engine. This project models
the parts of the crate that make decisions of their own, and proves
properties of them. The libyang calls the crate wraps become inputs of the
model: a return code, the tree the engine produced, or the last error record.

The model covers:

- **Tree iterators** (`src/iter.rs`). `Siblings`, `Ancestors`, `Traverse`,
  `Set`, `Array`, `SchemaModules` and `MetadataList` are classes. Each has
  the source's cursor fields and a `Next` method, proved against a ghost
  `Remaining()` list. A schema or data tree is a forest of `Tree` values,
  and a node is addressed by its path of child indices. Node identity (the
  `PartialEq` on node references) is path equality.
  The headline result: `Traverse` from a node yields exactly the pre-order
  listing of that node's subtree, with no duplicates and nothing outside it.
  The `parent().unwrap()` in its upward climb always finds a parent.
- **Data trees** (`src/data.rs`). The first-child dispatch on the node kind
  and the null handling of `parent` are modelled. So are the
  ancestor/sibling/child collections, the root bookkeeping of `DataTree`
  (`reroot`, `new_path`, `merge`, `add_implicit`, `duplicate`) and the
  format check of `_parse_op`. `DataDiff::iter` is modelled as a filter
  over the data traversal that keeps the nodes whose own `operation`
  metadata names create, delete or replace.
- **Schema nodes** (`src/schema.rs`):
  - the total mapping from libyang node types to `SchemaNodeKind`;
  - the kind-gated flag predicates and the `min`/`max` sentinels;
  - the child, action and notification concatenations;
  - the default values, `DataValue` variant selection and list keys;
  - module traversal (data nodes, then RPCs, then notifications).
- **Contexts** (`src/context.rs`):
  - the error built when creation fails;
  - the NUL-terminated feature array passed to module loading;
  - the embedded-module lookup rule and the import callback that writes
    through its out-parameters.
- **Helpers** (`src/utils.rs`, `src/error.rs`): null-to-`Option`
  conversions, the default error, the copy of the engine's last error,
  and `Display`.

Files: `common.dfy` (Option, Result, NoDup), `forest.dfy` (paths,
navigation and pre-order), `iter.dfy`, `data.dfy`, `schema.dfy`,
`context.dfy`, `utils.dfy` and `error.dfy`.

## Model

| member | source | states |
|---|---|---|
| Forest.Parent | src/iter.rs:19 | no parent exactly for a top-level node; otherwise the parent is a valid node one level up whose path is a prefix |
| Forest.NextSibling | src/iter.rs:22 | none exactly for the last sibling; otherwise the valid node at the next position under the same parent |
| Forest.FirstChild | src/iter.rs:25 | none exactly when the node has no children; otherwise its first child |
| Forest.FirstSibling | src/data.rs:450-459 | the first sibling of a node (what `lyd_first_sibling` returns) has the same parent and position 0 |
| Forest.FirstSiblingValid | src/data.rs:450-459 | the first sibling of a valid node is valid |
| Forest.SubtreeMembers | src/iter.rs:180-213 | the pre-order listing of a subtree holds exactly the valid nodes below and including its root, each once |
| Forest.TopPreMembers | src/data.rs:917-920 | the pre-order listing of the top-level trees from position i holds exactly the valid nodes of those trees, each once |
| Forest.SiblingChainSpec | src/iter.rs:119-125 | following next-sibling links from a node reaches every later sibling, in order |
| Forest.AncestorChainSpec | src/iter.rs:148-154 | following parent links from a node reaches each ancestor in turn, up to the top level |
| Forest.ChildrenWhereMembers | src/schema.rs:883-885 | a child is kept by a filter over the children exactly when it satisfies the filter |
| Forest.ChildrenWhereOrdered | src/schema.rs:883-885 | a filter over the children keeps only children, in increasing position |
| Iter.Siblings.constructor | src/iter.rs:105-110 | the cursor starts at the given node |
| Iter.Siblings.Next | src/iter.rs:119-125 | yields the first remaining sibling and drops it; once exhausted it keeps yielding none |
| Iter.SiblingsAll | src/iter.rs:105-125 | a sibling walk yields the start node and then each later sibling, in order and nothing else |
| Iter.Ancestors.constructor | src/iter.rs:134-139 | the cursor starts at the given node |
| Iter.Ancestors.Next | src/iter.rs:148-154 | yields the first remaining ancestor and drops it; once exhausted it keeps yielding none |
| Iter.AncestorsAll | src/iter.rs:134-154 | an ancestor walk yields the start node and then each ancestor up to the top level |
| Iter.Traverse.constructor | src/iter.rs:163-171 | the remaining items are the pre-order listing of the start node's subtree |
| Iter.Traverse.Next | src/iter.rs:180-213 | yields the next node of the subtree in pre-order; the climb's parent unwrap always finds a parent |
| Iter.TraverseAll | src/iter.rs:163-213 | traversing from a node yields exactly the pre-order listing of its subtree |
| Iter.TraverseYieldsSubtree | src/iter.rs:163-213 | the traversal starts with the start node, covers the subtree exactly once, never yields a sibling or an ancestor, and a childless start yields only itself |
| Iter.FlatTraverseFrom | src/data.rs:917-920 | concatenating the subtree traversals of the top-level siblings from position i is the pre-order listing of those trees |
| Iter.FlatTraverseTop | src/data.rs:917-920 | the same, from the first top-level node: the pre-order listing of the whole forest |
| Iter.FlatTraverseAll | src/data.rs:917-920 | the flat-mapped traversal over a sibling walk is the concatenation of the subtree traversals of the siblings |
| Iter.FlatTraverseAppend | src/data.rs:917-920 | one more sibling appends its subtree traversal |
| Iter.Set.constructor | src/iter.rs:222-228 | the cursor holds the whole result slice |
| Iter.Set.Next | src/iter.rs:236-245 | yields the first remaining slice element and drops it |
| Iter.Set.SizeHint | src/iter.rs:247-249 | lower bound 0, upper bound the number of slice elements still to come |
| Iter.SetAll | src/iter.rs:236-249 | a set yields every slice element once, in order; its size hint is 0 and the number of items then yielded |
| Iter.Array.constructor | src/iter.rs:261-281 | the count is 0 for a null base, otherwise the word stored just before the first element |
| Iter.Array.Next | src/iter.rs:289-298 | at count 0 yields none and changes nothing; otherwise yields the element at the base, decrements the count and advances the base by the stride (wrapping at 2^64) |
| Iter.Array.SizeHint | src/iter.rs:300-302 | lower bound 0, upper bound the remaining count |
| Iter.ArrayAll | src/iter.rs:261-302 | an array never yields more than its stored count (its size-hint bound); item k is the k-th element address; with no null element it yields the full count |
| Iter.SchemaModules.constructor | src/iter.rs:311-318 | the start index is the internal module count when skipping internal modules, else 0 |
| Iter.SchemaModules.Next | src/iter.rs:324-329 | yields the module at the index and advances it |
| Iter.ModulesAll | src/iter.rs:311-329 | the modules yielded are all modules, or the ones after the internal ones when skipping |
| Iter.MetadataList.constructor | src/iter.rs:335-337 | the remaining items are the node's metadata list |
| Iter.MetadataList.Next | src/iter.rs:343-349 | yields the first remaining metadata entry and drops it |
| Iter.MetadataAll | src/iter.rs:335-349 | a metadata walk yields the whole list in order |
| Utils.CharPtrToString | src/utils.rs:11-13 | the owned copy has the characters of the C string, with no UTF-8 requirement (text is modelled as characters, so this is the model's identity) |
| Utils.CharPtrToOptString | src/utils.rs:16-22 | none exactly for a null pointer, otherwise the owned copy |
| Utils.CharPtrToStr | src/utils.rs:25-27 | demands valid UTF-8 (the source unwraps) and agrees with the owned copy |
| Utils.CharPtrToOptStr | src/utils.rs:30-36 | none exactly for a null pointer, otherwise the borrowed string |
| Utils.OptStrAgreesWithOptString | src/utils.rs:16-36 | on valid UTF-8 the borrowed and owned optional conversions agree |
| Utils.FromRawOpt | src/utils.rs:52-61 | none exactly for a null pointer, otherwise the view built from it |
| Errors.Default | src/error.rs:53-62 | LY_EOTHER with no message, path or application tag |
| Errors.New | src/error.rs:24-43 | the default when the engine has no last error; otherwise its code, and its message, data path and tag, each none exactly when null |
| Errors.Other | src/error.rs:45-50 | the default error with the given message |
| Errors.Decimal | src/error.rs:70 | the decimal rendering of a code is non-empty and all digits |
| Errors.DecimalRoundTrip | src/error.rs:70 | reading back the decimal rendering gives the code, with no leading zero |
| Errors.Display | src/error.rs:64-72 | the message when there is one; otherwise text starting with "Unknown error: " |
| Errors.DisplayShowsCode | src/error.rs:64-72 | without a message, the display is "Unknown error: " followed by the code |
| Errors.DisplayShowsMessage | src/error.rs:64-72 | with a message, the display is the message |
| Schema.KindFromNodeType | src/schema.rs:911-932 | a node type maps to the kind whose libyang constant it is, and to none exactly when no kind has it |
| Schema.KindRoundTrip | src/schema.rs:83-96 | every kind maps back from its libyang node type |
| Schema.AnyxmlPanics | src/schema.rs:911-932 | the anyxml node type has no kind |
| Schema.FromRaw | src/schema.rs:911-932 | a view exists exactly for a known node type, and it carries that type's kind |
| Schema.CheckFlag | src/schema.rs:365-368 | a flag of zero never tests set, and a set flag means some bit of the node's flags is set |
| Schema.IsConfig | src/schema.rs:457-468 | config only for data-definition kinds |
| Schema.IsState | src/schema.rs:471-482 | state only for data-definition kinds |
| Schema.IsStatusCurrent | src/schema.rs:485-487 | exactly when the current-status bit of the flags is set, on every kind |
| Schema.IsStatusDeprecated | src/schema.rs:490-492 | exactly when the deprecated-status bit of the flags is set, on every kind |
| Schema.IsStatusObsolete | src/schema.rs:495-497 | exactly when the obsolete-status bit of the flags is set, on every kind |
| Schema.IsMandatory | src/schema.rs:500-510 | mandatory only for data-definition kinds other than case |
| Schema.IsNpContainer | src/schema.rs:513-518 | only a container |
| Schema.IsListKey | src/schema.rs:521-526 | only a leaf |
| Schema.IsKeylessList | src/schema.rs:529-534 | only a list |
| Schema.IsUserOrdered | src/schema.rs:537-544 | only a list or leaf-list |
| Schema.IsSchemaOnly | src/schema.rs:548-550 | a schema-only node is a data-definition kind, never a non-presence container, and has no leaf type |
| Schema.IsWithinInput | src/schema.rs:553-564 | only data-definition kinds |
| Schema.IsWithinOutput | src/schema.rs:567-578 | only data-definition kinds |
| Schema.IsWithinNotification | src/schema.rs:581-592 | only data-definition kinds |
| Schema.HasDefault | src/schema.rs:595-602 | only a case, leaf or leaf-list, and never a keyless list although the bit is shared |
| Schema.DataDefFlagsGated | src/schema.rs:457-482 | config, state and input/output/notification placement hold exactly for data-definition kinds with the flag set |
| Schema.MandatoryGated | src/schema.rs:500-510 | mandatory holds exactly for the data-definition kinds other than case with the flag set |
| Schema.StatusUngated | src/schema.rs:485-497 | the status predicates test their bit on every kind |
| Schema.SharedBitsGated | src/schema.rs:513-544 | the kind tests keep the shared keyless/default bit apart; key, user-ordered and non-presence container hold only for their kinds |
| Schema.SchemaOnlyAndDefaultKinds | src/schema.rs:548-602 | schema-only exactly for choice and case; a default only for case, leaf and leaf-list |
| Schema.MinElements | src/schema.rs:696-714 | some exactly for a list or leaf-list with a non-zero bound, and then that bound |
| Schema.MaxElements | src/schema.rs:717-734 | some exactly for a list or leaf-list whose bound is not u32::MAX, and then that bound |
| Schema.Actions | src/schema.rs:751-767 | a container's or list's actions, empty for every other kind |
| Schema.Notifications | src/schema.rs:770-786 | a container's or list's notifications, empty for every other kind |
| Schema.InputOf | src/schema.rs:791-811 | some exactly for an RPC or action, and then its input |
| Schema.OutputOf | src/schema.rs:816-836 | some exactly for an RPC or action, and then its output |
| Schema.AllChildren | src/schema.rs:869-874 | the children, then the actions, then the notifications |
| Schema.LeafType | src/schema.rs:662-676 | some exactly for a leaf or leaf-list, and then its type |
| Schema.Units | src/schema.rs:679-693 | some exactly for a leaf or leaf-list with units, and then the units |
| Schema.CanonicalPtr | src/schema.rs:605-625 | the stored canonical string, or the one the engine computes when none is stored |
| Schema.DefaultValueCanonicalAsWritten | src/schema.rs:605-625 | as written: none for non-leaf kinds; a leaf without a default faults; otherwise the canonical text of its default |
| Schema.DefaultValueCanonical | src/schema.rs:605-625 | none for non-leaf kinds and for a leaf without a default; otherwise the canonical text of the default, when there is one |
| Schema.DefaultValueCanonicalNullDefault | src/schema.rs:605-643 | for a leaf without a default the code as written faults, while `default_value` and the corrected reading give none |
| Schema.DefaultValueCanonicalAgreesAsWritten | src/schema.rs:605-625 | wherever the code as written does not fault, the corrected reading gives the same answer |
| Schema.DefaultValueCanonicalAgrees | src/schema.rs:605-643 | the canonical default is present only when the typed default is, and an untyped default is that canonical text |
| Schema.DefaultValue | src/schema.rs:628-643 | some exactly for a leaf with a default, and then the decoded default |
| Schema.DefaultCase | src/schema.rs:646-657 | some exactly for a choice with a default case, and then that case |
| Schema.BaseType | src/schema.rs:1044-1047 | the stored base type unchanged; its requires is the range `from_u32(..).unwrap()` accepts |
| Schema.LeafrefRealType | src/schema.rs:1057-1067 | some exactly for a leafref, and then its real type; none for every other base type |
| Schema.ValueFromRaw | src/schema.rs:1087-1138 | integer and boolean base types give the same-width typed variant within its range; every other type gives the canonical text |
| Schema.ValueRoundTrip | src/schema.rs:1087-1138 | decoding the stored form of any in-range value gives that value back |
| Schema.Tag | src/schema.rs:331-337 | every path is tagged with its section, in order; the tag is how the model tells nodes of the three section forests apart, which the source does by pointer and has no code for |
| Schema.TagMembers | src/schema.rs:331-337 | a tagged reference is in the list exactly when its path is, and tagging keeps paths distinct |
| Schema.SectionStart | src/schema.rs:288-327 | a section's walk starts at its first top-level node, and never for an uncompiled module |
| Schema.SectionTraverse | src/schema.rs:288-337 | one section's flat-mapped traversal from its first top-level node; every entry carries that section |
| Schema.ModuleTraverse | src/schema.rs:331-337 | empty for an uncompiled module; otherwise the three section traversals one after the other |
| Schema.SectionTraverseSpec | src/schema.rs:288-337 | one section's traversal holds exactly that section's nodes, each once |
| Schema.ModuleTraverseLayout | src/schema.rs:331-337 | module traversal is the data section, then RPCs, then notifications |
| Schema.ModuleTraverseSpec | src/schema.rs:288-337 | empty for an uncompiled module; otherwise every node of every section, once, with no data node after an RPC and only notifications after a notification |
| Schema.ListKeys | src/schema.rs:883-885 | only children of the list node |
| Schema.ListKeysSpec | src/schema.rs:883-885 | a list's keys are exactly its key-leaf children, in schema order |
| Data.ParentOf | src/data.rs:1601-1612 | none for a null node or a top-level node; otherwise the parent |
| Data.DataFirstChild | src/data.rs:1619-1641 | none for terminal kinds; otherwise the first child, so on well-formed data it is the structural first child |
| Data.ClimbToTop | src/data.rs:1388-1394 | climbing parent links from a node reaches its top-level ancestor |
| Data.Ancestors | src/data.rs:1253-1256 | the ancestors, nearest first, excluding the node |
| Data.InclusiveAncestors | src/data.rs:1259-1261 | the node and then its ancestors |
| Data.Siblings | src/data.rs:1264-1267 | the later siblings, excluding the node |
| Data.InclusiveSiblings | src/data.rs:1270-1272 | the node and then its later siblings |
| Data.Children | src/data.rs:1275-1278 | the children in order, none for terminal kinds |
| Data.MetaList | src/data.rs:1292-1297 | the node's own metadata list |
| Data.ValueCanonical | src/data.rs:1314-1331 | none for non-terminal kinds; for a leaf or leaf-list, the canonical text when there is one |
| Data.Value | src/data.rs:1334-1345 | some exactly for a leaf or leaf-list, and then the decoded value |
| Data.ValueAgreesWithCanonical | src/data.rs:1314-1345 | for an untyped base type the value is the canonical text |
| Data.IsDefault | src/data.rs:1348-1355 | false for non-terminal kinds; for a leaf or leaf-list, the engine's default flag |
| Data.ListKeysOf | src/data.rs:1287-1290 | only children of the node, and none for a node without a child list |
| Data.ListKeysOfSpec | src/data.rs:1287-1290 | a list instance's keys are exactly its children whose schema is a key, in order |
| Data.FirstSiblingOpt | src/data.rs:450-459 | the first sibling of a present node, none for none |
| Data.DataTree.constructor | src/data.rs:437-442 | a new tree is empty and has no root |
| Data.DataTree.FromRaw | src/data.rs:937-942 | wraps the given nodes and root |
| Data.DataTree.Reference | src/data.rs:695-704 | none exactly for an empty tree, otherwise the first top-level node |
| Data.DataTree.Reroot | src/data.rs:450-459 | the root moves to the first top-level node of the tree holding the given node, or to the first sibling of the old root |
| Data.DataTree.FromRawNode | src/data.rs:975-985 | a tree over a node is rooted at its first top-level node |
| Data.DataTree.NewPath | src/data.rs:721-772 | on failure nothing changes and the engine error is returned; on success the root is the first sibling of the new root (empty tree) or of the old one |
| Data.DataTree.Duplicate | src/data.rs:799-824 | an empty tree duplicates to an empty tree; otherwise the engine's copy or its error |
| Data.DataTree.Merge | src/data.rs:829-846 | merging into an empty tree makes it a duplicate of the source; otherwise the merged forest rooted at its first node, or the error with nothing changed |
| Data.DataTree.AddImplicit | src/data.rs:850-867 | on success the root is re-anchored at the first sibling of the engine's root; on failure nothing changes |
| Data.DataTree.Traverse | src/data.rs:917-920 | the tree's traversal is the pre-order listing of the whole forest |
| Data.DuplicateNode | src/data.rs:1361-1397 | a missing node duplicates to an empty tree; with parents the root is the copy's top-level ancestor |
| Data.TraverseCoversTree | src/data.rs:917-920 | the tree's traversal yields every node exactly once |
| Data.ParseOp | src/data.rs:1026-1072 | LYB is rejected with LY_EINVAL before any input is created; otherwise success exactly when input creation and parsing succeed |
| Data.RestconfNotifFormat | src/data.rs:1166-1197 | RESTCONF notifications are parsed as XML exactly when given XML, and never as LYB |
| Data.ParseOpFormatCheck | src/data.rs:1038-1043 | input creation is attempted exactly for XML and JSON, so every NETCONF and RESTCONF operation parser passes the check |
| Data.FindMeta | src/data.rs:1736-1740 | the first metadata entry with the name, or none when no entry has it |
| Data.ClassifyOp | src/data.rs:1740-1745 | "none" gives no operation; create, delete and replace give the operation of that name |
| Data.ClassifyOpRoundTrip | src/data.rs:1740-1745 | every diff operation is recognised from its own name |
| Data.NodeOp | src/data.rs:1736-1746 | a node's operation comes from its own operation metadata |
| Data.DiffChangesMembers | src/data.rs:1734-1747 | the filter keeps exactly the listed nodes whose own operation is create, delete or replace |
| Data.DiffChangesConcat | src/data.rs:1734-1747 | the filter distributes over concatenation, so it keeps traversal order |
| Data.DiffIter | src/data.rs:1734-1747 | every pair yielded is a node of the diff with its own create, delete or replace operation |
| Data.DiffIterSpec | src/data.rs:1734-1747 | the diff yields exactly the nodes whose own operation is create, delete or replace, each once with its operation |
| Contexts.NewContext | src/context.rs:102-129 | a failed creation yields the engine code with no message, path or tag |
| Contexts.NewContextErrorShowsCode | src/context.rs:118-126 | a failed creation displays as "Unknown error: " and the code |
| Contexts.InternalModuleCount | src/context.rs:494-496 | the number of internal modules the engine reports (an identity of the model; it is here because `Contexts.Modules` and the module iterator start from it) |
| Contexts.Modules | src/context.rs:482-484 | all modules, or those after the internal ones |
| Contexts.FeaturesArray | src/context.rs:527-541 | the features in order followed by exactly one null |
| Contexts.LoadModule | src/context.rs:513-556 | passes the null-terminated features; a module that fails to load yields the engine error |
| Contexts.FindEmbeddedModule | src/context.rs:642-661 | the entry found matches the request and is in the map; none exactly when no entry matches |
| Contexts.FindEmbeddedModuleFirst | src/context.rs:642-661 | the entry found is the first match in iteration order |
| Contexts.FindEmbeddedModuleOrder | src/context.rs:642-661 | found exactly when the map has a match; with a single match the iteration order does not matter |
| Contexts.ImportOutputs.constructor | src/context.rs:669-670 | the out-parameters hold their initial values |
| Contexts.ImportCallback | src/context.rs:663-695 | on a match writes the YANG format and the module text and returns LY_SUCCESS; otherwise returns LY_ENOTFOUND with the outputs untouched |

## Left out

- Every libyang call is an input of the model, not modelled itself:
  - parsing and printing in every format;
  - validation and implicit-node filling;
  - diff, diff apply and diff reverse;
  - duplicate, merge and `new_path` results;
  - XPath and path lookup;
  - module loading and compilation.
- Data.DataTree.NewPath, Data.DataTree.Merge, Data.DataTree.AddImplicit: on engine failure the tree is taken to be unchanged; libyang may already have modified it.
- Iter.SchemaModules.Next: the engine's module cursor (`ly_ctx_get_module_iter`) is a walk over the module list from the start index.
- Iter.Array.Next: the element read at an address (`from_raw`) is the address itself; only the counting and striding are modelled.
- Schema.ValueFromRaw: the typed values are read from one unsigned storage word (the union), interpreted at the type's width in two's complement. The byte order of the union is not modelled.
- Schema.AnyxmlPanics: the panic on an unknown node type is modelled as "no kind". With the libyang 2 constants, anyxml (0x20) has no arm of its own in `from_raw` and so takes the panicking branch.
- `musts` and `whens` (src/schema.rs:737-749) only wrap `Array` over engine records; they are not modelled.
- `Context::traverse` (src/context.rs:488-490) is the flat map of `Schema.ModuleTraverse` over `Contexts.Modules`; it is not a separate member.
- SchemaNode's `ancestors`, `siblings`, `children` and `traverse` (src/schema.rs:839-881) use the same generic iterators as the data nodes (`Iter`); they are not repeated.
- `DataTreeOwningRef::new_path` and the context-mismatch panic in `from_raw_node` are not modelled.
- Node equality is path equality in one forest; equality of pointers across trees is not modelled.
- Utils: `src/error.rs` and `src/data.rs` call the string helpers with a second "free after copy" argument that `src/utils.rs` does not take. The one-argument helpers are modelled; freeing memory is not.
- `Data.WellFormed` (terminal nodes have no children) is how libyang lays out its nodes, assumed of every engine result.
- The last error of the engine is one input per call, not a store that calls update.
- Contexts.LoadModule, Contexts.FeaturesArray: the NUL-free requirements stand for the panics of `CString::new` on interior NULs.
- Schema.LeafrefRealType: a leafref whose real type pointer is null is excluded; the source would build a view over null, and the engine always resolves the real type of a compiled leafref.
- Schema.SectionTraverse, Schema.ModuleTraverse, Schema.SectionTraverseSpec, Schema.ModuleTraverseSpec: building a view panics on a node type with no kind (anyxml among them), so every node of a compiled module is required to have a known type; the panic itself is not modelled.
- Schema.ListKeys: a child whose node type has no kind makes the source panic; the children are required to have known types.
- Schema.DefaultValueCanonical, Schema.DefaultValueCanonicalAsWritten, Schema.Units: a string that is not valid UTF-8 makes the source panic in `char_ptr_to_opt_str`; it is required to be valid.
- Data.ValueCanonical, Data.Value, Data.IsDefault: `schema()` of an opaque node builds a view over a null schema pointer; these members require a schema with a known node type.
- Data.ListKeysOf: the same holds for every child, whose `schema()` the filter reads.
- Schema.ValueFromRaw, Schema.DefaultValue, Data.Value: for an untyped value the canonical string (cached or computed by the engine) is required to be non-null, since `char_ptr_to_string` reads it unconditionally.
- Data.NodeOp, Data.DiffIter, Data.DiffChanges: an operation value other than create, delete, replace or none reaches `unreachable!()`; it is required not to occur.
- Data.ParseOp: the operation text is not an input, so the panic of `CString::new(..).unwrap()` on an interior NUL (src/data.rs:1044) is not modelled.
- Contexts.NewContext: the YANG-library constructors unwrap `to_str` and `CString::new` before calling the engine (src/context.rs:150-152); the model starts from the engine's return code, so those panics are not modelled.
- Contexts.ImportCallback: the module name and the optional strings must be valid UTF-8, and the text of the matching entry NUL-free; the source panics otherwise.
- Contexts.Modules: the engine's internal module count is taken to be at most the number of loaded modules.
- Logging (`src/logging.rs`) and the `Once`-guarded logging setup in the context constructors are process-global plumbing.
- Memory and ownership are not modelled: `Drop`, `into_raw`, `set_private`, lifetimes and `Send`/`Sync`.
- UTF-8 decoding internals are not modelled: a C string is text plus a flag saying whether it is valid UTF-8.
- The LYS_*, LY_ERR and LY_TYPE constants follow the libyang headers. The headers are not part of this model.

## Findings

| source | as written | input that shows it | evidently intended | confidence | as-written member | corrected member |
|---|---|---|---|---|---|---|
| src/schema.rs:605-625 | `default_value_canonical` reads the leaf's `dflt` record with no null test | a leaf with no default value (`dflt` is null) | none, as `default_value` (src/schema.rs:628-643) answers after its null test | high; not executed | Schema.DefaultValueCanonicalAsWritten, Schema.DefaultValueCanonicalNullDefault | Schema.DefaultValueCanonical, Schema.DefaultValueCanonicalAgrees |
