// The parts of src/context.rs that decide something themselves: the error
// built when the engine cannot create a context, the feature array handed
// to module loading, and the lookup of embedded modules behind the import
// callback. The engine context is its list of loaded modules and the number
// of internal ones loaded when it was created.
module Contexts {
  import opened Common
  import opened Utils
  import opened Errors
  import Schema
  import Iter

  datatype Context = Context(modules: seq<Schema.SchemaModule>, internalCount: nat)

  // ---------------------------------------------------------------------
  // Creation

  /**
   * Context::new and the two YANG-library constructors: on an engine
   * failure the error is built by hand from the return code, with no
   * message, path or application tag.
   */
  function NewContext(ret: LyErr, created: Context): (r: Result<Context, Error>)
    ensures ret == LY_SUCCESS ==> r == Ok(created)
    ensures ret != LY_SUCCESS ==> r.Err? && r.error.errcode == ret
    ensures r.Err? ==> r.error.msg.None? && r.error.path.None? && r.error.apptag.None?
  {
    if ret != LY_SUCCESS then Err(Error(ret, None, None, None)) else Ok(created)
  }

  /** A failed creation displays as "Unknown error: " and the engine's return code. */
  lemma NewContextErrorShowsCode(ret: LyErr, created: Context)
    requires ret != LY_SUCCESS
    ensures var e := NewContext(ret, created).error;
            && |Display(e)| > |UNKNOWN_PREFIX| && Display(e)[..|UNKNOWN_PREFIX|] == UNKNOWN_PREFIX
            && DecimalValue(Display(e)[|UNKNOWN_PREFIX|..]) == ret
  {
    DisplayShowsCode(NewContext(ret, created).error);
  }

  /** internal_module_count: the modules loaded when the context was created. */
  function InternalModuleCount(ctx: Context): (r: nat)
    ensures r == ctx.internalCount
  {
    ctx.internalCount
  }

  /** modules(skip_internal): every loaded module, or only those after the internal ones. */
  method Modules(ctx: Context, skipInternal: bool) returns (out: seq<Schema.SchemaModule>)
    requires ctx.internalCount <= |ctx.modules|
    ensures skipInternal ==> out == ctx.modules[InternalModuleCount(ctx)..]
    ensures !skipInternal ==> out == ctx.modules
    ensures |out| == |ctx.modules| - (if skipInternal then ctx.internalCount else 0)
  {
    out := Iter.ModulesAll(ctx.modules, InternalModuleCount(ctx), skipInternal);
  }

  // ---------------------------------------------------------------------
  // Loading modules

  /** A Rust string CString::new accepts: no interior NUL (it panics otherwise). */
  predicate NulFree(s: string) {
    forall i :: 0 <= i < |s| ==> s[i] != '\0'
  }

  /** The NUL-terminated pointer array load_module passes: each feature in order, then one null. */
  method FeaturesArray(features: seq<string>) returns (ptrs: seq<CharPtr>)
    requires forall i :: 0 <= i < |features| ==> NulFree(features[i])
    ensures |ptrs| == |features| + 1
    ensures forall i :: 0 <= i < |features| ==> ptrs[i] == Chars(features[i], true)
    ensures forall i :: 0 <= i < |ptrs| ==> (ptrs[i].Null? <==> i == |features|)
  {
    ptrs := [];
    var i := 0;
    while i < |features|
      invariant 0 <= i <= |features|
      invariant |ptrs| == i
      invariant forall j :: 0 <= j < i ==> ptrs[j] == Chars(features[j], true)
    {
      ptrs := ptrs + [Chars(features[i], true)];
      i := i + 1;
    }
    ptrs := ptrs + [Null];
  }

  /**
   * load_module: the engine is given the name, the revision (null when
   * none) and the feature array; a null module is an error built from the
   * last engine error.
   */
  method LoadModule(name: string, revision: Option<string>, features: seq<string>,
                    loaded: Option<Schema.SchemaModule>, last: Option<ErrRecord>)
    returns (r: Result<Schema.SchemaModule, Error>, passed: seq<CharPtr>)
    requires NulFree(name) && (revision.Some? ==> NulFree(revision.value))
    requires forall i :: 0 <= i < |features| ==> NulFree(features[i])
    ensures |passed| == |features| + 1 && passed[|features|] == Null
    ensures forall i :: 0 <= i < |features| ==> passed[i] == Chars(features[i], true)
    ensures loaded.None? ==> r == Err(New(last))
    ensures loaded.Some? ==> r == Ok(loaded.value)
  {
    passed := FeaturesArray(features);
    if loaded.None? {
      return Err(New(last)), passed;
    }
    r := Ok(loaded.value);
  }

  // ---------------------------------------------------------------------
  // Embedded modules

  datatype EmbeddedModuleKey = EmbeddedModuleKey(
    modName: string,
    modRev: Option<string>,
    submodName: Option<string>,
    submodRev: Option<string>)

  /** EmbeddedModules: module text by key. */
  type EmbeddedModules = map<EmbeddedModuleKey, string>

  /**
   * The lookup rule: the module name must be equal; a requested revision
   * must be equal (none matches any); a requested submodule must be the
   * entry's, with a requested submodule revision equal; without a
   * requested submodule the entry must not be a submodule.
   */
  predicate Matches(key: EmbeddedModuleKey, modName: string, modRev: Option<string>,
                    submodName: Option<string>, submodRev: Option<string>)
  {
    && key.modName == modName
    && (modRev.None? || key.modRev == modRev)
    && match submodName
       case Some(s) => key.submodName == Some(s) && (submodRev.None? || key.submodRev == submodRev)
       case None => key.submodName.None?
  }

  /** `order` is the map's iteration order: every key exactly once. */
  ghost predicate Enumerates(order: seq<EmbeddedModuleKey>, modules: EmbeddedModules) {
    NoDup(order) && forall k :: k in order <==> k in modules
  }

  /** find_embedded_module: the first entry, in iteration order `order`, whose key matches. */
  function FindEmbeddedModule(modules: EmbeddedModules, order: seq<EmbeddedModuleKey>, modName: string,
                              modRev: Option<string>, submodName: Option<string>, submodRev: Option<string>)
    : (r: Option<(EmbeddedModuleKey, string)>)
    requires forall k :: k in order ==> k in modules
    ensures r.Some? ==> r.value.0 in order && r.value.0 in modules && r.value.1 == modules[r.value.0]
    ensures r.Some? ==> Matches(r.value.0, modName, modRev, submodName, submodRev)
    ensures r.None? <==> forall k :: k in order ==> !Matches(k, modName, modRev, submodName, submodRev)
    decreases |order|
  {
    if order == [] then None
    else if Matches(order[0], modName, modRev, submodName, submodRev) then Some((order[0], modules[order[0]]))
    else
      var r := FindEmbeddedModule(modules, order[1..], modName, modRev, submodName, submodRev);
      assert forall k :: k in order ==> k == order[0] || k in order[1..];
      r
  }

  /** The entry found is the first matching one in iteration order. */
  lemma {:induction false} FindEmbeddedModuleFirst(modules: EmbeddedModules, order: seq<EmbeddedModuleKey>,
                                                   modName: string, modRev: Option<string>,
                                                   submodName: Option<string>, submodRev: Option<string>)
    requires forall k :: k in order ==> k in modules
    ensures var r := FindEmbeddedModule(modules, order, modName, modRev, submodName, submodRev);
            r.Some? ==> exists i :: 0 <= i < |order| && order[i] == r.value.0 &&
                                    forall j :: 0 <= j < i ==> !Matches(order[j], modName, modRev, submodName, submodRev)
    decreases |order|
  {
    var r := FindEmbeddedModule(modules, order, modName, modRev, submodName, submodRev);
    if order != [] && r.Some? {
      if Matches(order[0], modName, modRev, submodName, submodRev) {
        assert order[0] == r.value.0;
      } else {
        FindEmbeddedModuleFirst(modules, order[1..], modName, modRev, submodName, submodRev);
        var i :| 0 <= i < |order[1..]| && order[1..][i] == r.value.0 &&
                 forall j :: 0 <= j < i ==> !Matches(order[1..][j], modName, modRev, submodName, submodRev);
        assert order[i + 1] == r.value.0;
        forall j | 0 <= j < i + 1
          ensures !Matches(order[j], modName, modRev, submodName, submodRev)
        {
          if j > 0 {
            assert order[j] == order[1..][j - 1];
          }
        }
      }
    }
  }

  /** No two keys of the map match the same request. */
  ghost predicate AtMostOneMatch(modules: EmbeddedModules, modName: string, modRev: Option<string>,
                                 submodName: Option<string>, submodRev: Option<string>)
  {
    forall k1, k2 ::
      (k1 in modules && k2 in modules && Matches(k1, modName, modRev, submodName, submodRev)
       && Matches(k2, modName, modRev, submodName, submodRev)) ==> k1 == k2
  }

  /**
   * Scanning in iteration order finds an entry exactly when the map has a
   * matching key, and when at most one key matches, the iteration order
   * does not change the result.
   */
  lemma FindEmbeddedModuleOrder(modules: EmbeddedModules, o1: seq<EmbeddedModuleKey>, o2: seq<EmbeddedModuleKey>,
                                modName: string, modRev: Option<string>,
                                submodName: Option<string>, submodRev: Option<string>)
    requires Enumerates(o1, modules) && Enumerates(o2, modules)
    ensures FindEmbeddedModule(modules, o1, modName, modRev, submodName, submodRev).None? <==>
            forall k :: k in modules ==> !Matches(k, modName, modRev, submodName, submodRev)
    ensures AtMostOneMatch(modules, modName, modRev, submodName, submodRev) ==>
            FindEmbeddedModule(modules, o1, modName, modRev, submodName, submodRev) ==
            FindEmbeddedModule(modules, o2, modName, modRev, submodName, submodRev)
  {
    var r1 := FindEmbeddedModule(modules, o1, modName, modRev, submodName, submodRev);
    var r2 := FindEmbeddedModule(modules, o2, modName, modRev, submodName, submodRev);
    if r1.Some? && r2.Some? {
      assert r1.value.0 in modules && r2.value.0 in modules;
    }
  }

  /** LYS_INFORMAT: the YANG input format. */
  const LYS_IN_YANG: nat := 1

  /** The callback's out-parameters: the input format and the module text it hands back. */
  class ImportOutputs {
    var format: nat
    var moduleData: CharPtr

    constructor (format: nat, moduleData: CharPtr)
      ensures this.format == format && this.moduleData == moduleData
    {
      this.format := format;
      this.moduleData := moduleData;
    }
  }

  /**
   * ly_module_import_cb: looks the requested module up among the embedded
   * ones; when found, writes the YANG format and the module text and
   * returns LY_SUCCESS, otherwise returns LY_ENOTFOUND and writes nothing.
   * The module name must be valid UTF-8 and the optional strings too (the
   * source unwraps both conversions), and the text of the entry found must
   * hold no NUL (its conversion to a C string is unwrapped too).
   */
  method ImportCallback(modules: EmbeddedModules, order: seq<EmbeddedModuleKey>, modName: CharPtr,
                        modRev: CharPtr, submodName: CharPtr, submodRev: CharPtr, out: ImportOutputs)
    returns (ret: LyErr)
    requires Enumerates(order, modules)
    requires modName.Chars? && modName.utf8
    requires (modRev.Chars? ==> modRev.utf8) && (submodName.Chars? ==> submodName.utf8)
    requires submodRev.Chars? ==> submodRev.utf8
    requires var found := FindEmbeddedModule(modules, order, CharPtrToStr(modName), CharPtrToOptStr(modRev),
                                             CharPtrToOptStr(submodName), CharPtrToOptStr(submodRev));
             found.Some? ==> NulFree(found.value.1)
    modifies out
    ensures var found := FindEmbeddedModule(modules, order, CharPtrToStr(modName), CharPtrToOptStr(modRev),
                                            CharPtrToOptStr(submodName), CharPtrToOptStr(submodRev));
            && (found.Some? ==> ret == LY_SUCCESS && out.format == LYS_IN_YANG
                                && out.moduleData == Chars(found.value.1, true))
            && (found.None? ==> ret == LY_ENOTFOUND && out.format == old(out.format)
                                && out.moduleData == old(out.moduleData))
    ensures ret == LY_SUCCESS <==>
            exists k :: k in modules && Matches(k, CharPtrToStr(modName), CharPtrToOptStr(modRev),
                                                CharPtrToOptStr(submodName), CharPtrToOptStr(submodRev))
  {
    var name := CharPtrToStr(modName);
    var rev := CharPtrToOptStr(modRev);
    var sub := CharPtrToOptStr(submodName);
    var subRev := CharPtrToOptStr(submodRev);
    var found := FindEmbeddedModule(modules, order, name, rev, sub, subRev);
    if found.Some? {
      out.format := LYS_IN_YANG;
      out.moduleData := Chars(found.value.1, true);
      return LY_SUCCESS;
    }
    ret := LY_ENOTFOUND;
  }
}
