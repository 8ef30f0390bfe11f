// The C-string and binding helpers of src/utils.rs.
module Utils {
  import opened Common

  /**
   * A `*const c_char` handed over by the engine: null, or a NUL-terminated
   * string. `text` is its content as lossy UTF-8 decoding reads it and
   * `utf8` says whether its bytes are valid UTF-8, in which case strict
   * decoding reads the same text.
   */
  datatype CharPtr = Null | Chars(text: string, utf8: bool)

  /** char_ptr_to_string: lossy conversion of a non-null C string; it never fails. */
  function CharPtrToString(p: CharPtr): (r: string)
    requires p.Chars?
    ensures |r| == |p.text| && forall i :: 0 <= i < |r| ==> r[i] == p.text[i]
  {
    p.text
  }

  /** char_ptr_to_opt_string: no string exactly for the null pointer. */
  function CharPtrToOptString(p: CharPtr): (r: Option<string>)
    ensures r.None? <==> p.Null?
    ensures r.Some? ==> r.value == CharPtrToString(p)
  {
    if p.Null? then None else Some(CharPtrToString(p))
  }

  /** char_ptr_to_str: strict conversion; the source unwraps the UTF-8 check, so invalid bytes panic. */
  function CharPtrToStr(p: CharPtr): (r: string)
    requires p.Chars? && p.utf8
    ensures r == CharPtrToString(p)
  {
    p.text
  }

  /** char_ptr_to_opt_str: no string exactly for the null pointer. */
  function CharPtrToOptStr(p: CharPtr): (r: Option<string>)
    requires p.Chars? ==> p.utf8
    ensures r.None? <==> p.Null?
    ensures r.Some? ==> r.value == CharPtrToStr(p)
  {
    if p.Null? then None else Some(CharPtrToStr(p))
  }

  /** Where strict decoding is defined, the optional strict and lossy conversions agree. */
  lemma OptStrAgreesWithOptString(p: CharPtr)
    requires p.Chars? ==> p.utf8
    ensures CharPtrToOptStr(p) == CharPtrToOptString(p)
  {
  }

  /**
   * Binding::from_raw_opt: no view for a null pointer, otherwise the view
   * `fromRaw` builds; a raw pointer is `None` when null.
   */
  function FromRawOpt<C, R, V>(container: C, raw: Option<R>, fromRaw: (C, R) -> V): (r: Option<V>)
    ensures r.None? <==> raw.None?
    ensures r.Some? ==> r.value == fromRaw(container, raw.value)
  {
    match raw
    case None => None
    case Some(p) => Some(fromRaw(container, p))
  }
}
