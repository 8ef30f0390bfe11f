// The error type of src/error.rs and the engine's LY_ERR codes.
module Errors {
  import opened Common
  import opened Utils

  /** An LY_ERR code, as libyang's `ly_errno` values define them. */
  type LyErr = nat

  const LY_SUCCESS: LyErr := 0
  const LY_EMEM: LyErr := 1
  const LY_ESYS: LyErr := 2
  const LY_EINVAL: LyErr := 3
  const LY_EEXIST: LyErr := 4
  const LY_ENOTFOUND: LyErr := 5
  const LY_EINT: LyErr := 6
  const LY_EVALID: LyErr := 7
  const LY_EDENIED: LyErr := 8
  const LY_EINCOMPLETE: LyErr := 9
  const LY_ERECOMPILE: LyErr := 10
  const LY_ENOT: LyErr := 11
  const LY_EOTHER: LyErr := 12
  const LY_EPLUGIN: LyErr := 128

  datatype Error = Error(errcode: LyErr, msg: Option<string>, path: Option<string>, apptag: Option<string>)

  /** The last error the engine recorded for a context (`struct ly_err_item`). */
  datatype ErrRecord = ErrRecord(err: LyErr, msg: CharPtr, dataPath: CharPtr, apptag: CharPtr)

  /** Error::default: LY_EOTHER and no text. */
  function Default(): (e: Error)
    ensures e.errcode == LY_EOTHER && e.msg.None? && e.path.None? && e.apptag.None?
  {
    Error(LY_EOTHER, None, None, None)
  }

  /**
   * Error::new: the context's last error record, copied field by field with
   * null strings becoming `None`; the default error when there is none.
   */
  function New(last: Option<ErrRecord>): (e: Error)
    ensures last.None? ==> e == Default()
    ensures last.Some? ==>
              && e.errcode == last.value.err
              && (e.msg.None? <==> last.value.msg.Null?)
              && (e.path.None? <==> last.value.dataPath.Null?)
              && (e.apptag.None? <==> last.value.apptag.Null?)
    ensures last.Some? ==>
              && (e.msg.Some? ==> e.msg.value == last.value.msg.text)
              && (e.path.Some? ==> e.path.value == last.value.dataPath.text)
              && (e.apptag.Some? ==> e.apptag.value == last.value.apptag.text)
  {
    match last
    case None => Default()
    case Some(r) =>
      Error(r.err, CharPtrToOptString(r.msg), CharPtrToOptString(r.dataPath), CharPtrToOptString(r.apptag))
  }

  /** Error::other: the given message, otherwise the default error. */
  function Other(msg: string): (e: Error)
    ensures e == Default().(msg := Some(msg))
  {
    Error(LY_EOTHER, Some(msg), None, None)
  }

  // ---------------------------------------------------------------------
  // Display

  function DigitChar(d: nat): char
    requires d < 10
  {
    "0123456789"[d]
  }

  function DigitValue(c: char): nat {
    if '0' <= c <= '9' then (c - '0') as nat else 0
  }

  /** `{}` formatting of an unsigned code: its decimal digits, most significant first. */
  function Decimal(n: nat): (s: string)
    ensures |s| > 0
    ensures forall i :: 0 <= i < |s| ==> '0' <= s[i] <= '9'
    decreases n
  {
    if n < 10 then [DigitChar(n)] else Decimal(n / 10) + [DigitChar(n % 10)]
  }

  /** Value of a string of decimal digits, read most significant first. */
  function DecimalValue(s: string): nat
    decreases |s|
  {
    if s == [] then 0 else 10 * DecimalValue(s[..|s| - 1]) + DigitValue(s[|s| - 1])
  }

  /** Reading back the printed code gives the code; a code prints with no leading zero. */
  lemma {:induction false} DecimalRoundTrip(n: nat)
    ensures DecimalValue(Decimal(n)) == n
    ensures |Decimal(n)| > 1 ==> Decimal(n)[0] != '0'
    decreases n
  {
    var s := Decimal(n);
    if n < 10 {
      assert s[..|s| - 1] == [];
    } else {
      DecimalRoundTrip(n / 10);
      assert s[..|s| - 1] == Decimal(n / 10);
      assert DigitValue(s[|s| - 1]) == n % 10;
      assert s[0] == Decimal(n / 10)[0];
    }
  }

  const UNKNOWN_PREFIX: string := "Unknown error: "

  /** Display: the message when there is one, else "Unknown error: " and the code. */
  function Display(e: Error): (r: string)
    ensures e.msg.Some? ==> r == e.msg.value
    ensures e.msg.None? ==> |r| > |UNKNOWN_PREFIX| && r[..|UNKNOWN_PREFIX|] == UNKNOWN_PREFIX
  {
    match e.msg
    case Some(m) => m
    case None => UNKNOWN_PREFIX + Decimal(e.errcode)
  }

  /** Without a message the code can be read back from the displayed text. */
  lemma DisplayShowsCode(e: Error)
    requires e.msg.None?
    ensures |Display(e)| > |UNKNOWN_PREFIX| && Display(e)[..|UNKNOWN_PREFIX|] == UNKNOWN_PREFIX
    ensures DecimalValue(Display(e)[|UNKNOWN_PREFIX|..]) == e.errcode
  {
    assert Display(e)[|UNKNOWN_PREFIX|..] == Decimal(e.errcode);
    DecimalRoundTrip(e.errcode);
  }

  /** With a message the displayed text is exactly the message. */
  lemma DisplayShowsMessage(e: Error)
    requires e.msg.Some?
    ensures Display(e) == e.msg.value
  {
  }
}
