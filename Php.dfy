/** The slice of PHP value semantics that the NanoID column declarations rely on:
    ordered arrays with int or string keys, truthiness, `?:`, `array_key_exists`,
    `$a[$k]` on a missing key, `in_array` and `is_numeric`. */
module Php {

  datatype Option<T> = None | Some(value: T)

  /** A PHP array key. PHP stores a decimal-integer string key such as "5" as the
      integer 5, so a well-formed StrKey never holds one; other numeric-looking
      strings such as "1.5" or " 7" stay string keys. */
  datatype Key = IntKey(n: int) | StrKey(s: string)

  /** A PHP value. An array is its entries in insertion order; a PHP array holds
      each key once, which the sequence does not enforce (on a repeated key the
      lookups below see only the first entry). */
  datatype Value =
    | PNull
    | PBool(b: bool)
    | PInt(i: int)
    | PFloat(r: real)
    | PStr(s: string)
    | PArr(entries: seq<(Key, Value)>)

  /** Errors the PHP runtime raises in the modelled code: a `TypeError` for an
      argument or return value of the wrong type, and an illegal array offset /
      property name when a column name is neither a string nor an int. */
  datatype PhpError = TypeError | IllegalOffset

  datatype Result<T> = Ok(value: T) | Err(error: PhpError)

  /** PHP's conversion to bool, as used by `?:`, `&&` and `array_filter`. */
  predicate Truthy(v: Value) {
    match v
    case PNull => false
    case PBool(b) => b
    case PInt(i) => i != 0
    case PFloat(r) => r != 0.0
    case PStr(s) => s != "" && s != "0"
    case PArr(e) => e != []
  }

  /** PHP's falsy values are false, 0, 0.0, "", "0", null and the empty array;
      "00", " " and -1 are truthy. */
  lemma TruthinessExamples()
    ensures !Truthy(PBool(false)) && !Truthy(PInt(0)) && !Truthy(PFloat(0.0))
    ensures !Truthy(PStr("")) && !Truthy(PStr("0")) && !Truthy(PNull) && !Truthy(PArr([]))
    ensures Truthy(PStr("00")) && Truthy(PStr(" ")) && Truthy(PInt(-1)) && Truthy(PArr([(IntKey(0), PNull)]))
  {
  }

  /** The short ternary `$v ?: $fallback`. */
  function Elvis(v: Value, fallback: Value): (r: Value)
    ensures Truthy(v) ==> r == v
    ensures !Truthy(v) ==> r == fallback
  {
    if Truthy(v) then v else fallback
  }

  /** The entry stored under `k`, if any (PHP arrays hold each key once; the first match is taken). */
  function Find(a: seq<(Key, Value)>, k: Key): (r: Option<Value>)
    ensures r.Some? <==> exists i :: 0 <= i < |a| && a[i].0 == k
    ensures r.Some? ==> exists i :: 0 <= i < |a| && a[i] == (k, r.value)
  {
    if a == [] then None
    else if a[0].0 == k then Some(a[0].1)
    else Find(a[1..], k)
  }

  /** `array_key_exists($name, $a)` */
  predicate HasKey(a: seq<(Key, Value)>, name: string) {
    Find(a, StrKey(name)).Some?
  }

  /** `$a[$name]`: a missing key reads as null (PHP also emits a warning, which is not modelled). */
  function Lookup(a: seq<(Key, Value)>, name: string): (r: Value)
    ensures !HasKey(a, name) ==> r == PNull
    ensures HasKey(a, name) ==> exists i :: 0 <= i < |a| && a[i] == (StrKey(name), r)
  {
    match Find(a, StrKey(name))
    case Some(v) => v
    case None => PNull
  }

  /** `in_array($v, $a)`; PHP's loose `==` is modelled as structural equality. */
  predicate InArray(v: Value, a: seq<(Key, Value)>) {
    exists i :: 0 <= i < |a| && a[i].1 == v
  }

  /** A PHP list: keys 0, 1, 2, ... in order, as produced by `['a', 'b']`. */
  predicate IsList(a: seq<(Key, Value)>) {
    forall i :: 0 <= i < |a| ==> a[i].0 == IntKey(i)
  }

  /** `['a' => [], 'b']`: `'a'` exists and reads back `[]`, `'size'` is missing and
      reads as null, `'b'` is a value but not a key, and the array is not a list. */
  lemma ArrayAccessExamples()
    ensures var a := [(StrKey("a"), PArr([])), (IntKey(0), PStr("b"))];
            HasKey(a, "a") && Lookup(a, "a") == PArr([]) &&
            !HasKey(a, "size") && Lookup(a, "size") == PNull &&
            InArray(PStr("b"), a) && !HasKey(a, "b") && !IsList(a)
  {
    var a := [(StrKey("a"), PArr([])), (IntKey(0), PStr("b"))];
    assert a[1].1 == PStr("b");
    assert a[0].0 != IntKey(0);
  }

  // ---------------------------------------------------------------------------
  // is_numeric
  // ---------------------------------------------------------------------------

  /** States of a recogniser for PHP 8's numeric strings:
      WS* [+-]? (LNUM | DNUM) ([eE] [+-]? LNUM)? WS*
      with LNUM = [0-9]+ and DNUM = [0-9]* "." [0-9]+ | [0-9]+ "." [0-9]*. */
  datatype NumState =
    | Lead      // leading whitespace
    | Signed    // after the sign
    | IntPart   // digits before any dot
    | IntDot    // digits then a dot
    | BareDot   // a dot with no digit before it
    | Frac      // digits after the dot
    | ExpMark   // after e / E
    | ExpSign   // after the exponent's sign
    | ExpDigits // exponent digits
    | Trail     // trailing whitespace
    | Reject

  predicate IsDigit(c: char) { '0' <= c <= '9' }

  /** The whitespace PHP skips around a numeric string: space, \t, \n, \r, \v, \f. */
  predicate IsSpace(c: char) {
    c == ' ' || c == '\t' || c == '\n' || c == '\r' || c == '\U{0B}' || c == '\U{0C}'
  }

  function Step(st: NumState, c: char): NumState {
    match st
    case Lead =>
      if IsSpace(c) then Lead
      else if c == '+' || c == '-' then Signed
      else if IsDigit(c) then IntPart
      else if c == '.' then BareDot
      else Reject
    case Signed =>
      if IsDigit(c) then IntPart else if c == '.' then BareDot else Reject
    case IntPart =>
      if IsDigit(c) then IntPart
      else if c == '.' then IntDot
      else if c == 'e' || c == 'E' then ExpMark
      else if IsSpace(c) then Trail
      else Reject
    case IntDot =>
      if IsDigit(c) then Frac
      else if c == 'e' || c == 'E' then ExpMark
      else if IsSpace(c) then Trail
      else Reject
    case BareDot =>
      if IsDigit(c) then Frac else Reject
    case Frac =>
      if IsDigit(c) then Frac
      else if c == 'e' || c == 'E' then ExpMark
      else if IsSpace(c) then Trail
      else Reject
    case ExpMark =>
      if c == '+' || c == '-' then ExpSign else if IsDigit(c) then ExpDigits else Reject
    case ExpSign =>
      if IsDigit(c) then ExpDigits else Reject
    case ExpDigits =>
      if IsDigit(c) then ExpDigits else if IsSpace(c) then Trail else Reject
    case Trail =>
      if IsSpace(c) then Trail else Reject
    case Reject => Reject
  }

  function Run(st: NumState, s: string): NumState
    decreases |s|
  {
    if s == [] then st else Run(Step(st, s[0]), s[1..])
  }

  predicate Accepting(st: NumState) {
    st == IntPart || st == IntDot || st == Frac || st == ExpDigits || st == Trail
  }

  /** `is_numeric($s)` for a string. */
  predicate IsNumericString(s: string) {
    Accepting(Run(Lead, s))
  }

  /** `is_numeric($key)` for an array key: every int key is numeric. */
  predicate IsNumeric(k: Key) {
    match k
    case IntKey(_) => true
    case StrKey(s) => IsNumericString(s)
  }

  predicate IsAllDigits(s: string) {
    forall i :: 0 <= i < |s| ==> IsDigit(s[i])
  }

  lemma {:induction false} DigitRunStays(s: string)
    requires IsAllDigits(s)
    ensures Run(IntPart, s) == IntPart
    decreases |s|
  {
    if s != [] {
      assert Step(IntPart, s[0]) == IntPart;
      DigitRunStays(s[1..]);
    }
  }

  lemma {:induction false} RejectAbsorbs(s: string)
    ensures Run(Reject, s) == Reject
    decreases |s|
  {
    if s != [] {
      RejectAbsorbs(s[1..]);
    }
  }

  /** A non-empty run of decimal digits is numeric. */
  lemma DigitsAreNumeric(s: string)
    requires s != [] && IsAllDigits(s)
    ensures IsNumericString(s)
  {
    assert Step(Lead, s[0]) == IntPart;
    DigitRunStays(s[1..]);
  }

  /** A string that starts with a letter (as every ordinary column name does) is not numeric,
      so a declaration entry under such a key takes the string-key branch. */
  lemma LetterLedIsNotNumeric(s: string)
    requires s != [] && ('a' <= s[0] <= 'z' || 'A' <= s[0] <= 'Z' || s[0] == '_')
    ensures !IsNumericString(s)
  {
    assert Step(Lead, s[0]) == Reject;
    RejectAbsorbs(s[1..]);
  }

  /** PHP 8 examples: decimals, exponents and surrounding whitespace are numeric. */
  lemma NumericStringExamples()
    ensures IsNumericString("1.5") && IsNumericString(".5") && IsNumericString("1.")
    ensures IsNumericString("-0") && IsNumericString(" 12 ") && IsNumericString("1e3")
  {
  }

  /** PHP 8 examples: the empty string, a lone dot, a dangling exponent, hexadecimal
      and a leading-numeric string are not numeric. */
  lemma NonNumericStringExamples()
    ensures !IsNumericString("") && !IsNumericString(".") && !IsNumericString("1e")
    ensures !IsNumericString("0x1A") && !IsNumericString("12abc")
  {
  }
}
