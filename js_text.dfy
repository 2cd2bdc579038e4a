/**
 * JavaScript strings as the server sees them: sequences of UTF-16 code
 * units, so that `length`, `String.prototype.trim` and a regular expression
 * without the `u` flag mean here what they mean in the running program.
 * Also the shape of an urlencoded form field and JavaScript truthiness.
 */
module JsText {

  /** One UTF-16 code unit. */
  newtype CodeUnit = x: int | 0 <= x < 0x1_0000

  type JsString = seq<CodeUnit>

  /** The WhiteSpace and LineTerminator code units of ECMA-262 (sections
      12.2 and 12.3), the ones `trim` removes from both ends. */
  predicate IsJsWhitespace(c: CodeUnit) {
    c == 0x09 || c == 0x0A || c == 0x0B || c == 0x0C || c == 0x0D || c == 0x20
    || c == 0xA0 || c == 0x1680 || (0x2000 <= c <= 0x200A)
    || c == 0x2028 || c == 0x2029 || c == 0x202F || c == 0x205F
    || c == 0x3000 || c == 0xFEFF
  }

  /** The character class `[a-zA-Z0-9]`. */
  predicate IsAsciiAlnum(c: CodeUnit) {
    (0x30 <= c <= 0x39) || (0x41 <= c <= 0x5A) || (0x61 <= c <= 0x7A)
  }

  predicate AllAsciiAlnum(s: JsString) {
    forall i :: 0 <= i < |s| ==> IsAsciiAlnum(s[i])
  }

  predicate AllWhitespace(s: JsString) {
    forall i :: 0 <= i < |s| ==> IsJsWhitespace(s[i])
  }

  /** Drops leading whitespace. */
  function TrimStart(s: JsString): JsString
    decreases |s|
  {
    if s != [] && IsJsWhitespace(s[0]) then TrimStart(s[1..]) else s
  }

  /** Drops trailing whitespace. */
  function TrimEnd(s: JsString): JsString
    decreases |s|
  {
    if s != [] && IsJsWhitespace(s[|s| - 1]) then TrimEnd(s[..|s| - 1]) else s
  }

  /** TrimStart keeps a suffix of `s`, everything it drops is whitespace and
      what it keeps does not start with any. */
  lemma {:induction false} TrimStartSuffix(s: JsString)
    ensures |TrimStart(s)| <= |s| && TrimStart(s) == s[|s| - |TrimStart(s)|..]
    ensures AllWhitespace(s[..|s| - |TrimStart(s)|])
    ensures TrimStart(s) != [] ==> !IsJsWhitespace(TrimStart(s)[0])
    decreases |s|
  {
    if s != [] && IsJsWhitespace(s[0]) {
      var r := TrimStart(s[1..]);
      TrimStartSuffix(s[1..]);
      assert s[..|s| - |r|] == [s[0]] + s[1..][..|s[1..]| - |r|];
    }
  }

  /** TrimEnd keeps a prefix of `s`, everything it drops is whitespace and
      what it keeps does not end with any. */
  lemma {:induction false} TrimEndPrefix(s: JsString)
    ensures |TrimEnd(s)| <= |s| && TrimEnd(s) == s[..|TrimEnd(s)|]
    ensures AllWhitespace(s[|TrimEnd(s)|..])
    ensures TrimEnd(s) != [] ==> !IsJsWhitespace(TrimEnd(s)[|TrimEnd(s)| - 1])
    decreases |s|
  {
    if s != [] && IsJsWhitespace(s[|s| - 1]) {
      var init := s[..|s| - 1];
      var r := TrimEnd(init);
      TrimEndPrefix(init);
      assert s[|r|..] == init[|r|..] + [s[|s| - 1]];
    }
  }

  /** `String.prototype.trim`. */
  function Trim(s: JsString): JsString {
    TrimEnd(TrimStart(s))
  }

  /** Trim keeps one contiguous block of `s`, removes only whitespace around
      it, and leaves no whitespace at either end; so it leaves nothing exactly
      when `s` is all whitespace. */
  lemma TrimSlice(s: JsString) returns (lo: nat)
    ensures lo + |Trim(s)| <= |s|
    ensures Trim(s) == s[lo..lo + |Trim(s)|]
    ensures AllWhitespace(s[..lo]) && AllWhitespace(s[lo + |Trim(s)|..])
    ensures Trim(s) != [] ==> !IsJsWhitespace(Trim(s)[0]) && !IsJsWhitespace(Trim(s)[|Trim(s)| - 1])
    ensures Trim(s) == [] <==> AllWhitespace(s)
  {
    var t := TrimStart(s);
    var r := TrimEnd(t);
    TrimStartSuffix(s);
    TrimEndPrefix(t);
    lo := |s| - |t|;
    assert t == s[lo..];
    assert s[lo + |r|..] == t[|r|..];
    if r == [] {
      assert s == s[..lo] + t[|r|..];
    } else {
      assert r[0] == s[lo];
    }
  }

  /** A string with no whitespace at either end is its own trim. */
  lemma TrimOfTrimmed(s: JsString)
    requires s != [] ==> !IsJsWhitespace(s[0]) && !IsJsWhitespace(s[|s| - 1])
    ensures Trim(s) == s
  {
    assert TrimStart(s) == s;
    assert TrimEnd(s) == s;
  }

  /** Trimming twice is trimming once. */
  lemma TrimIdempotent(s: JsString)
    ensures Trim(Trim(s)) == Trim(s)
  {
    var _ := TrimSlice(s);
    TrimOfTrimmed(Trim(s));
  }

  /** The values of a key that occurs more than once in a form. */
  type Repeated = items: seq<JsString> | |items| >= 2 witness [[], []]

  /** A urlencoded form field after `express.urlencoded({extended: false})`:
      missing, one string for a key given once, or an array of two or more
      strings for a repeated key. */
  datatype FormValue = Absent | Text(s: JsString) | List(items: Repeated)

  /** `if (typeof v !== "string") v = ""`. */
  function AsText(v: FormValue): JsString {
    if v.Text? then v.s else []
  }

  /** JavaScript truthiness of a form field: `undefined` and `""` are falsy,
      every other string and every array is truthy. */
  predicate Truthy(v: FormValue) {
    match v
    case Absent => false
    case Text(s) => s != []
    case List(_) => true
  }
}
