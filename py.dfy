/**
 * The Python values that cross the crawler's wire formats, with the parts
 * of Python's semantics the crawler depends on: truthiness, `str()` and
 * `repr()`, `int()` of a string, `str.strip()`, and JSON as an abstract
 * codec with the laws of the standard `json` module.
 */
module Py {
  import opened Wrappers

  /** A Python value; a dict keeps its insertion order and has string keys. */
  datatype Value =
    | NoneV
    | BoolV(b: bool)
    | IntV(i: int)
    | StrV(s: string)
    | ListV(items: seq<Value>)
    | TupleV(items: seq<Value>)
    | DictV(entries: seq<(string, Value)>)

  /** Python's truth value of an object. */
  predicate Truthy(v: Value)
  {
    match v
    case NoneV => false
    case BoolV(b) => b
    case IntV(i) => i != 0
    case StrV(s) => s != ""
    case ListV(xs) => xs != []
    case TupleV(xs) => xs != []
    case DictV(es) => es != []
  }

  // ---------------------------------------------------------------- integers

  predicate IsDigit(c: char)
  {
    '0' <= c <= '9'
  }

  function DigitChar(d: nat): char
    requires d < 10
  {
    ('0' as int + d) as char
  }

  function DigitValue(c: char): nat
    requires IsDigit(c)
  {
    c as int - '0' as int
  }

  /** The decimal digits of `n`, most significant first, without leading zeros. */
  function Digits(n: nat): (ds: string)
    ensures ds != []
    ensures forall k :: 0 <= k < |ds| ==> IsDigit(ds[k])
  {
    if n < 10 then [DigitChar(n)] else Digits(n / 10) + [DigitChar(n % 10)]
  }

  /** `str(i)` for an int. */
  function Decimal(i: int): string
  {
    if i < 0 then "-" + Digits(-i) else Digits(i)
  }

  /** The number a run of decimal digits denotes; the underscores Python allows between digits are skipped. */
  function DigitsValue(ds: string): nat
    requires forall k :: 0 <= k < |ds| ==> IsDigit(ds[k]) || ds[k] == '_'
  {
    if ds == [] then 0
    else if ds[|ds| - 1] == '_' then DigitsValue(ds[..|ds| - 1])
    else DigitsValue(ds[..|ds| - 1]) * 10 + DigitValue(ds[|ds| - 1])
  }

  /**
   * The digit part `int()` accepts: one or more ASCII digits, where a
   * single `_` may stand between two of them (so "1_000", but not "_1",
   * "1_" or "1__0"): it starts and ends with a digit, and of two
   * neighbouring characters at least one is a digit.
   */
  predicate AllDigits(ds: string)
  {
    && ds != [] && IsDigit(ds[0]) && IsDigit(ds[|ds| - 1])
    && (forall k :: 0 <= k < |ds| ==> IsDigit(ds[k]) || ds[k] == '_')
    && (forall i, j :: 0 <= i < |ds| && 0 <= j < |ds| && j == i + 1 ==> IsDigit(ds[i]) || IsDigit(ds[j]))
  }

  /**
   * `int(s)` for a string: surrounding whitespace is ignored, then an
   * optional sign and the digits, with single underscores allowed
   * between them; anything else is a ValueError, represented by `None`.
   * Only the ASCII digits are digits here.
   */
  function ParseInt(s: string): (r: Option<int>)
  {
    var t := Strip(s);
    if t != [] && (t[0] == '-' || t[0] == '+') then
      if AllDigits(t[1..]) then
        var n: int := DigitsValue(t[1..]);
        Some(if t[0] == '-' then -n else n)
      else None
    else if AllDigits(t) then Some(DigitsValue(t))
    else None
  }

  lemma {:induction false} DigitsValueOfDigits(n: nat)
    ensures DigitsValue(Digits(n)) == n
  {
    if n >= 10 {
      var ds := Digits(n);
      assert ds[..|ds| - 1] == Digits(n / 10);
      DigitsValueOfDigits(n / 10);
    }
  }

  /** `int(str(i)) == i`: the decimal form of an int parses back to it. */
  lemma {:induction false} ParseDecimal(i: int)
    ensures ParseInt(Decimal(i)) == Some(i)
  {
    var t := Decimal(i);
    var ds := Digits(if i < 0 then -i else i);
    assert t[|t| - 1] == ds[|ds| - 1];
    DigitNotSpace(ds[|ds| - 1]);
    if i < 0 {
      assert t[1..] == ds;
    } else {
      DigitNotSpace(t[0]);
    }
    StripNoSpace(t);
    PlainDigits(ds);
    DigitsValueOfDigits(if i < 0 then -i else i);
  }

  /** A non-empty run of plain digits is a digit part `int()` accepts. */
  lemma PlainDigits(ds: string)
    requires ds != [] && forall k :: 0 <= k < |ds| ==> IsDigit(ds[k])
    ensures AllDigits(ds)
  {
  }

  /** An underscore between two digits does not change the number. */
  lemma {:induction false} SkipUnderscore(a: string, b: string)
    requires forall k :: 0 <= k < |a| ==> IsDigit(a[k]) || a[k] == '_'
    requires forall k :: 0 <= k < |b| ==> IsDigit(b[k]) || b[k] == '_'
    ensures DigitsValue(a + "_" + b) == DigitsValue(a + b)
    decreases |b|
  {
    if b == [] {
      assert (a + "_" + b)[..|a|] == a;
      assert a + b == a;
    } else {
      var b' := b[..|b| - 1];
      assert (a + "_" + b)[..|a + "_" + b| - 1] == a + "_" + b';
      assert (a + b)[..|a + b| - 1] == a + b';
      SkipUnderscore(a, b');
    }
  }

  /**
   * `int("1_000") == int("1000")`: an underscore between two runs of
   * digits is accepted and ignored.
   */
  lemma ParseUnderscore(a: string, b: string)
    requires a != [] && forall k :: 0 <= k < |a| ==> IsDigit(a[k])
    requires b != [] && forall k :: 0 <= k < |b| ==> IsDigit(b[k])
    ensures ParseInt(a + "_" + b).Some?
    ensures ParseInt(a + "_" + b) == ParseInt(a + b)
  {
    var t, u := a + "_" + b, a + b;
    UnderscoreJoin(a, b);
    PlainJoin(a, b);
    DigitNotSpace(t[0]);
    DigitNotSpace(t[|t| - 1]);
    DigitNotSpace(u[0]);
    DigitNotSpace(u[|u| - 1]);
    StripNoSpace(t);
    StripNoSpace(u);
    SkipUnderscore(a, b);
  }

  /** Two runs of digits joined by an underscore are a digit part `int()` accepts. */
  lemma UnderscoreJoin(a: string, b: string)
    requires a != [] && forall k :: 0 <= k < |a| ==> IsDigit(a[k])
    requires b != [] && forall k :: 0 <= k < |b| ==> IsDigit(b[k])
    ensures AllDigits(a + "_" + b)
  {
    var t := a + "_" + b;
    assert t[0] == a[0] && t[|t| - 1] == b[|b| - 1];
    forall k | 0 <= k < |t| ensures IsDigit(t[k]) || t[k] == '_' {
      if k < |a| { assert t[k] == a[k]; } else if k > |a| { assert t[k] == b[k - |a| - 1]; }
    }
    forall i, j | 0 <= i < |t| && 0 <= j < |t| && j == i + 1 ensures IsDigit(t[i]) || IsDigit(t[j]) {
      if i < |a| { assert t[i] == a[i]; } else { assert t[j] == b[j - |a| - 1]; }
    }
  }

  /** Two runs of digits side by side are a run of digits. */
  lemma PlainJoin(a: string, b: string)
    requires a != [] && forall k :: 0 <= k < |a| ==> IsDigit(a[k])
    requires b != [] && forall k :: 0 <= k < |b| ==> IsDigit(b[k])
    ensures AllDigits(a + b)
  {
    var u := a + b;
    forall k | 0 <= k < |u| ensures IsDigit(u[k]) {
      if k < |a| { assert u[k] == a[k]; } else { assert u[k] == b[k - |a|]; }
    }
    PlainDigits(u);
  }

  lemma DigitNotSpace(c: char)
    requires IsDigit(c)
    ensures !IsSpace(c) && c != '-' && c != '+'
  {
  }

  // ---------------------------------------------------------------- whitespace

  /** The characters for which Python's `str.isspace()` is true. */
  predicate IsSpace(c: char)
  {
    || ('\t' <= c <= '\r')
    || ('\U{001C}' <= c <= '\U{001F}')
    || c == ' ' || c == '\U{0085}' || c == '\U{00A0}' || c == '\U{1680}'
    || ('\U{2000}' <= c <= '\U{200A}')
    || c == '\U{2028}' || c == '\U{2029}' || c == '\U{202F}' || c == '\U{205F}'
    || c == '\U{3000}'
  }

  /** Where the whitespace starting at `i` ends. */
  function SpaceRunEnd(s: string, i: nat): (n: nat)
    requires i <= |s|
    ensures i <= n <= |s|
    ensures forall k :: i <= k < n ==> IsSpace(s[k])
    ensures n < |s| ==> !IsSpace(s[n])
    decreases |s| - i
  {
    if i < |s| && IsSpace(s[i]) then SpaceRunEnd(s, i + 1) else i
  }

  /** Where the whitespace ending at `j` starts. */
  function SpaceRunStart(s: string, j: nat): (n: nat)
    requires j <= |s|
    ensures n <= j
    ensures forall k :: n <= k < j ==> IsSpace(s[k])
    ensures 0 < n ==> !IsSpace(s[n - 1])
  {
    if 0 < j && IsSpace(s[j - 1]) then SpaceRunStart(s, j - 1) else j
  }

  /** `s.lstrip()`: the longest suffix of `s` that does not start with whitespace. */
  function StripStart(s: string): (r: string)
    ensures |r| <= |s| && r == s[|s| - |r|..]
    ensures forall k :: 0 <= k < |s| - |r| ==> IsSpace(s[k])
    ensures r != [] ==> !IsSpace(r[0])
  {
    s[SpaceRunEnd(s, 0)..]
  }

  /** `s.rstrip()`: the longest prefix of `s` that does not end with whitespace. */
  function StripEnd(s: string): (r: string)
    ensures |r| <= |s| && r == s[..|r|]
    ensures forall k :: |r| <= k < |s| ==> IsSpace(s[k])
    ensures r != [] ==> !IsSpace(r[|r| - 1])
  {
    s[..SpaceRunStart(s, |s|)]
  }

  /**
   * `s.strip()`: `s` without leading and trailing whitespace; what remains
   * neither starts nor ends with whitespace.
   */
  function Strip(s: string): (r: string)
    ensures |r| <= |s|
    ensures r != [] ==> !IsSpace(r[0]) && !IsSpace(r[|r| - 1])
  {
    StripEnd(StripStart(s))
  }

  /** A string with no whitespace at either end is its own strip. */
  lemma StripNoSpace(s: string)
    requires s != [] ==> !IsSpace(s[0]) && !IsSpace(s[|s| - 1])
    ensures Strip(s) == s
  {
  }

  /** Stripping twice is stripping once. */
  lemma StripIdempotent(s: string)
    ensures Strip(Strip(s)) == Strip(s)
  {
    StripNoSpace(Strip(s));
  }

  /** Stripping removes only whitespace: `s` is spaces, then `Strip(s)`, then spaces. */
  lemma {:induction false} StripRemovesOnlySpace(s: string)
    ensures exists i, j :: 0 <= i <= j <= |s| && s[i..j] == Strip(s)
                        && (forall k :: 0 <= k < i ==> IsSpace(s[k]))
                        && (forall k :: j <= k < |s| ==> IsSpace(s[k]))
  {
    var i := |s| - |StripStart(s)|;
    var j := i + |Strip(s)|;
    StripSlice(s);
    TrailingSpace(s);
    assert 0 <= i <= j <= |s| && s[i..j] == Strip(s);
  }

  /** `Strip(s)` is the slice of `s` after its leading whitespace. */
  lemma {:induction false} StripSlice(s: string)
    ensures |s| - |StripStart(s)| + |Strip(s)| <= |s|
    ensures s[|s| - |StripStart(s)|..|s| - |StripStart(s)| + |Strip(s)|] == Strip(s)
  {
    var a := StripStart(s);
    var i := |s| - |a|;
    assert s[i..i + |Strip(s)|] == a[..|Strip(s)|];
  }

  /** What follows `Strip(s)` in `s` is whitespace. */
  lemma {:induction false} TrailingSpace(s: string)
    ensures forall k :: |s| - |StripStart(s)| + |Strip(s)| <= k < |s| ==> IsSpace(s[k])
  {
    var a := StripStart(s);
    var i := |s| - |a|;
    forall k | i + |Strip(s)| <= k < |s|
      ensures IsSpace(s[k])
    {
      assert s[k] == a[k - i];
    }
  }

  // ---------------------------------------------------------------- str, repr

  /** `sep.join(parts)` for a separator string. */
  function JoinWith(sep: string, parts: seq<string>): string
  {
    if parts == [] then ""
    else if |parts| == 1 then parts[0]
    else parts[0] + sep + JoinWith(sep, parts[1..])
  }

  /** `str(v)`. */
  function Str(v: Value): string
  {
    match v
    case StrV(s) => s
    case _ => Repr(v)
  }

  /**
   * `repr(v)`. A string is shown between single quotes; the escaping
   * that Python applies to quotes, backslashes and unprintable characters
   * is not modelled.
   */
  function Repr(v: Value): string
    decreases v
  {
    match v
    case NoneV => "None"
    case BoolV(b) => if b then "True" else "False"
    case IntV(i) => Decimal(i)
    case StrV(s) => "'" + s + "'"
    case ListV(xs) => "[" + JoinWith(", ", seq(|xs|, i requires 0 <= i < |xs| => Repr(xs[i]))) + "]"
    case TupleV(xs) =>
      if |xs| == 1 then "(" + Repr(xs[0]) + ",)"
      else "(" + JoinWith(", ", seq(|xs|, i requires 0 <= i < |xs| => Repr(xs[i]))) + ")"
    case DictV(es) =>
      "{" + JoinWith(", ", seq(|es|, i requires 0 <= i < |es| => "'" + es[i].0 + "': " + Repr(es[i].1))) + "}"
  }

  // ---------------------------------------------------------------- JSON

  /**
   * An implementation of `json.dumps` / `json.loads`; `loads` answers
   * `None` where Python raises a ValueError.
   */
  datatype Json = Json(dumps: Value -> string, loads: string -> Option<Value>)

  /** What a JSON round trip makes of a value: tuples come back as lists. */
  function JsonForm(v: Value): (w: Value)
    decreases v
  {
    match v
    case ListV(xs) => ListV(seq(|xs|, i requires 0 <= i < |xs| => JsonForm(xs[i])))
    case TupleV(xs) => ListV(seq(|xs|, i requires 0 <= i < |xs| => JsonForm(xs[i])))
    case DictV(es) => DictV(seq(|es|, i requires 0 <= i < |es| => (es[i].0, JsonForm(es[i].1))))
    case _ => v
  }

  /**
   * The laws of Python's `json` module that the crawler relies on: a
   * dumped value loads back as its JSON form, the text is never empty, and
   * (with the default `ensure_ascii`) it holds no control character.
   */
  ghost predicate Lawful(j: Json)
  {
    && (forall v :: j.loads(j.dumps(v)) == Some(JsonForm(v)))
    && (forall v :: j.dumps(v) != [])
    && (forall v, k :: 0 <= k < |j.dumps(v)| ==> ' ' <= j.dumps(v)[k])
  }

  /** A JSON round trip keeps a value's truth. */
  lemma JsonFormTruthy(v: Value)
    ensures Truthy(JsonForm(v)) == Truthy(v)
  {
  }

  /** The JSON form of a JSON form is itself: a second round trip changes nothing. */
  lemma {:induction false} JsonFormIdempotent(v: Value)
    ensures JsonForm(JsonForm(v)) == JsonForm(v)
    decreases v
  {
    match v
    case ListV(xs) =>
      forall i | 0 <= i < |xs| ensures JsonForm(JsonForm(xs[i])) == JsonForm(xs[i]) {
        JsonFormIdempotent(xs[i]);
      }
    case TupleV(xs) =>
      forall i | 0 <= i < |xs| ensures JsonForm(JsonForm(xs[i])) == JsonForm(xs[i]) {
        JsonFormIdempotent(xs[i]);
      }
    case DictV(es) =>
      forall i | 0 <= i < |es| ensures JsonForm(JsonForm(es[i].1)) == JsonForm(es[i].1) {
        JsonFormIdempotent(es[i].1);
      }
    case _ =>
  }

  /** A lawful codec never writes a character below the space, so no NUL, \x01 or \x02. */
  lemma LawfulDumpsPrintable(j: Json, v: Value, c: char)
    requires Lawful(j)
    requires c < ' '
    ensures c !in j.dumps(v)
  {
    forall k | 0 <= k < |j.dumps(v)|
      ensures j.dumps(v)[k] != c
    {
      assert ' ' <= j.dumps(v)[k];
    }
  }
}
