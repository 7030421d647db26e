/** Python values and the few built-in string operations the factory code relies on
    (str.split with a one-character separator, str.join, str.strip, str.startswith,
    int() on a string and str() of an integer). */
module PyValues {

  datatype Option<+T> = None | Some(value: T)

  datatype Result<+T, +E> = Ok(value: T) | Err(error: E)

  /** A Python value as it occurs in job records, analyzer keys and results.
      Dictionaries are keyed by strings (attribute names of a ClassAd). */
  datatype Value =
    | PyNone
    | PyBool(b: bool)
    | PyInt(i: int)
    | PyStr(s: string)
    | PyList(items: seq<Value>)
    | PyDict(entries: map<string, Value>)

  /** Python's truth test: None, False, 0, '' and empty containers are false. */
  predicate Truthy(v: Value) {
    match v
    case PyNone => false
    case PyBool(b) => b
    case PyInt(i) => i != 0
    case PyStr(s) => s != ""
    case PyList(xs) => xs != []
    case PyDict(m) => m != map[]
  }

  /** Python's hash() succeeds on None, bools, ints and strings, and raises
      TypeError on lists and dicts. */
  predicate Hashable(v: Value) {
    !v.PyList? && !v.PyDict?
  }

  /** Python's `==` on values: a bool equals the int of its truth value (True == 1,
      False == 0); lists are equal item by item and dicts key by key; values of any
      other two different kinds are never equal. */
  predicate PyEq(a: Value, b: Value) {
    match (a, b)
    case (PyBool(x), PyInt(n)) => n == (if x then 1 else 0)
    case (PyInt(n), PyBool(x)) => n == (if x then 1 else 0)
    case (PyList(xs), PyList(ys)) => |xs| == |ys| && forall i | 0 <= i < |xs| :: PyEq(xs[i], ys[i])
    case (PyDict(m), PyDict(n)) => m.Keys == n.Keys && forall k | k in m :: PyEq(m[k], n[k])
    case _ => a == b
  }

  /** Every value equals itself under `==`. */
  lemma {:induction false} PyEqReflexive(v: Value)
    ensures PyEq(v, v)
  {
    match v
    case PyList(xs) =>
      forall i | 0 <= i < |xs|
        ensures PyEq(xs[i], xs[i])
      {
        PyEqReflexive(xs[i]);
      }
    case PyDict(m) =>
      forall k | k in m
        ensures PyEq(m[k], m[k])
      {
        PyEqReflexive(m[k]);
      }
    case _ =>
  }

  /** The hashable value of another kind that `==` equates with v, if any: True and 1,
      False and 0. Python's hash agrees, so a dict never holds both. */
  function Twin(v: Value): (r: Option<Value>)
    ensures r.Some? ==> r.value != v && Hashable(r.value) && Hashable(v)
  {
    match v
    case PyBool(b) => Some(PyInt(if b then 1 else 0))
    case PyInt(i) => if i == 0 then Some(PyBool(false)) else if i == 1 then Some(PyBool(true)) else None
    case _ => None
  }

  /** Being twins goes both ways. */
  lemma TwinOfTwin(v: Value)
    ensures Twin(v).Some? ==> Twin(Twin(v).value) == Some(v)
  {
  }

  /** Two values that meet as dict keys: equal, or twins. */
  predicate SameKey(a: Value, b: Value) {
    a == b || Twin(a) == Some(b)
  }

  /** Against a hashable value, `==` is being the same key. */
  lemma PyEqHashable(v: Value, k: Value)
    requires Hashable(k)
    ensures PyEq(v, k) <==> SameKey(v, k)
  {
  }

  /** The keys of a Python dict: hashable, and no two of them equal under `==`. */
  predicate DictKeys<T>(d: map<Value, T>) {
    forall k | k in d :: Hashable(k) && (Twin(k).None? || Twin(k).value !in d)
  }

  /** The key under which `d[key]` finds or stores its entry: the key d already holds
      that equals key, or key itself. */
  function FiledUnder<T>(d: map<Value, T>, key: Value): (k: Value)
    ensures SameKey(key, k)
    ensures k in d <==> key in d || (Twin(key).Some? && Twin(key).value in d)
  {
    if key !in d && Twin(key).Some? && Twin(key).value in d then Twin(key).value else key
  }

  /** In a Python dict, the keys equal to v under `==` are exactly the key v is filed
      under, when that is a key at all. */
  lemma EqualKeyIsFiled<T>(mapping: map<Value, T>, v: Value)
    requires DictKeys(mapping)
    ensures forall k | k in mapping :: PyEq(v, k) <==> k == FiledUnder(mapping, v)
  {
    forall k | k in mapping
      ensures PyEq(v, k) <==> k == FiledUnder(mapping, v)
    {
      PyEqHashable(v, k);
      TwinOfTwin(v);
      TwinOfTwin(k);
    }
  }

  /** `job[key]` on a record: a dict lookup. Anything else (missing key, a value that is
      not a dict) raises, which is reported as None. */
  function Lookup(job: Value, key: string): (r: Option<Value>)
    ensures r.Some? <==> job.PyDict? && key in job.entries
    ensures r.Some? ==> r.value == job.entries[key]
  {
    if job.PyDict? && key in job.entries then Some(job.entries[key]) else None
  }

  /** A Python dict object: a mutable table that several holders may share. */
  class PyDictObject {
    var entries: map<string, Value>

    constructor (entries: map<string, Value>)
      ensures this.entries == entries
    {
      this.entries := entries;
    }

    /** The entry under key, or the given default when there is none: how DataItem and
        Item read their dict as attributes. */
    function GetOr(key: string, default: Value): (v: Value)
      reads this
      ensures key !in entries ==> v == default
      ensures key in entries ==> v == entries[key]
    {
      if key in entries then entries[key] else default
    }
  }

  /** Why `v.get(*args)` fails: v has no get method (it is not a dict), or get was given
      no argument, more than two, or an unhashable key. */
  datatype GetFailure = NoGetMethod | BadGetArguments

  /** `v.get(*args)`: dict.get(key) or dict.get(key, default) on a raw value. */
  function DictGet(v: Value, args: seq<Value>): (r: Result<Value, GetFailure>)
    ensures !v.PyDict? ==> r == Err(NoGetMethod)
    ensures v.PyDict? && 1 <= |args| <= 2 && args[0].PyStr? && args[0].s in v.entries ==> r == Ok(v.entries[args[0].s])
    ensures v.PyDict? && 1 <= |args| <= 2 && Hashable(args[0]) && !(args[0].PyStr? && args[0].s in v.entries) ==>
              r == Ok(if |args| == 2 then args[1] else PyNone)
  {
    if !v.PyDict? then Err(NoGetMethod)
    else if |args| == 0 || |args| > 2 || !Hashable(args[0]) then Err(BadGetArguments)
    else if args[0].PyStr? && args[0].s in v.entries then Ok(v.entries[args[0].s])
    else Ok(if |args| == 2 then args[1] else PyNone)
  }

  // ---------------------------------------------------------------------------
  // Digits and integers
  // ---------------------------------------------------------------------------

  predicate IsDigit(c: char) { '0' <= c <= '9' }

  function DigitChar(d: nat): (c: char)
    requires d < 10
    ensures IsDigit(c)
  {
    ['0', '1', '2', '3', '4', '5', '6', '7', '8', '9'][d]
  }

  function DigitValue(c: char): (d: nat)
    requires IsDigit(c)
    ensures d < 10
  {
    (c as int - '0' as int) as nat
  }

  lemma DigitRoundTrip(d: nat)
    requires d < 10
    ensures DigitValue(DigitChar(d)) == d
  {
  }

  /** Decimal text of a natural number, most significant digit first, no leading zero. */
  function NatToString(n: nat): (s: string)
    ensures |s| >= 1
    ensures forall i | 0 <= i < |s| :: IsDigit(s[i])
    decreases n
  {
    if n < 10 then [DigitChar(n)] else NatToString(n / 10) + [DigitChar(n % 10)]
  }

  /** str() of a Python int. */
  function IntToString(i: int): (s: string)
    ensures |s| >= 1
  {
    if i < 0 then Negated(NatToString(-i)) else NatToString(i)
  }

  /** The text of a negative number: a minus sign before its digits. */
  function Negated(digits: string): string {
    "-" + digits
  }

  /** The value of a non-empty string of decimal digits. */
  function DigitsValue(s: string): (n: nat)
    requires forall i | 0 <= i < |s| :: IsDigit(s[i])
    decreases |s|
  {
    if |s| == 0 then 0 else 10 * DigitsValue(s[..|s| - 1]) + DigitValue(s[|s| - 1])
  }

  predicate AllDigits(s: string) {
    |s| >= 1 && forall i | 0 <= i < |s| :: IsDigit(s[i])
  }

  /** Python 2 int() on a string, base 10: surrounding whitespace is ignored, an optional
      sign is allowed, then at least one digit. Python 2 skips whitespace once more after
      the sign (its strtoul does), so "- 5" reads as -5. Anything else raises ValueError
      (None). */
  function ParseInt(s: string): (r: Option<int>)
    ensures r.Some? ==> |Strip(s)| >= 1
  {
    var t := Strip(s);
    if |t| >= 1 && (t[0] == '-' || t[0] == '+') then
      var digits := SkipSpaces(t[1..]);
      if AllDigits(digits) then
        var m: int := DigitsValue(digits);
        Some(if t[0] == '-' then -m else m)
      else None
    else if AllDigits(t) then Some(DigitsValue(t))
    else None
  }

  /** The text after its leading whitespace: where int() looks for digits after a sign. */
  function SkipSpaces(s: string): string {
    if |s| > 0 && IsSpace(s[0]) then SkipSpaces(s[1..]) else s
  }

  /** Python's int() applied to a value: ints as they are, bools as 0 and 1, strings
      parsed in base 10; anything else raises (None). */
  function IntOf(v: Value): (r: Option<int>)
    ensures v.PyInt? ==> r == Some(v.i)
    ensures v.PyStr? ==> r == ParseInt(v.s)
    ensures v.PyNone? || v.PyList? || v.PyDict? ==> r == None
  {
    match v
    case PyInt(i) => Some(i)
    case PyBool(b) => Some(if b then 1 else 0)
    case PyStr(s) => ParseInt(s)
    case _ => None
  }

  lemma {:induction false} NatToStringValue(n: nat)
    ensures DigitsValue(NatToString(n)) == n
    decreases n
  {
    var s := NatToString(n);
    if n < 10 {
      DigitRoundTrip(n);
    } else {
      NatToStringValue(n / 10);
      DigitRoundTrip(n % 10);
      assert s[..|s| - 1] == NatToString(n / 10);
    }
  }

  /** A string of digits reads back as its value. */
  lemma ParseDigits(s: string)
    requires AllDigits(s)
    ensures ParseInt(s) == Some(DigitsValue(s))
  {
    assert forall i | 0 <= i < |s| :: !IsSpace(s[i]);
    StripNoWhitespace(s);
    assert s[0] != '-' && s[0] != '+';
  }

  /** A minus sign followed by digits reads back as the negated value. */
  lemma ParseNegative(d: string)
    requires AllDigits(d)
    ensures ParseInt(Negated(d)) == Some(-(DigitsValue(d) as int))
  {
    assert Negated(d) == ['-'] + "" + d;
    ParseSigned('-', "", d);
  }

  /** Whitespace between a minus sign and the digits is skipped: "- 5" reads as -5. */
  lemma SignThenSpace(d: string)
    requires AllDigits(d)
    ensures ParseInt("- " + d) == Some(-(DigitsValue(d) as int))
  {
    assert "- " + d == ['-'] + " " + d;
    ParseSigned('-', " ", d);
  }

  /** A sign, any whitespace, then digits: the signed value of the digits. */
  lemma ParseSigned(sign: char, pad: string, d: string)
    requires sign == '-' || sign == '+'
    requires forall i | 0 <= i < |pad| :: IsSpace(pad[i])
    requires AllDigits(d)
    ensures ParseInt([sign] + pad + d) == Some(if sign == '-' then -(DigitsValue(d) as int) else DigitsValue(d))
  {
    var s := [sign] + pad + d;
    StripSigned(sign, pad, d);
    assert s[0] == sign && s[1..] == pad + d;
    SkipSpacesPad(pad, d);
  }

  lemma StripSigned(sign: char, pad: string, d: string)
    requires sign == '-' || sign == '+'
    requires AllDigits(d)
    ensures Strip([sign] + pad + d) == [sign] + pad + d
  {
    var s := [sign] + pad + d;
    assert StripLeft(s) == s;
    assert s[|s| - 1] == d[|d| - 1];
  }

  /** Leading whitespace before text that starts with something else is dropped. */
  lemma {:induction false} SkipSpacesPad(pad: string, x: string)
    requires forall i | 0 <= i < |pad| :: IsSpace(pad[i])
    requires |x| > 0 && !IsSpace(x[0])
    ensures SkipSpaces(pad + x) == x
    decreases |pad|
  {
    if |pad| > 0 {
      assert (pad + x)[1..] == pad[1..] + x;
      SkipSpacesPad(pad[1..], x);
    } else {
      assert pad + x == x;
    }
  }

  /** The decimal text of a natural number reads back as that number. */
  lemma NatStringRoundTrip(i: int)
    requires i >= 0
    ensures ParseInt(IntToString(i)) == Some(i)
  {
    var d := NatToString(i);
    assert IntToString(i) == d;
    NatToStringValue(i);
    ParseDigits(d);
  }

  /** A minus sign before the decimal text of a positive number reads back as its negation. */
  lemma NegStringRoundTrip(i: int)
    requires i < 0
    ensures ParseInt(IntToString(i)) == Some(i)
  {
    var n: nat := -i;
    var d := NatToString(n);
    assert IntToString(i) == Negated(d);
    NatToStringValue(n);
    ParseNegative(d);
  }

  /** int(str(i)) == i: the decimal text of an integer reads back as that integer. */
  lemma IntStringRoundTrip(i: int)
    ensures ParseInt(IntToString(i)) == Some(i)
  {
    if i < 0 {
      NegStringRoundTrip(i);
    } else {
      NatStringRoundTrip(i);
    }
  }

  // ---------------------------------------------------------------------------
  // Strings
  // ---------------------------------------------------------------------------

  /** str.lower() of one character: ASCII capitals become small letters. */
  function LowerChar(c: char): char {
    if 'A' <= c <= 'Z' then (c as int - 'A' as int + 'a' as int) as char else c
  }

  /** str.lower() on a byte string: only ASCII letters change. */
  function Lower(s: string): (r: string)
    ensures |r| == |s| && forall i | 0 <= i < |s| :: r[i] == LowerChar(s[i])
  {
    seq(|s|, i requires 0 <= i < |s| => LowerChar(s[i]))
  }

  /** Lower-casing twice is lower-casing once. */
  lemma LowerIdempotent(s: string)
    ensures Lower(Lower(s)) == Lower(s)
  {
  }

  /** The characters Python 2's str.strip() removes by default. */
  predicate IsSpace(c: char) {
    c == ' ' || c == '\t' || c == '\n' || c == '\r' || c == '\U{B}' || c == '\U{C}'
  }

  function StripLeft(s: string): (r: string)
    ensures |r| <= |s|
    ensures r == s[|s| - |r|..]
    ensures |r| > 0 ==> !IsSpace(r[0])
    ensures forall i | 0 <= i < |s| - |r| :: IsSpace(s[i])
  {
    if |s| > 0 && IsSpace(s[0]) then StripLeft(s[1..]) else s
  }

  function StripRight(s: string): (r: string)
    ensures |r| <= |s|
    ensures r == s[..|r|]
    ensures |r| > 0 ==> !IsSpace(r[|r| - 1])
    ensures forall i | |r| <= i < |s| :: IsSpace(s[i])
  {
    if |s| > 0 && IsSpace(s[|s| - 1]) then StripRight(s[..|s| - 1]) else s
  }

  /** str.strip(): the string without leading and trailing whitespace. */
  function Strip(s: string): (r: string)
    ensures |r| <= |s|
    ensures |r| > 0 ==> !IsSpace(r[0]) && !IsSpace(r[|r| - 1])
  {
    StripRight(StripLeft(s))
  }

  lemma StripNoWhitespace(s: string)
    requires forall i | 0 <= i < |s| :: !IsSpace(s[i])
    ensures Strip(s) == s
  {
  }

  /** A string is blank (strips to '') exactly when every character is whitespace. */
  lemma {:induction false} StripEmptyIffBlank(s: string)
    ensures Strip(s) == "" <==> forall i | 0 <= i < |s| :: IsSpace(s[i])
  {
    var l := StripLeft(s);
    if l == "" {
    } else {
      assert !IsSpace(l[0]);
      var r := StripRight(l);
      assert |r| > 0;
      assert s[|s| - |l|] == l[0];
    }
  }

  /** str.startswith(p). */
  predicate StartsWith(s: string, p: string) {
    |p| <= |s| && s[..|p|] == p
  }

  /** str.split(c) with an explicit one-character separator: the pieces between
      occurrences of c; an empty string gives [""]. */
  function Split(s: string, c: char): (r: seq<string>)
    ensures |r| >= 1
    ensures forall i | 0 <= i < |r| :: c !in r[i]
  {
    if |s| == 0 then [""]
    else
      var rest := Split(s[1..], c);
      if s[0] == c then [""] + rest else [[s[0]] + rest[0]] + rest[1..]
  }

  /** sep.join(xs). */
  function Join(sep: string, xs: seq<string>): string {
    if |xs| == 0 then "" else if |xs| == 1 then xs[0] else xs[0] + sep + Join(sep, xs[1..])
  }

  /** Joining one more piece puts the separator between it and the joined rest. */
  lemma {:induction false} JoinAppend(sep: string, xs: seq<string>, x: string)
    requires |xs| > 0
    ensures Join(sep, xs + [x]) == Join(sep, xs) + sep + x
    decreases |xs|
  {
    if |xs| == 1 {
      assert (xs + [x])[1..] == [x];
    } else {
      assert (xs + [x])[1..] == xs[1..] + [x];
      JoinAppend(sep, xs[1..], x);
    }
  }

  /** Joining a list with one more piece in front puts the separator after that piece. */
  lemma JoinPrepend(sep: string, x: string, xs: seq<string>)
    requires |xs| > 0
    ensures Join(sep, [x] + xs) == x + sep + Join(sep, xs)
  {
    assert ([x] + xs)[1..] == xs;
  }

  /** Gluing text onto the front of the first piece glues it onto the joined text. */
  lemma JoinGlue(sep: string, a: string, xs: seq<string>)
    requires |xs| > 0
    ensures Join(sep, [a + xs[0]] + xs[1..]) == a + Join(sep, xs)
  {
    if |xs| == 1 {
      assert [a + xs[0]] + xs[1..] == [a + xs[0]];
    } else {
      JoinPrepend(sep, a + xs[0], xs[1..]);
      assert xs == [xs[0]] + xs[1..];
      JoinPrepend(sep, xs[0], xs[1..]);
    }
  }

  /** Splitting on c and joining the pieces with c again gives back the string. */
  lemma {:induction false} JoinSplit(s: string, c: char)
    ensures Join([c], Split(s, c)) == s
  {
    if |s| > 0 {
      var rest := Split(s[1..], c);
      JoinSplit(s[1..], c);
      assert s == [s[0]] + s[1..];
      if s[0] == c {
        assert Split(s, c) == [""] + rest;
        JoinPrepend([c], "", rest);
      } else {
        assert Split(s, c) == [[s[0]] + rest[0]] + rest[1..];
        JoinGlue([c], [s[0]], rest);
      }
    }
  }

  /** Without the separator in it, a string splits into itself. */
  lemma {:induction false} SplitNoSeparator(s: string, c: char)
    requires c !in s
    ensures Split(s, c) == [s]
  {
    if |s| > 0 {
      assert s == [s[0]] + s[1..];
      SplitNoSeparator(s[1..], c);
    }
  }

  /** The first piece of a split is the text before the first separator, and the
      rest joined again is the text after it. */
  lemma {:induction false} SplitFirst(s: string, c: char, k: nat)
    requires k < |s| && s[k] == c && c !in s[..k]
    ensures Split(s, c)[0] == s[..k]
    ensures Join([c], Split(s, c)[1..]) == s[k + 1..]
  {
    if k == 0 {
      JoinSplit(s[1..], c);
    } else {
      assert s[0] != c by { assert s[..k][0] == s[0]; }
      assert s[1..][..k - 1] == s[..k][1..];
      assert c !in s[1..][..k - 1];
      SplitFirst(s[1..], c, k - 1);
      var rest := Split(s[1..], c);
      assert s[..k] == [s[0]] + rest[0];
      assert Split(s, c)[1..] == rest[1..];
      assert s[1..][k..] == s[k + 1..];
    }
  }

  /** Every character of a piece of a split comes from the split string. */
  lemma {:induction false} SplitPiecesFromString(s: string, c: char)
    ensures forall i, k | 0 <= i < |Split(s, c)| && 0 <= k < |Split(s, c)[i]| :: Split(s, c)[i][k] in s
  {
    if |s| > 0 {
      SplitPiecesFromString(s[1..], c);
      var rest := Split(s[1..], c);
      forall i, k | 0 <= i < |Split(s, c)| && 0 <= k < |Split(s, c)[i]|
        ensures Split(s, c)[i][k] in s
      {
        if s[0] == c {
          assert Split(s, c)[i] == ([""] + rest)[i];
          assert i > 0 && Split(s, c)[i] == rest[i - 1];
          assert rest[i - 1][k] in s[1..];
        } else if i == 0 {
          assert Split(s, c)[0] == [s[0]] + rest[0];
          if k > 0 {
            assert rest[0][k - 1] in s[1..];
          }
        } else {
          assert Split(s, c)[i] == rest[i];
          assert rest[i][k] in s[1..];
        }
      }
    }
  }

  /** Concatenation regroups freely. */
  lemma ConcatAssociates<T>(a: seq<T>, b: seq<T>, c: seq<T>)
    ensures a + (b + c) == (a + b) + c
  {
  }
}
