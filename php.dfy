/**
 * The fragment of PHP's value semantics that the bot manager's decision logic
 * depends on: loosely typed values, truthiness (`?:`, `empty()`), the null
 * coalescing lookup `$a[$k] ?? $d`, strict `in_array`, string conversion for
 * `.` concatenation, the `(int)` cast, `trim()` and `explode()`.
 *
 * PHP strings are byte strings; here a string is a `seq<char>` whose characters
 * stand for bytes.
 */
module Php {

  datatype Option<T> = None | Some(value: T)

  /** The exception classes the core throws, and PHP's Error for a call on null. */
  datatype ErrorKind =
    | InvalidActionException
    | InvalidParamsException
    | InvalidArgumentException
    | NullReceiverError

  datatype Error = Error(kind: ErrorKind, message: string)

  datatype Result<T> = Ok(value: T) | Err(error: Error)

  /** A PHP value. Arrays are split into lists and string-keyed maps. */
  datatype Value =
    | Null
    | Bool(b: bool)
    | Int(i: int)
    | Str(s: string)
    | List(items: seq<Value>)
    | Map(entries: map<string, Value>)
  {
    predicate IsArray() { List? || Map? }
  }

  /** PHP's conversion to bool: what `?:`, `&&` and `empty()` test. */
  predicate Truthy(v: Value)
  {
    match v
    case Null => false
    case Bool(b) => b
    case Int(i) => i != 0
    case Str(s) => s != "" && s != "0"
    case List(xs) => |xs| > 0
    case Map(m) => |m| > 0
  }

  /** `empty($v)` on a variable that exists. */
  predicate IsEmpty(v: Value)
  {
    !Truthy(v)
  }

  /** `$a ?: $b` */
  function Elvis(a: Value, b: Value): Value
  {
    if Truthy(a) then a else b
  }

  /** `$m[$k] ?? $default`: a stored null counts as absent. */
  function Coalesce(m: map<string, Value>, k: string, default: Value): Value
  {
    if k in m && m[k] != Null then m[k] else default
  }

  /**
   * `in_array($needle, (array) $haystack, true)`: a lone scalar is cast to a
   * one-element array, null to the empty array, and the comparison is `===`.
   */
  predicate InArrayStrict(needle: Value, haystack: Value)
  {
    match haystack
    case Null => false
    case List(xs) => needle in xs
    case Map(m) => exists k :: k in m && m[k] == needle
    case _ => needle == haystack
  }

  /** A PHP list of strings. */
  function StrList(names: seq<string>): (r: Value)
    ensures r.List? && |r.items| == |names|
    ensures forall i :: 0 <= i < |names| ==> r.items[i] == Str(names[i])
  {
    List(seq(|names|, i requires 0 <= i < |names| => Str(names[i])))
  }

  lemma InStrList(names: seq<string>, v: Value)
    ensures v in StrList(names).items <==> v.Str? && v.s in names
  {
    var xs := StrList(names).items;
    if v in xs {
      var i :| 0 <= i < |xs| && xs[i] == v;
      assert names[i] == v.s;
    }
    if v.Str? && v.s in names {
      var i :| 0 <= i < |names| && names[i] == v.s;
      assert xs[i] == v;
    }
  }

  // ---------------------------------------------------------------------------
  // Decimal digits, integer to string and the (int) cast

  predicate IsDigit(c: char)
  {
    '0' <= c <= '9'
  }

  predicate AllDigits(s: string)
  {
    forall i :: 0 <= i < |s| ==> IsDigit(s[i])
  }

  function DigitChar(d: nat): (c: char)
    requires d < 10
    ensures IsDigit(c) && c as int - '0' as int == d
  {
    ('0' as int + d) as char
  }

  /** The decimal representation of a natural number, without leading zeros. */
  function NatToDecimal(n: nat): (r: string)
    ensures |r| > 0 && AllDigits(r)
    ensures |r| > 1 ==> r[0] != '0'
  {
    if n < 10 then [DigitChar(n)] else NatToDecimal(n / 10) + [DigitChar(n % 10)]
  }

  /** How PHP prints an integer. */
  function IntToDecimal(i: int): (r: string)
    ensures |r| > 0 && (IsDigit(r[0]) || r[0] == '-')
  {
    if i < 0 then "-" + NatToDecimal(-i) else NatToDecimal(i)
  }

  /** The value of a string of decimal digits. */
  function DigitsValue(ds: string): nat
    requires AllDigits(ds)
  {
    if ds == [] then 0
    else DigitsValue(ds[..|ds| - 1]) * 10 + (ds[|ds| - 1] as int - '0' as int)
  }

  /** The longest prefix of `s` made of digits. */
  function LeadingDigits(s: string): (r: string)
    ensures AllDigits(r) && |r| <= |s| && r == s[..|r|]
    ensures |r| < |s| ==> !IsDigit(s[|r|])
  {
    if s != [] && IsDigit(s[0]) then [s[0]] + LeadingDigits(s[1..]) else []
  }

  /** White space in the C locale (isspace): what `(int)` skips before a number and what PCRE `\s` matches. */
  predicate IsCSpace(c: char)
  {
    c == ' ' || c == '\t' || c == '\n' || c == '\r' || c as int == 11 || c as int == 12
  }

  function SkipLeadingSpace(s: string): (r: string)
    ensures |r| <= |s| && r == s[|s| - |r|..]
    ensures r == [] || !IsCSpace(r[0])
  {
    if s != [] && IsCSpace(s[0]) then SkipLeadingSpace(s[1..]) else s
  }

  /**
   * `(int) $s` for a string: optional leading white space, an optional sign and
   * the longest run of digits; 0 when there are no digits.
   */
  function StringToInt(s: string): int
  {
    var t := SkipLeadingSpace(s);
    if t != [] && t[0] == '-' then -(DigitsValue(LeadingDigits(t[1..])) as int)
    else if t != [] && t[0] == '+' then DigitsValue(LeadingDigits(t[1..]))
    else DigitsValue(LeadingDigits(t))
  }

  /** `(int) $v` */
  function IntCast(v: Value): int
  {
    match v
    case Null => 0
    case Bool(b) => if b then 1 else 0
    case Int(i) => i
    case Str(s) => StringToInt(s)
    case List(xs) => if |xs| == 0 then 0 else 1
    case Map(m) => if |m| == 0 then 0 else 1
  }

  /** String conversion, as `.` concatenation performs it (arrays print as "Array"). */
  function ToStr(v: Value): string
  {
    match v
    case Null => ""
    case Bool(b) => if b then "1" else ""
    case Int(i) => IntToDecimal(i)
    case Str(s) => s
    case List(_) => "Array"
    case Map(_) => "Array"
  }

  lemma {:induction false} LeadingDigitsOfDigits(ds: string, rest: string)
    requires AllDigits(ds)
    requires rest == [] || !IsDigit(rest[0])
    ensures LeadingDigits(ds + rest) == ds
  {
    if ds != [] {
      assert (ds + rest)[1..] == ds[1..] + rest;
      LeadingDigitsOfDigits(ds[1..], rest);
    } else {
      assert ds + rest == rest;
    }
  }

  lemma {:induction false} NatToDecimalValue(n: nat)
    ensures DigitsValue(NatToDecimal(n)) == n
  {
    var r := NatToDecimal(n);
    if n >= 10 {
      NatToDecimalValue(n / 10);
      assert r[..|r| - 1] == NatToDecimal(n / 10);
    }
  }

  /** Leading white space is skipped up to the first character that is not white space. */
  lemma {:induction false} SkipSpacePrefix(w: string, x: string)
    requires forall j :: 0 <= j < |w| ==> IsCSpace(w[j])
    requires x == [] || !IsCSpace(x[0])
    ensures SkipLeadingSpace(w + x) == x
    decreases |w|
  {
    if w == [] {
      assert w + x == x;
    } else {
      assert (w + x)[1..] == w[1..] + x;
      SkipSpacePrefix(w[1..], x);
    }
  }

  /**
   * `(int)` of a numeral: white space, an optional sign, digits (leading zeros
   * allowed) and then anything that does not continue the digits.
   */
  lemma CastNumeral(w: string, sign: string, ds: string, rest: string)
    requires forall j :: 0 <= j < |w| ==> IsCSpace(w[j])
    requires sign == "" || sign == "+" || sign == "-"
    requires ds != [] && AllDigits(ds)
    requires rest == [] || !IsDigit(rest[0])
    ensures StringToInt(w + sign + ds + rest) == if sign == "-" then -(DigitsValue(ds) as int) else DigitsValue(ds)
  {
    var x := sign + ds + rest;
    Regroup(w, sign, ds, rest);
    SignedDigits(sign, ds, rest);
    SkipSpacePrefix(w, x);
    CastSkipped(w + x, x, ds);
  }

  // Proof helper with no counterpart in the source: regroups the concatenation for the solver.
  lemma Regroup(w: string, sign: string, ds: string, rest: string)
    ensures w + sign + ds + rest == w + (sign + ds + rest)
  {
  }

  /** A sign followed by digits: where the digits the cast reads start. */
  lemma SignedDigits(sign: string, ds: string, rest: string)
    requires sign == "" || sign == "+" || sign == "-"
    requires ds != [] && AllDigits(ds)
    requires rest == [] || !IsDigit(rest[0])
    ensures var x := sign + ds + rest;
      && x != [] && !IsCSpace(x[0]) && (x[0] == '-' <==> sign == "-")
      && (x[0] == '-' || x[0] == '+' ==> LeadingDigits(x[1..]) == ds)
      && (x[0] != '-' && x[0] != '+' ==> LeadingDigits(x) == ds)
  {
    var y := ds + rest;
    var x := sign + ds + rest;
    assert x == sign + y;
    assert y[0] == ds[0] && IsDigit(y[0]);
    LeadingDigitsOfDigits(ds, rest);
    if sign == "" {
      assert x == y;
    } else {
      assert x[0] == sign[0];
      assert x[1..] == y;
    }
  }

  /** The cast once the leading white space of `s` is gone and the digits are known. */
  lemma CastSkipped(s: string, x: string, ds: string)
    requires SkipLeadingSpace(s) == x && x != [] && AllDigits(ds)
    requires x[0] == '-' || x[0] == '+' ==> LeadingDigits(x[1..]) == ds
    requires x[0] != '-' && x[0] != '+' ==> LeadingDigits(x) == ds
    ensures StringToInt(s) == if x[0] == '-' then -(DigitsValue(ds) as int) else DigitsValue(ds)
  {
  }

  /** A bare digit string casts to its value. */
  lemma CastDigits(ds: string)
    requires ds != [] && AllDigits(ds)
    ensures StringToInt(ds) == DigitsValue(ds)
  {
    assert SkipLeadingSpace(ds) == ds;
    LeadingDigitsOfDigits(ds, []);
    assert ds + [] == ds;
  }

  /** A digit string after '-' casts to the negated value. */
  lemma CastNegativeDigits(ds: string)
    requires ds != [] && AllDigits(ds)
    ensures StringToInt("-" + ds) == -(DigitsValue(ds) as int)
  {
    var n := "-" + ds;
    assert SkipLeadingSpace(n) == n;
    assert n[1..] == ds;
    LeadingDigitsOfDigits(ds, []);
    assert ds + [] == ds;
  }

  /** Reading back what PHP prints for an integer gives the integer: `(int)(string)$i === $i`. */
  lemma DecimalRoundTrip(i: int)
    ensures StringToInt(IntToDecimal(i)) == i
  {
    var r := IntToDecimal(i);
    assert SkipLeadingSpace(r) == r;
    if i < 0 {
      var ds := NatToDecimal(-i);
      assert r[1..] == ds;
      LeadingDigitsOfDigits(ds, []);
      assert ds + [] == ds;
      NatToDecimalValue(-i);
    } else {
      LeadingDigitsOfDigits(r, []);
      assert r + [] == r;
      NatToDecimalValue(i);
    }
  }

  // ---------------------------------------------------------------------------
  // trim() and explode()

  /** The characters `trim()` strips by default: " \t\n\r\0\x0B". */
  predicate IsTrimChar(c: char)
  {
    c == ' ' || c == '\t' || c == '\n' || c == '\r' || c == '\0' || c as int == 11
  }

  /** The number of leading characters of `s` satisfying `pad`. */
  function LeadingPad(s: string, pad: char -> bool): (n: nat)
    ensures n <= |s|
    ensures forall j :: 0 <= j < n ==> pad(s[j])
    ensures n < |s| ==> !pad(s[n])
  {
    if s != [] && pad(s[0]) then 1 + LeadingPad(s[1..], pad) else 0
  }

  /** The number of trailing characters of `s` satisfying `pad`. */
  function TrailingPad(s: string, pad: char -> bool): (n: nat)
    ensures n <= |s|
    ensures forall j :: |s| - n <= j < |s| ==> pad(s[j])
    ensures n < |s| ==> !pad(s[|s| - 1 - n])
  {
    if s != [] && pad(s[|s| - 1]) then 1 + TrailingPad(s[..|s| - 1], pad) else 0
  }

  /** `s` with every leading and trailing character satisfying `pad` removed. */
  function Strip(s: string, pad: char -> bool): (r: string)
    ensures |r| <= |s|
    ensures r == [] <==> forall j :: 0 <= j < |s| ==> pad(s[j])
    ensures r != [] ==> !pad(r[0]) && !pad(r[|r| - 1])
  {
    var t := s[LeadingPad(s, pad)..];
    var r := t[..|t| - TrailingPad(t, pad)];
    assert r != [] ==> r[0] == s[LeadingPad(s, pad)];
    r
  }

  /** Every character of `x` satisfies `pad`. */
  predicate AllPad(x: string, pad: char -> bool)
  {
    forall j :: 0 <= j < |x| ==> pad(x[j])
  }

  lemma AllPadConcat(x: string, y: string, pad: char -> bool)
    requires AllPad(x, pad) && AllPad(y, pad)
    ensures AllPad(x + y, pad)
  {
    forall j | 0 <= j < |x + y|
      ensures pad((x + y)[j])
    {
      if j >= |x| {
        assert (x + y)[j] == y[j - |x|];
      }
    }
  }

  /** LeadingPad is the first position that is not padding. */
  lemma LeadingPadUnique(s: string, pad: char -> bool, k: nat)
    requires k <= |s| && forall j :: 0 <= j < k ==> pad(s[j])
    requires k < |s| ==> !pad(s[k])
    ensures LeadingPad(s, pad) == k
  {
  }

  /**
   * What Strip keeps is the stretch of `s` after the leading padding, and
   * everything it removes, before and after that stretch, is padding.
   */
  lemma StripIsInfix(s: string, pad: char -> bool)
    ensures var a, r := LeadingPad(s, pad), Strip(s, pad);
      && a + |r| <= |s| && (forall i :: 0 <= i < |r| ==> r[i] == s[a + i])
      && (forall j :: 0 <= j < a ==> pad(s[j]))
      && (forall j :: a + |r| <= j < |s| ==> pad(s[j]))
  {
    var a := LeadingPad(s, pad);
    var t := s[a..];
    var k := TrailingPad(t, pad);
    assert Strip(s, pad) == t[..|t| - k];
    forall j | a + |t| - k <= j < |s|
      ensures pad(s[j])
    {
      assert s[j] == t[j - a];
    }
  }

  /** `s` is its leading padding, then what Strip keeps, then its trailing padding. */
  lemma StripSplit(s: string, pad: char -> bool)
    ensures var a, r := LeadingPad(s, pad), Strip(s, pad);
      && a + |r| <= |s| && s == s[..a] + r + s[a + |r|..]
      && AllPad(s[..a], pad) && AllPad(s[a + |r|..], pad)
  {
    var a, r := LeadingPad(s, pad), Strip(s, pad);
    StripPieces(s, pad);
    assert AllPad(s[..a], pad) by {
      forall j | 0 <= j < a
        ensures pad(s[..a][j])
      {
        assert s[..a][j] == s[j];
      }
    }
  }

  lemma StripPieces(s: string, pad: char -> bool)
    ensures var a, r := LeadingPad(s, pad), Strip(s, pad);
      && a + |r| <= |s| && s == s[..a] + r + s[a + |r|..] && AllPad(s[a + |r|..], pad)
  {
    var a, r := LeadingPad(s, pad), Strip(s, pad);
    StripIsInfix(s, pad);
    InfixPieces(s, a, r, pad);
  }

  /** A stretch `r` of `s` at `a`, followed only by padding, splits `s` in three. */
  lemma InfixPieces(s: string, a: nat, r: string, pad: char -> bool)
    requires a + |r| <= |s| && forall i :: 0 <= i < |r| ==> r[i] == s[a + i]
    requires forall j :: a + |r| <= j < |s| ==> pad(s[j])
    ensures s == s[..a] + r + s[a + |r|..] && AllPad(s[a + |r|..], pad)
  {
    assert r == s[a..a + |r|];
    SliceThree(s, a, a + |r|);
    var y := s[a + |r|..];
    forall j | 0 <= j < |y|
      ensures pad(y[j])
    {
      assert y[j] == s[a + |r| + j];
    }
  }

  /** Padding around `t` does not change what Strip keeps of it. */
  lemma StripAbsorbs(s: string, p: string, t: string, z: string, pad: char -> bool)
    requires s == p + t + z && AllPad(p, pad) && AllPad(z, pad)
    ensures Strip(s, pad) == Strip(t, pad)
  {
    var q, m, r := StripParts(t, pad);
    StripFramedTwice(s, p, t, z, q, m, r, pad);
  }

  /** The three parts of `t`: leading padding, what Strip keeps, trailing padding. */
  lemma StripParts(t: string, pad: char -> bool) returns (q: string, m: string, r: string)
    ensures t == q + m + r && AllPad(q, pad) && AllPad(r, pad) && m == Strip(t, pad)
  {
    var b := LeadingPad(t, pad);
    m := Strip(t, pad);
    StripSplit(t, pad);
    q, r := t[..b], t[b + |m|..];
  }

  lemma StripFramedTwice(s: string, p: string, t: string, z: string, q: string, m: string, r: string, pad: char -> bool)
    requires s == p + t + z && t == q + m + r
    requires AllPad(p, pad) && AllPad(q, pad) && AllPad(r, pad) && AllPad(z, pad)
    requires m != [] ==> !pad(m[0]) && !pad(m[|m| - 1])
    ensures Strip(s, pad) == m
  {
    AllPadConcat(p, q, pad);
    AllPadConcat(r, z, pad);
    ConcatRegroup(p, q, m, r, z);
    StripFramed(s, p + q, m, r + z, pad);
  }

  lemma ConcatRegroup(p: string, q: string, m: string, r: string, z: string)
    ensures p + (q + m + r) + z == (p + q) + m + (r + z)
  {
  }

  lemma SliceThree(s: string, i: nat, k: nat)
    requires i <= k <= |s|
    ensures s == s[..i] + s[i..k] + s[k..]
  {
  }

  /**
   * Strip is determined by what it promises: of padding, then a stretch with no
   * padding at either end, then padding, it keeps exactly that stretch.
   */
  lemma StripFramed(s: string, x: string, m: string, y: string, pad: char -> bool)
    requires s == x + m + y && AllPad(x, pad) && AllPad(y, pad)
    requires m != [] ==> !pad(m[0]) && !pad(m[|m| - 1])
    ensures Strip(s, pad) == m
  {
    forall j | 0 <= j < |x|
      ensures s[j] == x[j]
    {
    }
    forall j | |x| + |m| <= j < |s|
      ensures s[j] == y[j - |x| - |m|]
    {
    }
    if m == [] {
      assert forall j :: 0 <= j < |s| ==> pad(s[j]) by {
        forall j | 0 <= j < |s|
          ensures pad(s[j])
        {
          if j >= |x| {
            assert pad(y[j - |x|]);
          }
        }
      }
    } else {
      StripIsInfix(s, pad);
      InfixFramed(s, LeadingPad(s, pad), Strip(s, pad), x, m, y, pad);
    }
  }

  /**
   * A stretch `r` at `a` with only padding around it and no padding at its
   * ends is the stretch `m` framed by padding in `s`.
   */
  lemma InfixFramed(s: string, a: nat, r: string, x: string, m: string, y: string, pad: char -> bool)
    requires s == x + m + y && AllPad(x, pad) && AllPad(y, pad)
    requires m != [] && !pad(m[0]) && !pad(m[|m| - 1])
    requires a + |r| <= |s| && forall i :: 0 <= i < |r| ==> r[i] == s[a + i]
    requires forall j :: 0 <= j < a ==> pad(s[j])
    requires forall j :: a + |r| <= j < |s| ==> pad(s[j])
    requires r != [] ==> !pad(r[0]) && !pad(r[|r| - 1])
    ensures r == m
  {
    assert s[|x|] == m[0];
    assert s[|x| + |m| - 1] == m[|m| - 1];
    assert r != [];
    assert s[a] == r[0];
    assert a == |x|;
    assert r[|r| - 1] == s[a + |r| - 1];
    assert a + |r| == |x| + |m|;
    forall i | 0 <= i < |r|
      ensures r[i] == m[i]
    {
      assert r[i] == s[|x| + i];
    }
  }

  /** A string with no padding at either end is left as it is. */
  lemma StripUnpadded(s: string, pad: char -> bool)
    requires s != [] ==> !pad(s[0]) && !pad(s[|s| - 1])
    ensures Strip(s, pad) == s
  {
    assert LeadingPad(s, pad) == 0;
    assert TrailingPad(s, pad) == 0;
    assert s[0..] == s;
  }

  /** `trim($s)` */
  function Trim(s: string): string
  {
    Strip(s, IsTrimChar)
  }

  /** The position of the first `c` in `s`. */
  function IndexOf(s: string, c: char): (i: nat)
    requires c in s
    ensures i < |s| && s[i] == c && c !in s[..i]
  {
    if s[0] == c then 0 else 1 + IndexOf(s[1..], c)
  }

  /** `explode($sep, $s)`: the pieces of `s` between occurrences of `sep`. */
  function Explode(sep: char, s: string): (parts: seq<string>)
    ensures |parts| >= 1
    decreases |s|
  {
    if sep !in s then [s]
    else
      var i := IndexOf(s, sep);
      [s[..i]] + Explode(sep, s[i + 1..])
  }

  /**
   * The first piece is the text before the first separator (all of `s` when
   * there is none), and there is a second piece exactly when a separator occurs.
   */
  lemma ExplodeFront(sep: char, s: string)
    ensures var h := Explode(sep, s)[0]; sep !in h && h <= s && (|h| == |s| || s[|h|] == sep)
    ensures |Explode(sep, s)| >= 2 <==> sep in s
    ensures sep in s ==> Explode(sep, s)[1] == Explode(sep, s[IndexOf(s, sep) + 1..])[0]
  {
  }

  /** `implode($sep, $parts)` */
  function Implode(sep: char, parts: seq<string>): string
    requires |parts| >= 1
  {
    if |parts| == 1 then parts[0] else parts[0] + [sep] + Implode(sep, parts[1..])
  }

  /** Explode splits at every separator and loses nothing: no piece holds `sep`, and imploding restores `s`. */
  lemma {:induction false} ExplodeImplode(sep: char, s: string)
    ensures Implode(sep, Explode(sep, s)) == s
    ensures forall k :: 0 <= k < |Explode(sep, s)| ==> sep !in Explode(sep, s)[k]
    decreases |s|
  {
    if sep in s {
      var i := IndexOf(s, sep);
      var rest := Explode(sep, s[i + 1..]);
      ExplodeImplode(sep, s[i + 1..]);
      var parts := Explode(sep, s);
      assert parts == [s[..i]] + rest;
      assert parts[1..] == rest;
      assert s == s[..i] + [sep] + s[i + 1..];
      forall k | 0 <= k < |parts| ensures sep !in parts[k] {
        if k > 0 { assert parts[k] == rest[k - 1]; }
      }
    }
  }

  /** A prefix free of the separator becomes the first piece on its own. */
  lemma ExplodeAfterFirst(sep: char, key: string, rest: string)
    requires sep !in key
    ensures Explode(sep, key + [sep] + rest) == [key] + Explode(sep, rest)
  {
    var s := key + [sep] + rest;
    assert s[|key|] == sep;
    var i := IndexOf(s, sep);
    assert s[..|key|] == key;
    assert s[..i] == key;
    assert s[i + 1..] == rest;
  }
}
