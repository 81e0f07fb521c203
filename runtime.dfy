/**
 * The parts of the Python 2 runtime that the switch library leans on, stated
 * once so that every other module uses the same meaning: the exceptions the
 * library can raise, indexing and slicing of sequences with negative indices,
 * `int()` on a byte string, `str()` of an integer, the `%02x` format, and the
 * ASCII character classes of the `string` module.
 *
 * Python's `/` and `%` on integers round toward negative infinity. For the
 * positive divisors the library uses (8, 52) that is exactly Dafny's
 * Euclidean `/` and `%`, so the models write those operators directly.
 */
module Runtime {

  /** The exceptions (and the SNMP "no such instance" reply) the library can end in. */
  datatype Error =
    | IndexError           // a sequence index out of range
    | ValueError           // int() or str.index() given text it cannot use
    | NameError            // a name that is not bound in the executing scope
    | AssertionError       // a failed `assert` statement
    | NotImplementedError  // a property the library declares but does not implement
    | NoSuchInstance       // the SNMP agent holds no value under the requested OID

  datatype Option<T> = None | Some(value: T)

  /** A computation that either returns a value or raises one of the errors above. */
  datatype Result<T> = Success(value: T) | Failure(error: Error) {
    predicate IsFailure() { Failure? }

    function PropagateFailure<U>(): Result<U>
      requires Failure?
    {
      Failure(error)
    }

    function Extract(): T
      requires Success?
    {
      value
    }
  }

  /** A computation run for its effect that either completes or raises. */
  datatype Outcome = Pass | Fail(error: Error)

  // ---------------------------------------------------------------------------
  // Indexing and slicing
  // ---------------------------------------------------------------------------

  /** The position `s[i]` reads in a sequence of length `n`: a negative `i` counts from the end. */
  function Index(n: nat, i: int): (r: Option<nat>)
    ensures r.Some? <==> -(n as int) <= i < n
    ensures r.Some? ==> r.value < n && (r.value == i || r.value == i + n)
  {
    if 0 <= i < n then Some(i)
    else if -(n as int) <= i < 0 then Some(i + n)
    else None
  }

  /** The bound a slice uses for index `i` in a sequence of length `n`. */
  function SliceBound(n: nat, i: int): (k: nat)
    ensures k <= n
    ensures 0 <= i <= n ==> k == i
    ensures -(n as int) <= i < 0 ==> k == i + n
  {
    if i < 0 then (if i + n < 0 then 0 else i + n)
    else if i > n then n
    else i
  }

  /** `s[:j]` */
  function SliceTo<T>(s: seq<T>, j: int): (r: seq<T>)
    ensures 0 <= j <= |s| ==> r == s[..j]
  {
    s[..SliceBound(|s|, j)]
  }

  /** `s[i:]` */
  function SliceFrom<T>(s: seq<T>, i: int): (r: seq<T>)
    ensures 0 <= i <= |s| ==> r == s[i..]
  {
    s[SliceBound(|s|, i)..]
  }

  // ---------------------------------------------------------------------------
  // ASCII character classes (Python 2 `str` is a byte string)
  // ---------------------------------------------------------------------------

  predicate IsAsciiUpper(c: char) { 'A' <= c <= 'Z' }

  predicate IsAsciiLower(c: char) { 'a' <= c <= 'z' }

  /** `c in string.ascii_letters` */
  predicate IsAsciiLetter(c: char) { IsAsciiUpper(c) || IsAsciiLower(c) }

  /** `c in string.digits` */
  predicate IsDigit(c: char) { '0' <= c <= '9' }

  /** `c in string.ascii_letters + string.digits` */
  predicate IsAsciiAlnum(c: char) { IsAsciiLetter(c) || IsDigit(c) }

  /** `all(map(lambda letter: letter in (string.ascii_letters + string.digits), value))` */
  predicate AllAsciiAlnum(s: string) { forall i | 0 <= i < |s| :: IsAsciiAlnum(s[i]) }

  /** The characters `\s` and `str.strip()` treat as whitespace: space, \t, \n, \r, \v, \f. */
  predicate IsSpace(c: char) { c == ' ' || c == '\t' || c == '\n' || c == '\r' || c == '\U{B}' || c == '\U{C}' }

  predicate AllSpace(s: string) { forall i | 0 <= i < |s| :: IsSpace(s[i]) }

  /** `c.upper()` on a one-byte string: only the ASCII lower-case letters change. */
  function Upper(c: char): (u: char)
    ensures IsAsciiLower(c) ==> IsAsciiUpper(u) && u as int == c as int - 32
    ensures !IsAsciiLower(c) ==> u == c
  {
    if IsAsciiLower(c) then (c as int - 32) as char else c
  }

  /**
   * `string.ascii_uppercase.index(c.upper())`: the 0-based position of the
   * letter in the alphabet, either case; any other character raises ValueError.
   */
  function LetterIndex(c: char): (r: Result<nat>)
    ensures r.Success? <==> IsAsciiLetter(c)
    ensures r.Success? ==> r.value < 26
    ensures IsAsciiUpper(c) ==> r == Success(c as int - 'A' as int)
    ensures IsAsciiLower(c) ==> r == Success(c as int - 'a' as int)
  {
    var u := Upper(c);
    if IsAsciiUpper(u) then Success(u as int - 'A' as int) else Failure(ValueError)
  }

  // ---------------------------------------------------------------------------
  // Decimal text: `str(n)` and `int(s)`
  // ---------------------------------------------------------------------------

  function DigitChar(d: nat): (c: char)
    requires d < 10
    ensures IsDigit(c) && c as int - '0' as int == d
  {
    ('0' as int + d) as char
  }

  function DigitValue(c: char): (d: nat)
    requires IsDigit(c)
    ensures d < 10 && DigitChar(d) == c
  {
    c as int - '0' as int
  }

  /** The decimal digits of a natural number, most significant first, without leading zeros. */
  function NatText(n: nat): (s: string)
    ensures |s| >= 1
    ensures forall i | 0 <= i < |s| :: IsDigit(s[i])
    decreases n
  {
    if n < 10 then [DigitChar(n)] else NatText(n / 10) + [DigitChar(n % 10)]
  }

  /** `str(n)` (and `unicode(n)`) of an integer. */
  function IntText(n: int): (s: string)
  {
    if n < 0 then "-" + NatText(-n) else NatText(n)
  }

  predicate AllDigits(s: string) { forall i | 0 <= i < |s| :: IsDigit(s[i]) }

  /** The value of a string of decimal digits, most significant first. */
  function DigitsValue(s: string): (n: nat)
    requires AllDigits(s)
  {
    if s == [] then 0 else DigitsValue(s[..|s| - 1]) * 10 + DigitValue(s[|s| - 1])
  }

  /** Leading whitespace removed. */
  function StripLeft(s: string): string
  {
    if s != [] && IsSpace(s[0]) then StripLeft(s[1..]) else s
  }

  /** `lstrip()` leaves a suffix that does not start with white space, and what it drops is white space. */
  lemma {:induction false} StripLeftMeaning(s: string)
    ensures var r := StripLeft(s);
              && |r| <= |s| && r == s[|s| - |r|..]
              && (r != [] ==> !IsSpace(r[0]))
              && AllSpace(s[..|s| - |r|])
  {
    if s != [] && IsSpace(s[0]) {
      StripLeftMeaning(s[1..]);
      var r := StripLeft(s[1..]);
      assert s[..|s| - |r|] == [s[0]] + s[1..][..|s[1..]| - |r|];
    }
  }

  /** Trailing whitespace removed. */
  function StripRight(s: string): (r: string)
    ensures |r| <= |s| && r == s[..|r|]
    ensures r != [] ==> !IsSpace(r[|r| - 1])
    ensures AllSpace(s[|r|..])
  {
    if s != [] && IsSpace(s[|s| - 1]) then
      var r := StripRight(s[..|s| - 1]);
      assert s[|r|..] == s[..|s| - 1][|r|..] + [s[|s| - 1]];
      r
    else s
  }

  /** `s.strip()` */
  function Strip(s: string): string
  {
    StripRight(StripLeft(s))
  }

  /**
   * The signed-decimal grammar `int()` accepts once the surrounding whitespace
   * is gone. As in CPython 2's `PyOS_strtol`, white space may also stand
   * between the sign and the digits: the unsigned conversion skips it again.
   */
  function ParseSignedDigits(t: string): (r: Result<int>)
    ensures r.Success? ==> t != []
  {
    if t != [] && (t[0] == '-' || t[0] == '+') then
      var ds := StripLeft(t[1..]);
      if ds != [] && AllDigits(ds) then
        Success(if t[0] == '-' then -(DigitsValue(ds) as int) else DigitsValue(ds))
      else Failure(ValueError)
    else if t != [] && AllDigits(t) then Success(DigitsValue(t))
    else Failure(ValueError)
  }

  /**
   * `int(s)` for a Python 2 byte string in base 10: surrounding whitespace,
   * an optional sign and at least one decimal digit; anything else raises ValueError.
   */
  function ParseInt(s: string): Result<int>
  {
    ParseSignedDigits(Strip(s))
  }

  lemma {:induction false} DigitsValueOfNatText(n: nat)
    ensures DigitsValue(NatText(n)) == n
    decreases n
  {
    if n >= 10 {
      var s := NatText(n);
      DigitsValueOfNatText(n / 10);
      assert s[..|s| - 1] == NatText(n / 10);
    }
  }

  /** A text that neither starts nor ends with white space is its own `strip()`. */
  lemma StripUnpadded(t: string)
    requires t != [] && !IsSpace(t[0]) && !IsSpace(t[|t| - 1])
    ensures Strip(t) == t
  {
    assert StripLeft(t) == t;
  }

  /** `int(str(n)) == n`: the decimal text of an integer parses back to it. */
  lemma IntTextRoundTrip(n: int)
    ensures ParseInt(IntText(n)) == Success(n)
  {
    if n < 0 {
      var m: nat := -n;
      var t := "-" + NatText(m);
      assert IntText(n) == t;
      assert IsDigit(t[|t| - 1]);
      StripUnpadded(t);
      ParseIntUnpadded(t);
      NegativeTextParses(m);
    } else {
      var t := NatText(n);
      StripUnpadded(t);
      ParseIntUnpadded(t);
      NatTextParses(n);
    }
  }

  /** `int()` of a text with no surrounding white space is the signed-decimal grammar alone. */
  lemma ParseIntUnpadded(t: string)
    requires Strip(t) == t
    ensures ParseInt(t) == ParseSignedDigits(t)
  {
  }

  /** The digits of a natural number parse back to it. */
  lemma NatTextParses(m: nat)
    ensures ParseSignedDigits(NatText(m)) == Success(m)
  {
    DigitsValueOfNatText(m);
  }

  /** A minus sign before the digits of a natural number parses back to its negation. */
  lemma NegativeTextParses(m: nat)
    ensures ParseSignedDigits("-" + NatText(m)) == Success(-(m as int))
  {
    var t := "-" + NatText(m);
    DigitsValueOfNatText(m);
    assert t[1..] == NatText(m);
    StripLeftUnpadded(NatText(m));
  }

  /** A text that does not start with white space is its own `lstrip()`. */
  lemma StripLeftUnpadded(t: string)
    requires t == [] || !IsSpace(t[0])
    ensures StripLeft(t) == t
  {
  }

  /** One leading white-space character is dropped by `lstrip()`. */
  lemma StripLeftSpace(c: char, t: string)
    requires IsSpace(c)
    ensures StripLeft([c] + t) == StripLeft(t)
  {
    assert ([c] + t)[1..] == t;
  }

  /** `lstrip()` removes exactly a run of leading white space. */
  lemma {:induction false} StripLeftPadding(pad: string, s: string)
    requires AllSpace(pad) && (s == [] || !IsSpace(s[0]))
    ensures StripLeft(pad + s) == s
    decreases |pad|
  {
    if pad == [] {
      assert pad + s == s;
      StripLeftUnpadded(s);
    } else {
      assert pad + s == [pad[0]] + (pad[1..] + s);
      StripLeftSpace(pad[0], pad[1..] + s);
      StripLeftPadding(pad[1..], s);
    }
  }

  /** White space between the sign and the digits is skipped, as `PyOS_strtoul` skips it after `PyOS_strtol` took the sign. */
  lemma SpaceAfterSignParses(sign: char, pad: string, m: nat)
    requires sign == '-' || sign == '+'
    requires AllSpace(pad)
    ensures ParseSignedDigits([sign] + pad + NatText(m)) == Success(if sign == '-' then -(m as int) else m)
  {
    var t := [sign] + pad + NatText(m);
    assert t[1..] == pad + NatText(m);
    StripLeftPadding(pad, NatText(m));
    DigitsValueOfNatText(m);
  }

  /** `int("- 5")` is -5, while a bare sign and a trailing `L` raise ValueError. */
  lemma SignedTextExamples()
    ensures ParseInt("- 5") == Success(-5)
    ensures ParseInt("- ") == Failure(ValueError)
    ensures ParseInt("5L") == Failure(ValueError)
  {
    SpaceAfterSignParses('-', " ", 5);
    assert ['-'] + " " + NatText(5) == "- 5";
    StripUnpadded("- 5");
    ParseIntUnpadded("- 5");
    StripUnpadded("5L");
    ParseIntUnpadded("5L");
    assert !AllDigits("5L") by { assert !IsDigit("5L"[1]); }
  }

  // ---------------------------------------------------------------------------
  // Hexadecimal text: `"%02x" % n`
  // ---------------------------------------------------------------------------

  /** A lower-case hexadecimal digit. */
  predicate IsHexDigit(c: char) { IsDigit(c) || 'a' <= c <= 'f' }

  function HexDigit(d: nat): (c: char)
    requires d < 16
    ensures IsHexDigit(c)
  {
    if d < 10 then DigitChar(d) else ('a' as int + d - 10) as char
  }

  function HexDigitValue(c: char): (d: nat)
    requires IsHexDigit(c)
    ensures d < 16 && HexDigit(d) == c
  {
    if IsDigit(c) then DigitValue(c) else c as int - 'a' as int + 10
  }

  /** The lower-case hexadecimal digits of a natural number, most significant first. */
  function HexText(n: nat): (s: string)
    ensures |s| >= 1
    ensures forall i | 0 <= i < |s| :: IsHexDigit(s[i])
    decreases n
  {
    if n < 16 then [HexDigit(n)] else HexText(n / 16) + [HexDigit(n % 16)]
  }

  /**
   * `"%02x" % n`: the lower-case hexadecimal digits of `n`, padded with a
   * leading zero to at least two. An octet always gives exactly two digits,
   * the high nibble first.
   */
  function Hex02(n: nat): (s: string)
    ensures |s| >= 2
    ensures forall i | 0 <= i < |s| :: IsHexDigit(s[i])
    ensures n < 256 ==> s == [HexDigit(n / 16), HexDigit(n % 16)]
  {
    if n < 16 then ['0'] + HexText(n)
    else
      assert n < 256 ==> HexText(n) == HexText(n / 16) + [HexDigit(n % 16)] == [HexDigit(n / 16), HexDigit(n % 16)];
      HexText(n)
  }

  /** The octet two hexadecimal digits stand for. */
  function HexPairValue(hi: char, lo: char): (n: nat)
    requires IsHexDigit(hi) && IsHexDigit(lo)
    ensures n < 256
  {
    HexDigitValue(hi) * 16 + HexDigitValue(lo)
  }

  lemma HexPairRoundTrip(n: nat)
    requires n < 256
    ensures HexPairValue(Hex02(n)[0], Hex02(n)[1]) == n
  {
    var hi, lo := n / 16, n % 16;
    assert HexDigitValue(HexDigit(hi)) == hi;
    assert HexDigitValue(HexDigit(lo)) == lo;
  }
  // ---------------------------------------------------------------------------
  // Splitting and joining on a separator character
  // ---------------------------------------------------------------------------

  /**
   * `sep.join(parts)`; also the string `reduce(lambda a, b: a + sep + b, parts)`
   * builds for a non-empty list (string concatenation is associative).
   */
  function Join(parts: seq<string>, sep: char): string
    requires |parts| >= 1
  {
    if |parts| == 1 then parts[0] else parts[0] + [sep] + Join(parts[1..], sep)
  }

  /** `s.split(sep)`: the pieces between separators, so one more piece than separators. */
  function Split(s: string, sep: char): (parts: seq<string>)
    ensures |parts| >= 1
    ensures forall k | 0 <= k < |parts| :: sep !in parts[k]
  {
    if s == [] then [[]]
    else
      var rest := Split(s[1..], sep);
      if s[0] == sep then [[]] + rest
      else
        assert forall k | 1 <= k < |rest| :: sep !in rest[k];
        [[s[0]] + rest[0]] + rest[1..]
  }

  /** A piece without separators splits to itself; followed by a separator, it is the first piece. */
  lemma {:induction false} SplitPiece(piece: string, sep: char, rest: string)
    requires sep !in piece
    ensures Split(piece, sep) == [piece]
    ensures Split(piece + [sep] + rest, sep) == [piece] + Split(rest, sep)
    decreases |piece|
  {
    if piece != [] {
      SplitPiece(piece[1..], sep, rest);
      assert (piece + [sep] + rest)[1..] == piece[1..] + [sep] + rest;
      assert [piece[0]] + piece[1..] == piece;
    } else {
      assert piece + [sep] + rest == [sep] + rest;
      assert ([sep] + rest)[1..] == rest;
    }
  }

  /** Splitting the joined pieces gives them back when none contains the separator. */
  lemma {:induction false} SplitJoin(parts: seq<string>, sep: char)
    requires |parts| >= 1
    requires forall k | 0 <= k < |parts| :: sep !in parts[k]
    ensures Split(Join(parts, sep), sep) == parts
  {
    if |parts| == 1 {
      SplitPiece(parts[0], sep, []);
    } else {
      SplitJoin(parts[1..], sep);
      SplitPiece(parts[0], sep, Join(parts[1..], sep));
    }
  }

  /** Joining the pieces of a split with the same separator gives the string back. */
  lemma {:induction false} JoinSplit(s: string, sep: char)
    ensures Join(Split(s, sep), sep) == s
  {
    if s != [] {
      var rest := Split(s[1..], sep);
      JoinSplit(s[1..], sep);
      if s[0] == sep {
        assert Join([[]] + rest, sep) == [sep] + Join(rest, sep);
      } else if |rest| == 1 {
        assert Join([[s[0]] + rest[0]], sep) == [s[0]] + rest[0];
      } else {
        assert rest == [rest[0]] + rest[1..];
        assert Join(rest, sep) == rest[0] + [sep] + Join(rest[1..], sep);
        assert Join([[s[0]] + rest[0]] + rest[1..], sep) == [s[0]] + rest[0] + [sep] + Join(rest[1..], sep);
      }
    }
  }
}
