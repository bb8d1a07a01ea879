/** The few pieces of Go's `strings`, `strconv` and `fmt` that the decoder and
    the driver rely on, over Go's byte strings.

    A Go string is a sequence of bytes. The model writes it as a Dafny `string`
    in which every character stands for one byte (byte b is the character with
    code b), so that `len` is `|s|` and comparisons are byte comparisons. Where
    Go decodes UTF-8 (the white space `strings.TrimSpace` removes), a rune is
    recognised by its encoding. */
module GoText {
  import opened Wrappers

  type Byte = b: int | 0 <= b < 0x100

  const Int64Min: int := -0x8000_0000_0000_0000
  const Int64Max: int := 0x7FFF_FFFF_FFFF_FFFF

  /** Go's `string(bytes)`. */
  function BytesToString(bs: seq<Byte>): (s: string)
    ensures |s| == |bs|
  {
    seq(|bs|, i requires 0 <= i < |bs| => bs[i] as char)
  }

  predicate IsByteString(s: string)
  {
    forall i :: 0 <= i < |s| ==> s[i] as int < 0x100
  }

  /** Go's `[]byte(s)`; it undoes `BytesToString`. */
  function StringToBytes(s: string): (bs: seq<Byte>)
    requires IsByteString(s)
    ensures |bs| == |s|
    ensures BytesToString(bs) == s
  {
    seq(|s|, i requires 0 <= i < |s| => s[i] as int as Byte)
  }

  // ---------------------------------------------------------------- spaces

  /** The single-byte white space of `strings.TrimSpace`: tab, line feed,
      vertical tab, form feed, carriage return and space. */
  predicate IsSpace(c: char)
  {
    c == ' ' || '\t' <= c <= '\r'
  }

  /** The UTF-8 encodings of the other runes `unicode.IsSpace` accepts: U+0085
      and U+00A0 in two bytes (`IsWideSpace2`); U+1680, U+2000 to U+200A,
      U+2028, U+2029, U+202F, U+205F and U+3000 in three (`IsWideSpace3`). */
  predicate IsWideSpace2(b0: char, b1: char)
  {
    b0 == 0xC2 as char && (b1 == 0x85 as char || b1 == 0xA0 as char)
  }

  predicate IsWideSpace3(b0: char, b1: char, b2: char)
  {
    || (b0 == 0xE1 as char && b1 == 0x9A as char && b2 == 0x80 as char)
    || (b0 == 0xE2 as char && b1 == 0x80 as char &&
        (0x80 <= b2 as int <= 0x8A || b2 as int == 0xA8 || b2 as int == 0xA9 || b2 as int == 0xAF))
    || (b0 == 0xE2 as char && b1 == 0x81 as char && b2 == 0x9F as char)
    || (b0 == 0xE3 as char && b1 == 0x80 as char && b2 == 0x80 as char)
  }

  /** The length of the white-space rune that starts at byte i of `s`, 0 when
      none does. `TrimSpace` decodes one rune at a time from the front, and a
      valid encoding decodes to its rune, so the rune is a space exactly when
      one of these byte sequences starts there. */
  function SpaceAt(s: string, i: nat): (n: nat)
    requires i <= |s|
    ensures i + n <= |s| && n <= 3
  {
    if i + 1 <= |s| && IsSpace(s[i]) then 1
    else if i + 2 <= |s| && IsWideSpace2(s[i], s[i + 1]) then 2
    else if i + 3 <= |s| && IsWideSpace3(s[i], s[i + 1], s[i + 2]) then 3
    else 0
  }

  /** The length of the white-space rune that ends just before byte j of `s`,
      0 when none does. Decoding the last rune scans back to the nearest lead
      byte; the bytes after the lead byte of a space encoding are continuation
      bytes, so the rune is a space exactly when one of these byte sequences
      ends there. */
  function SpaceBefore(s: string, j: nat): (n: nat)
    requires j <= |s|
    ensures n <= j && n <= 3
  {
    if j >= 1 && IsSpace(s[j - 1]) then 1
    else if j >= 2 && IsWideSpace2(s[j - 2], s[j - 1]) then 2
    else if j >= 3 && IsWideSpace3(s[j - 3], s[j - 2], s[j - 1]) then 3
    else 0
  }

  /** The white-space rune `s` starts with, and the one it ends with. */
  function SpaceAtStart(s: string): nat
  {
    SpaceAt(s, 0)
  }

  function SpaceAtEnd(s: string): nat
  {
    SpaceBefore(s, |s|)
  }

  /** `w` is white-space runes and nothing else. */
  predicate IsBlank(w: string)
    decreases |w|
  {
    w == [] || (SpaceAtStart(w) > 0 && IsBlank(w[SpaceAtStart(w)..]))
  }

  /** Where the white-space runes from byte i on end. */
  function LeftEnd(s: string, i: nat): (e: nat)
    requires i <= |s|
    ensures i <= e <= |s|
    decreases |s| - i
  {
    if SpaceAt(s, i) == 0 then i else LeftEnd(s, i + SpaceAt(s, i))
  }

  /** Where the white-space runes before byte j begin. */
  function RightEnd(s: string, j: nat): (e: nat)
    requires j <= |s|
    ensures e <= j
    decreases j
  {
    if SpaceBefore(s, j) == 0 then j else RightEnd(s, j - SpaceBefore(s, j))
  }

  function TrimLeft(s: string): string
  {
    s[LeftEnd(s, 0)..]
  }

  function TrimRight(s: string): string
  {
    s[..RightEnd(s, |s|)]
  }

  /** `strings.TrimSpace`: the longest middle part of `s` that neither starts nor
      ends with a white-space rune (see `TrimSpaceSpec`). */
  function TrimSpace(s: string): string
  {
    TrimRight(TrimLeft(s))
  }

  /** The rune at byte i of `s` is the one the rest of `s` from i starts with. */
  lemma SpaceAtDrop(s: string, i: nat)
    requires i <= |s|
    ensures SpaceAt(s, i) == SpaceAtStart(s[i..])
  {
    var t := s[i..];
    if i + 3 <= |s| {
      assert t[0] == s[i] && t[1] == s[i + 1] && t[2] == s[i + 2];
    } else if i + 2 <= |s| {
      assert t[0] == s[i] && t[1] == s[i + 1];
    } else if i + 1 <= |s| {
      assert t[0] == s[i];
    }
  }

  /** The rune before byte j of `s` is the one the first j bytes end with. */
  lemma SpaceBeforeTake(s: string, j: nat)
    requires j <= |s|
    ensures SpaceBefore(s, j) == SpaceAtEnd(s[..j])
  {
    var t := s[..j];
    if j >= 3 {
      assert t[j - 1] == s[j - 1] && t[j - 2] == s[j - 2] && t[j - 3] == s[j - 3];
    } else if j >= 2 {
      assert t[j - 1] == s[j - 1] && t[j - 2] == s[j - 2];
    } else if j >= 1 {
      assert t[j - 1] == s[j - 1];
    }
  }

  /** A white-space rune at the front of a prefix of `s` is the one `s` starts
      with. */
  lemma SpaceAtStartPrefix(s: string, p: string)
    requires |p| <= |s| && p == s[..|p|]
    ensures SpaceAtStart(p) > 0 ==> SpaceAtStart(s) == SpaceAtStart(p)
  {
    if |p| >= 3 {
      assert p[0] == s[0] && p[1] == s[1] && p[2] == s[2];
    } else if |p| >= 2 {
      assert p[0] == s[0] && p[1] == s[1];
    } else if |p| >= 1 {
      assert p[0] == s[0];
    }
  }

  /** A white-space rune at the end of a suffix of `s` is the one `s` ends with. */
  lemma SpaceAtEndSuffix(s: string, p: string)
    requires |p| <= |s| && p == s[|s| - |p|..]
    ensures SpaceAtEnd(p) > 0 ==> SpaceAtEnd(s) == SpaceAtEnd(p)
  {
    var k := |p|;
    var d := |s| - k;
    if k >= 3 {
      assert p[k - 1] == s[d + k - 1] && p[k - 2] == s[d + k - 2] && p[k - 3] == s[d + k - 3];
    } else if k >= 2 {
      assert p[k - 1] == s[d + k - 1] && p[k - 2] == s[d + k - 2];
    } else if k >= 1 {
      assert p[k - 1] == s[d + k - 1];
    }
  }

  /** A white-space rune read from the back reads the same from the front. */
  lemma SpaceBeforeIsBlank(s: string, j: nat)
    requires j <= |s| && SpaceBefore(s, j) > 0
    ensures IsBlank(s[j - SpaceBefore(s, j)..j])
  {
    var n := SpaceBefore(s, j);
    var u := s[j - n..j];
    if n == 1 {
      assert u[0] == s[j - 1];
    } else if n == 2 {
      assert u[0] == s[j - 2] && u[1] == s[j - 1];
    } else {
      assert u[0] == s[j - 3] && u[1] == s[j - 2] && u[2] == s[j - 1];
    }
    assert SpaceAtStart(u) == |u|;
    assert u[|u|..] == [];
  }

  /** A white-space rune read from the front reads the same from the back. */
  lemma SpaceAtStartWhole(u: string)
    requires u != [] && SpaceAtStart(u) == |u|
    ensures SpaceAtEnd(u) == |u|
  {
  }

  lemma {:induction false} BlankAppend(x: string, y: string)
    requires IsBlank(x) && IsBlank(y)
    ensures IsBlank(x + y)
    decreases |x|
  {
    if x == [] {
      assert x + y == y;
    } else {
      var n := SpaceAtStart(x);
      SpaceAtStartPrefix(x + y, x);
      assert (x + y)[n..] == x[n..] + y;
      BlankAppend(x[n..], y);
    }
  }

  /** White-space runes, read from the back, end in a white-space rune. */
  lemma {:induction false} BlankEndsInSpace(w: string)
    requires w != [] && IsBlank(w)
    ensures SpaceAtEnd(w) > 0
    decreases |w|
  {
    var n := SpaceAtStart(w);
    var rest := w[n..];
    if rest == [] {
      assert w[..n] == w;
      SpaceAtStartWhole(w);
    } else {
      BlankEndsInSpace(rest);
      SpaceAtEndSuffix(w, rest);
    }
  }

  /** No white-space rune starts where the leading ones end. */
  lemma {:induction false} LeftEndNoSpace(s: string, i: nat)
    requires i <= |s|
    ensures SpaceAt(s, LeftEnd(s, i)) == 0
    decreases |s| - i
  {
    if SpaceAt(s, i) > 0 {
      LeftEndNoSpace(s, i + SpaceAt(s, i));
    }
  }

  /** The bytes from i to where the leading white-space runes end are
      white-space runes. */
  lemma {:induction false} LeftEndBlank(s: string, i: nat)
    requires i <= |s|
    ensures IsBlank(s[i..LeftEnd(s, i)])
    decreases |s| - i
  {
    var n := SpaceAt(s, i);
    var e := LeftEnd(s, i);
    if n == 0 {
      assert s[i..e] == [];
    } else {
      LeftEndBlank(s, i + n);
      var w := s[i..e];
      SpaceAtDrop(s, i);
      SpaceAtStartPrefix(s[i..], w);
      assert w[n..] == s[i + n..e];
    }
  }

  /** No white-space rune ends where the trailing ones begin. */
  lemma {:induction false} RightEndNoSpace(s: string, j: nat)
    requires j <= |s|
    ensures SpaceBefore(s, RightEnd(s, j)) == 0
    decreases j
  {
    if SpaceBefore(s, j) > 0 {
      RightEndNoSpace(s, j - SpaceBefore(s, j));
    }
  }

  /** The bytes from where the trailing white-space runes before j begin, up to
      j, are white-space runes. */
  lemma {:induction false} RightEndBlank(s: string, j: nat)
    requires j <= |s|
    ensures IsBlank(s[RightEnd(s, j)..j])
    decreases j
  {
    var n := SpaceBefore(s, j);
    var e := RightEnd(s, j);
    if n == 0 {
      assert s[e..j] == [];
    } else {
      var m := j - n;
      assert e == RightEnd(s, m);
      RightEndBlank(s, m);
      SpaceBeforeIsBlank(s, j);
      BlankJoin(s, e, m, j);
    }
  }

  /** Two adjacent runs of white-space runes make one. */
  lemma BlankJoin(s: string, e: nat, m: nat, j: nat)
    requires e <= m <= j <= |s|
    requires IsBlank(s[e..m]) && IsBlank(s[m..j])
    ensures IsBlank(s[e..j])
  {
    BlankAppend(s[e..m], s[m..j]);
    assert s[e..j] == s[e..m] + s[m..j];
  }

  /** `TrimLeft` drops exactly the leading white-space runes. */
  lemma TrimLeftSpec(s: string)
    ensures |TrimLeft(s)| <= |s| && TrimLeft(s) == s[|s| - |TrimLeft(s)|..]
    ensures SpaceAtStart(TrimLeft(s)) == 0
    ensures IsBlank(s[..|s| - |TrimLeft(s)|])
  {
    var e := LeftEnd(s, 0);
    LeftEndNoSpace(s, 0);
    SpaceAtDrop(s, e);
    LeftEndBlank(s, 0);
    assert s[0..e] == s[..e];
  }

  /** `TrimRight` drops exactly the trailing white-space runes. */
  lemma TrimRightSpec(s: string)
    ensures |TrimRight(s)| <= |s| && TrimRight(s) == s[..|TrimRight(s)|]
    ensures SpaceAtEnd(TrimRight(s)) == 0
    ensures IsBlank(s[|TrimRight(s)|..])
  {
    var e := RightEnd(s, |s|);
    RightEndNoSpace(s, |s|);
    SpaceBeforeTake(s, e);
    RightEndBlank(s, |s|);
    assert s[e..|s|] == s[e..];
  }

  /** `TrimSpace(s)` is the part of `s` that starts at its first rune that is not
      white space and ends at its last one: `s` is white-space runes followed by
      `TrimLeft(s)`, which is `TrimSpace(s)` followed by white-space runes, and
      what is kept neither starts nor ends with a white-space rune. */
  lemma TrimSpaceSpec(s: string)
    ensures |TrimLeft(s)| <= |s| && TrimLeft(s) == s[|s| - |TrimLeft(s)|..]
    ensures IsBlank(s[..|s| - |TrimLeft(s)|])
    ensures |TrimSpace(s)| <= |TrimLeft(s)| && TrimSpace(s) == TrimLeft(s)[..|TrimSpace(s)|]
    ensures IsBlank(TrimLeft(s)[|TrimSpace(s)|..])
    ensures SpaceAtStart(TrimSpace(s)) == 0 && SpaceAtEnd(TrimSpace(s)) == 0
  {
    var l := TrimLeft(s);
    var r := TrimRight(l);
    TrimLeftSpec(s);
    TrimRightSpec(l);
    assert TrimSpace(s) == r;
    SpaceAtStartPrefix(l, r);
  }

  lemma TrimSpaceUntouched(s: string)
    requires SpaceAtStart(s) == 0 && SpaceAtEnd(s) == 0
    ensures TrimSpace(s) == s
  {
    assert TrimLeft(s) == s;
  }

  function Spaces(k: nat): (s: string)
    ensures |s| == k && forall i :: 0 <= i < k ==> s[i] == ' '
  {
    seq(k, _ => ' ')
  }

  /** In a field padded with spaces, the white-space runes from byte i on run
      to the end. */
  lemma {:induction false} LeftEndSpaces(k: nat, i: nat)
    requires i <= k
    ensures LeftEnd(Spaces(k), i) == k
    decreases k - i
  {
    if i < k {
      LeftEndSpaces(k, i + 1);
    }
  }

  /** The trailing spaces of a padded field go back to the end of its text. */
  lemma {:induction false} RightEndPadded(s: string, k: nat, j: nat)
    requires SpaceAtEnd(s) == 0 && j <= k
    ensures RightEnd(s + Spaces(k), |s| + j) == |s|
    decreases j
  {
    var t := s + Spaces(k);
    if j > 0 {
      assert t[|s| + j - 1] == ' ';
      RightEndPadded(s, k, j - 1);
    } else {
      assert t[..|s|] == s;
      SpaceBeforeTake(t, |s|);
    }
  }

  /** A field padded on the right with spaces trims back to its text. */
  lemma TrimSpacePadded(s: string, k: nat)
    requires SpaceAtStart(s) == 0 && SpaceAtEnd(s) == 0
    ensures TrimSpace(s + Spaces(k)) == s
  {
    var t := s + Spaces(k);
    if s == [] {
      assert t == Spaces(k);
      LeftEndSpaces(k, 0);
    } else {
      assert t[0] == s[0];
      if |t| >= 2 {
        assert t[1] == if |s| >= 2 then s[1] else ' ';
      }
      if |t| >= 3 {
        assert t[2] == if |s| >= 3 then s[2] else ' ';
      }
      assert TrimLeft(t) == t;
      RightEndPadded(s, k, k);
      assert t[..|s|] == s;
    }
  }

  /** When `s` does not end in a white-space rune, trimming keeps its last byte
      last. */
  lemma TrimSpaceKeepsLast(s: string)
    requires s != [] && SpaceAtEnd(s) == 0
    ensures TrimSpace(s) != [] && TrimSpace(s)[|TrimSpace(s)| - 1] == s[|s| - 1]
  {
    TrimLeftSpec(s);
    var l := TrimLeft(s);
    var a := |s| - |l|;
    if l == [] {
      assert s[..a] == s;
      BlankEndsInSpace(s);
    }
    SpaceAtEndSuffix(s, l);
    assert TrimRight(l) == l;
  }

  /** A trailing no-break space (U+00A0, bytes C2 A0) is white space and is
      trimmed, so a field "42" followed by it and a space reads as 42; the
      byte A0 on its own is not a rune and stays. */
  lemma TrimSpaceNoBreakSpace()
    ensures TrimSpace(['A', 'B', 0xC2 as char, 0xA0 as char]) == "AB"
    ensures Atoi(TrimSpace(['4', '2', 0xC2 as char, 0xA0 as char, ' '])) == Ok(42)
    ensures TrimSpace(['A', 'B', 0xA0 as char]) == ['A', 'B', 0xA0 as char]
  {
    var s := ['A', 'B', 0xC2 as char, 0xA0 as char];
    assert SpaceBefore(s, 4) == 2;
    assert SpaceBefore(s, 2) == 0;
    assert RightEnd(s, 4) == 2;
    var n := ['4', '2', 0xC2 as char, 0xA0 as char, ' '];
    assert SpaceBefore(n, 5) == 1 && SpaceBefore(n, 4) == 2 && SpaceBefore(n, 2) == 0;
    assert RightEnd(n, 5) == 2;
    assert TrimSpace(n) == "42";
    assert DigitsNumber("42") == Some(42);
    var t := ['A', 'B', 0xA0 as char];
    assert SpaceBefore(t, 3) == 0;
  }

  // ---------------------------------------------------------------- decimal digits

  predicate IsDigit(c: char)
  {
    '0' <= c <= '9'
  }

  predicate AllDigits(s: string)
  {
    forall i :: 0 <= i < |s| ==> IsDigit(s[i])
  }

  function DigitValue(c: char): nat
    requires IsDigit(c)
  {
    c as int - '0' as int
  }

  /** The value of a string of decimal digits, most significant first. */
  function DigitsValue(s: string): nat
    requires AllDigits(s)
  {
    if s == [] then 0 else DigitsValue(s[..|s| - 1]) * 10 + DigitValue(s[|s| - 1])
  }

  datatype NumError = SyntaxError | RangeError

  /** The digit loop of `strconv.Atoi`: the value of a string of decimal
      digits, or nothing when some byte is not a digit. */
  function DigitsNumber(s: string): (r: Option<nat>)
  {
    if s == [] then Some(0)
    else match DigitsNumber(s[..|s| - 1])
      case None => None
      case Some(v) => if IsDigit(s[|s| - 1]) then Some(v * 10 + DigitValue(s[|s| - 1])) else None
  }

  lemma {:induction false} DigitsNumberSpec(s: string)
    ensures DigitsNumber(s).Some? <==> AllDigits(s)
    ensures DigitsNumber(s).Some? ==> DigitsNumber(s).value == DigitsValue(s)
  {
    if s != [] {
      var init := s[..|s| - 1];
      DigitsNumberSpec(init);
      if AllDigits(s) {
        assert AllDigits(init) by {
          forall i | 0 <= i < |init| ensures IsDigit(init[i]) {
            assert init[i] == s[i];
          }
        }
      } else if AllDigits(init) && IsDigit(s[|s| - 1]) {
        forall i | 0 <= i < |s| ensures IsDigit(s[i]) {
          if i < |init| {
            assert s[i] == init[i];
          }
        }
      }
    }
  }

  /** `strconv.Atoi`: an optional sign, then one or more decimal digits, and a
      value that fits in Go's 64-bit `int`; anything else, including an empty
      string, a lone sign, white space or a NUL byte, is an error. */
  function Atoi(s: string): (r: Result<int, NumError>)
    ensures r.Ok? ==> Int64Min <= r.value <= Int64Max
  {
    var signed := |s| > 0 && (s[0] == '-' || s[0] == '+');
    var digits := if signed then s[1..] else s;
    if digits == [] then Err(SyntaxError)
    else match DigitsNumber(digits)
      case None => Err(SyntaxError)
      case Some(n) =>
        var v: int := if signed && s[0] == '-' then -(n as int) else n;
        if v < Int64Min || Int64Max < v then Err(RangeError) else Ok(v)
  }

  /** What `Atoi` accepts, in terms of the digits after the optional sign. */
  lemma AtoiSpec(s: string)
    ensures var signed := |s| > 0 && (s[0] == '-' || s[0] == '+');
      var digits := if signed then s[1..] else s;
      && (Atoi(s).Ok? ==> digits != [] && AllDigits(digits))
      && (digits != [] && AllDigits(digits) ==>
            var v: int := if signed && s[0] == '-' then -(DigitsValue(digits) as int) else DigitsValue(digits);
            Atoi(s) == if v < Int64Min || Int64Max < v then Err(RangeError) else Ok(v))
  {
    var signed := |s| > 0 && (s[0] == '-' || s[0] == '+');
    DigitsNumberSpec(if signed then s[1..] else s);
  }

  /** The digits of a number's text, after its optional sign. */
  function Unsigned(s: string): string
  {
    if |s| > 0 && (s[0] == '-' || s[0] == '+') then s[1..] else s
  }

  /** The value an optional sign and decimal digits spell. */
  function SignedValue(s: string): int
    requires AllDigits(Unsigned(s))
  {
    if |s| > 0 && s[0] == '-' then -(DigitsValue(Unsigned(s)) as int) else DigitsValue(Unsigned(s))
  }

  /** The text `strconv.Atoi` accepts: an optional sign, at least one decimal
      digit and nothing else, spelling a value in the 64-bit range. */
  predicate IsInt64Text(s: string)
  {
    Unsigned(s) != [] && AllDigits(Unsigned(s)) && Int64Min <= SignedValue(s) <= Int64Max
  }

  /** `Atoi` succeeds exactly on that text, and gives the value it spells. */
  lemma AtoiText(s: string)
    ensures Atoi(s).Ok? <==> IsInt64Text(s)
    ensures Atoi(s).Ok? ==> Atoi(s).value == SignedValue(s)
  {
    AtoiSpec(s);
  }

  /** A string whose last byte is not a digit and that does not end in a
      white-space rune never parses, with or without trimming: a zero-filled
      tail after a short read is refused. */
  lemma AtoiRefusesTrailingNonDigit(s: string)
    requires s != [] && !IsDigit(s[|s| - 1]) && SpaceAtEnd(s) == 0
    ensures Atoi(TrimSpace(s)).Err? && Atoi(s).Err?
  {
    TrimSpaceKeepsLast(s);
    AtoiLastNonDigit(TrimSpace(s));
    AtoiLastNonDigit(s);
  }

  lemma AtoiLastNonDigit(t: string)
    requires t != [] && !IsDigit(t[|t| - 1])
    ensures Atoi(t).Err?
  {
    var signed := |t| > 0 && (t[0] == '-' || t[0] == '+');
    var digits := if signed then t[1..] else t;
    if digits != [] {
      assert digits[|digits| - 1] == t[|t| - 1];
      assert !AllDigits(digits);
      DigitsNumberSpec(digits);
    }
  }

  function DigitChar(d: nat): (c: char)
    requires d < 10
    ensures IsDigit(c) && DigitValue(c) == d
  {
    ('0' as int + d) as char
  }

  function Pow10(n: nat): (p: nat)
    ensures p >= 1
  {
    if n == 0 then 1 else 10 * Pow10(n - 1)
  }

  /** Go's `%d` of a non-negative integer. */
  function Decimal(n: nat): (s: string)
    ensures s != [] && AllDigits(s)
    decreases n
  {
    if n < 10 then [DigitChar(n)] else Decimal(n / 10) + [DigitChar(n % 10)]
  }

  function Zeros(k: nat): (s: string)
    ensures |s| == k && AllDigits(s)
  {
    seq(k, _ => '0')
  }

  /** Go's `%0<width>d` of a non-negative integer: its decimal digits, padded on
      the left with zeros to at least `width` characters. */
  function ZeroPad(n: nat, width: nat): (s: string)
    ensures AllDigits(s) && width <= |s|
  {
    var d := Decimal(n);
    if |d| < width then Zeros(width - |d|) + d else d
  }

  lemma {:induction false} DecimalValue(n: nat)
    ensures DigitsValue(Decimal(n)) == n
    decreases n
  {
    if n >= 10 {
      DecimalValue(n / 10);
      var s := Decimal(n);
      assert s[..|s| - 1] == Decimal(n / 10);
    }
  }

  lemma {:induction false} DecimalLength(n: nat, w: nat)
    requires 1 <= w && n < Pow10(w)
    ensures |Decimal(n)| <= w
    decreases w
  {
    if n >= 10 {
      DecimalLength(n / 10, w - 1);
    }
  }

  lemma {:induction false} LeadingZerosValue(k: nat, s: string)
    requires AllDigits(s)
    ensures AllDigits(Zeros(k) + s) && DigitsValue(Zeros(k) + s) == DigitsValue(s)
    decreases |s|, k
  {
    var t := Zeros(k) + s;
    if s == [] {
      assert t == Zeros(k);
      if k > 0 {
        assert t[..|t| - 1] == Zeros(k - 1) + [];
        LeadingZerosValue(k - 1, []);
      }
    } else {
      assert t[..|t| - 1] == Zeros(k) + s[..|s| - 1];
      LeadingZerosValue(k, s[..|s| - 1]);
    }
  }

  /** A value below 10^w printed with `%0<w>d` is exactly w digits that read
      back as the value. */
  lemma ZeroPadFixed(n: nat, w: nat)
    requires 1 <= w && n < Pow10(w)
    ensures |ZeroPad(n, w)| == w
    ensures DigitsValue(ZeroPad(n, w)) == n
  {
    DecimalLength(n, w);
    DecimalValue(n);
    var d := Decimal(n);
    if |d| < w {
      LeadingZerosValue(w - |d|, d);
    }
  }

  lemma Pow10Values()
    ensures Pow10(1) == 10 && Pow10(2) == 100 && Pow10(3) == 1000
    ensures Pow10(4) == 10000 && Pow10(5) == 100000
  {
  }

  /** Digits are single bytes. */
  lemma DigitsAreBytes(s: string)
    requires AllDigits(s)
    ensures IsByteString(s)
  {
    forall i | 0 <= i < |s| ensures s[i] as int < 0x100 {
      assert IsDigit(s[i]);
    }
  }

  lemma {:induction false} Pow10Monotone(a: nat, b: nat)
    requires a <= b
    ensures Pow10(a) <= Pow10(b)
    decreases b
  {
    if a < b {
      Pow10Monotone(a, b - 1);
    }
  }

  lemma AtoiDigits(s: string)
    requires s != [] && AllDigits(s) && DigitsValue(s) <= Int64Max
    ensures Atoi(s) == Ok(DigitsValue(s))
  {
    assert IsDigit(s[0]);
    DigitsNumberSpec(s);
  }

  /** A digit string neither starts nor ends with a white-space rune. */
  lemma DigitsNotSpace(s: string)
    requires AllDigits(s)
    ensures SpaceAtStart(s) == 0 && SpaceAtEnd(s) == 0
  {
    if s != [] {
      assert IsDigit(s[0]) && IsDigit(s[|s| - 1]);
    }
  }

  /** `strconv.Atoi` reads back what `%0<w>d` printed. */
  lemma AtoiZeroPad(n: nat, w: nat)
    requires 1 <= w <= 5 && n < Pow10(w)
    ensures TrimSpace(ZeroPad(n, w)) == ZeroPad(n, w)
    ensures Atoi(TrimSpace(ZeroPad(n, w))) == Ok(n)
  {
    ZeroPadFixed(n, w);
    Pow10Monotone(w, 5);
    assert Pow10(5) == 100000;
    var s := ZeroPad(n, w);
    DigitsNotSpace(s);
    TrimSpaceUntouched(s);
    AtoiDigits(s);
  }

  // ---------------------------------------------------------------- searching

  predicate HasSuffix(s: string, suffix: string)
  {
    |suffix| <= |s| && s[|s| - |suffix|..] == suffix
  }

  predicate OccursAt(s: string, pat: string, i: nat)
  {
    i + |pat| <= |s| && s[i..i + |pat|] == pat
  }

  /** `strings.Replace(s, pat, rep, 1)`. */
  function ReplaceFirst(s: string, pat: string, rep: string): string
    decreases |s|
  {
    if |s| < |pat| then s
    else if s[..|pat|] == pat then rep + s[|pat|..]
    else [s[0]] + ReplaceFirst(s[1..], pat, rep)
  }

  /** The result is the string itself, or one pattern swapped for the
      replacement, which changes the length by the difference of the two. */
  lemma {:induction false} ReplaceFirstLength(s: string, pat: string, rep: string)
    ensures var r := ReplaceFirst(s, pat, rep);
      r == s || |r| == |s| - |pat| + |rep|
    decreases |s|
  {
    if |s| >= |pat| && s[..|pat|] != pat {
      ReplaceFirstLength(s[1..], pat, rep);
      assert [s[0]] + s[1..] == s;
    }
  }

  /** A string in which the pattern does not occur is returned unchanged. */
  lemma {:induction false} ReplaceFirstAbsent(s: string, pat: string, rep: string)
    requires forall i: nat :: i <= |s| ==> !OccursAt(s, pat, i)
    ensures ReplaceFirst(s, pat, rep) == s
    decreases |s|
  {
    if |s| >= |pat| {
      assert !OccursAt(s, pat, 0);
      var t := s[1..];
      forall i: nat | i <= |t| ensures !OccursAt(t, pat, i) {
        ShiftOccurrence(s, pat, i);
      }
      ReplaceFirstAbsent(t, pat, rep);
    }
  }

  /** Only the first occurrence of the pattern, at i, is replaced; what precedes
      it and what follows it (later occurrences included) is kept verbatim. */
  lemma {:induction false} ReplaceFirstAt(s: string, pat: string, rep: string, i: nat)
    requires OccursAt(s, pat, i)
    requires forall j: nat :: j < i ==> !OccursAt(s, pat, j)
    ensures ReplaceFirst(s, pat, rep) == s[..i] + rep + s[i + |pat|..]
    decreases |s|
  {
    if i == 0 {
      assert s[..|pat|] == pat;
      assert s[..i] == [];
    } else {
      assert !OccursAt(s, pat, 0);
      assert |s| >= |pat| && s[..|pat|] != pat;
      var t := s[1..];
      assert ReplaceFirst(s, pat, rep) == [s[0]] + ReplaceFirst(t, pat, rep);
      ShiftOccurrence(s, pat, i - 1);
      forall j: nat | j < i - 1 ensures !OccursAt(t, pat, j) {
        ShiftOccurrence(s, pat, j);
      }
      ReplaceFirstAt(t, pat, rep, i - 1);
      SpliceTail(s, rep, i, i + |pat|);
    }
  }

  /** A splice into the tail of `s`, with the first character put back. */
  lemma SpliceTail(s: string, rep: string, i: nat, k: nat)
    requires 1 <= i <= k <= |s|
    ensures [s[0]] + (s[1..][..i - 1] + rep + s[1..][k - 1..]) == s[..i] + rep + s[k..]
  {
    assert s[1..][..i - 1] == s[1..i];
    assert s[..i] == [s[0]] + s[1..i];
    assert s[k..] == s[1..][k - 1..];
  }

  lemma ShiftOccurrence(s: string, pat: string, i: nat)
    requires s != []
    ensures OccursAt(s, pat, i + 1) <==> OccursAt(s[1..], pat, i)
  {
    if i + 1 + |pat| <= |s| {
      assert s[i + 1..i + 1 + |pat|] == s[1..][i..i + |pat|];
    }
  }

  /** `strings.ReplaceAll(s, string(c), "")`. */
  function RemoveChar(s: string, c: char): (r: string)
    ensures c !in r
    ensures |r| <= |s|
  {
    if s == [] then []
    else (if s[0] == c then [] else [s[0]]) + RemoveChar(s[1..], c)
  }

  /** Removing `c` works piece by piece: the rest of the text is kept, in order. */
  lemma {:induction false} RemoveCharAppend(a: string, b: string, c: char)
    ensures RemoveChar(a + b, c) == RemoveChar(a, c) + RemoveChar(b, c)
    decreases |a|
  {
    if a == [] {
      assert a + b == b;
    } else {
      assert (a + b)[0] == a[0] && (a + b)[1..] == a[1..] + b;
      RemoveCharAppend(a[1..], b, c);
    }
  }

  /** One character is dropped if it is `c` and kept otherwise. */
  lemma RemoveCharOne(x: char, c: char)
    ensures RemoveChar([x], c) == if x == c then [] else [x]
  {
    assert [x][1..] == [];
  }

  lemma {:induction false} RemoveCharAbsent(s: string, c: char)
    requires c !in s
    ensures RemoveChar(s, c) == s
  {
    if s != [] {
      RemoveCharAbsent(s[1..], c);
    }
  }
}
