/**
 * Parsing a mesh's TrackableId out of its game-object name
 * (CorridorScanner.ExtractTrackableId).
 *
 * The name is split on ' ', its second part on '-', and the two tokens are
 * read with .NET's `ulong.TryParse`. `String.Split(char)` keeps empty parts,
 * so "a  b" has three parts, the second one empty. `ulong.TryParse` with its
 * default number style accepts leading white space, an optional '+', one or
 * more decimal digits, trailing white space and then trailing NUL characters,
 * and fails when the value does not fit in 64 bits.
 *
 * The identifier ARFoundation writes into the name is hexadecimal (two groups
 * of sixteen hex digits), so the decimal parse misreads it; the corrected
 * extractor `ExtractTrackableIdHex` reads the tokens as hexadecimal and is the
 * one the scanner uses.
 */
module TrackableIds {
  import opened Basics

  const ULongLimit: int := 0x1_0000_0000_0000_0000

  /** C#'s `ulong`. */
  type ULong = x: int | 0 <= x < 0x1_0000_0000_0000_0000

  /** ARSubsystems.TrackableId: two 64-bit halves. */
  datatype Id = Id(subId1: ULong, subId2: ULong)

  /** TrackableId.invalidId, the all-zero identifier. */
  const InvalidId := Id(0, 0)

  // ---------------------------------------------------------------------
  // String.Split(char) and its inverse

  /** `s.Split(sep)`: the maximal sep-free pieces of `s`, empty pieces kept. */
  function Split(s: string, sep: char): (parts: seq<string>)
    ensures |parts| >= 1
    ensures forall i :: 0 <= i < |parts| ==> sep !in parts[i]
    decreases |s|
  {
    if |s| == 0 then [""]
    else
      var rest := Split(s[1..], sep);
      if s[0] == sep then [""] + rest
      else [[s[0]] + rest[0]] + rest[1..]
  }

  /** `String.Join(sep, parts)`. */
  function Join(parts: seq<string>, sep: char): string
    requires |parts| >= 1
  {
    if |parts| == 1 then parts[0] else parts[0] + [sep] + Join(parts[1..], sep)
  }

  /** Splitting loses nothing: joining the pieces gives the string back. */
  lemma {:induction false} JoinSplit(s: string, sep: char)
    ensures Join(Split(s, sep), sep) == s
    decreases |s|
  {
    if |s| > 0 {
      var rest := Split(s[1..], sep);
      JoinSplit(s[1..], sep);
      if s[0] == sep {
        assert Split(s, sep) == [""] + rest;
        assert ([""] + rest)[1..] == rest;
      } else {
        var parts := Split(s, sep);
        assert parts == [[s[0]] + rest[0]] + rest[1..];
        if |rest| == 1 {
          assert Join(parts, sep) == [s[0]] + rest[0];
        } else {
          assert parts[1..] == rest[1..];
          assert Join(rest, sep) == rest[0] + [sep] + Join(rest[1..], sep);
        }
        assert s == [s[0]] + s[1..];
      }
    }
  }

  /** A separator-free prefix followed by the separator becomes the first piece. */
  lemma {:induction false} SplitAfterPiece(a: string, sep: char, rest: string)
    requires sep !in a
    ensures Split(a + [sep] + rest, sep) == [a] + Split(rest, sep)
    decreases |a|
  {
    var s := a + [sep] + rest;
    if |a| == 0 {
      assert s[1..] == rest;
    } else {
      assert s[1..] == a[1..] + [sep] + rest;
      SplitAfterPiece(a[1..], sep, rest);
      assert [a[0]] + a[1..] == a;
    }
  }

  /** A separator-free string is a single piece. */
  lemma {:induction false} SplitWithoutSeparator(a: string, sep: char)
    requires sep !in a
    ensures Split(a, sep) == [a]
    decreases |a|
  {
    if |a| > 0 {
      SplitWithoutSeparator(a[1..], sep);
      assert [a[0]] + a[1..] == a;
    }
  }

  /** Splitting a join of separator-free pieces gives the pieces back. */
  lemma {:induction false} SplitJoin(parts: seq<string>, sep: char)
    requires |parts| >= 1
    requires forall i :: 0 <= i < |parts| ==> sep !in parts[i]
    ensures Split(Join(parts, sep), sep) == parts
    decreases |parts|
  {
    if |parts| == 1 {
      SplitWithoutSeparator(parts[0], sep);
    } else {
      SplitJoin(parts[1..], sep);
      SplitAfterPiece(parts[0], sep, Join(parts[1..], sep));
      assert [parts[0]] + parts[1..] == parts;
    }
  }

  /** How many times `c` occurs in `s`. */
  function Occurrences(s: string, c: char): nat
  {
    if |s| == 0 then 0 else (if s[0] == c then 1 else 0) + Occurrences(s[1..], c)
  }

  /** `s.Split(sep)` has one more piece than `s` has separators. */
  lemma {:induction false} SplitLength(s: string, sep: char)
    ensures |Split(s, sep)| == Occurrences(s, sep) + 1
    decreases |s|
  {
    if |s| > 0 {
      SplitLength(s[1..], sep);
    }
  }

  // ---------------------------------------------------------------------
  // ulong.TryParse

  /** The white space .NET's number parser skips: U+0009..U+000D and U+0020. */
  predicate IsNumberWhite(c: char) { c == ' ' || '\t' <= c <= '\r' }

  predicate IsDecimalDigit(c: char) { '0' <= c <= '9' }

  predicate IsHexDigit(c: char) { '0' <= c <= '9' || 'a' <= c <= 'f' || 'A' <= c <= 'F' }

  /** The value of one hexadecimal (or decimal) digit. */
  function DigitValue(c: char): (d: nat)
    requires IsHexDigit(c)
    ensures d < 16
    ensures IsDecimalDigit(c) ==> d < 10
  {
    if '0' <= c <= '9' then c as int - '0' as int
    else if 'a' <= c <= 'f' then c as int - 'a' as int + 10
    else c as int - 'A' as int + 10
  }

  predicate AllDecimal(s: string) { forall i :: 0 <= i < |s| ==> IsDecimalDigit(s[i]) }

  predicate AllHex(s: string) { forall i :: 0 <= i < |s| ==> IsHexDigit(s[i]) }

  /** The value of a digit string, most significant digit first. */
  function DigitsValue(s: string, base: nat): nat
    requires AllHex(s)
  {
    if |s| == 0 then 0 else DigitsValue(s[..|s| - 1], base) * base + DigitValue(s[|s| - 1])
  }

  function TrimLeadingWhite(s: string): (t: string)
    ensures |t| <= |s|
    ensures |t| > 0 ==> !IsNumberWhite(t[0])
  {
    if |s| > 0 && IsNumberWhite(s[0]) then TrimLeadingWhite(s[1..]) else s
  }

  function TrimTrailingWhite(s: string): (t: string)
    ensures |t| <= |s|
  {
    if |s| > 0 && IsNumberWhite(s[|s| - 1]) then TrimTrailingWhite(s[..|s| - 1]) else s
  }

  function TrimTrailingNul(s: string): (t: string)
    ensures |t| <= |s|
  {
    if |s| > 0 && s[|s| - 1] == '\0' then TrimTrailingNul(s[..|s| - 1]) else s
  }

  /** Strips the padding .NET tolerates around a number: white space before, white space then NULs after. */
  function NumberBody(s: string): string
  {
    TrimTrailingWhite(TrimTrailingNul(TrimLeadingWhite(s)))
  }

  /** `ulong.TryParse(s, out v)`: decimal, optional leading '+', 64-bit range. */
  function ParseULong(s: string): (r: Option<ULong>)
    ensures r.Some? ==> exists i :: 0 <= i < |s| && IsDecimalDigit(s[i])
  {
    var t := NumberBody(s);
    var digits := if |t| > 0 && t[0] == '+' then t[1..] else t;
    if |digits| > 0 && AllDecimal(digits) && DigitsValue(digits, 10) < ULongLimit then
      BodyIsInside(s);
      assert digits[0] in s;
      Some(DigitsValue(digits, 10))
    else None
  }

  /** `ulong.TryParse(s, NumberStyles.HexNumber, ...)`: hexadecimal, no sign, 64-bit range. */
  function ParseULongHex(s: string): (r: Option<ULong>)
    ensures r.Some? ==> exists i :: 0 <= i < |s| && IsHexDigit(s[i])
  {
    var digits := NumberBody(s);
    if |digits| > 0 && AllHex(digits) && DigitsValue(digits, 16) < ULongLimit then
      BodyIsInside(s);
      assert digits[0] in s;
      Some(DigitsValue(digits, 16))
    else None
  }

  /** What is left after trimming is a piece of the original string. */
  lemma BodyIsInside(s: string)
    ensures forall c :: c in NumberBody(s) ==> c in s
  {
    TrimLeadingInside(s);
    TrimTrailingNulInside(TrimLeadingWhite(s));
    TrimTrailingWhiteInside(TrimTrailingNul(TrimLeadingWhite(s)));
  }

  lemma TrimLeadingInside(s: string)
    ensures forall c :: c in TrimLeadingWhite(s) ==> c in s
  {
    if |s| > 0 && IsNumberWhite(s[0]) {
      TrimLeadingInside(s[1..]);
    }
  }

  lemma TrimTrailingNulInside(s: string)
    ensures forall c :: c in TrimTrailingNul(s) ==> c in s
  {
    if |s| > 0 && s[|s| - 1] == '\0' {
      TrimTrailingNulInside(s[..|s| - 1]);
    }
  }

  lemma TrimTrailingWhiteInside(s: string)
    ensures forall c :: c in TrimTrailingWhite(s) ==> c in s
  {
    if |s| > 0 && IsNumberWhite(s[|s| - 1]) {
      TrimTrailingWhiteInside(s[..|s| - 1]);
    }
  }

  /** Digit strings contain neither separator. */
  lemma DigitsHaveNoSeparators(s: string)
    requires AllHex(s)
    ensures ' ' !in s && '-' !in s
  {
  }

  /** A bare digit string carries no padding. */
  lemma NumberBodyOfDigits(d: string)
    requires |d| > 0 && AllHex(d)
    ensures NumberBody(d) == d
  {
    assert !IsNumberWhite(d[0]) && !IsNumberWhite(d[|d| - 1]) && d[|d| - 1] != '\0';
  }

  /** A decimal digit string within 64 bits parses to its value. */
  lemma ParseDecimalDigits(d: string)
    requires |d| > 0 && AllDecimal(d) && DigitsValue(d, 10) < ULongLimit
    ensures ParseULong(d) == Some(DigitsValue(d, 10))
  {
    NumberBodyOfDigits(d);
  }

  /** A hexadecimal digit string within 64 bits parses (as hex) to its value. */
  lemma ParseHexDigits(h: string)
    requires |h| > 0 && AllHex(h) && DigitsValue(h, 16) < ULongLimit
    ensures ParseULongHex(h) == Some(DigitsValue(h, 16))
  {
    NumberBodyOfDigits(h);
  }

  // ---------------------------------------------------------------------
  // The mesh name and the two extractors

  /** Split on ' ', take the second part, split it on '-', demand exactly two tokens. */
  function IdTokens(name: string): Option<(string, string)>
  {
    var parts := Split(name, ' ');
    if |parts| < 2 then None
    else
      var toks := Split(parts[1], '-');
      if |toks| != 2 then None else Some((toks[0], toks[1]))
  }

  /** CorridorScanner.ExtractTrackableId as written: the tokens are read as decimal numbers. */
  function ExtractTrackableId(name: string): (id: Id)
    ensures IdTokens(name).None? ==> id == InvalidId
    ensures id != InvalidId ==>
              IdTokens(name).Some? &&
              ParseULong(IdTokens(name).value.0) == Some(id.subId1) &&
              ParseULong(IdTokens(name).value.1) == Some(id.subId2)
    ensures IdTokens(name).Some? &&
            ParseULong(IdTokens(name).value.0).Some? && ParseULong(IdTokens(name).value.1).Some? ==>
              id == Id(ParseULong(IdTokens(name).value.0).value, ParseULong(IdTokens(name).value.1).value)
  {
    match IdTokens(name)
    case None => InvalidId
    case Some((t1, t2)) =>
      match (ParseULong(t1), ParseULong(t2))
      case (Some(s1), Some(s2)) => Id(s1, s2)
      case _ => InvalidId
  }

  /** The corrected extractor: the tokens are read as the hexadecimal numbers they are. */
  function ExtractTrackableIdHex(name: string): (id: Id)
    ensures IdTokens(name).None? ==> id == InvalidId
    ensures id != InvalidId ==>
              IdTokens(name).Some? &&
              ParseULongHex(IdTokens(name).value.0) == Some(id.subId1) &&
              ParseULongHex(IdTokens(name).value.1) == Some(id.subId2)
    ensures IdTokens(name).Some? &&
            ParseULongHex(IdTokens(name).value.0).Some? && ParseULongHex(IdTokens(name).value.1).Some? ==>
              id == Id(ParseULongHex(IdTokens(name).value.0).value, ParseULongHex(IdTokens(name).value.1).value)
  {
    match IdTokens(name)
    case None => InvalidId
    case Some((t1, t2)) =>
      match (ParseULongHex(t1), ParseULongHex(t2))
      case (Some(s1), Some(s2)) => Id(s1, s2)
      case _ => InvalidId
  }

  /** A name of the form "word t1-t2" yields exactly the tokens t1 and t2. */
  lemma {:induction false} IdTokensOfName(word: string, t1: string, t2: string)
    requires ' ' !in word && ' ' !in t1 && ' ' !in t2 && '-' !in t1 && '-' !in t2
    ensures IdTokens(word + " " + t1 + "-" + t2) == Some((t1, t2))
  {
    var body := t1 + "-" + t2;
    assert ' ' !in body;
    assert word + " " + t1 + "-" + t2 == word + [' '] + body;
    SplitAfterPiece(word, ' ', body);
    SplitWithoutSeparator(body, ' ');
    assert Split(word + " " + t1 + "-" + t2, ' ') == [word, body];
    assert body == t1 + ['-'] + t2;
    SplitAfterPiece(t1, '-', t2);
    SplitWithoutSeparator(t2, '-');
  }

  /**
   * A name that is not "word token" with token = "a-b" (no further '-') is
   * rejected whatever the digits are: without a space there is no second part.
   */
  lemma NoSpaceIsInvalid(name: string)
    requires ' ' !in name
    ensures ExtractTrackableId(name) == InvalidId
    ensures ExtractTrackableIdHex(name) == InvalidId
  {
    SplitWithoutSeparator(name, ' ');
  }

  /** The second space-separated part of "word token rest" is `token`, whatever parts follow in `rest`. */
  lemma {:induction false} SecondPart(word: string, token: string, rest: string)
    requires ' ' !in word && ' ' !in token
    requires rest == "" || rest[0] == ' '
    ensures |Split(word + " " + token + rest, ' ')| >= 2
    ensures Split(word + " " + token + rest, ' ')[1] == token
  {
    assert word + " " + token + rest == word + [' '] + (token + rest);
    SplitAfterPiece(word, ' ', token + rest);
    if rest == "" {
      assert token + rest == token;
      SplitWithoutSeparator(token, ' ');
    } else {
      assert token + rest == token + [' '] + rest[1..];
      SplitAfterPiece(token, ' ', rest[1..]);
    }
  }

  /**
   * A second part with no '-' or with two or more is rejected by both
   * extractors, also when further space-separated parts follow it.
   */
  lemma DashCountNotOneIsInvalid(word: string, token: string, rest: string)
    requires ' ' !in word && ' ' !in token
    requires rest == "" || rest[0] == ' '
    requires Occurrences(token, '-') != 1
    ensures ExtractTrackableId(word + " " + token + rest) == InvalidId
    ensures ExtractTrackableIdHex(word + " " + token + rest) == InvalidId
  {
    SecondPart(word, token, rest);
    SplitLength(token, '-');
  }

  /** Two instances: a third part after a dash-free token, and a token with two dashes. */
  lemma RejectedNames()
    ensures ExtractTrackableId("Mesh 1234 extra") == InvalidId
    ensures ExtractTrackableId("Mesh 1-2-3") == InvalidId
  {
    assert "Mesh 1234 extra" == "Mesh" + " " + "1234" + " extra";
    assert Occurrences("1234", '-') == 0;
    DashCountNotOneIsInvalid("Mesh", "1234", " extra");
    assert "Mesh 1-2-3" == "Mesh" + " " + "1-2-3" + "";
    assert Occurrences("1-2-3", '-') == 2;
    DashCountNotOneIsInvalid("Mesh", "1-2-3", "");
  }

  /** "X s1-s2" with decimal digit strings s1, s2 (each below 2^64) yields (s1, s2). */
  lemma DecimalNameRoundTrip(word: string, d1: string, d2: string)
    requires ' ' !in word
    requires |d1| > 0 && AllDecimal(d1) && DigitsValue(d1, 10) < ULongLimit
    requires |d2| > 0 && AllDecimal(d2) && DigitsValue(d2, 10) < ULongLimit
    ensures ExtractTrackableId(word + " " + d1 + "-" + d2) == Id(DigitsValue(d1, 10), DigitsValue(d2, 10))
  {
    DigitsHaveNoSeparators(d1);
    DigitsHaveNoSeparators(d2);
    IdTokensOfName(word, d1, d2);
    ParseDecimalDigits(d1);
    ParseDecimalDigits(d2);
  }

  /** "X h1-h2" with hexadecimal digit strings h1, h2 (each below 2^64) yields (h1, h2) under the corrected extractor. */
  lemma HexNameRoundTrip(word: string, h1: string, h2: string)
    requires ' ' !in word
    requires |h1| > 0 && AllHex(h1) && DigitsValue(h1, 16) < ULongLimit
    requires |h2| > 0 && AllHex(h2) && DigitsValue(h2, 16) < ULongLimit
    ensures ExtractTrackableIdHex(word + " " + h1 + "-" + h2) == Id(DigitsValue(h1, 16), DigitsValue(h2, 16))
  {
    DigitsHaveNoSeparators(h1);
    DigitsHaveNoSeparators(h2);
    IdTokensOfName(word, h1, h2);
    ParseHexDigits(h1);
    ParseHexDigits(h2);
  }

  // ---------------------------------------------------------------------
  // TrackableId.ToString(): "X16-X16"

  function HexChar(d: nat): (c: char)
    requires d < 16
    ensures IsHexDigit(c) && DigitValue(c) == d
  {
    if d < 10 then ('0' as int + d) as char else ('A' as int + d - 10) as char
  }

  function Pow16(n: nat): (p: nat)
    ensures p >= 1
  {
    if n == 0 then 1 else 16 * Pow16(n - 1)
  }

  /** `n.ToString("X" + width)` for n below 16^width: exactly `width` upper-case hex digits. */
  function HexDigits(n: nat, width: nat): (s: string)
    ensures |s| == width && AllHex(s)
  {
    if width == 0 then "" else HexDigits(n / 16, width - 1) + [HexChar(n % 16)]
  }

  /** Reading the fixed-width hexadecimal form gives the number back. */
  lemma {:induction false} HexDigitsValue(n: nat, width: nat)
    requires n < Pow16(width)
    ensures DigitsValue(HexDigits(n, width), 16) == n
  {
    if width > 0 {
      var s := HexDigits(n, width);
      HexDigitsValue(n / 16, width - 1);
      assert s[..|s| - 1] == HexDigits(n / 16, width - 1);
    }
  }

  /** The name a mesh gets from its TrackableId: a word, a space, "X16-X16". */
  function MeshName(word: string, id: Id): string
  {
    word + " " + HexDigits(id.subId1, 16) + "-" + HexDigits(id.subId2, 16)
  }

  lemma {:induction false} Pow16Add(a: nat, b: nat)
    ensures Pow16(a + b) == Pow16(a) * Pow16(b)
    decreases a
  {
    if a > 0 {
      Pow16Add(a - 1, b);
    }
  }

  lemma Pow16Of16()
    ensures Pow16(16) == ULongLimit
  {
    assert Pow16(2) == 256;
    assert Pow16(4) == 65536 by { Pow16Add(2, 2); }
    assert Pow16(8) == 0x1_0000_0000 by { Pow16Add(4, 4); }
    Pow16Add(8, 8);
  }

  /** The corrected extractor inverts the naming for every identifier. */
  lemma MeshNameRoundTrip(word: string, id: Id)
    requires ' ' !in word
    ensures ExtractTrackableIdHex(MeshName(word, id)) == id
  {
    Pow16Of16();
    HexDigitsValue(id.subId1, 16);
    HexDigitsValue(id.subId2, 16);
    HexNameRoundTrip(word, HexDigits(id.subId1, 16), HexDigits(id.subId2, 16));
  }

  lemma HexValue1234()
    ensures AllHex("1234") && DigitsValue("1234", 16) == 0x1234
  {
    assert "1234"[..3] == "123" && "123"[..2] == "12" && "12"[..1] == "1" && "1"[..0] == "";
  }

  lemma HexValueAbcdef()
    ensures AllHex("abcdef") && DigitsValue("abcdef", 16) == 0xabcdef
  {
    assert "abcdef"[..5] == "abcde" && "abcde"[..4] == "abcd" && "abcd"[..3] == "abc";
    assert "abc"[..2] == "ab" && "ab"[..1] == "a" && "a"[..0] == "";
  }

  lemma DecimalRejectsAbcdef()
    ensures ParseULong("abcdef") == None
  {
    NumberBodyOfDigits("abcdef");
    assert !IsDecimalDigit("abcdef"[0]);
  }

  /** The name in the source's own comment splits into the tokens "1234" and "abcdef". */
  lemma CommentExampleTokens()
    ensures IdTokens("MeshFilter 1234-abcdef") == Some(("1234", "abcdef"))
  {
    assert "MeshFilter 1234-abcdef" == "MeshFilter" + " " + "1234" + "-" + "abcdef";
    IdTokensOfName("MeshFilter", "1234", "abcdef");
  }

  /** The example in the source's own comment is rejected by the decimal parse ... */
  lemma CommentExampleRejected()
    ensures ExtractTrackableId("MeshFilter 1234-abcdef") == InvalidId
  {
    CommentExampleTokens();
    DecimalRejectsAbcdef();
  }

  /** ... and read as intended by the hexadecimal one. */
  lemma CommentExampleReadAsHex()
    ensures ExtractTrackableIdHex("MeshFilter 1234-abcdef") == Id(0x1234, 0xabcdef)
  {
    CommentExampleTokens();
    HexValue1234();
    HexValueAbcdef();
    ParseHexDigits("1234");
    ParseHexDigits("abcdef");
  }

  function Zeros(k: nat): (z: string)
    ensures |z| == k && AllDecimal(z) && AllHex(z)
  {
    seq(k, _ => '0')
  }

  lemma {:induction false} HexDigitsOfZero(k: nat)
    ensures HexDigits(0, k) == Zeros(k)
  {
    if k > 0 {
      HexDigitsOfZero(k - 1);
      assert Zeros(k) == Zeros(k - 1) + ['0'];
    }
  }

  /** Leading zeros do not change a digit string's value. */
  lemma {:induction false} LeadingZeros(k: nat, t: string, base: nat)
    requires AllHex(t)
    ensures DigitsValue(Zeros(k) + t, base) == DigitsValue(t, base)
    decreases |t|, k
  {
    if |t| == 0 {
      assert Zeros(k) + t == Zeros(k);
      if k > 0 {
        assert Zeros(k)[..k - 1] == Zeros(k - 1) + t;
        LeadingZeros(k - 1, t, base);
      }
    } else {
      var s := Zeros(k) + t;
      assert s[..|s| - 1] == Zeros(k) + t[..|t| - 1];
      LeadingZeros(k, t[..|t| - 1], base);
    }
  }

  lemma HexDigitsOfSixteen()
    ensures HexDigits(16, 16) == Zeros(14) + "10"
  {
    HexDigitsOfZero(14);
    assert HexDigits(16, 16) == HexDigits(1, 15) + ['0'];
    assert HexDigits(1, 15) == HexDigits(0, 14) + ['1'];
  }

  lemma DecimalValueOfSixteenDigits()
    ensures AllDecimal(HexDigits(16, 16)) && DigitsValue(HexDigits(16, 16), 10) == 10
  {
    HexDigitsOfSixteen();
    assert DigitsValue("10", 10) == 10 by { assert "10"[..1] == "1" && "1"[..0] == ""; }
    LeadingZeros(14, "10", 10);
  }

  /** An identifier whose hex digits are all decimal is silently misread: 0x10 becomes 10. */
  lemma DecimalMisreadsHexName()
    ensures MeshName("Mesh", Id(16, 16)) == "Mesh " + Zeros(14) + "10-" + Zeros(14) + "10"
    ensures ExtractTrackableId(MeshName("Mesh", Id(16, 16))) == Id(10, 10)
  {
    HexDigitsOfSixteen();
    DecimalValueOfSixteenDigits();
    var h := HexDigits(16, 16);
    DecimalNameRoundTrip("Mesh", h, h);
  }
}
