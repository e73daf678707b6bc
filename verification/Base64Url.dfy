/** base64url as internal/auth uses it: the padded URL alphabet of section 5 of RFC 4648, with the
    padding stripped on encoding and restored on decoding (section 3.2). */
module Base64Url {
  import opened Wrappers

  type Byte = b: int | 0 <= b < 256

  function Digit(v: int): (c: char)
    requires 0 <= v < 64
    ensures Value(c) == v
  {
    if v < 26 then ('A' as int + v) as char
    else if v < 52 then ('a' as int + v - 26) as char
    else if v < 62 then ('0' as int + v - 52) as char
    else if v == 62 then '-'
    else '_'
  }

  /** The value of a character of the alphabet, -1 for any other. */
  function Value(c: char): (v: int)
    ensures -1 <= v < 64
  {
    if 'A' <= c <= 'Z' then c as int - 'A' as int
    else if 'a' <= c <= 'z' then c as int - 'a' as int + 26
    else if '0' <= c <= '9' then c as int - '0' as int + 52
    else if c == '-' then 62
    else if c == '_' then 63
    else -1
  }

  lemma DigitOfValue(c: char)
    requires Value(c) >= 0
    ensures Digit(Value(c)) == c
  {
  }

  ghost predicate InAlphabet(s: string) {
    forall i :: 0 <= i < |s| ==> Value(s[i]) >= 0
  }

  // ---------------------------------------------------------------- the library codec

  function Quad(a: Byte, b: Byte, c: Byte): string {
    [Digit(a / 4), Digit(a % 4 * 16 + b / 16), Digit(b % 16 * 4 + c / 64), Digit(c % 64)]
  }

  /** EncodeToString of the padded URL encoding. */
  function EncodePadded(b: seq<Byte>): string {
    if |b| == 0 then ""
    else if |b| == 1 then Quad(b[0], 0, 0)[..2] + "=="
    else if |b| == 2 then Quad(b[0], b[1], 0)[..3] + "="
    else Quad(b[0], b[1], b[2]) + EncodePadded(b[3..])
  }

  function Unquad(v0: int, v1: int, v2: int, v3: int): seq<Byte>
    requires 0 <= v0 < 64 && 0 <= v1 < 64 && 0 <= v2 < 64 && 0 <= v3 < 64
  {
    [v0 * 4 + v1 / 16, v1 % 16 * 16 + v2 / 4, v2 % 4 * 64 + v3]
  }

  /** Line breaks are skipped wherever they stand. */
  function WithoutBreaks(s: string): string {
    if s == "" then ""
    else if s[0] == '\r' || s[0] == '\n' then WithoutBreaks(s[1..])
    else [s[0]] + WithoutBreaks(s[1..])
  }

  /** Groups of four; padding only in the last; unused low bits of the last digit are ignored. */
  function DecodeGroups(s: string): Option<seq<Byte>> {
    if s == "" then Some([])
    else if |s| < 4 || Value(s[0]) < 0 || Value(s[1]) < 0 then None
    else if |s| == 4 && s[2..] == "==" then Some(Unquad(Value(s[0]), Value(s[1]), 0, 0)[..1])
    else if Value(s[2]) < 0 then None
    else if |s| == 4 && s[3] == '=' then Some(Unquad(Value(s[0]), Value(s[1]), Value(s[2]), 0)[..2])
    else if Value(s[3]) < 0 then None
    else
      match DecodeGroups(s[4..])
      case None => None
      case Some(rest) => Some(Unquad(Value(s[0]), Value(s[1]), Value(s[2]), Value(s[3])) + rest)
  }

  /** DecodeString of the padded URL encoding. */
  function DecodePadded(s: string): Option<seq<Byte>> {
    DecodeGroups(WithoutBreaks(s))
  }

  // ---------------------------------------------------------------- the functions of internal/auth

  function TrimPadding(s: string): string {
    if s != "" && s[|s| - 1] == '=' then TrimPadding(s[..|s| - 1]) else s
  }

  function Encode(b: seq<Byte>): string {
    TrimPadding(EncodePadded(b))
  }

  function Padding(n: nat): string {
    if n % 4 == 2 then "==" else if n % 4 == 3 then "=" else ""
  }

  function Decode(s: string): Option<seq<Byte>> {
    DecodePadded(s + Padding(|s|))
  }

  // ---------------------------------------------------------------- round trip

  /** The encoding without its padding, directly. */
  function Raw(b: seq<Byte>): string {
    if |b| == 0 then ""
    else if |b| == 1 then Quad(b[0], 0, 0)[..2]
    else if |b| == 2 then Quad(b[0], b[1], 0)[..3]
    else Quad(b[0], b[1], b[2]) + Raw(b[3..])
  }

  lemma QuadIsInAlphabet(a: Byte, b: Byte, c: Byte)
    ensures InAlphabet(Quad(a, b, c))
  {
  }

  lemma {:induction false} RawIsInAlphabet(b: seq<Byte>)
    ensures InAlphabet(Raw(b))
  {
    if |b| == 1 {
      QuadIsInAlphabet(b[0], 0, 0);
    } else if |b| == 2 {
      QuadIsInAlphabet(b[0], b[1], 0);
    } else if |b| >= 3 {
      QuadIsInAlphabet(b[0], b[1], b[2]);
      RawIsInAlphabet(b[3..]);
    }
  }

  lemma PaddingRepeats(n: nat)
    ensures Padding(4 + n) == Padding(n) && (4 + n) % 4 == n % 4
  {
  }

  lemma {:induction false} PadLonger(q: string, r: string)
    requires |q| == 4
    ensures q + (r + Padding(|r|)) == (q + r) + Padding(|q + r|) && |q + r| % 4 == |r| % 4
  {
    PaddingRepeats(|r|);
  }

  lemma {:induction false} RawLength(b: seq<Byte>)
    ensures |Raw(b)| % 4 != 1
    ensures EncodePadded(b) == Raw(b) + Padding(|Raw(b)|)
  {
    if |b| < 3 {
    } else {
      RawLength(b[3..]);
      PadLonger(Quad(b[0], b[1], b[2]), Raw(b[3..]));
    }
  }

  lemma {:induction false} TrimStops(s: string)
    requires InAlphabet(s)
    ensures TrimPadding(s) == s
    ensures TrimPadding(s + "=") == s
    ensures TrimPadding(s + "==") == s
  {
    assert s != "" ==> Value(s[|s| - 1]) >= 0;
    var t := s + "=";
    assert t[..|t| - 1] == s;
    var u := s + "==";
    assert u[..|u| - 1] == t;
  }

  /** Encoding yields the raw digits: only characters of the alphabet, so no '=' and no '.'. */
  lemma {:induction false} EncodeIsRaw(b: seq<Byte>)
    ensures Encode(b) == Raw(b)
    ensures InAlphabet(Encode(b))
    ensures '=' !in Encode(b) && '.' !in Encode(b)
  {
    RawIsInAlphabet(b);
    RawLength(b);
    TrimStops(Raw(b));
    assert Raw(b) + "" == Raw(b);
  }

  lemma {:induction false} NothingToStrip(s: string)
    requires forall i :: 0 <= i < |s| ==> s[i] != '\r' && s[i] != '\n'
    ensures WithoutBreaks(s) == s
  {
    if s == "" {
    } else {
      NothingToStrip(s[1..]);
    }
  }

  /** A line break anywhere makes no difference. */
  lemma {:induction false} BreakIsSkipped(a: string, br: char, b: string)
    requires br == '\r' || br == '\n'
    ensures WithoutBreaks(a + [br] + b) == WithoutBreaks(a + b)
  {
    if a == "" {
      assert a + [br] + b == [br] + b && a + b == b;
      assert ([br] + b)[1..] == b;
    } else {
      BreakIsSkipped(a[1..], br, b);
      assert (a + [br] + b)[1..] == a[1..] + [br] + b && (a + b)[1..] == a[1..] + b;
    }
  }

  lemma {:induction false} Pack(x: int, y: int, m: int)
    requires m == 4 || m == 16 || m == 64
    requires 0 <= x && 0 <= y < m
    ensures (x * m + y) / m == x && (x * m + y) % m == y
  {
    if m == 4 {
      assert (x * 4 + y) / 4 == x;
    } else if m == 16 {
      assert (x * 16 + y) / 16 == x;
    } else {
      assert (x * 64 + y) / 64 == x;
    }
  }

  lemma {:induction false} BytesOfSextets(a: Byte, b: Byte, c: Byte)
    ensures var v1, v2 := a % 4 * 16 + b / 16, b % 16 * 4 + c / 64;
      && a / 4 * 4 + v1 / 16 == a && v1 % 16 * 16 + v2 / 4 == b && v2 % 4 * 64 + c % 64 == c
  {
    Pack(a % 4, b / 16, 16);
    Pack(b % 16, c / 64, 4);
  }

  lemma {:induction false} UnquadQuad(a: Byte, b: Byte, c: Byte)
    ensures var q := Quad(a, b, c);
      Unquad(Value(q[0]), Value(q[1]), Value(q[2]), Value(q[3])) == [a, b, c]
  {
    BytesOfSextets(a, b, c);
  }

  lemma {:induction false} OneByte(a: Byte)
    ensures DecodeGroups(Quad(a, 0, 0)[..2] + "==") == Some([a])
  {
    UnquadQuad(a, 0, 0);
    assert (Quad(a, 0, 0)[..2] + "==")[2..] == "==";
    assert [a, 0, 0][..1] == [a];
  }

  lemma {:induction false} TwoBytes(a: Byte, b: Byte)
    ensures DecodeGroups(Quad(a, b, 0)[..3] + "=") == Some([a, b])
  {
    UnquadQuad(a, b, 0);
    var s := Quad(a, b, 0)[..3] + "=";
    assert s[3] == '=' && Value(s[2]) >= 0 && s[2..][0] == s[2];
    assert [a, b, 0][..2] == [a, b];
  }

  lemma {:induction false} ThreeBytes(a: Byte, b: Byte, c: Byte, rest: string)
    requires DecodeGroups(rest).Some?
    ensures DecodeGroups(Quad(a, b, c) + rest) == Some([a, b, c] + DecodeGroups(rest).value)
  {
    UnquadQuad(a, b, c);
    QuadIsInAlphabet(a, b, c);
    var q, s := Quad(a, b, c), Quad(a, b, c) + rest;
    assert s[0] == q[0] && s[1] == q[1] && s[2] == q[2] && s[3] == q[3] && s[4..] == rest;
    assert s[2..][0] == s[2] != '=';
  }

  lemma {:induction false} GroupsRoundTrip(b: seq<Byte>)
    ensures DecodeGroups(EncodePadded(b)) == Some(b)
  {
    if |b| == 1 {
      OneByte(b[0]);
      assert b == [b[0]];
    } else if |b| == 2 {
      TwoBytes(b[0], b[1]);
      assert b == [b[0], b[1]];
    } else if |b| >= 3 {
      GroupsRoundTrip(b[3..]);
      ThreeBytes(b[0], b[1], b[2], EncodePadded(b[3..]));
      assert [b[0], b[1], b[2]] + b[3..] == b;
    }
  }

  /** Decoding undoes encoding, for every byte sequence. */
  lemma {:induction false} RoundTrip(b: seq<Byte>)
    ensures Decode(Encode(b)) == Some(b)
  {
    EncodeIsRaw(b);
    RawIsInAlphabet(b);
    RawLength(b);
    var s := EncodePadded(b);
    assert forall i :: 0 <= i < |Raw(b)| ==> Value(Raw(b)[i]) >= 0;
    NothingToStrip(s);
    GroupsRoundTrip(b);
  }

  /** The alphabet of section 5 of RFC 4648: A to Z, a to z, 0 to 9, '-' and '_', in that order. */
  lemma {:induction false} AlphabetRuns(v: int)
    ensures Digit(0) == 'A' && Digit(25) == 'Z' && Digit(26) == 'a' && Digit(51) == 'z'
    ensures Digit(52) == '0' && Digit(61) == '9' && Digit(62) == '-' && Digit(63) == '_'
    ensures 0 <= v < 61 && v != 25 && v != 51 ==> Digit(v + 1) as int == Digit(v) as int + 1
  {
  }

  /** Exactly its characters have a value. */
  lemma {:induction false} ValuesAreDigits(c: char)
    ensures Value(c) >= 0 <==> exists v :: 0 <= v < 64 && Digit(v) == c
  {
    if Value(c) >= 0 {
      DigitOfValue(c);
    }
  }

  /** Vectors of section 10 of RFC 4648, without their padding: "f", "fo" and "foo". */
  lemma {:induction false} VectorOfOne()
    ensures Encode([102]) == "Zg"
  {
    EncodeIsRaw([102]);
    QuadOf(102, 0, 0, 25, 32, 0, 0);
  }

  lemma {:induction false} VectorOfTwo()
    ensures Encode([102, 111]) == "Zm8"
  {
    EncodeIsRaw([102, 111]);
    QuadOf(102, 111, 0, 25, 38, 60, 0);
  }

  lemma {:induction false} VectorOfThree()
    ensures Encode([102, 111, 111]) == "Zm9v"
  {
    EncodeIsRaw([102, 111, 111]);
    QuadOf(102, 111, 111, 25, 38, 61, 47);
    assert [102, 111, 111][3..] == [];
  }

  // ---------------------------------------------------------------- what is decoded at all

  /** Characters of the alphabet and then the given padding. */
  ghost predicate EndsIn(s: string, pad: string) {
    |pad| <= |s| && InAlphabet(s[..|s| - |pad|]) && s[|s| - |pad|..] == pad
  }

  /** Whole groups of four, in the alphabet, the last of which may end in one or two '='. */
  ghost predicate WellPadded(s: string) {
    |s| % 4 == 0 && (EndsIn(s, "") || EndsIn(s, "=") || EndsIn(s, "=="))
  }

  lemma {:induction false} FourDigits(s: string)
    requires |s| == 4
    ensures InAlphabet(s) <==> Value(s[0]) >= 0 && Value(s[1]) >= 0 && Value(s[2]) >= 0 && Value(s[3]) >= 0
  {
  }

  lemma {:induction false} DecodesGroupMore(s: string)
    requires |s| > 4
    ensures DecodeGroups(s).Some? <==> InAlphabet(s[..4]) && DecodeGroups(s[4..]).Some?
  {
    var q := s[..4];
    FourDigits(q);
    assert q[0] == s[0] && q[1] == s[1] && q[2] == s[2] && q[3] == s[3];
  }

  lemma {:induction false} GroupsDecodeIff(s: string)
    ensures DecodeGroups(s).Some? <==> WellPadded(s)
  {
    if |s| < 4 {
    } else if |s| == 4 {
      OneGroupDecodesIff(s);
    } else {
      GroupsDecodeIff(s[4..]);
      DecodesGroupMore(s);
      OneGroupMore(s);
    }
  }

  lemma {:induction false} OneGroupDecodesIff(s: string)
    requires |s| == 4
    ensures DecodeGroups(s).Some? <==> WellPadded(s)
  {
    assert s[4..] == "";
    assert s[2..] == "==" <==> s[2] == '=' && s[3] == '=';
  }

  lemma {:induction false} AlphabetSplits(whole: string, a: string, b: string)
    requires whole == a + b
    ensures InAlphabet(whole) <==> InAlphabet(a) && InAlphabet(b)
  {
    if InAlphabet(whole) {
      forall i | 0 <= i < |a| ensures Value(a[i]) >= 0 {
        assert whole[i] == a[i];
      }
      forall i | 0 <= i < |b| ensures Value(b[i]) >= 0 {
        assert whole[|a| + i] == b[i];
      }
    }
  }

  lemma {:induction false} EndsLater(s: string, q: string, r: string, pad: string)
    requires s == q + r && |pad| <= |r|
    ensures EndsIn(s, pad) <==> InAlphabet(q) && EndsIn(r, pad)
  {
    var n := |s| - |pad|;
    AlphabetSplits(s[..n], q, r[..|r| - |pad|]);
    assert s[n..] == r[|r| - |pad|..];
  }

  lemma {:induction false} OneGroupMore(s: string)
    requires |s| > 4
    ensures WellPadded(s) <==> InAlphabet(s[..4]) && WellPadded(s[4..])
  {
    var q, r := s[..4], s[4..];
    assert |s| % 4 == |r| % 4;
    if |r| >= 2 {
      EndsLater(s, q, r, "");
      EndsLater(s, q, r, "=");
      EndsLater(s, q, r, "==");
    }
  }

  /** A text decodes if and only if, padded by its length and with line breaks left out, it is well padded;
      so stray bits and padding that is already there are let through. */
  lemma {:induction false} DecodesIff(s: string)
    ensures Decode(s).Some? <==> WellPadded(WithoutBreaks(s + Padding(|s|)))
  {
    GroupsDecodeIff(WithoutBreaks(s + Padding(|s|)));
  }

  // ---------------------------------------------------------------- canonical texts

  /** No stray bits in the last digit of an incomplete group. */
  ghost predicate CleanEnd(s: string) {
    && (|s| % 4 == 2 ==> Value(s[|s| - 1]) % 16 == 0)
    && (|s| % 4 == 3 ==> Value(s[|s| - 1]) % 4 == 0)
  }

  /** Only alphabet characters, a possible length, and no stray bits. */
  ghost predicate Canonical(s: string) {
    InAlphabet(s) && |s| % 4 != 1 && CleanEnd(s)
  }

  lemma {:induction false} SextetsOfBytes(v0: int, v1: int, v2: int, v3: int)
    requires 0 <= v0 < 64 && 0 <= v1 < 64 && 0 <= v2 < 64 && 0 <= v3 < 64
    ensures var a, b, c := v0 * 4 + v1 / 16, v1 % 16 * 16 + v2 / 4, v2 % 4 * 64 + v3;
      a / 4 == v0 && a % 4 * 16 + b / 16 == v1 && b % 16 * 4 + c / 64 == v2 && c % 64 == v3
  {
    Pack(v0, v1 / 16, 4);
    Pack(v1 % 16, v2 / 4, 16);
    Pack(v2 % 4, v3, 64);
  }

  lemma QuadOf(a: Byte, b: Byte, c: Byte, v0: int, v1: int, v2: int, v3: int)
    requires 0 <= v0 < 64 && 0 <= v1 < 64 && 0 <= v2 < 64 && 0 <= v3 < 64
    requires a / 4 == v0 && a % 4 * 16 + b / 16 == v1 && b % 16 * 4 + c / 64 == v2 && c % 64 == v3
    ensures Quad(a, b, c) == [Digit(v0), Digit(v1), Digit(v2), Digit(v3)]
  {
  }

  lemma {:induction false} QuadUnquad(v0: int, v1: int, v2: int, v3: int)
    requires 0 <= v0 < 64 && 0 <= v1 < 64 && 0 <= v2 < 64 && 0 <= v3 < 64
    ensures var u := Unquad(v0, v1, v2, v3);
      Quad(u[0], u[1], u[2]) == [Digit(v0), Digit(v1), Digit(v2), Digit(v3)]
  {
    SextetsOfBytes(v0, v1, v2, v3);
    var u := Unquad(v0, v1, v2, v3);
    QuadOf(u[0], u[1], u[2], v0, v1, v2, v3);
  }

  lemma {:induction false} OneByteEnds(a: Byte)
    ensures CleanEnd(Quad(a, 0, 0)[..2])
  {
    Pack(a % 4, 0, 16);
  }

  lemma {:induction false} TwoBytesEnd(a: Byte, b: Byte)
    ensures CleanEnd(Quad(a, b, 0)[..3])
  {
    Pack(b % 16, 0, 4);
  }

  lemma {:induction false} GroupKeepsEnd(q: string, r: string)
    requires |q| == 4 && CleanEnd(r)
    ensures CleanEnd(q + r)
  {
    PaddingRepeats(|r|);
    assert r != "" ==> (q + r)[|q + r| - 1] == r[|r| - 1];
  }

  lemma {:induction false} RawEndsClean(b: seq<Byte>)
    ensures CleanEnd(Raw(b))
  {
    if |b| == 1 {
      OneByteEnds(b[0]);
    } else if |b| == 2 {
      TwoBytesEnd(b[0], b[1]);
    } else if |b| >= 3 {
      RawEndsClean(b[3..]);
      GroupKeepsEnd(Quad(b[0], b[1], b[2]), Raw(b[3..]));
    }
  }

  lemma {:induction false} RawIsCanonical(b: seq<Byte>)
    ensures Canonical(Raw(b))
  {
    RawIsInAlphabet(b);
    RawLength(b);
    RawEndsClean(b);
  }

  lemma {:induction false} DigitsOfValues(s: string)
    requires InAlphabet(s)
    ensures forall i :: 0 <= i < |s| ==> Digit(Value(s[i])) == s[i]
  {
    forall i | 0 <= i < |s| ensures Digit(Value(s[i])) == s[i] {
      DigitOfValue(s[i]);
    }
  }

  lemma {:induction false} TwoDigitsAreRaw(s: string) returns (b: seq<Byte>)
    requires Canonical(s) && |s| == 2
    ensures Raw(b) == s
  {
    DigitsOfValues(s);
    QuadUnquad(Value(s[0]), Value(s[1]), 0, 0);
    var u := Unquad(Value(s[0]), Value(s[1]), 0, 0);
    assert u == [u[0], 0, 0];
    b := [u[0]];
  }

  lemma {:induction false} ThreeDigitsAreRaw(s: string) returns (b: seq<Byte>)
    requires Canonical(s) && |s| == 3
    ensures Raw(b) == s
  {
    DigitsOfValues(s);
    QuadUnquad(Value(s[0]), Value(s[1]), Value(s[2]), 0);
    var u := Unquad(Value(s[0]), Value(s[1]), Value(s[2]), 0);
    assert u == [u[0], u[1], 0];
    b := [u[0], u[1]];
  }

  lemma {:induction false} GroupIsRaw(s: string, rest: seq<Byte>) returns (b: seq<Byte>)
    requires |s| == 4 && InAlphabet(s)
    ensures Raw(b) == s + Raw(rest)
  {
    DigitsOfValues(s);
    QuadUnquad(Value(s[0]), Value(s[1]), Value(s[2]), Value(s[3]));
    b := Unquad(Value(s[0]), Value(s[1]), Value(s[2]), Value(s[3])) + rest;
    assert b[3..] == rest;
  }

  lemma {:induction false} CanonicalIsRaw(s: string) returns (b: seq<Byte>)
    requires Canonical(s)
    ensures Raw(b) == s
  {
    if |s| == 0 {
      b := [];
    } else if |s| == 2 {
      b := TwoDigitsAreRaw(s);
    } else if |s| == 3 {
      b := ThreeDigitsAreRaw(s);
    } else {
      assert s[4..] != "" ==> s[4..][|s| - 5] == s[|s| - 1];
      var rest := CanonicalIsRaw(s[4..]);
      b := GroupIsRaw(s[..4], rest);
      assert s == s[..4] + s[4..];
    }
  }

  /** A text decodes, and encodes back to itself, exactly when it is canonical. */
  lemma {:induction false} ReencodesIff(s: string)
    ensures Decode(s).Some? && Encode(Decode(s).value) == s <==> Canonical(s)
  {
    if Canonical(s) {
      var b := CanonicalIsRaw(s);
      EncodeIsRaw(b);
      RoundTrip(b);
    }
    if Decode(s).Some? && Encode(Decode(s).value) == s {
      EncodeIsRaw(Decode(s).value);
      RawIsCanonical(Decode(s).value);
    }
  }
}
