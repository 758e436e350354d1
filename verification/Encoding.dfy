/** UTF-8 and UTF-16 on bytes.  Masks and shifts of the source are written as % and /. */
module Encoding {
  import opened Options

  type Byte = n: nat | n < 256
  type Bytes = seq<Byte>

  /** A Unicode scalar value. */
  type Scalar = c: nat | c < 0x11_0000 && !(0xD800 <= c <= 0xDFFF)

  // ---------------------------------------------------------------- UTF-8 by its grammar

  predicate Tail(b: Byte) {
    0x80 <= b <= 0xBF
  }

  /** UTF8-1 to UTF8-4 of section 4 of RFC 3629: the first `n` bytes are one character. */
  predicate IsChar(s: Bytes, n: nat) {
    1 <= n <= 4 && n <= |s| &&
    match n
    case 1 => s[0] <= 0x7F
    case 2 => 0xC2 <= s[0] <= 0xDF && Tail(s[1])
    case 3 =>
      && Tail(s[2])
      && (  (s[0] == 0xE0 && 0xA0 <= s[1] <= 0xBF)
         || (0xE1 <= s[0] <= 0xEC && Tail(s[1]))
         || (s[0] == 0xED && 0x80 <= s[1] <= 0x9F)
         || (0xEE <= s[0] <= 0xEF && Tail(s[1])))
    case _ =>
      && Tail(s[2]) && Tail(s[3])
      && (  (s[0] == 0xF0 && 0x90 <= s[1] <= 0xBF)
         || (0xF1 <= s[0] <= 0xF3 && Tail(s[1]))
         || (s[0] == 0xF4 && 0x80 <= s[1] <= 0x8F))
  }

  /** The length of the character at the front, 0 when there is none. */
  function CharLength(s: Bytes): (n: nat)
    ensures n > 0 ==> IsChar(s, n)
    ensures n == 0 ==> forall m :: !IsChar(s, m)
  {
    if IsChar(s, 1) then 1 else if IsChar(s, 2) then 2 else if IsChar(s, 3) then 3 else if IsChar(s, 4) then 4 else 0
  }

  function LeadLength(b: Byte): nat {
    if b < 0x80 then 1
    else if 0xC2 <= b <= 0xDF then 2
    else if 0xE0 <= b <= 0xEF then 3
    else if 0xF0 <= b <= 0xF4 then 4
    else 0
  }

  function LeadBits(b: Byte): nat {
    match LeadLength(b)
    case 1 => b
    case 2 => b % 32
    case 3 => b % 16
    case _ => b % 8
  }

  /** The code point accumulated from the first `n` bytes. */
  function Accumulated(s: Bytes, n: nat): nat
    requires 1 <= n <= |s|
  {
    if n == 1 then LeadBits(s[0]) else Accumulated(s, n - 1) * 64 + s[n - 1] % 64
  }

  predicate InLengthRange(length: nat, codepoint: nat) {
    && !(length == 3 && codepoint < 0x800) && !(length == 4 && codepoint < 0x1_0000)
    && !(0xD800 <= codepoint <= 0xDFFF) && codepoint <= 0x10_FFFF
  }

  lemma LeadBitsIs(b: Byte)
    ensures LeadLength(b) == 1 ==> LeadBits(b) == b
    ensures LeadLength(b) == 2 ==> LeadBits(b) == b as int - 0xC0
    ensures LeadLength(b) == 3 ==> LeadBits(b) == b as int - 0xE0
    ensures LeadLength(b) == 4 ==> LeadBits(b) == b as int - 0xF0
  {
  }

  lemma TailBits(b: Byte)
    requires Tail(b)
    ensures b % 64 == b as int - 0x80
  {
  }

  /** With tail bytes in place, the accumulated value is the one the bytes spell out. */
  lemma AccumulatedIs(s: Bytes)
    requires s != [] && LeadLength(s[0]) <= |s| && forall i | 1 <= i < LeadLength(s[0]) :: Tail(s[i])
    ensures var n := LeadLength(s[0]);
      && (n == 1 ==> Accumulated(s, 1) == s[0])
      && (n == 2 ==> Accumulated(s, 2) == (s[0] as int - 0xC0) * 64 + (s[1] as int - 0x80))
      && (n == 3 ==>
        Accumulated(s, 3) == ((s[0] as int - 0xE0) * 64 + (s[1] as int - 0x80)) * 64 + (s[2] as int - 0x80))
      && (n == 4 ==> Accumulated(s, 4)
                     == (((s[0] as int - 0xF0) * 64 + (s[1] as int - 0x80)) * 64 + (s[2] as int - 0x80)) * 64
                        + (s[3] as int - 0x80))
  {
    hide LeadBits, Tail;
    var n := LeadLength(s[0]);
    LeadBitsIs(s[0]);
    if n >= 2 {
      TailBits(s[1]);
      assert Accumulated(s, 2) == LeadBits(s[0]) * 64 + (s[1] as int - 0x80);
    }
    if n >= 3 {
      TailBits(s[2]);
      assert Accumulated(s, 3) == Accumulated(s, 2) * 64 + (s[2] as int - 0x80);
    }
    if n >= 4 {
      TailBits(s[3]);
      assert Accumulated(s, 4) == Accumulated(s, 3) * 64 + (s[3] as int - 0x80);
    }
  }

  predicate Accepted(s: Bytes) {
    s != [] &&
    var n := LeadLength(s[0]);
    0 < n <= |s| && (forall i | 1 <= i < n :: Tail(s[i])) && InLengthRange(n, Accumulated(s, n))
  }

  /** Checking tails and then ranges accepts exactly the grammar. */
  lemma RangesAreGrammar(s: Bytes)
    ensures Accepted(s) <==> CharLength(s) > 0
    ensures CharLength(s) > 0 ==> CharLength(s) == LeadLength(s[0])
  {
    if s != [] && LeadLength(s[0]) <= |s| && forall i | 1 <= i < LeadLength(s[0]) :: Tail(s[i]) {
      AccumulatedIs(s);
    }
  }

  method Utf8Sequence(value: Bytes, offset: nat) returns (length: nat)
    requires offset < |value|
    ensures length == CharLength(value[offset..])
  {
    ghost var s := value[offset..];
    RangesAreGrammar(s);
    var first: nat := value[offset];
    if first < 0x80 {
      return 1;
    }
    var codepoint: nat := 0;
    if 0xC2 <= first <= 0xDF {
      length, codepoint := 2, first % 32;
    } else if 0xE0 <= first <= 0xEF {
      length, codepoint := 3, first % 16;
    } else if 0xF0 <= first <= 0xF4 {
      length, codepoint := 4, first % 8;
    } else {
      return 0;
    }
    if offset + length > |value| {
      return 0;
    }
    for index := 1 to length
      invariant codepoint == Accumulated(s, index)
      invariant forall i | 1 <= i < index :: Tail(s[i])
    {
      var next: nat := value[offset + index];
      assert next == s[index];
      if next / 64 != 2 {
        assert !Tail(s[index]);
        return 0;
      }
      codepoint := codepoint * 64 + next % 64;
    }
    if (length == 3 && codepoint < 0x800) || (length == 4 && codepoint < 0x1_0000)
       || 0xD800 <= codepoint <= 0xDFFF || codepoint > 0x10_FFFF {
      return 0;
    }
  }

  // ---------------------------------------------------------------- UTF-8 by its encoder

  function Encode(c: nat): Bytes
    requires c < 0x11_0000
  {
    if c <= 0x7F then [c]
    else if c <= 0x7FF then [0xC0 + c / 64, 0x80 + c % 64]
    else if c <= 0xFFFF then [0xE0 + c / 4096, 0x80 + c / 64 % 64, 0x80 + c % 64]
    else [0xF0 + c / 262144, 0x80 + c / 4096 % 64, 0x80 + c / 64 % 64, 0x80 + c % 64]
  }

  method AppendUtf8(output: Bytes, value: nat) returns (appended: Bytes)
    requires value < 0x11_0000
    ensures appended == output + Encode(value)
  {
    appended := output;
    if value <= 0x7F {
      appended := appended + [value];
    } else if value <= 0x7FF {
      appended := appended + [0xC0 + value / 64];
      appended := appended + [0x80 + value % 64];
    } else if value <= 0xFFFF {
      appended := appended + [0xE0 + value / 4096];
      appended := appended + [0x80 + value / 64 % 64];
      appended := appended + [0x80 + value % 64];
    } else {
      appended := appended + [0xF0 + value / 262144];
      appended := appended + [0x80 + value / 4096 % 64];
      appended := appended + [0x80 + value / 64 % 64];
      appended := appended + [0x80 + value % 64];
    }
  }

  function EncodeAll(cs: seq<Scalar>): Bytes {
    if cs == [] then [] else Encode(cs[0]) + EncodeAll(cs[1..])
  }

  lemma {:induction false} EncodeAllAppend(cs: seq<Scalar>, c: Scalar)
    ensures EncodeAll(cs + [c]) == EncodeAll(cs) + Encode(c)
  {
    if cs != [] {
      assert (cs + [c])[1..] == cs[1..] + [c];
      EncodeAllAppend(cs[1..], c);
    }
  }

  function DecodeChar(s: Bytes): (c: Scalar)
    requires CharLength(s) > 0
  {
    RangesAreGrammar(s);
    Accumulated(s, CharLength(s))
  }

  /** The base 64 digits of a code point. */
  lemma Digits(a: nat, x: nat, y: nat, z: nat)
    requires x < 64 && y < 64 && z < 64
    ensures (a * 64 + x) / 64 == a && (a * 64 + x) % 64 == x
    ensures var c := (a * 64 + x) * 64 + y; c / 4096 == a && c / 64 % 64 == x && c % 64 == y
    ensures var c := ((a * 64 + x) * 64 + y) * 64 + z;
      c / 262144 == a && c / 4096 % 64 == x && c / 64 % 64 == y && c % 64 == z
  {
  }

  lemma Split64(c: nat)
    ensures c / 64 / 64 == c / 4096 && c / 64 / 64 / 64 == c / 262144
  {
    assert c == c / 64 * 64 + c % 64;
    assert c / 4096 == c / 64 / 64;
    assert c / 262144 == c / 4096 / 64;
  }

  lemma Recompose(c: nat)
    ensures c == c / 64 * 64 + c % 64
    ensures c == (c / 4096 * 64 + c / 64 % 64) * 64 + c % 64
    ensures c == ((c / 262144 * 64 + c / 4096 % 64) * 64 + c / 64 % 64) * 64 + c % 64
  {
    Split64(c);
    var d := c / 64;
    assert d == d / 64 * 64 + d % 64;
  }

  /** The encoding of a scalar value has the shape the decoder looks for. */
  lemma EncodeShape(c: Scalar, tail: Bytes)
    ensures var s := Encode(c) + tail; var n := |Encode(c)|;
      LeadLength(s[0]) == n && forall i | 1 <= i < n :: Tail(s[i])
  {
    var s := Encode(c) + tail;
    assert forall i | 0 <= i < |Encode(c)| :: s[i] == Encode(c)[i];
  }

  /** What the encoder writes is read back as one character, whatever follows. */
  lemma EncodeIsChar(c: Scalar, tail: Bytes)
    ensures CharLength(Encode(c) + tail) == |Encode(c)|
    ensures DecodeChar(Encode(c) + tail) == c
  {
    var s := Encode(c) + tail;
    var n := |Encode(c)|;
    EncodeShape(c, tail);
    AccumulatedIs(s);
    Recompose(c);
    assert Accumulated(s, n) == c;
    RangesAreGrammar(s);
  }

  lemma EncodeTwo(a: Byte, b: Byte)
    requires 0xC2 <= a <= 0xDF && Tail(b)
    ensures Encode((a as int - 0xC0) * 64 + (b as int - 0x80)) == [a, b]
  {
    Digits(a as int - 0xC0, b as int - 0x80, 0, 0);
  }

  lemma EncodeThree(a: Byte, b: Byte, d: Byte)
    requires 0xE0 <= a <= 0xEF && Tail(b) && Tail(d) && (a == 0xE0 ==> b >= 0xA0)
    ensures Encode(((a as int - 0xE0) * 64 + (b as int - 0x80)) * 64 + (d as int - 0x80)) == [a, b, d]
  {
    Digits(a as int - 0xE0, b as int - 0x80, d as int - 0x80, 0);
  }

  lemma EncodeFour(a: Byte, b: Byte, d: Byte, e: Byte)
    requires 0xF0 <= a <= 0xF4 && Tail(b) && Tail(d) && Tail(e)
    requires (a == 0xF0 ==> b >= 0x90) && (a == 0xF4 ==> b <= 0x8F)
    ensures Encode((((a as int - 0xF0) * 64 + (b as int - 0x80)) * 64 + (d as int - 0x80)) * 64 + (e as int - 0x80))
            == [a, b, d, e]
  {
    Digits(a as int - 0xF0, b as int - 0x80, d as int - 0x80, e as int - 0x80);
  }

  /** A character of the grammar is the encoding of its code point: no overlong forms. */
  lemma CharIsEncode(s: Bytes)
    requires CharLength(s) > 0
    ensures Encode(DecodeChar(s)) == s[..CharLength(s)]
  {
    RangesAreGrammar(s);
    AccumulatedIs(s);
    var n := CharLength(s);
    if n == 2 {
      EncodeTwo(s[0], s[1]);
    } else if n == 3 {
      EncodeThree(s[0], s[1], s[2]);
    } else if n == 4 {
      EncodeFour(s[0], s[1], s[2], s[3]);
    }
  }

  // ---------------------------------------------------------------- valid_utf8

  /** UTF8-octets of section 4 of RFC 3629: a sequence of characters of the grammar. */
  predicate WellFormed(s: Bytes)
    decreases |s|
  {
    s == [] || exists n | 1 <= n <= 4 && n <= |s| :: IsChar(s, n) && WellFormed(s[n..])
  }

  /** The scalar values of `s`, or None at the first byte that starts no character. */
  function Parse(s: Bytes): Option<seq<Scalar>>
    decreases |s|
  {
    if s == [] then Some([])
    else if CharLength(s) == 0 then None
    else match Parse(s[CharLength(s)..])
      case None => None
      case Some(rest) => Some([DecodeChar(s)] + rest)
  }

  lemma {:induction false} ParseFindsGrammar(s: Bytes)
    ensures WellFormed(s) <==> Parse(s).Some?
    decreases |s|
  {
    forall n | 1 <= n <= 4 && n <= |s| ensures WellFormed(s[n..]) <==> Parse(s[n..]).Some? {
      ParseFindsGrammar(s[n..]);
    }
    if s != [] && CharLength(s) > 0 {
      assert forall n | IsChar(s, n) :: n == CharLength(s);
    }
  }

  lemma {:induction false} ParseEncodes(s: Bytes)
    requires Parse(s).Some?
    ensures EncodeAll(Parse(s).value) == s
    decreases |s|
  {
    hide CharLength, DecodeChar, Encode;
    if s != [] {
      var n := CharLength(s);
      CharIsEncode(s);
      ParseEncodes(s[n..]);
      assert Parse(s).value[1..] == Parse(s[n..]).value;
      assert s == s[..n] + s[n..];
    }
  }

  lemma {:induction false} EncodeParses(cs: seq<Scalar>)
    ensures Parse(EncodeAll(cs)) == Some(cs)
  {
    hide CharLength, DecodeChar;
    if cs != [] {
      var tail := EncodeAll(cs[1..]);
      EncodeIsChar(cs[0], tail);
      EncodeParses(cs[1..]);
      var n := |Encode(cs[0])|;
      assert EncodeAll(cs)[n..] == tail;
      assert cs == [cs[0]] + cs[1..];
    }
  }

  /** The grammar describes exactly what the encoder can write. */
  lemma WellFormedIffEncoded(s: Bytes)
    ensures WellFormed(s) <==> exists cs: seq<Scalar> :: s == EncodeAll(cs)
  {
    ParseFindsGrammar(s);
    if Parse(s).Some? {
      ParseEncodes(s);
      assert s == EncodeAll(Parse(s).value);
    }
    forall cs: seq<Scalar> | s == EncodeAll(cs) ensures WellFormed(s) {
      EncodeParses(cs);
    }
  }

  lemma EncodeAllIsInjective(cs: seq<Scalar>, ds: seq<Scalar>)
    requires EncodeAll(cs) == EncodeAll(ds)
    ensures cs == ds
  {
    EncodeParses(cs);
    EncodeParses(ds);
  }

  lemma ParseStep(value: Bytes, offset: nat)
    requires offset < |value|
    ensures var n := CharLength(value[offset..]);
      && offset + n <= |value|
      && (Parse(value[offset..]).Some? <==> n > 0 && Parse(value[offset + n..]).Some?)
  {
    var s := value[offset..];
    assert s[CharLength(s)..] == value[offset + CharLength(s)..];
  }

  lemma NothingParses()
    ensures Parse([]).Some?
  {
  }

  method ValidUtf8(value: Bytes) returns (valid: bool)
    ensures valid <==> WellFormed(value)
  {
    hide Parse, CharLength, IsChar, WellFormed;
    ParseFindsGrammar(value);
    NothingParses();
    var offset := 0;
    assert value[0..] == value;
    while offset < |value|
      invariant offset <= |value|
      invariant Parse(value[offset..]).Some? <==> Parse(value).Some?
    {
      var length := Utf8Sequence(value, offset);
      ParseStep(value, offset);
      if length == 0 {
        return false;
      }
      offset := offset + length;
    }
    assert value[offset..] == [];
    return true;
  }

  // ---------------------------------------------------------------- utf8_lossy

  const REPLACEMENT: Bytes := [0xEF, 0xBF, 0xBD]

  function Lossy(s: Bytes): Bytes
    decreases |s|
  {
    if s == [] then []
    else if CharLength(s) == 0 then REPLACEMENT + Lossy(s[1..])
    else s[..CharLength(s)] + Lossy(s[CharLength(s)..])
  }

  lemma LossySkips(s: Bytes)
    requires s != [] && CharLength(s) == 0
    ensures Lossy(s) == REPLACEMENT + Lossy(s[1..])
  {
  }

  lemma LossyStep(value: Bytes, offset: nat, output: Bytes)
    requires offset < |value|
    ensures var n := CharLength(value[offset..]);
      && offset + n <= |value|
      && output + Lossy(value[offset..])
         == if n == 0 then (output + REPLACEMENT) + Lossy(value[offset + 1..])
            else (output + value[offset..offset + n]) + Lossy(value[offset + n..])
  {
    hide Lossy;
    var s := value[offset..];
    var n := CharLength(s);
    hide CharLength, IsChar;
    if n == 0 {
      LossySkips(s);
      assert s[1..] == value[offset + 1..];
    } else {
      LossyUnfolds(s, n);
      assert s[n..] == value[offset + n..] && s[..n] == value[offset..offset + n];
    }
  }

  method Utf8Lossy(value: Bytes) returns (output: Bytes)
    ensures output == Lossy(value)
  {
    output := [];
    var offset := 0;
    assert value[0..] == value;
    while offset < |value|
      invariant offset <= |value|
      invariant output + Lossy(value[offset..]) == Lossy(value)
    {
      var length := Utf8Sequence(value, offset);
      LossyStep(value, offset, output);
      if length == 0 {
        output := output + REPLACEMENT;
        offset := offset + 1;
      } else {
        output := output + value[offset..offset + length];
        offset := offset + length;
      }
    }
  }

  /** A character in front of well-formed text leaves well-formed text. */
  lemma CharBeforeText(c: Scalar, text: Bytes)
    requires WellFormed(text)
    ensures WellFormed(Encode(c) + text)
  {
    EncodeIsChar(c, text);
    var s := Encode(c) + text;
    assert s[CharLength(s)..] == text;
  }

  /** Whatever the input, the repaired text is well formed. */
  lemma {:induction false} LossyIsWellFormed(s: Bytes)
    ensures WellFormed(Lossy(s))
    decreases |s|
  {
    if s != [] {
      var n := CharLength(s);
      if n == 0 {
        LossyIsWellFormed(s[1..]);
        assert Encode(0xFFFD) == REPLACEMENT;
        CharBeforeText(0xFFFD, Lossy(s[1..]));
      } else {
        LossyIsWellFormed(s[n..]);
        CharIsEncode(s);
        CharBeforeText(DecodeChar(s), Lossy(s[n..]));
      }
    }
  }

  lemma {:induction false} LossyKeepsParsed(s: Bytes)
    requires Parse(s).Some?
    ensures Lossy(s) == s
    decreases |s|
  {
    if s != [] {
      LossyKeepsParsed(s[CharLength(s)..]);
    }
  }

  /** The repair changes nothing exactly when there is nothing to repair, so repairing twice is repairing once. */
  lemma LossyIsIdentityExactlyOnValid(s: Bytes)
    ensures Lossy(s) == s <==> WellFormed(s)
    ensures Lossy(Lossy(s)) == Lossy(s)
  {
    LossyIsWellFormed(s);
    ParseFindsGrammar(Lossy(s));
    LossyKeepsParsed(Lossy(s));
    if WellFormed(s) {
      ParseFindsGrammar(s);
      LossyKeepsParsed(s);
    }
  }

  lemma CharStays(text: Bytes, tail: Bytes)
    requires CharLength(text) > 0
    ensures CharLength(text + tail) == CharLength(text)
  {
    assert forall i | 0 <= i < |text| :: (text + tail)[i] == text[i];
  }

  /** The repair of text that begins with a character keeps it. */
  lemma LossyUnfolds(s: Bytes, n: nat)
    requires n == CharLength(s) > 0
    ensures Lossy(s) == s[..n] + Lossy(s[n..])
  {
  }

  lemma ParsedUnfolds(s: Bytes)
    requires s != [] && Parse(s).Some?
    ensures 0 < CharLength(s) <= |s| && Parse(s[CharLength(s)..]).Some?
  {
  }

  lemma {:induction false} LossyKeepsFront(text: Bytes, tail: Bytes)
    requires Parse(text).Some?
    ensures Lossy(text + tail) == text + Lossy(tail)
    decreases |text|
  {
    hide Lossy, CharLength, Parse;
    if text == [] {
      assert text + tail == tail;
    } else {
      var n, whole := CharLength(text), text + tail;
      ParsedUnfolds(text);
      CharStays(text, tail);
      LossyUnfolds(whole, n);
      var rest := text[n..];
      assert whole[n..] == rest + tail && whole[..n] == text[..n];
      LossyKeepsFront(rest, tail);
      KeepsTogether(text, n, Lossy(tail));
    }
  }

  lemma KeepsTogether(text: Bytes, n: nat, tail: Bytes)
    requires n <= |text|
    ensures text[..n] + (text[n..] + tail) == text + tail
  {
  }

  /** Behind well-formed text, a byte at which no character begins is replaced by U+FFFD, and the repair goes on with
      the next byte. */
  lemma LossyRepairs(text: Bytes, b: Byte, rest: Bytes)
    requires WellFormed(text) && forall n :: !IsChar([b] + rest, n)
    ensures Lossy(text + ([b] + rest)) == text + ([0xEF, 0xBF, 0xBD] + Lossy(rest))
  {
    ParseFindsGrammar(text);
    LossyKeepsFront(text, [b] + rest);
    assert CharLength([b] + rest) == 0 && ([b] + rest)[1..] == rest;
  }

  // ---------------------------------------------------------------- UTF-16

  type Unit = n: nat | n < 0x1_0000

  function UnitAt(s: Bytes, offset: nat, little: bool): Unit
    requires offset + 1 < |s|
  {
    var first: nat, second: nat := s[offset], s[offset + 1];
    if little then first + second * 256 else first * 256 + second
  }

  /** The code units a text holds in either byte order. */
  function UnitsOf(s: Bytes, little: bool): (units: seq<Unit>)
    requires |s| % 2 == 0
    ensures |units| == |s| / 2
  {
    seq(|s| / 2, i requires 0 <= i < |s| / 2 => UnitAt(s, 2 * i, little))
  }

  function ByteOf(u: Unit, k: nat, little: bool): Byte {
    if (k % 2 == 0) == little then u % 256 else u / 256
  }

  /** The bytes that write code units in either byte order. */
  function Serialized(units: seq<Unit>, little: bool): (s: Bytes)
    ensures |s| == 2 * |units|
  {
    seq(2 * |units|, k requires 0 <= k < 2 * |units| => ByteOf(units[k / 2], k, little))
  }

  lemma Halves(i: nat)
    ensures (2 * i) / 2 == i == (2 * i + 1) / 2 && (2 * i) % 2 == 0 && (2 * i + 1) % 2 == 1
  {
  }

  /** A code unit is read back from its two bytes. */
  lemma UnitReads(units: seq<Unit>, i: nat, little: bool)
    requires i < |units|
    ensures UnitAt(Serialized(units, little), 2 * i, little) == units[i]
  {
    var s, u := Serialized(units, little), units[i];
    Halves(i);
    assert s[2 * i] == ByteOf(u, 2 * i, little) == if little then u % 256 else u / 256;
    assert s[2 * i + 1] == ByteOf(u, 2 * i + 1, little) == if little then u / 256 else u % 256;
  }

  lemma SerializedReads(units: seq<Unit>, little: bool)
    ensures UnitsOf(Serialized(units, little), little) == units
  {
    hide Serialized, UnitAt;
    var s := Serialized(units, little);
    forall i | 0 <= i < |units| ensures UnitsOf(s, little)[i] == units[i] {
      UnitReads(units, i, little);
    }
  }

  /** A byte is written again from its code unit. */
  lemma ByteWrites(s: Bytes, i: nat, little: bool)
    requires 2 * i + 1 < |s|
    ensures ByteOf(UnitAt(s, 2 * i, little), 2 * i, little) == s[2 * i]
    ensures ByteOf(UnitAt(s, 2 * i, little), 2 * i + 1, little) == s[2 * i + 1]
  {
    Halves(i);
  }

  lemma UnitsSerialize(s: Bytes, little: bool)
    requires |s| % 2 == 0
    ensures Serialized(UnitsOf(s, little), little) == s
  {
    hide ByteOf, UnitAt;
    var units := UnitsOf(s, little);
    forall k | 0 <= k < |s| ensures Serialized(units, little)[k] == s[k] {
      var i := k / 2;
      assert k == 2 * i || k == 2 * i + 1;
      ByteWrites(s, i, little);
    }
  }

  /** Section 2.1 of RFC 2781. */
  function Units(c: Scalar): seq<Unit> {
    if c < 0x1_0000 then [c]
    else [0xD800 + (c - 0x1_0000) / 0x400, 0xDC00 + (c - 0x1_0000) % 0x400]
  }

  function AllUnits(cs: seq<Scalar>): seq<Unit> {
    if cs == [] then [] else Units(cs[0]) + AllUnits(cs[1..])
  }

  /** The UTF-16 text of a list of scalar values. */
  function Utf16(cs: seq<Scalar>, little: bool): Bytes {
    Serialized(AllUnits(cs), little)
  }

  datatype Failure = IncompleteUnit | IncompleteSurrogate | InvalidSurrogate | MalformedUtf8 | UnknownEncoding

  datatype Decoded<+T> = Decoded(value: T) | Failed(failure: Failure)

  function Paired(high: Unit, low: Unit): (c: Scalar)
    requires 0xD800 <= high <= 0xDBFF && 0xDC00 <= low <= 0xDFFF
    ensures Units(c) == [high, low]
  {
    0x1_0000 + (high - 0xD800) * 0x400 + (low - 0xDC00)
  }

  /** The character in front, or what is wrong there (section 2.2 of RFC 2781). */
  function Front16(units: seq<Unit>): (front: Decoded<Scalar>)
    requires units != []
    ensures front.Decoded? ==> Units(front.value) <= units
  {
    var high := units[0];
    if 0xD800 <= high <= 0xDBFF then
      if |units| < 2 then Failed(IncompleteSurrogate)
      else if 0xDC00 <= units[1] <= 0xDFFF then Decoded(Paired(high, units[1]))
      else Failed(InvalidSurrogate)
    else if 0xDC00 <= high <= 0xDFFF then Failed(InvalidSurrogate)
    else Decoded(high)
  }

  function Prepend(done: seq<Scalar>, rest: Decoded<seq<Scalar>>): Decoded<seq<Scalar>> {
    match rest
    case Failed(failure) => Failed(failure)
    case Decoded(cs) => Decoded(done + cs)
  }

  /** The scalar values of well-formed text, or the first failure. */
  function Scan16(units: seq<Unit>): Decoded<seq<Scalar>>
    decreases |units|
  {
    if units == [] then Decoded([])
    else match Front16(units)
      case Failed(failure) => Failed(failure)
      case Decoded(c) => Prepend([c], Scan16(units[|Units(c)|..]))
  }

  lemma {:induction false} ScanEncodes(units: seq<Unit>)
    requires Scan16(units).Decoded?
    ensures AllUnits(Scan16(units).value) == units
    decreases |units|
  {
    if units != [] {
      var c := Front16(units).value;
      var tail := units[|Units(c)|..];
      ScanEncodes(tail);
      var rest := Scan16(tail).value;
      assert Scan16(units).value == [c] + rest;
      assert ([c] + rest)[1..] == rest;
      assert units == Units(c) + tail;
    }
  }

  lemma Front16Reads(c: Scalar, tail: seq<Unit>)
    ensures Front16(Units(c) + tail) == Decoded(c)
  {
    if c >= 0x1_0000 {
      var d := c - 0x1_0000;
      assert d == d / 0x400 * 0x400 + d % 0x400;
      assert Paired(0xD800 + d / 0x400, 0xDC00 + d % 0x400) == c;
    }
  }

  lemma {:induction false} AllUnitsScan(cs: seq<Scalar>)
    ensures Scan16(AllUnits(cs)) == Decoded(cs)
  {
    if cs != [] {
      var tail := AllUnits(cs[1..]);
      AllUnitsScan(cs[1..]);
      Front16Reads(cs[0], tail);
      assert (Units(cs[0]) + tail)[|Units(cs[0])|..] == tail;
      assert cs == [cs[0]] + cs[1..];
    }
  }

  /** What decode_utf16 answers: the UTF-8 form of the scalar values, or the failure. */
  function Transcoded(input: Bytes, little: bool): Decoded<Bytes> {
    if |input| % 2 != 0 then Failed(IncompleteUnit)
    else match Scan16(UnitsOf(input, little))
      case Failed(failure) => Failed(failure)
      case Decoded(cs) => Decoded(EncodeAll(cs))
  }

  /** Decoding succeeds exactly on UTF-16 text, and then yields the UTF-8 form of the same scalar values. */
  lemma TranscodedIffUtf16(input: Bytes, little: bool)
    ensures Transcoded(input, little).Decoded? <==> exists cs: seq<Scalar> :: input == Utf16(cs, little)
    ensures forall cs: seq<Scalar> | input == Utf16(cs, little) ::
              Transcoded(input, little) == Decoded(EncodeAll(cs))
  {
    if Transcoded(input, little).Decoded? {
      var units := UnitsOf(input, little);
      ScanEncodes(units);
      UnitsSerialize(input, little);
      assert input == Utf16(Scan16(units).value, little);
    }
    forall cs: seq<Scalar> | input == Utf16(cs, little)
      ensures Transcoded(input, little) == Decoded(EncodeAll(cs))
    {
      SerializedReads(AllUnits(cs), little);
      AllUnitsScan(cs);
    }
  }

  /** The output is valid UTF-8, and its scalar values re-encode to the input. */
  lemma TranscodedRoundTrips(input: Bytes, little: bool)
    requires Transcoded(input, little).Decoded?
    ensures var text := Transcoded(input, little).value;
      WellFormed(text) && Parse(text).Some? && Utf16(Parse(text).value, little) == input
  {
    var units := UnitsOf(input, little);
    var cs := Scan16(units).value;
    ScanEncodes(units);
    UnitsSerialize(input, little);
    EncodeParses(cs);
    ParseFindsGrammar(EncodeAll(cs));
  }

  /** The scalar values read from the first `index` units are `done`. */
  ghost predicate ReadSoFar(units: seq<Unit>, index: nat, done: seq<Scalar>) {
    index <= |units| && Scan16(units) == Prepend(done, Scan16(units[index..]))
  }

  lemma ReadNothing(units: seq<Unit>)
    ensures ReadSoFar(units, 0, [])
  {
    assert units[0..] == units;
    if Scan16(units).Decoded? {
      assert [] + Scan16(units).value == Scan16(units).value;
    }
  }

  lemma ReadNext(units: seq<Unit>, index: nat, done: seq<Scalar>)
    requires ReadSoFar(units, index, done) && index < |units|
    ensures var front := Front16(units[index..]);
      if front.Failed? then Scan16(units) == Failed(front.failure)
      else ReadSoFar(units, index + |Units(front.value)|, done + [front.value])
  {
    var tail := units[index..];
    var front := Front16(tail);
    if front.Decoded? {
      var n := |Units(front.value)|;
      assert tail[n..] == units[index + n..];
      var rest := Scan16(tail[n..]);
      if rest.Decoded? {
        assert done + ([front.value] + rest.value) == (done + [front.value]) + rest.value;
      }
    }
  }

  lemma ReadAll(units: seq<Unit>, done: seq<Scalar>)
    requires ReadSoFar(units, |units|, done)
    ensures Scan16(units) == Decoded(done)
  {
    assert units[|units|..] == [];
    assert done + [] == done;
  }

  /** One pass of the decoding loop: the character at `offset` and its width in bytes. */
  method NextChar(input: Bytes, offset: nat, little: bool, ghost index: nat)
    returns (front: Decoded<Scalar>, width: nat)
    requires |input| % 2 == 0 && offset == 2 * index && offset < |input|
    ensures front == Front16(UnitsOf(input, little)[index..])
    ensures front.Decoded? ==> width == 2 * |Units(front.value)|
  {
    hide UnitAt;
    ghost var units := UnitsOf(input, little);
    var value := UnitAt(input, offset, little);
    assert value == units[index] == units[index..][0];
    if 0xD800 <= value <= 0xDBFF {
      if offset + 3 >= |input| {
        return Failed(IncompleteSurrogate), 0;
      }
      var low := UnitAt(input, offset + 2, little);
      assert low == units[index + 1] == units[index..][1];
      if low < 0xDC00 || low > 0xDFFF {
        return Failed(InvalidSurrogate), 0;
      }
      var pair: Scalar := 0x1_0000 + (value as int - 0xD800) * 0x400 + (low as int - 0xDC00);
      return Decoded(pair), 4;
    } else if 0xDC00 <= value <= 0xDFFF {
      return Failed(InvalidSurrogate), 0;
    }
    return Decoded(value), 2;
  }

  lemma EncodeNothing()
    ensures EncodeAll([]) == []
  {
  }

  method DecodeUtf16(input: Bytes, little: bool) returns (result: Decoded<Bytes>)
    ensures result == Transcoded(input, little)
  {
    hide EncodeAll, Encode, Front16, Scan16, Prepend;
    if |input| % 2 != 0 {
      return Failed(IncompleteUnit);
    }
    var output: Bytes := [];
    var offset := 0;
    ghost var done: seq<Scalar> := [];
    ghost var units, index := UnitsOf(input, little), 0;
    ReadNothing(units);
    EncodeNothing();
    while offset < |input|
      invariant offset == 2 * index
      invariant output == EncodeAll(done)
      invariant ReadSoFar(units, index, done)
    {
      var front, width := NextChar(input, offset, little, index);
      ReadNext(units, index, done);
      if front.Failed? {
        return Failed(front.failure);
      }
      EncodeAllAppend(done, front.value);
      output := AppendUtf8(output, front.value);
      done := done + [front.value];
      index := index + |Units(front.value)|;
      offset := offset + width;
    }
    ReadAll(units, done);
    return Decoded(output);
  }

  // ---------------------------------------------------------------- decode_text

  datatype Encoding = Utf8 | Utf8Bom | Utf16Le | Utf16Be

  datatype Text = Text(text: Bytes, encoding: Encoding)

  const UTF8_MARK: Bytes := [0xEF, 0xBB, 0xBF]
  const LITTLE_MARK: Bytes := [0xFF, 0xFE]
  const BIG_MARK: Bytes := [0xFE, 0xFF]

  /** The file that a list of scalar values makes in an encoding. */
  function Stored(cs: seq<Scalar>, encoding: Encoding): Bytes {
    match encoding
    case Utf8 => EncodeAll(cs)
    case Utf8Bom => UTF8_MARK + EncodeAll(cs)
    case Utf16Le => LITTLE_MARK + Utf16(cs, true)
    case Utf16Be => BIG_MARK + Utf16(cs, false)
  }

  ghost predicate Stores(input: Bytes, text: Bytes, encoding: Encoding) {
    exists cs: seq<Scalar> :: EncodeAll(cs) == text && Stored(cs, encoding) == input
  }

  /** The byte-order marks of UTF-16 never begin UTF-8 text, and behind the UTF-8 mark text stays text. */
  lemma MarksInUtf8(cs: seq<Scalar>)
    ensures var s := EncodeAll(cs);
      s != [] ==> s[0] != 0xFE && s[0] != 0xFF && (UTF8_MARK <= s ==> WellFormed(s[3..]))
  {
    var s := EncodeAll(cs);
    EncodeParses(cs);
    if UTF8_MARK <= s {
      assert s[0] == 0xEF && s[1] == 0xBB && s[2] == 0xBF;
      ParseFindsGrammar(s[3..]);
    }
  }

  lemma MarkedUtf8Fails(input: Bytes, cs: seq<Scalar>, encoding: Encoding)
    requires UTF8_MARK <= input && !WellFormed(input[3..])
    ensures Stored(cs, encoding) != input
  {
    MarksInUtf8(cs);
    var s := Stored(cs, encoding);
    if encoding == Utf8Bom {
      assert s[3..] == EncodeAll(cs);
      WellFormedIffEncoded(s[3..]);
    } else if encoding != Utf8 {
      assert s[0] >= 0xFE;
      assert input[0] == UTF8_MARK[0];
    }
  }

  lemma MarkedUtf16Fails(input: Bytes, little: bool, cs: seq<Scalar>, encoding: Encoding)
    requires (if little then LITTLE_MARK else BIG_MARK) <= input && Transcoded(input[2..], little).Failed?
    ensures Stored(cs, encoding) != input
  {
    MarksInUtf8(cs);
    var mark := if little then LITTLE_MARK else BIG_MARK;
    assert input[0] == mark[0];
    var s := Stored(cs, encoding);
    if encoding.Utf16Le? || encoding.Utf16Be? {
      assert s[2..] == Utf16(cs, encoding.Utf16Le?);
      TranscodedIffUtf16(s[2..], encoding.Utf16Le?);
      assert s[0] == (if encoding.Utf16Le? then 0xFF else 0xFE);
    }
  }

  lemma UnmarkedFails(input: Bytes, cs: seq<Scalar>, encoding: Encoding)
    requires !(UTF8_MARK <= input) && !(LITTLE_MARK <= input) && !(BIG_MARK <= input) && !WellFormed(input)
    ensures Stored(cs, encoding) != input
  {
    WellFormedIffEncoded(input);
    var s := Stored(cs, encoding);
    EncodeParses(cs);
    ParseFindsGrammar(EncodeAll(cs));
    assert encoding == Utf8Bom ==> UTF8_MARK <= s;
    assert encoding == Utf16Le ==> LITTLE_MARK <= s;
    assert encoding == Utf16Be ==> BIG_MARK <= s;
  }

  lemma StoresUtf16(input: Bytes, little: bool)
    requires (if little then LITTLE_MARK else BIG_MARK) <= input && Transcoded(input[2..], little).Decoded?
    ensures Stores(input, Transcoded(input[2..], little).value, if little then Utf16Le else Utf16Be)
  {
    TranscodedIffUtf16(input[2..], little);
    var cs: seq<Scalar> :| input[2..] == Utf16(cs, little);
    assert Stored(cs, if little then Utf16Le else Utf16Be) == input;
  }

  /** Decoding finds the text of every file that some encoding stores, and only of those. */
  method DecodeText(input: Bytes) returns (result: Decoded<Text>)
    ensures result.Decoded? ==> Stores(input, result.value.text, result.value.encoding)
    ensures result.Decoded? && result.value.encoding == Utf8 ==> !(UTF8_MARK <= input)
    ensures result.Failed? ==> forall cs: seq<Scalar>, encoding :: Stored(cs, encoding) != input
  {
    if UTF8_MARK <= input {
      var valid := ValidUtf8(input[3..]);
      WellFormedIffEncoded(input[3..]);
      if !valid {
        forall cs: seq<Scalar>, encoding ensures Stored(cs, encoding) != input {
          MarkedUtf8Fails(input, cs, encoding);
        }
        return Failed(MalformedUtf8);
      }
      assert input == UTF8_MARK + input[3..];
      return Decoded(Text(input[3..], Utf8Bom));
    }
    if LITTLE_MARK <= input || BIG_MARK <= input {
      var little := LITTLE_MARK <= input;
      var text := DecodeUtf16(input[2..], little);
      if text.Failed? {
        forall cs: seq<Scalar>, encoding ensures Stored(cs, encoding) != input {
          MarkedUtf16Fails(input, little, cs, encoding);
        }
        return Failed(text.failure);
      }
      StoresUtf16(input, little);
      return Decoded(Text(text.value, if little then Utf16Le else Utf16Be));
    }
    var valid := ValidUtf8(input);
    WellFormedIffEncoded(input);
    if !valid {
      forall cs: seq<Scalar>, encoding ensures Stored(cs, encoding) != input {
        UnmarkedFails(input, cs, encoding);
      }
      return Failed(UnknownEncoding);
    }
    ghost var cs: seq<Scalar> :| input == EncodeAll(cs);
    assert Stored(cs, Utf8) == input;
    return Decoded(Text(input, Utf8));
  }
}
