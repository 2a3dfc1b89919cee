/** Values shared by every part of the recorder app: optional and failing
    results, bytes, the UTF-8 encoding Swift uses for `String.data(using:)`,
    decimal text as `"\(n)"` and `%02d` print it, and file URLs. */
module Basics {

  datatype Option<+T> = None | Some(value: T)

  datatype Result<+T, +E> = Success(value: T) | Failure(error: E)

  type Byte = b: int | 0 <= b < 256

  /** A Swift `Double`/`Float`/`CGFloat` reading: a real number, or NaN or an infinity. */
  datatype Scalar = Finite(value: real) | NonFinite

  /** Regrouping a concatenation; called explicitly where a proof mixes concatenation
      with recursive functions over sequences. */
  lemma ConcatAssoc<T>(a: seq<T>, b: seq<T>, c: seq<T>)
    ensures a + b + c == a + (b + c)
  {
  }

  function Max(a: real, b: real): real { if a < b then b else a }

  function Min(a: real, b: real): real { if a < b then a else b }

  // ---------------------------------------------------------------------------
  // Character replacement, as `replacingOccurrences(of: "x", with: "y")` does it
  // for a one-character pattern and replacement.

  function ReplaceChar(s: string, from: char, to: char): (r: string)
    ensures |r| == |s|
    ensures forall i :: 0 <= i < |s| ==> r[i] == (if s[i] == from then to else s[i])
  {
    if s == [] then [] else [if s[0] == from then to else s[0]] + ReplaceChar(s[1..], from, to)
  }

  // ---------------------------------------------------------------------------
  // Decimal text of a natural number

  predicate IsDigit(c: char) { '0' <= c <= '9' }

  predicate AllDigits(s: string) { forall i :: 0 <= i < |s| ==> IsDigit(s[i]) }

  function DigitChar(d: nat): (c: char)
    requires d < 10
    ensures IsDigit(c) && c as int - '0' as int == d
  {
    (d + '0' as int) as char
  }

  /** `"\(n)"` for a non-negative `Int`: the shortest decimal numeral of `n`. */
  function Decimal(n: nat): (s: string)
    ensures 1 <= |s| && AllDigits(s)
    ensures s[0] == '0' ==> n == 0 && s == "0"
    ensures n < 10 ==> |s| == 1
    ensures n < 100 ==> |s| <= 2
  {
    if n < 10 then [DigitChar(n)] else Decimal(n / 10) + [DigitChar(n % 10)]
  }

  /** `"\(n)"` for any `Int`: a minus sign before the numeral of a negative number. */
  function IntText(n: int): string
  {
    if n < 0 then "-" + Decimal(-n) else Decimal(n)
  }

  /** The number a string of digits denotes. */
  function DigitsValue(s: string): nat
    requires AllDigits(s)
  {
    if s == [] then 0 else DigitsValue(s[..|s| - 1]) * 10 + (s[|s| - 1] as int - '0' as int)
  }

  lemma {:induction false} DecimalRoundTrip(n: nat)
    ensures DigitsValue(Decimal(n)) == n
  {
    if n >= 10 {
      var s := Decimal(n / 10) + [DigitChar(n % 10)];
      assert s[..|s| - 1] == Decimal(n / 10);
      DecimalRoundTrip(n / 10);
    }
  }

  /** `String(format: "%02d", n)` for a non-negative `n`: at least two digits, zero-padded. */
  function Pad2(n: nat): (s: string)
    ensures |s| >= 2 && AllDigits(s)
    ensures n < 100 ==> |s| == 2
  {
    if n < 10 then "0" + Decimal(n) else Decimal(n)
  }

  lemma Pad2RoundTrip(n: nat)
    ensures DigitsValue(Pad2(n)) == n
  {
    DecimalRoundTrip(n);
    if n < 10 {
      var s := Pad2(n);
      assert s[..|s| - 1] == "0";
    }
  }

  // ---------------------------------------------------------------------------
  // UTF-8, the encoding `Data.append(_ string: String)` writes

  /** The UTF-8 bytes of one Unicode scalar value. */
  function EncodeChar(c: char): (bytes: seq<Byte>)
    ensures 1 <= |bytes| <= 4
    ensures |bytes| == 1 <==> c as int < 0x80
    ensures |bytes| == 1 ==> bytes[0] == c as int
    ensures |bytes| == LeadLength(bytes[0])
    ensures forall i :: 1 <= i < |bytes| ==> 0x80 <= bytes[i] < 0xC0
  {
    var n := c as int;
    if n < 0x80 then [n]
    else if n < 0x800 then [0xC0 + n / 64, 0x80 + n % 64]
    else if n < 0x10000 then [0xE0 + n / 4096, 0x80 + (n / 64) % 64, 0x80 + n % 64]
    else [0xF0 + n / 262144, 0x80 + (n / 4096) % 64, 0x80 + (n / 64) % 64, 0x80 + n % 64]
  }

  /** How many bytes a UTF-8 sequence has, read off its first byte (0 for a byte that cannot start one). */
  function LeadLength(b: Byte): nat
  {
    if b < 0x80 then 1
    else if 0xC0 <= b < 0xE0 then 2
    else if 0xE0 <= b < 0xF0 then 3
    else if 0xF0 <= b < 0xF8 then 4
    else 0
  }

  predicate IsScalar(n: int) { 0 <= n < 0xD800 || 0xE000 <= n < 0x11_0000 }

  /** The code point of one complete UTF-8 sequence. */
  function DecodeSequence(bytes: seq<Byte>): int
    requires 1 <= |bytes| <= 4
  {
    if |bytes| == 1 then bytes[0]
    else if |bytes| == 2 then (bytes[0] as int - 0xC0) * 64 + (bytes[1] as int - 0x80)
    else if |bytes| == 3 then
      (bytes[0] as int - 0xE0) * 4096 + (bytes[1] as int - 0x80) * 64 + (bytes[2] as int - 0x80)
    else
      (bytes[0] as int - 0xF0) * 262144 + (bytes[1] as int - 0x80) * 4096
      + (bytes[2] as int - 0x80) * 64 + (bytes[3] as int - 0x80)
  }

  lemma EncodeCharDecodes(c: char)
    ensures DecodeSequence(EncodeChar(c)) == c as int
  {
    var n := c as int;
    var q1, r1 := n / 64, n % 64;
    var q2, r2 := q1 / 64, q1 % 64;
    var q3, r3 := q2 / 64, q2 % 64;
    assert n == q1 * 64 + r1;
    assert q1 == q2 * 64 + r2;
    assert q2 == q3 * 64 + r3;
    assert q2 == n / 4096;
    assert q3 == n / 262144;
  }

  function Utf8(s: string): (bytes: seq<Byte>)
    ensures |s| <= |bytes| <= 4 * |s|
  {
    if s == [] then [] else EncodeChar(s[0]) + Utf8(s[1..])
  }

  /** The minimal length of a sequence for a code point: what rules out overlong forms. */
  function SequenceLength(cp: int): nat
  {
    if cp < 0x80 then 1 else if cp < 0x800 then 2 else if cp < 0x10000 then 3 else 4
  }

  /** A sequence whose continuation bytes are all in 0x80-0xBF. */
  predicate ContinuationBytes(bytes: seq<Byte>)
  {
    forall i :: 1 <= i < |bytes| ==> 0x80 <= bytes[i] < 0xC0
  }

  /** Reads UTF-8 bytes back into text; `None` for bytes that are not UTF-8 of any string:
      a bad lead byte, a truncated sequence, a bad continuation byte, an overlong form,
      a surrogate or a value past U+10FFFF. */
  function DecodeUtf8(bytes: seq<Byte>): Option<string>
  {
    if bytes == [] then Some([])
    else
      var n := LeadLength(bytes[0]);
      if n == 0 || n > |bytes| || !ContinuationBytes(bytes[..n]) then None
      else
        var cp := DecodeSequence(bytes[..n]);
        if !IsScalar(cp) || SequenceLength(cp) != n then None
        else match DecodeUtf8(bytes[n..])
          case None => None
          case Some(rest) => Some([cp as char] + rest)
  }

  lemma {:induction false} Utf8RoundTrip(s: string)
    ensures DecodeUtf8(Utf8(s)) == Some(s)
  {
    if s != [] {
      var e := EncodeChar(s[0]);
      var bytes := Utf8(s);
      assert bytes == e + Utf8(s[1..]);
      assert bytes[0] == e[0];
      assert bytes[..|e|] == e;
      assert bytes[|e|..] == Utf8(s[1..]);
      EncodeCharDecodes(s[0]);
      Utf8RoundTrip(s[1..]);
      assert [s[0]] + s[1..] == s;
    }
  }

  /** A well-formed sequence is the encoding of the code point it decodes to. */
  lemma DecodeSequenceEncodes(bytes: seq<Byte>)
    requires 1 <= |bytes| <= 4 && LeadLength(bytes[0]) == |bytes| && ContinuationBytes(bytes)
    requires IsScalar(DecodeSequence(bytes)) && SequenceLength(DecodeSequence(bytes)) == |bytes|
    ensures EncodeChar(DecodeSequence(bytes) as char) == bytes
  {
    if |bytes| == 2 {
      TwoByteEncodes(bytes);
    } else if |bytes| == 3 {
      ThreeByteEncodes(bytes);
    } else if |bytes| == 4 {
      FourByteEncodes(bytes);
    }
  }

  lemma TwoByteEncodes(bytes: seq<Byte>)
    requires |bytes| == 2 && 0xC0 <= bytes[0] < 0xE0 && 0x80 <= bytes[1] < 0xC0
    requires 0x80 <= DecodeSequence(bytes)
    ensures EncodeChar(DecodeSequence(bytes) as char) == bytes
  {
    var a, b := bytes[0] as int - 0xC0, bytes[1] as int - 0x80;
    var n := a * 64 + b;
    assert DecodeSequence(bytes) == n;
    DivModParts(a, b);
    assert n < 0x800;
    var e := EncodeChar(n as char);
    assert e == [0xC0 + n / 64, 0x80 + n % 64];
  }

  lemma ThreeByteEncodes(bytes: seq<Byte>)
    requires |bytes| == 3 && 0xE0 <= bytes[0] < 0xF0 && 0x80 <= bytes[1] < 0xC0 && 0x80 <= bytes[2] < 0xC0
    requires 0x800 <= DecodeSequence(bytes) && IsScalar(DecodeSequence(bytes))
    ensures EncodeChar(DecodeSequence(bytes) as char) == bytes
  {
    var a, b, c := bytes[0] as int - 0xE0, bytes[1] as int - 0x80, bytes[2] as int - 0x80;
    var m := a * 64 + b;
    var n := m * 64 + c;
    assert DecodeSequence(bytes) == n;
    DivModParts(m, c);
    DivModParts(a, b);
    assert n < 0x10000;
    assert n == a * 4096 + (b * 64 + c);
    DivMod4096(a, b * 64 + c);
    var e := EncodeChar(n as char);
    assert e == [0xE0 + n / 4096, 0x80 + (n / 64) % 64, 0x80 + n % 64];
  }

  lemma FourByteEncodes(bytes: seq<Byte>)
    requires |bytes| == 4 && 0xF0 <= bytes[0] < 0xF8
    requires 0x80 <= bytes[1] < 0xC0 && 0x80 <= bytes[2] < 0xC0 && 0x80 <= bytes[3] < 0xC0
    requires 0x10000 <= DecodeSequence(bytes) && IsScalar(DecodeSequence(bytes))
    ensures EncodeChar(DecodeSequence(bytes) as char) == bytes
  {
    var a, b, c, d := bytes[0] as int - 0xF0, bytes[1] as int - 0x80, bytes[2] as int - 0x80, bytes[3] as int - 0x80;
    var m := a * 64 + b;
    var k := m * 64 + c;
    var n := k * 64 + d;
    assert DecodeSequence(bytes) == n;
    DivModParts(k, d);
    DivModParts(m, c);
    DivModParts(a, b);
    assert n == m * 4096 + (c * 64 + d);
    DivMod4096(m, c * 64 + d);
    assert n == a * 262144 + (b * 4096 + c * 64 + d);
    DivMod262144(a, b * 4096 + c * 64 + d);
    var e := EncodeChar(n as char);
    assert e == [0xF0 + n / 262144, 0x80 + (n / 4096) % 64, 0x80 + (n / 64) % 64, 0x80 + n % 64];
  }

  lemma DivMod4096(q: int, r: int)
    requires q >= 0 && 0 <= r < 4096
    ensures (q * 4096 + r) / 4096 == q
  {
  }

  lemma DivMod262144(q: int, r: int)
    requires q >= 0 && 0 <= r < 262144
    ensures (q * 262144 + r) / 262144 == q
  {
  }

  lemma DivModParts(q: int, r: int)
    requires q >= 0 && 0 <= r < 64
    ensures (q * 64 + r) / 64 == q && (q * 64 + r) % 64 == r
  {
  }

  /** Decoding accepts only canonical UTF-8: whatever decodes is the encoding of what it decodes to. */
  /** One successful step of the decoder: a well-formed first sequence, then the rest. */
  lemma DecodeUtf8Step(bytes: seq<Byte>)
    requires bytes != [] && DecodeUtf8(bytes).Some?
    ensures var n := LeadLength(bytes[0]);
      1 <= n <= |bytes| && n <= 4 && ContinuationBytes(bytes[..n])
      && IsScalar(DecodeSequence(bytes[..n])) && SequenceLength(DecodeSequence(bytes[..n])) == n
      && DecodeUtf8(bytes[n..]).Some?
      && DecodeUtf8(bytes).value == [DecodeSequence(bytes[..n]) as char] + DecodeUtf8(bytes[n..]).value
  {
  }

  /** Decoding accepts only canonical UTF-8: whatever decodes is the encoding of what it decodes to. */
  lemma {:induction false} DecodeUtf8Canonical(bytes: seq<Byte>, s: string)
    requires DecodeUtf8(bytes) == Some(s)
    ensures bytes == Utf8(s)
  {
    if bytes != [] {
      DecodeUtf8Step(bytes);
      var n := LeadLength(bytes[0]);
      var head, tail := bytes[..n], bytes[n..];
      var c := DecodeSequence(head) as char;
      var rest := DecodeUtf8(tail).value;
      DecodeSequenceEncodes(head);
      DecodeUtf8Canonical(tail, rest);
      assert s == [c] + rest;
      assert s[0] == c && s[1..] == rest;
      assert Utf8(s) == EncodeChar(c) + Utf8(rest);
      assert bytes == head + tail;
    }
  }

  lemma Utf8Injective(a: string, b: string)
    requires Utf8(a) == Utf8(b)
    ensures a == b
  {
    Utf8RoundTrip(a);
    Utf8RoundTrip(b);
  }

  lemma {:induction false} Utf8Append(a: string, b: string)
    ensures Utf8(a + b) == Utf8(a) + Utf8(b)
  {
    if a != [] {
      var e := EncodeChar(a[0]);
      assert (a + b)[0] == a[0] && (a + b)[1..] == a[1..] + b;
      assert Utf8(a + b) == e + Utf8(a[1..] + b);
      Utf8Append(a[1..], b);
      assert Utf8(a) == e + Utf8(a[1..]);
      ConcatAssoc(e, Utf8(a[1..]), Utf8(b));
    } else {
      assert a + b == b;
    }
  }

  predicate IsAscii(s: string) { forall i :: 0 <= i < |s| ==> s[i] as int < 0x80 }

  lemma {:induction false} Utf8Ascii(s: string)
    requires IsAscii(s)
    ensures |Utf8(s)| == |s|
    ensures forall i :: 0 <= i < |s| ==> Utf8(s)[i] == s[i] as int
  {
    if s != [] {
      Utf8Ascii(s[1..]);
    }
  }

  // ---------------------------------------------------------------------------
  // File URLs

  /** A file URL: the directory it lives in and its last path component. */
  datatype Url = Url(dir: string, name: string)

  /** Index of the last '.' in `s`, if any. */
  function LastDot(s: string): (r: Option<nat>)
    ensures r.Some? ==> r.value < |s| && s[r.value] == '.'
    ensures r.Some? ==> forall i :: r.value < i < |s| ==> s[i] != '.'
    ensures r.None? ==> forall i :: 0 <= i < |s| ==> s[i] != '.'
  {
    if s == [] then None
    else if s[|s| - 1] == '.' then Some(|s| - 1)
    else LastDot(s[..|s| - 1])
  }

  /** In "<base>.<ext>" with no dot in `ext`, the last dot is the one after `base`. */
  lemma {:induction false} LastDotOfDotted(base: string, ext: string)
    requires forall i :: 0 <= i < |ext| ==> ext[i] != '.'
    ensures LastDot(base + "." + ext) == Some(|base|)
  {
    var s := base + "." + ext;
    if ext == [] {
      assert s == base + ".";
    } else {
      var init := ext[..|ext| - 1];
      assert s[|s| - 1] == ext[|ext| - 1];
      assert s[..|s| - 1] == base + "." + init;
      LastDotOfDotted(base, init);
    }
  }

  /** `pathExtension`: the text after the last '.' of the name, when that dot does not start the name. */
  function PathExtension(u: Url): (ext: string)
    ensures forall i :: 0 <= i < |ext| ==> ext[i] != '.'
  {
    match LastDot(u.name)
    case Some(i) => if i > 0 then u.name[i + 1..] else ""
    case None => ""
  }

  /** `deletingPathExtension().lastPathComponent`: the name without ".<extension>". */
  function BaseName(u: Url): (base: string)
    ensures PathExtension(u) != "" ==> u.name == base + "." + PathExtension(u)
    ensures LastDot(u.name).None? ==> base == u.name
  {
    match LastDot(u.name)
    case Some(i) => if i > 0 then u.name[..i] else u.name
    case None => u.name
  }

  /** A name "<base>.<ext>", with a non-empty base and no dot in the extension, splits back into the two. */
  lemma SplitDottedName(dir: string, base: string, ext: string)
    requires |base| > 0
    requires forall i :: 0 <= i < |ext| ==> ext[i] != '.'
    ensures PathExtension(Url(dir, base + "." + ext)) == ext
    ensures BaseName(Url(dir, base + "." + ext)) == base
  {
    var name := base + "." + ext;
    LastDotOfDotted(base, ext);
    assert name[|base| + 1..] == ext;
    assert name[..|base|] == base;
  }
}
