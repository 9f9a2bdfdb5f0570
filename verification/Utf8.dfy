/** UTF-8 as RFC 3629 defines it: the encoding of section 3, and a strict decoder for the syntax of section 4. */
module Utf8 {
  import opened Text

  type Byte = b: int | 0 <= b < 256

  /** A Unicode scalar value: any code point that is not a surrogate. */
  type Scalar = c: int | 0 <= c <= 0x10FFFF && !(0xD800 <= c <= 0xDFFF)

  function Width(c: Scalar): (n: nat)
    ensures 1 <= n <= 4
  {
    if c < 0x80 then 1 else if c < 0x800 then 2 else if c < 0x1_0000 then 3 else 4
  }

  function EncodeChar(c: Scalar): (bytes: seq<Byte>)
    ensures |bytes| == Width(c)
  {
    if c < 0x80 then [c]
    else if c < 0x800 then [0xC0 + c / 64, 0x80 + c % 64]
    else if c < 0x1_0000 then [0xE0 + c / 4096, 0x80 + c / 64 % 64, 0x80 + c % 64]
    else [0xF0 + c / 262144, 0x80 + c / 4096 % 64, 0x80 + c / 64 % 64, 0x80 + c % 64]
  }

  function Encode(chars: seq<Scalar>): seq<Byte> {
    if chars == [] then [] else EncodeChar(chars[0]) + Encode(chars[1..])
  }

  /** The table of section 3 of RFC 3629: the first byte says how many there are, and six bits go in each other. */
  lemma EncodingExactly(c: Scalar)
    ensures var b: seq<int> := EncodeChar(c);
            if c < 0x80 then b == [c]
            else if c < 0x800 then
              |b| == 2 && 0xC0 <= b[0] < 0xE0 && 0x80 <= b[1] < 0xC0 && c == (b[0] - 0xC0) * 64 + (b[1] - 0x80)
            else if c < 0x1_0000 then
              |b| == 3 && 0xE0 <= b[0] < 0xF0 && 0x80 <= b[1] < 0xC0 && 0x80 <= b[2] < 0xC0
              && c == (b[0] - 0xE0) * 4096 + (b[1] - 0x80) * 64 + (b[2] - 0x80)
            else
              |b| == 4 && 0xF0 <= b[0] < 0xF8 && 0x80 <= b[1] < 0xC0 && 0x80 <= b[2] < 0xC0 && 0x80 <= b[3] < 0xC0
              && c == (b[0] - 0xF0) * 262144 + (b[1] - 0x80) * 4096 + (b[2] - 0x80) * 64 + (b[3] - 0x80)
  {
    CharDigits(c);
  }

  // ------------------------------------------------------------ decoding

  /** How many bytes a character with this first byte has; 0 when none starts with it. */
  function Length(lead: Byte): (n: nat)
    ensures n <= 4
  {
    if lead < 0x80 then 1
    else if 0xC2 <= lead <= 0xDF then 2
    else if 0xE0 <= lead <= 0xEF then 3
    else if 0xF0 <= lead <= 0xF4 then 4
    else 0
  }

  predicate Tail(b: Byte) { 0x80 <= b <= 0xBF }

  /** What may follow this first byte: no overlong form, no surrogate, nothing past U+10FFFF. */
  predicate Second(lead: Byte, b: Byte) {
    && Tail(b)
    && (lead == 0xE0 ==> 0xA0 <= b) && (lead == 0xED ==> b <= 0x9F)
    && (lead == 0xF0 ==> 0x90 <= b) && (lead == 0xF4 ==> b <= 0x8F)
  }

  predicate Continues(bytes: seq<Byte>, k: nat)
    requires 1 <= k < |bytes|
  {
    if k == 1 then Second(bytes[0], bytes[1]) else Tail(bytes[k])
  }

  datatype Head = Whole(scalar: Scalar, width: nat) | Partial | Malformed

  function Value(bytes: seq<Byte>): int
    requires 1 <= |bytes| <= 4
  {
    var b: seq<int> := bytes;
    if |b| == 1 then b[0]
    else if |b| == 2 then (b[0] - 0xC0) * 64 + (b[1] - 0x80)
    else if |b| == 3 then (b[0] - 0xE0) * 4096 + (b[1] - 0x80) * 64 + (b[2] - 0x80)
    else (b[0] - 0xF0) * 262144 + (b[1] - 0x80) * 4096 + (b[2] - 0x80) * 64 + (b[3] - 0x80)
  }

  /** The first character of a stream: whole, still missing bytes, or not one at all. */
  function First(bytes: seq<Byte>): (h: Head)
    requires bytes != []
    ensures h.Whole? ==> 1 <= h.width <= |bytes|
  {
    var n := Length(bytes[0]);
    if n == 0 then Malformed
    else if n == 1 then Whole(bytes[0], 1)
    else if |bytes| == 1 then Partial
    else if !Continues(bytes, 1) then Malformed
    else if n == 2 then Whole(Value(bytes[..2]), 2)
    else if |bytes| == 2 then Partial
    else if !Continues(bytes, 2) then Malformed
    else if n == 3 then Whole(Value(bytes[..3]), 3)
    else if |bytes| == 3 then Partial
    else if !Continues(bytes, 3) then Malformed
    else Whole(Value(bytes[..4]), 4)
  }

  /** What a decoder fed these bytes has to say: the characters, and how many bytes it still holds. */
  datatype Decoded = Decoded(chars: seq<Scalar>, held: nat) | Undecodable

  function Decode(bytes: seq<Byte>): (d: Decoded)
    ensures d.Decoded? ==> d.held <= |bytes|
    decreases |bytes|
  {
    if bytes == [] then Decoded([], 0)
    else match First(bytes)
      case Malformed => Undecodable
      case Partial => Decoded([], |bytes|)
      case Whole(c, n) =>
        var rest := Decode(bytes[n..]);
        if rest.Undecodable? then Undecodable else Decoded([c] + rest.chars, rest.held)
  }

  // ------------------------------------------------------------ one character

  lemma CharDigits(c: Scalar)
    ensures c == c / 64 * 64 + c % 64
    ensures c / 64 == c / 4096 * 64 + c / 64 % 64
    ensures c / 4096 == c / 262144 * 64 + c / 4096 % 64
  {
    assert c / 64 / 64 == c / 4096;
    assert c / 4096 / 64 == c / 262144;
  }

  lemma CharValue(c: Scalar)
    ensures Value(EncodeChar(c)) == c && Length(EncodeChar(c)[0]) == Width(c)
    ensures forall k | 1 <= k < Width(c) :: Continues(EncodeChar(c), k)
  {
    CharDigits(c);
    var e := EncodeChar(c);
    if Width(c) == 2 {
      assert Continues(e, 1);
    } else if Width(c) == 3 {
      assert Continues(e, 1) && Continues(e, 2);
    } else if Width(c) == 4 {
      assert Continues(e, 1) && Continues(e, 2) && Continues(e, 3);
    }
  }

  /** An encoded character at the front of a stream is read back whole. */
  lemma FirstWhole(c: Scalar, rest: seq<Byte>)
    ensures First(EncodeChar(c) + rest) == Whole(c, Width(c))
  {
    hide EncodeChar, Value, Second, Tail;
    CharValue(c);
    var e, t := EncodeChar(c), EncodeChar(c) + rest;
    assert t[..Width(c)] == e;
    assert t[0] == e[0];
    ContinuesAlike(e, t, 1);
    ContinuesAlike(e, t, 2);
    ContinuesAlike(e, t, 3);
    LengthOne(c);
  }

  lemma ContinuesAlike(e: seq<Byte>, t: seq<Byte>, k: nat)
    requires e != [] && e <= t && k >= 1
    ensures k < |e| ==> Continues(t, k) == Continues(e, k)
  {
  }

  lemma LengthOne(c: Scalar)
    ensures Width(c) == 1 ==> EncodeChar(c) == [c]
  {
  }

  /** Cut short, it is held back. */
  lemma FirstPartial(c: Scalar, n: nat)
    requires 0 < n < Width(c)
    ensures First(EncodeChar(c)[..n]) == Partial
  {
    hide EncodeChar, Value, Length, Second, Tail;
    CharValue(c);
    var e, t := EncodeChar(c), EncodeChar(c)[..n];
    assert forall k | 0 <= k < n :: t[k] == e[k];
    assert forall k | 1 <= k < n :: Continues(t, k) == Continues(e, k);
  }

  /** Entered in its middle, it is refused. */
  lemma FirstInside(c: Scalar, k: nat, rest: seq<Byte>)
    requires 0 < k < Width(c)
    ensures EncodeChar(c)[k..] + rest != [] && First(EncodeChar(c)[k..] + rest) == Malformed
  {
    CharValue(c);
    var t := EncodeChar(c)[k..] + rest;
    assert t[0] == EncodeChar(c)[k];
    assert Continues(EncodeChar(c), k);
  }

  // ------------------------------------------------------------ whole texts

  lemma {:induction false} EncodeAppend(a: seq<Scalar>, b: seq<Scalar>)
    ensures Encode(a + b) == Encode(a) + Encode(b)
  {
    hide EncodeChar;
    if a == [] {
      assert a + b == b;
    } else {
      EncodeAppend(a[1..], b);
      assert (a + b)[1..] == a[1..] + b;
      Regroup3(EncodeChar(a[0]), Encode(a[1..]), Encode(b));
    }
  }

  /** How many whole characters fit in the first `n` bytes. */
  function Fits(chars: seq<Scalar>, n: nat): (k: nat)
    ensures k <= |chars|
  {
    if chars == [] || Width(chars[0]) > n then 0 else 1 + Fits(chars[1..], n - Width(chars[0]))
  }

  /** Where character `i` starts. */
  function Start(chars: seq<Scalar>, i: nat): nat
    requires i <= |chars|
  {
    |Encode(chars[..i])|
  }

  /** So many fit, and not one more. */
  lemma {:induction false} FitsExactly(chars: seq<Scalar>, n: nat)
    ensures Start(chars, Fits(chars, n)) <= n
    ensures Fits(chars, n) < |chars| ==> n < Start(chars, Fits(chars, n) + 1)
    decreases |chars|
  {
    hide EncodeChar;
    var k := Fits(chars, n);
    if chars != [] {
      assert Start(chars, 0) == 0 && Start(chars[1..], 0) == 0;
      StartCons(chars, 1);
      if Width(chars[0]) <= n {
        FitsExactly(chars[1..], n - Width(chars[0]));
        StartCons(chars, k);
        if k < |chars| { StartCons(chars, k + 1); }
      }
    }
  }

  lemma StartCons(chars: seq<Scalar>, i: nat)
    requires 1 <= i <= |chars|
    ensures Start(chars, i) == Width(chars[0]) + Start(chars[1..], i - 1)
  {
    assert chars[..i] == [chars[0]] + chars[1..][..i - 1];
    assert ([chars[0]] + chars[1..][..i - 1])[1..] == chars[1..][..i - 1];
  }

  lemma StartNext(chars: seq<Scalar>, i: nat)
    requires i < |chars|
    ensures Start(chars, i + 1) == Start(chars, i) + Width(chars[i])
  {
    hide EncodeChar;
    EncodeAppend(chars[..i], [chars[i]]);
    assert chars[..i + 1] == chars[..i] + [chars[i]];
    assert Encode([chars[i]]) == EncodeChar(chars[i]) + [];
  }

  /** The bytes from a character boundary on are the rest of the text encoded. */
  lemma DropEncoded(chars: seq<Scalar>, i: nat)
    requires i <= |chars|
    ensures Start(chars, i) <= |Encode(chars)| && Encode(chars)[Start(chars, i)..] == Encode(chars[i..])
  {
    EncodeAppend(chars[..i], chars[i..]);
    assert chars == chars[..i] + chars[i..];
  }

  lemma StartEnds(chars: seq<Scalar>)
    ensures Start(chars, |chars|) == |Encode(chars)| && Start(chars, 0) == 0
  {
    assert chars[..|chars|] == chars;
  }

  /** A window that begins on a boundary decodes to the characters that fit in it, and holds back the rest. */
  lemma {:induction false} PrefixDecodes(chars: seq<Scalar>, n: nat)
    requires n <= |Encode(chars)|
    ensures Start(chars, Fits(chars, n)) <= n
    ensures Decode(Encode(chars)[..n]) == Decoded(chars[..Fits(chars, n)], n - Start(chars, Fits(chars, n)))
    decreases |chars|
  {
    hide EncodeChar, First;
    var bytes := Encode(chars)[..n];
    if chars == [] || n == 0 {
      assert bytes == [];
      if chars != [] { assert Width(chars[0]) > n; }
    } else {
      var c, w := chars[0], Width(chars[0]);
      if w > n {
        assert bytes == EncodeChar(c)[..n];
        FirstPartial(c, n);
      } else {
        var rest := Encode(chars[1..])[..n - w];
        assert bytes == EncodeChar(c) + rest;
        FirstWhole(c, rest);
        assert bytes[w..] == rest;
        PrefixDecodes(chars[1..], n - w);
        StartCons(chars, Fits(chars, n));
        assert chars[..Fits(chars, n)] == [c] + chars[1..][..Fits(chars[1..], n - w)];
      }
    }
  }

  /** Decoding undoes encoding. */
  lemma DecodeEncode(chars: seq<Scalar>)
    ensures Decode(Encode(chars)) == Decoded(chars, 0)
  {
    var n := |Encode(chars)|;
    PrefixDecodes(chars, n);
    AllFit(chars);
    StartEnds(chars);
    assert Encode(chars)[..n] == Encode(chars) && chars[..|chars|] == chars;
  }

  lemma {:induction false} AllFit(chars: seq<Scalar>)
    ensures Fits(chars, |Encode(chars)|) == |chars|
  {
    hide EncodeChar;
    if chars != [] { AllFit(chars[1..]); }
  }

  lemma Digits2(a: nat, b: nat)
    requires b < 64
    ensures (a * 64 + b) / 64 == a && (a * 64 + b) % 64 == b
  {
  }

  lemma Digits3(a: nat, b: nat, c: nat)
    requires b < 64 && c < 64
    ensures var v := a * 4096 + b * 64 + c; v / 4096 == a && v / 64 % 64 == b && v % 64 == c
  {
    Digits2(a * 64 + b, c);
    Digits2(a, b);
    assert (a * 4096 + b * 64 + c) / 64 / 64 == (a * 4096 + b * 64 + c) / 4096;
  }

  lemma Digits4(a: nat, b: nat, c: nat, d: nat)
    requires b < 64 && c < 64 && d < 64
    ensures var v := a * 262144 + b * 4096 + c * 64 + d;
            v / 262144 == a && v / 4096 % 64 == b && v / 64 % 64 == c && v % 64 == d
  {
    Digits3(a * 64 + b, c, d);
    Digits2(a, b);
    var v := a * 262144 + b * 4096 + c * 64 + d;
    assert v == (a * 64 + b) * 4096 + c * 64 + d;
    assert v / 4096 / 64 == v / 262144;
  }

  /** A whole character read is the encoding of that character: no other form is accepted. */
  lemma FirstSound(bytes: seq<Byte>)
    requires bytes != [] && First(bytes).Whole?
    ensures var h := First(bytes); h.width == Width(h.scalar) && EncodeChar(h.scalar) == bytes[..h.width]
  {
    var n := Length(bytes[0]);
    if n == 2 { SoundTwo(bytes); } else if n == 3 { SoundThree(bytes); } else if n == 4 { SoundFour(bytes); }
  }

  lemma SoundTwo(bytes: seq<Byte>)
    requires |bytes| >= 2 && Length(bytes[0]) == 2 && Continues(bytes, 1)
    ensures var v := Value(bytes[..2]); 0x80 <= v < 0x800 && EncodeChar(v) == bytes[..2]
  {
    var b: seq<int> := bytes;
    Digits2(b[0] - 0xC0, b[1] - 0x80);
  }

  lemma SoundThree(bytes: seq<Byte>)
    requires |bytes| >= 3 && Length(bytes[0]) == 3 && Continues(bytes, 1) && Continues(bytes, 2)
    ensures var v := Value(bytes[..3]);
            0x800 <= v < 0x1_0000 && !(0xD800 <= v <= 0xDFFF) && EncodeChar(v) == bytes[..3]
  {
    var b: seq<int> := bytes;
    Digits3(b[0] - 0xE0, b[1] - 0x80, b[2] - 0x80);
  }

  lemma SoundFour(bytes: seq<Byte>)
    requires |bytes| >= 4 && Length(bytes[0]) == 4 && Continues(bytes, 1) && Continues(bytes, 2) && Continues(bytes, 3)
    ensures var v := Value(bytes[..4]); 0x1_0000 <= v <= 0x10FFFF && EncodeChar(v) == bytes[..4]
  {
    var b: seq<int> := bytes;
    Digits4(b[0] - 0xF0, b[1] - 0x80, b[2] - 0x80, b[3] - 0x80);
  }

  /** Strict: what is decoded encodes back to exactly the bytes consumed. */
  lemma {:induction false} EncodeDecode(bytes: seq<Byte>)
    requires Decode(bytes).Decoded?
    ensures Encode(Decode(bytes).chars) == bytes[..|bytes| - Decode(bytes).held]
    decreases |bytes|
  {
    hide First, EncodeChar;
    if bytes != [] && First(bytes).Whole? {
      var n := First(bytes).width;
      FirstSound(bytes);
      EncodeDecode(bytes[n..]);
      var d := Decode(bytes);
      assert d.chars[1..] == Decode(bytes[n..]).chars;
      assert bytes[..|bytes| - d.held] == bytes[..n] + bytes[n..][..|bytes[n..]| - d.held];
    }
  }

  /** A character begun can be ended. */
  lemma Completed(bytes: seq<Byte>) returns (c: Scalar)
    requires bytes != [] && First(bytes) == Partial
    ensures bytes <= EncodeChar(c)
  {
    hide EncodeChar, Value;
    var lead := bytes[0];
    var second := if lead == 0xE0 then 0xA0 else if lead == 0xF0 then 0x90 else 0x80;
    var begun := if |bytes| == 1 then [lead, second] else bytes;
    var ended := begun + seq(Length(lead) - |begun|, _ => 0x80);
    assert forall k | 1 <= k < |ended| :: Continues(ended, k);
    FirstSound(ended);
    c := First(ended).scalar;
    assert ended[..Length(lead)] == ended;
  }

  lemma {:induction false} Continued(bytes: seq<Byte>) returns (text: seq<Scalar>)
    requires Decode(bytes).Decoded?
    ensures bytes <= Encode(text)
    decreases |bytes|
  {
    hide First, EncodeChar;
    text := [];
    if bytes != [] {
      if First(bytes) == Partial {
        var c := Completed(bytes);
        text := [c];
        assert Encode(text) == EncodeChar(c) + [];
      } else {
        var c, n := First(bytes).scalar, First(bytes).width;
        FirstSound(bytes);
        var rest := Continued(bytes[n..]);
        text := [c] + rest;
        assert text[1..] == rest && bytes == bytes[..n] + bytes[n..];
      }
    }
  }

  /** What the decoder accepts is exactly what some text begins with: anything else is refused, held back or not. */
  lemma AcceptedExactly(bytes: seq<Byte>)
    ensures Decode(bytes).Decoded? <==> exists text: seq<Scalar> :: bytes <= Encode(text)
  {
    hide Decode, Encode;
    if Decode(bytes).Decoded? {
      var text := Continued(bytes);
    }
    forall text: seq<Scalar> | bytes <= Encode(text) ensures Decode(bytes).Decoded? {
      PrefixDecodes(text, |bytes|);
      assert Encode(text)[..|bytes|] == bytes;
    }
  }
}
