/** Text on the wire. The server encodes it as UTF-8, and the client decodes whatever bytes arrive, one chunk after
    another, with the decoder of the WHATWG Encoding Standard, section 8.1.1. */
module Utf8 {

  type Byte = b: int | 0 <= b < 256

  // ---------------------------------------------------------------- encoding

  function EncodeChar(c: char): (bytes: seq<Byte>)
    ensures 1 <= |bytes| <= 4
  {
    var p := c as int;
    if p < 0x80 then [p]
    else if p < 0x800 then [0xC0 + p / 64, 0x80 + p % 64]
    else if p < 0x1_0000 then [0xE0 + p / 4096, 0x80 + p / 64 % 64, 0x80 + p % 64]
    else [0xF0 + p / 262144, 0x80 + p / 4096 % 64, 0x80 + p / 64 % 64, 0x80 + p % 64]
  }

  function Encode(text: string): seq<Byte> {
    if text == "" then [] else EncodeChar(text[0]) + Encode(text[1..])
  }

  // ---------------------------------------------------------------- decoding

  /** Between two bytes: whether a character was emitted, how many bytes the pending one still needs, what is known of
      its code point, and the bounds of its next byte. */
  datatype Decoder = Decoder(begun: bool, needed: nat, point: int, lower: int, upper: int)

  function Idle(begun: bool): Decoder {
    Decoder(begun, 0, 0, 0x80, 0xBF)
  }

  function NewDecoder(): Decoder {
    Idle(false)
  }

  const REPLACEMENT := '\U{FFFD}'

  const BYTE_ORDER_MARK := '\U{FEFF}'

  predicate IsScalar(p: int) {
    0 <= p < 0xD800 || 0xE000 <= p < 0x11_0000
  }

  /** The character of a code point, or the replacement when there is none. */
  function Character(p: int): char {
    if IsScalar(p) then p as char else REPLACEMENT
  }

  /** A byte order mark is dropped at the start only. */
  function Emit(begun: bool, c: char): string {
    if !begun && c == BYTE_ORDER_MARK then "" else [c]
  }

  /** A byte that does not go on with a pending character. */
  function Lead(begun: bool, b: Byte): (Decoder, string) {
    if b < 0x80 then (Idle(true), Emit(begun, Character(b)))
    else if 0xC2 <= b <= 0xDF then (Decoder(begun, 1, b - 0xC0, 0x80, 0xBF), "")
    else if 0xE0 <= b <= 0xEF then
      (Decoder(begun, 2, b - 0xE0, if b == 0xE0 then 0xA0 else 0x80, if b == 0xED then 0x9F else 0xBF), "")
    else if 0xF0 <= b <= 0xF4 then
      (Decoder(begun, 3, b - 0xF0, if b == 0xF0 then 0x90 else 0x80, if b == 0xF4 then 0x8F else 0xBF), "")
    else (Idle(true), [REPLACEMENT])
  }

  /** One byte. One out of bounds replaces the pending character and is then looked at afresh. */
  function Step(d: Decoder, b: Byte): (Decoder, string) {
    if d.needed == 0 then Lead(d.begun, b)
    else if b < d.lower || d.upper < b then
      var (after, text) := Lead(true, b);
      (after, [REPLACEMENT] + text)
    else
      var p := d.point * 64 + (b - 0x80);
      if d.needed == 1 then (Idle(true), Emit(d.begun, Character(p)))
      else (Decoder(d.begun, d.needed - 1, p, 0x80, 0xBF), "")
  }

  /** Decoding with `stream: true`: what is pending at the end is kept for the next bytes. */
  function Decode(d: Decoder, bytes: seq<Byte>): (Decoder, string)
    decreases |bytes|
  {
    if bytes == [] then (d, "")
    else
      var (next, text) := Step(d, bytes[0]);
      var (after, rest) := Decode(next, bytes[1..]);
      (after, text + rest)
  }

  /** The text of all the bytes, a pending character left out. */
  function Decoded(bytes: seq<Byte>): string {
    Decode(NewDecoder(), bytes).1
  }

  /** Decoding goes on across any cut, wherever it falls and whatever the bytes are. */
  lemma {:induction false} DecodeContinues(d: Decoder, a: seq<Byte>, b: seq<Byte>)
    ensures var (middle, text) := Decode(d, a);
            var (after, rest) := Decode(middle, b);
            Decode(d, a + b) == (after, text + rest)
    decreases |a|
  {
    hide Step;
    if a == [] {
      assert a + b == b;
      assert "" + Decode(d, b).1 == Decode(d, b).1;
    } else {
      var (next, text) := Step(d, a[0]);
      DecodeContinues(next, a[1..], b);
      assert (a + b)[0] == a[0] && (a + b)[1..] == a[1..] + b;
      var (middle, more) := Decode(next, a[1..]);
      var (after, rest) := Decode(middle, b);
      assert text + (more + rest) == (text + more) + rest;
    }
  }

  // ---------------------------------------------------------------- decoding undoes encoding

  lemma Silent(d: Decoder, b: Byte, bytes: seq<Byte>)
    requires Step(d, b).1 == ""
    ensures Decode(d, [b] + bytes) == Decode(Step(d, b).0, bytes)
  {
    assert ([b] + bytes)[1..] == bytes;
    assert "" + Decode(Step(d, b).0, bytes).1 == Decode(Step(d, b).0, bytes).1;
  }

  lemma Single(d: Decoder, b: Byte)
    ensures Decode(d, [b]) == Step(d, b)
  {
    assert [b][1..] == [];
    assert Step(d, b).1 + "" == Step(d, b).1;
  }

  /** Two silent steps, then whatever the rest gives. */
  lemma Silent2(d: Decoder, a: Byte, b: Byte, bytes: seq<Byte>)
    requires Step(d, a).1 == "" && Step(Step(d, a).0, b).1 == ""
    ensures Decode(d, [a, b] + bytes) == Decode(Step(Step(d, a).0, b).0, bytes)
  {
    Silent(d, a, [b] + bytes);
    Silent(Step(d, a).0, b, bytes);
    assert [a] + ([b] + bytes) == [a, b] + bytes;
  }

  lemma Nothing(d: Decoder)
    ensures Decode(d, []) == (d, "")
  {
  }

  /** A character of two bytes. */
  lemma Decodes2(begun: bool, p: int)
    requires 0x80 <= p < 0x800
    ensures Decode(Idle(begun), [0xC0 + p / 64, 0x80 + p % 64]) == (Idle(true), Emit(begun, Character(p)))
    ensures Decode(Idle(begun), [0xC0 + p / 64]).1 == ""
  {
    hide Decode;
    var d, a, b := Idle(begun), 0xC0 + p / 64, 0x80 + p % 64;
    Single(d, a);
    Silent(d, a, [b]);
    Single(Step(d, a).0, b);
    assert [a] + [b] == [a, b];
  }

  /** A character of three bytes, by the digits of its code point. */
  lemma Decodes3(begun: bool, x: int, y: int, z: int)
    requires 0 <= x < 16 && 0 <= y < 64 && 0 <= z < 64 && (x == 0 ==> y >= 32) && (x == 13 ==> y < 32)
    ensures Decode(Idle(begun), [0xE0 + x, 0x80 + y, 0x80 + z]) == (Idle(true), Emit(begun, Character(x * 4096 + y * 64 + z)))
    ensures Decode(Idle(begun), [0xE0 + x]).1 == ""
    ensures Decode(Idle(begun), [0xE0 + x, 0x80 + y]).1 == ""
  {
    hide Decode, Character;
    var d, a, b, e := Idle(begun), 0xE0 + x, 0x80 + y, 0x80 + z;
    Single(d, a);
    Silent2(d, a, b, [e]);
    Silent2(d, a, b, []);
    Nothing(Step(Step(d, a).0, b).0);
    Single(Step(Step(d, a).0, b).0, e);
    assert [a, b] + [e] == [a, b, e] && [a, b] + [] == [a, b];
  }

  /** A character of four bytes, by the digits of its code point. */
  lemma Decodes4(begun: bool, w: int, x: int, y: int, z: int)
    requires 0 <= w <= 4 && 0 <= x < 64 && 0 <= y < 64 && 0 <= z < 64 && (w == 0 ==> x >= 16) && (w == 4 ==> x < 16)
    ensures Decode(Idle(begun), [0xF0 + w, 0x80 + x, 0x80 + y, 0x80 + z]) ==
            (Idle(true), Emit(begun, Character(w * 262144 + x * 4096 + y * 64 + z)))
    ensures Decode(Idle(begun), [0xF0 + w]).1 == ""
    ensures Decode(Idle(begun), [0xF0 + w, 0x80 + x]).1 == ""
    ensures Decode(Idle(begun), [0xF0 + w, 0x80 + x, 0x80 + y]).1 == ""
  {
    hide Decode, Character;
    var d, a, b, e, f := Idle(begun), 0xF0 + w, 0x80 + x, 0x80 + y, 0x80 + z;
    Single(d, a);
    var middle := Step(Step(d, a).0, b).0;
    assert middle == Decoder(begun, 2, w * 64 + x, 0x80, 0xBF);
    Silent2(d, a, b, []);
    Nothing(middle);
    Silent2(d, a, b, [e]);
    Single(middle, e);
    Silent2(d, a, b, [e, f]);
    Silent(middle, e, [f]);
    Single(Step(middle, e).0, f);
    assert [a, b] + [] == [a, b] && [a, b] + [e] == [a, b, e] && [a, b] + [e, f] == [a, b, e, f] && [e] + [f] == [e, f];
  }

  lemma Digits(p: int)
    requires 0 <= p
    ensures p == p / 4096 * 4096 + p / 64 % 64 * 64 + p % 64
    ensures p == p / 262144 * 262144 + p / 4096 % 64 * 4096 + p / 64 % 64 * 64 + p % 64
  {
    assert p / 64 / 64 == p / 4096 && p / 4096 / 64 == p / 262144;
  }

  /** The bytes of a character give it back, and nothing before the last one. */
  lemma CharDecodes(begun: bool, c: char, k: nat)
    requires k <= |EncodeChar(c)|
    ensures Decode(Idle(begun), EncodeChar(c)) == (Idle(true), Emit(begun, c))
    ensures k < |EncodeChar(c)| ==> Decode(Idle(begun), EncodeChar(c)[..k]).1 == ""
  {
    hide Decode;
    var p, bytes := c as int, EncodeChar(c);
    Nothing(Idle(begun));
    if p < 0x80 {
      Single(Idle(begun), p);
    } else if p < 0x800 {
      Decodes2(begun, p);
    } else if p < 0x1_0000 {
      Digits(p);
      Decodes3(begun, p / 4096, p / 64 % 64, p % 64);
    } else {
      Digits(p);
      Decodes4(begun, p / 262144, p / 4096 % 64, p / 64 % 64, p % 64);
    }
    if k < |bytes| {
      assert bytes[..k] == [] || bytes[..k] == [bytes[0]] || bytes[..k] == [bytes[0], bytes[1]] || bytes[..k] == [bytes[0], bytes[1], bytes[2]];
    }
  }

  lemma {:induction false} EncodeJoins(a: string, b: string)
    ensures Encode(a + b) == Encode(a) + Encode(b)
    decreases |a|
  {
    hide EncodeChar;
    if a == "" {
      assert a + b == b;
    } else {
      EncodeJoins(a[1..], b);
      assert (a + b)[1..] == a[1..] + b;
    }
  }

  lemma {:induction false} EncodeIsLonger(text: string)
    ensures |text| <= |Encode(text)|
  {
    hide EncodeChar;
    if text != "" {
      EncodeIsLonger(text[1..]);
    }
  }

  /** How many characters arrived completely in the first n bytes. */
  function Whole(text: string, n: nat): (m: nat)
    ensures m <= |text|
  {
    if text == "" || n < |EncodeChar(text[0])| then 0 else 1 + Whole(text[1..], n - |EncodeChar(text[0])|)
  }

  /** Text cut anywhere, even inside a character, decodes to the characters that arrived completely. */
  lemma {:induction false} CutDecodes(begun: bool, text: string, n: nat)
    requires begun || text == "" || text[0] != BYTE_ORDER_MARK
    requires n <= |Encode(text)|
    ensures Decode(Idle(begun), Encode(text)[..n]).1 == text[..Whole(text, n)]
    decreases |text|
  {
    hide Decode, EncodeChar;
    if text == "" {
      Nothing(Idle(begun));
    } else {
      var first, rest := EncodeChar(text[0]), Encode(text[1..]);
      var bytes := Encode(text);
      if n < |first| {
        CharDecodes(begun, text[0], n);
        assert bytes[..n] == first[..n];
      } else {
        CharDecodes(begun, text[0], |first|);
        assert bytes[..n] == first + rest[..n - |first|];
        DecodeContinues(Idle(begun), first, rest[..n - |first|]);
        CutDecodes(true, text[1..], n - |first|);
        assert [text[0]] + text[1..][..Whole(text[1..], n - |first|)] == text[..Whole(text, n)];
      }
    }
  }

  /** The beginning of a text arrived when its bytes did. */
  lemma {:induction false} WholeReaches(a: string, b: string, n: nat)
    ensures Whole(a + b, n) >= |a| <==> n >= |Encode(a)|
    ensures n >= |Encode(a)| ==> Whole(a + b, n) == |a| + Whole(b, n - |Encode(a)|)
    decreases |a|
  {
    hide EncodeChar;
    if a == "" {
      assert a + b == b;
    } else {
      var first := |EncodeChar(a[0])|;
      assert (a + b)[0] == a[0] && (a + b)[1..] == a[1..] + b;
      if n >= first {
        WholeReaches(a[1..], b, n - first);
      }
    }
  }

  /** Encoded text decodes to itself, except for a byte order mark at its start. */
  lemma DecodesEncoded(text: string)
    ensures Decoded(Encode(text)) == if text != "" && text[0] == BYTE_ORDER_MARK then text[1..] else text
  {
    hide Decode, EncodeChar;
    var bytes := Encode(text);
    assert bytes[..|bytes|] == bytes;
    assert text + "" == text;
    if text != "" && text[0] == BYTE_ORDER_MARK {
      var rest := Encode(text[1..]);
      CharDecodes(false, text[0], 0);
      DecodeContinues(NewDecoder(), EncodeChar(text[0]), rest);
      WholeReaches(text[1..], "", |rest|);
      assert text[1..] + "" == text[1..] && rest[..|rest|] == rest;
      CutDecodes(true, text[1..], |rest|);
    } else {
      WholeReaches(text, "", |bytes|);
      CutDecodes(false, text, |bytes|);
    }
  }

  // ---------------------------------------------------------------- nothing else decodes

  /** The bytes end with a complete character and none of them had to be replaced. */
  predicate Clean(d: Decoder, bytes: seq<Byte>) {
    Decode(d, bytes).0.needed == 0 && REPLACEMENT !in Decode(d, bytes).1
  }

  lemma CleanGoesOn(d: Decoder, bytes: seq<Byte>)
    requires Clean(d, bytes) && bytes != []
    ensures Clean(Step(d, bytes[0]).0, bytes[1..]) && REPLACEMENT !in Step(d, bytes[0]).1
    ensures d.needed > 0 ==> d.lower <= bytes[0] <= d.upper
  {
    var (next, text) := Step(d, bytes[0]);
    var (after, rest) := Decode(next, bytes[1..]);
    assert Decode(d, bytes) == (after, text + rest);
    assert forall c <- text :: c in text + rest;
    assert forall c <- rest :: c in text + rest;
    if d.needed > 0 && !(d.lower <= bytes[0] <= d.upper) {
      StrayIsReplaced(d, bytes[0]);
    }
  }

  lemma StrayIsReplaced(d: Decoder, b: Byte)
    requires d.needed > 0 && !(d.lower <= b <= d.upper)
    ensures REPLACEMENT in Step(d, b).1
  {
    assert Step(d, b).1[0] == REPLACEMENT;
  }

  lemma PendingIsNotClean(d: Decoder)
    requires d.needed > 0
    ensures !Clean(d, [])
  {
  }

  lemma Encodes2(a: int, b: int)
    requires 0xC2 <= a <= 0xDF && 0x80 <= b <= 0xBF
    ensures EncodeChar(((a - 0xC0) * 64 + (b - 0x80)) as char) == [a, b]
  {
  }

  lemma Encodes3(a: int, b: int, e: int)
    requires 0xE0 <= a <= 0xEF && 0x80 <= b <= 0xBF && 0x80 <= e <= 0xBF && (a == 0xE0 ==> b >= 0xA0) && (a == 0xED ==> b <= 0x9F)
    ensures var p := ((a - 0xE0) * 64 + (b - 0x80)) * 64 + (e - 0x80);
            IsScalar(p) && EncodeChar(p as char) == [a, b, e]
  {
    var q := (a - 0xE0) * 64 + (b - 0x80);
    var p := q * 64 + (e - 0x80);
    assert p / 64 == q && p % 64 == e - 0x80 && q / 64 == a - 0xE0 && q % 64 == b - 0x80;
    assert p / 4096 == q / 64;
  }

  lemma Encodes4(a: int, b: int, e: int, f: int)
    requires 0xF0 <= a <= 0xF4 && 0x80 <= b <= 0xBF && 0x80 <= e <= 0xBF && 0x80 <= f <= 0xBF
    requires (a == 0xF0 ==> b >= 0x90) && (a == 0xF4 ==> b <= 0x8F)
    ensures var p := (((a - 0xF0) * 64 + (b - 0x80)) * 64 + (e - 0x80)) * 64 + (f - 0x80);
            IsScalar(p) && EncodeChar(p as char) == [a, b, e, f]
  {
    var r := (a - 0xF0) * 64 + (b - 0x80);
    var q := r * 64 + (e - 0x80);
    var p := q * 64 + (f - 0x80);
    assert p / 64 == q && p % 64 == f - 0x80 && q / 64 == r && q % 64 == e - 0x80 && r / 64 == a - 0xF0 && r % 64 == b - 0x80;
    assert p / 4096 == q / 64 && p / 262144 == r / 64;
  }

  /** Clean bytes begin with the encoding of a character. */
  lemma CleanBegins(begun: bool, bytes: seq<Byte>) returns (c: char)
    requires Clean(Idle(begun), bytes) && bytes != []
    ensures EncodeChar(c) <= bytes
  {
    hide Decode, Clean, EncodeChar, Character;
    var a: int := bytes[0];
    CleanGoesOn(Idle(begun), bytes);
    var first := Step(Idle(begun), a).0;
    if a < 0x80 {
      c := a as char;
      Ascii(a);
    } else {
      if bytes[1..] == [] {
        PendingIsNotClean(first);
      }
      CleanGoesOn(first, bytes[1..]);
      var b: int := bytes[1];
      if a <= 0xDF {
        c := ((a - 0xC0) * 64 + (b - 0x80)) as char;
        Encodes2(a, b);
      } else {
        var second := Step(first, b).0;
        var rest := bytes[1..][1..];
        if rest == [] {
          PendingIsNotClean(second);
        }
        CleanGoesOn(second, rest);
        var e: int := bytes[2];
        if a <= 0xEF {
          Encodes3(a, b, e);
          c := (((a - 0xE0) * 64 + (b - 0x80)) * 64 + (e - 0x80)) as char;
        } else {
          var third := Step(second, e).0;
          if rest[1..] == [] {
            PendingIsNotClean(third);
          }
          CleanGoesOn(third, rest[1..]);
          var f: int := bytes[3];
          Encodes4(a, b, e, f);
          c := ((((a - 0xF0) * 64 + (b - 0x80)) * 64 + (e - 0x80)) * 64 + (f - 0x80)) as char;
        }
      }
    }
  }

  lemma Ascii(a: Byte)
    requires a < 0x80
    ensures EncodeChar(a as char) == [a]
  {
  }

  lemma {:induction false} CleanIsEncoded(begun: bool, bytes: seq<Byte>) returns (text: string)
    requires Clean(Idle(begun), bytes)
    ensures bytes == Encode(text)
    ensures Decode(Idle(begun), bytes).1 == if !begun && text != "" && text[0] == BYTE_ORDER_MARK then text[1..] else text
    decreases |bytes|
  {
    hide Decode, EncodeChar;
    if bytes == [] {
      text := "";
      Nothing(Idle(begun));
    } else {
      var c := CleanBegins(begun, bytes);
      var first := EncodeChar(c);
      var rest := bytes[|first|..];
      assert bytes == first + rest;
      CharDecodes(begun, c, |first|);
      DecodeContinues(Idle(begun), first, rest);
      assert forall x <- Decode(Idle(true), rest).1 :: x in Decode(Idle(begun), bytes).1;
      var tail := CleanIsEncoded(true, rest);
      text := [c] + tail;
      assert text[1..] == tail;
    }
  }

  lemma {:induction false} EncodedEndsIdle(begun: bool, text: string)
    ensures Decode(Idle(begun), Encode(text)).0.needed == 0
    decreases |text|
  {
    hide Decode, EncodeChar;
    if text == "" {
      Nothing(Idle(begun));
    } else {
      CharDecodes(begun, text[0], 0);
      DecodeContinues(Idle(begun), EncodeChar(text[0]), Encode(text[1..]));
      EncodedEndsIdle(true, text[1..]);
    }
  }

  /** Bytes decode to the last one and without a replacement exactly if they are the encoding of a text without it: no overlong
      form, surrogate or stray byte is read as text. */
  lemma OnlyEncodedDecodes(bytes: seq<Byte>)
    ensures Clean(NewDecoder(), bytes) <==> exists text: string :: bytes == Encode(text) && REPLACEMENT !in text
  {
    hide Decode, Encode;
    if Clean(NewDecoder(), bytes) {
      var text := CleanIsEncoded(false, bytes);
      assert text != "" ==> text == [text[0]] + text[1..];
    }
    if text: string :| bytes == Encode(text) && REPLACEMENT !in text {
      EncodedEndsIdle(false, text);
      DecodesEncoded(text);
    }
  }
}
