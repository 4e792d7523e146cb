// Percent encoding of query values (`urlenc`, `percent_decode`,
// crates/userserver/src/routes/oidc.rs; `urlencoding`, crates/channelserver/src/webui.rs),
// on the UTF-8 bytes of the strings.

module PercentCodec {
  import opened Options

  type Byte = b: nat | b < 256
  type Bytes = seq<Byte>

  const PERCENT: Byte := 0x25
  const PLUS: Byte := 0x2B
  const SPACE: Byte := 0x20

  /** The unreserved characters of section 2.3 of RFC 3986. */
  predicate Unreserved(b: Byte) {
    0x41 <= b <= 0x5A || 0x61 <= b <= 0x7A || 0x30 <= b <= 0x39 || b == 0x2D || b == 0x5F || b == 0x2E || b == 0x7E
  }

  predicate Ascii(s: Bytes) { forall i :: 0 <= i < |s| ==> s[i] < 128 }

  // ── encoding ──────────────────────────────────────────────────────────

  function HexDigit(n: nat): Byte
    requires n < 16
  {
    if n < 10 then 0x30 + n else 0x41 + n - 10
  }

  /** One byte; `form` writes a space as '+'. */
  function EncodeByte(b: Byte, form: bool): Bytes {
    if Unreserved(b) then [b]
    else if form && b == SPACE then [PLUS]
    else [PERCENT, HexDigit(b / 16), HexDigit(b % 16)]
  }

  /** `urlenc` with `form`, `urlencoding` without. */
  function Encode(s: Bytes, form: bool): Bytes {
    if s == [] then [] else EncodeByte(s[0], form) + Encode(s[1..], form)
  }

  // ── UTF-8 ─────────────────────────────────────────────────────────────

  /** A byte inside a multi-byte character; a string slice may not end before one. */
  predicate Continuation(b: Byte) { 0x80 <= b < 0xC0 }

  /** How many bytes a character takes that starts with `lead` (section 4 of RFC 3629), 0 if none does. */
  function Width(lead: Byte): nat {
    if lead < 0x80 then 1
    else if 0xC2 <= lead <= 0xDF then 2
    else if 0xE0 <= lead <= 0xEF then 3
    else if 0xF0 <= lead <= 0xF4 then 4
    else 0
  }

  /** The second byte leaves out overlong forms, surrogates and what lies above U+10FFFF. */
  predicate SecondFits(lead: Byte, b: Byte) {
    Continuation(b) && (lead == 0xE0 ==> 0xA0 <= b) && (lead == 0xED ==> b <= 0x9F) &&
    (lead == 0xF0 ==> 0x90 <= b) && (lead == 0xF4 ==> b <= 0x8F)
  }

  /** How many bytes belong to the character begun, whether it is finished or not. */
  function Begun(s: Bytes): (n: nat)
    requires s != []
    ensures 0 < n <= |s|
  {
    if Width(s[0]) < 2 || |s| < 2 || !SecondFits(s[0], s[1]) then 1
    else if Width(s[0]) < 3 || |s| < 3 || !Continuation(s[2]) then 2
    else if Width(s[0]) < 4 || |s| < 4 || !Continuation(s[3]) then 3
    else 4
  }

  /** The length of the well-formed character that starts the bytes, 0 if there is none. */
  function CharLength(s: Bytes): (n: nat)
    ensures n <= |s|
  {
    if s != [] && Begun(s) == Width(s[0]) then Width(s[0]) else 0
  }

  /** What a string holds. */
  predicate Utf8(s: Bytes) {
    s == [] || (CharLength(s) > 0 && Utf8(s[CharLength(s)..]))
  }

  /** U+FFFD. */
  const REPLACEMENT: Bytes := [0xEF, 0xBF, 0xBD]

  /** `String::from_utf8_lossy`: every ill-formed piece becomes one replacement character. */
  function Lossy(s: Bytes): Bytes {
    if s == [] then []
    else if CharLength(s) > 0 then s[..CharLength(s)] + Lossy(s[CharLength(s)..])
    else REPLACEMENT + Lossy(s[Begun(s)..])
  }

  lemma {:induction false} Utf8Concat(s: Bytes, t: Bytes)
    requires Utf8(s) && Utf8(t)
    ensures Utf8(s + t)
  {
    if s == [] {
      assert s + t == t;
    } else {
      var n := CharLength(s);
      assert (s + t)[n..] == s[n..] + t && CharLength(s + t) == n;
      Utf8Concat(s[n..], t);
    }
  }

  lemma {:induction false} LossyUtf8(s: Bytes)
    ensures Utf8(Lossy(s))
  {
    if s != [] {
      var n := CharLength(s);
      if n > 0 {
        LossyUtf8(s[n..]);
        assert Utf8(s[..n]) by { assert CharLength(s[..n]) == n && s[..n][n..] == []; }
        Utf8Concat(s[..n], Lossy(s[n..]));
      } else {
        LossyUtf8(s[Begun(s)..]);
        assert Utf8(REPLACEMENT) by { assert CharLength(REPLACEMENT) == 3 && REPLACEMENT[3..] == []; }
        Utf8Concat(REPLACEMENT, Lossy(s[Begun(s)..]));
      }
    }
  }

  /** Always well formed, and unchanged exactly when the bytes were. */
  lemma {:induction false} LossyExact(s: Bytes)
    ensures Utf8(Lossy(s)) && (Lossy(s) == s <==> Utf8(s))
  {
    LossyUtf8(s);
    if Utf8(s) && s != [] {
      LossyExact(s[CharLength(s)..]);
      assert s[..CharLength(s)] + s[CharLength(s)..] == s;
    }
  }

  // ── decoding ──────────────────────────────────────────────────────────

  function HexValue(c: Byte): Option<nat> {
    if 0x30 <= c <= 0x39 then Some(c - 0x30)
    else if 0x41 <= c <= 0x46 then Some(c - 0x41 + 10)
    else if 0x61 <= c <= 0x66 then Some(c - 0x61 + 10)
    else None
  }

  /** `u8::from_str_radix` on two characters: two hex digits, or one after a plus sign. */
  function HexPair(hi: Byte, lo: Byte): Option<Byte> {
    if HexValue(lo).None? then None
    else if hi == PLUS then Some(HexValue(lo).value)
    else if HexValue(hi).None? then None
    else
      assert HexValue(hi).value < 16 && HexValue(lo).value < 16;
      Some(16 * HexValue(hi).value + HexValue(lo).value)
  }

  function Prepend(b: Byte, rest: Option<Bytes>): Option<Bytes> { if rest.None? then None else Some([b] + rest.value) }

  /** The decoded bytes, or `None` where slicing the two characters after a '%' panics. */
  function Decode(s: Bytes): Option<Bytes> {
    if s == [] then Some([])
    else if s[0] == PERCENT && |s| > 2 then
      if |s| > 3 && Continuation(s[3]) then None
      else if HexPair(s[1], s[2]).Some? then Prepend(HexPair(s[1], s[2]).value, Decode(s[3..]))
      else Prepend(s[0], Decode(s[1..]))
    else if s[0] == PLUS then Prepend(SPACE, Decode(s[1..]))
    else Prepend(s[0], Decode(s[1..]))
  }

  /** The text of the decoded bytes. */
  function UrlDecode(s: Bytes): Option<Bytes> { if Decode(s).None? then None else Some(Lossy(Decode(s).value)) }

  function After(out: Bytes, rest: Option<Bytes>): Option<Bytes> { if rest.None? then None else Some(out + rest.value) }

  lemma Push(out: Bytes, b: Byte, rest: Option<Bytes>)
    ensures After(out + [b], rest) == After(out, Prepend(b, rest)) && After([], rest) == rest
  {
    if rest.Some? {
      assert out + [b] + rest.value == out + ([b] + rest.value) && [] + rest.value == rest.value;
    }
  }

  /** The index loop. `ok` is false where the program would panic. */
  method PercentDecode(s: Bytes) returns (ok: bool, text: Bytes)
    ensures UrlDecode(s) == if ok then Some(text) else None
    ensures ok ==> Utf8(text)
  {
    ok, text := true, [];
    var out: Bytes := [];
    var i := 0;
    assert s[0..] == s;
    Push(out, 0, Decode(s));
    while i < |s|
      invariant i <= |s| && After(out, Decode(s[i..])) == Decode(s)
    {
      ghost var rest := s[i..];
      assert rest[1..] == s[i + 1..];
      if s[i] == PERCENT && i + 2 < |s| {
        if i + 3 < |s| && Continuation(s[i + 3]) {
          return false, [];
        }
        var pair := HexPair(s[i + 1], s[i + 2]);
        if pair.Some? {
          assert rest[3..] == s[i + 3..];
          Push(out, pair.value, Decode(rest[3..]));
          out := out + [pair.value];
          i := i + 3;
          continue;
        }
        Push(out, s[i], Decode(rest[1..]));
        out := out + [s[i]];
        i := i + 1;
      } else if s[i] == PLUS {
        Push(out, SPACE, Decode(rest[1..]));
        out := out + [SPACE];
        i := i + 1;
      } else {
        Push(out, s[i], Decode(rest[1..]));
        out := out + [s[i]];
        i := i + 1;
      }
    }
    assert s[i..] == [] && out + [] == out;
    text := Lossy(out);
    LossyExact(out);
  }

  // ── round trip ────────────────────────────────────────────────────────

  lemma HexRoundTrip(b: Byte)
    ensures HexPair(HexDigit(b / 16), HexDigit(b % 16)) == Some(b)
    ensures HexDigit(b / 16) < 128 && HexDigit(b % 16) < 128
    ensures Unreserved(HexDigit(b / 16)) && Unreserved(HexDigit(b % 16))
  {
  }

  /** What every byte of an encoding is. */
  predicate Safe(s: Bytes) { forall i :: 0 <= i < |s| ==> Unreserved(s[i]) || s[i] == PERCENT || s[i] == PLUS }

  lemma {:induction false} EncodeSafe(s: Bytes, form: bool)
    ensures Safe(Encode(s, form)) && |s| <= |Encode(s, form)| <= 3 * |s|
    ensures !form ==> PLUS !in Encode(s, form)
  {
    if s != [] {
      HexRoundTrip(s[0]);
      EncodeSafe(s[1..], form);
    }
  }

  lemma DecodeEncodedByte(b: Byte, form: bool, rest: Bytes)
    requires Safe(rest)
    ensures Decode(EncodeByte(b, form) + rest) == Prepend(b, Decode(rest))
  {
  }

  /** Decoding an encoded string gives it back, in both variants. */
  lemma {:induction false} RoundTrip(s: Bytes, form: bool)
    ensures Decode(Encode(s, form)) == Some(s)
  {
    if s != [] {
      EncodeSafe(s[1..], form);
      DecodeEncodedByte(s[0], form, Encode(s[1..], form));
      RoundTrip(s[1..], form);
      assert [s[0]] + s[1..] == s;
    }
  }

  /** Text comes back as the same text; bytes that are no text come back as something else. */
  lemma TextRoundTrip(s: Bytes, form: bool)
    ensures UrlDecode(Encode(s, form)) == Some(s) <==> Utf8(s)
  {
    RoundTrip(s, form);
    LossyExact(s);
  }

  /** An encoding is ASCII, at most three times as long, free of every reserved character but '%' and '+', and unambiguous. */
  lemma EncodeShape(s: Bytes, t: Bytes, form: bool)
    ensures Ascii(Encode(s, form)) && Safe(Encode(s, form)) && |Encode(s, form)| <= 3 * |s|
    ensures !form ==> PLUS !in Encode(s, form)
    ensures Encode(s, form) == Encode(t, form) ==> s == t
  {
    EncodeSafe(s, form);
    RoundTrip(s, form);
    RoundTrip(t, form);
  }

  // ── when decoding panics ──────────────────────────────────────────────

  /** A '%' whose two following characters end inside a multi-byte character. */
  predicate SplitsChar(s: Bytes, i: int) { 0 <= i && i + 3 < |s| && s[i] == PERCENT && Continuation(s[i + 3]) }

  lemma SplitsLater(s: Bytes, n: nat, i: int)
    requires n <= |s|
    ensures SplitsChar(s[n..], i) ==> SplitsChar(s, n + i)
    ensures i >= n ==> SplitsChar(s[n..], i - n) == SplitsChar(s, i)
  {
  }

  /** Decoding fails exactly on strings in which some '%' is followed by a split character; never on ASCII. */
  lemma {:induction false} DecodePanics(s: Bytes)
    ensures Decode(s).None? <==> exists i :: SplitsChar(s, i)
    ensures Ascii(s) ==> Decode(s).Some?
  {
    if s != [] {
      var pair := s[0] == PERCENT && |s| > 2 && HexPair(s[1], s[2]).Some?;
      var n := if pair then 3 else 1;
      DecodePanics(s[n..]);
      forall i ensures SplitsChar(s[n..], i) ==> SplitsChar(s, n + i) { SplitsLater(s, n, i); }
      forall i | SplitsChar(s, i) ensures i == 0 || SplitsChar(s[n..], i - n) {
        if i >= n { SplitsLater(s, n, i); }
      }
      assert SplitsChar(s, 0) <==> s[0] == PERCENT && |s| > 3 && Continuation(s[3]);
    }
  }

  /** Any text panics in which a '%', an ASCII character and a longer character stand side by side. */
  lemma TextPanics(before: Bytes, a: Byte, c: Bytes, rest: Bytes)
    requires Utf8(before) && a < 128 && CharLength(c) == |c| > 1 && Utf8(rest)
    ensures Utf8(before + [PERCENT, a] + c + rest) && Decode(before + [PERCENT, a] + c + rest).None?
  {
    var s := before + [PERCENT, a] + c + rest;
    assert Utf8([PERCENT, a]) by { assert [PERCENT, a][1..] == [a] && [a][1..] == []; }
    Utf8Concat(before, [PERCENT, a]);
    Utf8Concat(before + [PERCENT, a], c);
    Utf8Concat(before + [PERCENT, a] + c, rest);
    DecodePanics(s);
    assert SplitsChar(s, |before|);
  }

  /** The query value "%a" followed by a small e with an acute accent. */
  lemma PercentPanics()
    ensures Utf8([PERCENT, 0x61, 0xC3, 0xA9]) && Decode([PERCENT, 0x61, 0xC3, 0xA9]).None?
  {
    TextPanics([], 0x61, [0xC3, 0xA9], []);
    assert [] + [PERCENT, 0x61] + [0xC3, 0xA9] + [] == [PERCENT, 0x61, 0xC3, 0xA9];
  }

  // ── which pairs decode ────────────────────────────────────────────────

  /** The character writes the digit, in either case. */
  predicate WritesDigit(c: Byte, n: nat) { n < 16 && (c == HexDigit(n) || (n >= 10 && c == HexDigit(n) + 0x20)) }

  /** Two hex digits decode to their value; so does a plus sign before one digit, and nothing else. */
  lemma PairDecodes(hi: Byte, lo: Byte, b: Byte)
    ensures HexPair(hi, lo) == Some(b) <==> WritesDigit(lo, b % 16) && (WritesDigit(hi, b / 16) || (hi == PLUS && b < 16))
  {
    if HexPair(hi, lo).Some? && hi != PLUS {
      assert HexPair(hi, lo).value / 16 == HexValue(hi).value && HexPair(hi, lo).value % 16 == HexValue(lo).value;
    }
  }

  /** Hence "%+5" decodes as "%05" does, wherever it stands. */
  lemma PlusAsZero(lo: Byte, n: nat, rest: Bytes)
    requires WritesDigit(lo, n)
    ensures Decode([PERCENT, PLUS, lo] + rest) == Decode([PERCENT, HexDigit(0), lo] + rest)
  {
    PairDecodes(PLUS, lo, n);
    PairDecodes(HexDigit(0), lo, n);
    assert ([PERCENT, PLUS, lo] + rest)[3..] == ([PERCENT, HexDigit(0), lo] + rest)[3..];
  }
}
