/** The text forms a token is made of: dotted parts, decimal seconds, hexadecimal bytes. */
module TokenText {
  import opened Common

  newtype byte = x: int | 0 <= x < 256

  // --- split('.') and joining with '.' ---

  predicate DotFree(text: string) {
    '.' !in text
  }

  function Split(text: string): (parts: seq<string>)
    ensures |parts| >= 1
  {
    if text == "" then [""]
    else
      var rest := Split(text[1..]);
      if text[0] == '.' then [""] + rest else [[text[0]] + rest[0]] + rest[1..]
  }

  function Join(parts: seq<string>): string {
    if parts == [] then ""
    else if |parts| == 1 then parts[0]
    else parts[0] + "." + Join(parts[1..])
  }

  /** Splitting loses nothing and leaves no dot behind. */
  lemma {:induction false} JoinSplit(text: string)
    ensures Join(Split(text)) == text
    ensures forall p :: p in Split(text) ==> DotFree(p)
  {
    if text != "" {
      JoinSplit(text[1..]);
      var rest, parts := Split(text[1..]), Split(text);
      assert text == [text[0]] + text[1..];
      if text[0] == '.' {
        assert parts[1..] == rest;
      } else {
        assert parts[0] == [text[0]] + rest[0] && parts[1..] == rest[1..];
        assert rest[0] in rest;
        JoinHead(rest, [text[0]]);
      }
      forall p | p in parts ensures DotFree(p) {
        assert p == parts[0] || p in parts[1..];
        assert forall q :: q in rest[1..] ==> q in rest;
      }
    }
  }

  lemma JoinHead(parts: seq<string>, head: string)
    requires parts != []
    ensures Join([head + parts[0]] + parts[1..]) == head + Join(parts)
  {
    var more := [head + parts[0]] + parts[1..];
    assert more[1..] == parts[1..];
    if |parts| > 1 {
      assert head + parts[0] + "." + Join(parts[1..]) == head + (parts[0] + "." + Join(parts[1..]));
    }
  }

  lemma SplitCons(c: char, text: string)
    requires c != '.'
    ensures var rest := Split(text); Split([c] + text) == [[c] + rest[0]] + rest[1..]
  {
    assert ([c] + text)[1..] == text;
  }

  lemma {:induction false} SplitHead(head: string, text: string)
    requires DotFree(head)
    ensures var rest := Split(text); Split(head + text) == [head + rest[0]] + rest[1..]
  {
    var rest := Split(text);
    if head == "" {
      assert head + text == text && head + rest[0] == rest[0];
    } else {
      assert head[0] in head;
      SplitHead(head[1..], text);
      assert head + text == [head[0]] + (head[1..] + text);
      SplitCons(head[0], head[1..] + text);
      assert [head[0]] + (head[1..] + rest[0]) == head + rest[0];
    }
  }

  /** Dot-free parts come back from their joined text. */
  lemma {:induction false} SplitJoin(parts: seq<string>)
    requires parts != [] && forall p :: p in parts ==> DotFree(p)
    ensures Split(Join(parts)) == parts
  {
    var head := parts[0];
    if |parts| == 1 {
      SplitHead(head, "");
      assert head + "" == head;
    } else {
      SplitJoin(parts[1..]);
      var tail := "." + Join(parts[1..]);
      assert tail[1..] == Join(parts[1..]);
      assert Split(tail) == [""] + parts[1..];
      assert head in parts;
      SplitHead(head, tail);
      assert head + tail == Join(parts);
      assert Split(tail)[0] == "" && Split(tail)[1..] == parts[1..];
      assert head + "" == head;
    }
  }

  // --- Decimal seconds ---

  function DigitOf(d: nat): char
    requires d < 10
  {
    "0123456789"[d]
  }

  predicate IsDigit(c: char) {
    '0' <= c <= '9'
  }

  function DigitValue(c: char): nat
    requires IsDigit(c)
  {
    (c as int - '0' as int) as nat
  }

  predicate AllDigits(text: string) {
    forall i | 0 <= i < |text| :: IsDigit(text[i])
  }

  function ToDecimal(n: nat): string {
    if n < 10 then [DigitOf(n)] else ToDecimal(n / 10) + [DigitOf(n % 10)]
  }

  function FromDecimal(text: string): nat
    requires AllDigits(text)
  {
    if text == "" then 0
    else FromDecimal(text[..|text| - 1]) * 10 + DigitValue(text[|text| - 1])
  }

  /** Reading a printed number gives it back. */
  lemma {:induction false} DecimalRoundTrip(n: nat)
    ensures ToDecimal(n) != "" && AllDigits(ToDecimal(n)) && DotFree(ToDecimal(n))
    ensures FromDecimal(ToDecimal(n)) == n
  {
    var text := ToDecimal(n);
    if n >= 10 {
      DecimalRoundTrip(n / 10);
      assert text[..|text| - 1] == ToDecimal(n / 10);
    } else {
      assert text[..|text| - 1] == "";
    }
  }

  // --- Hexadecimal bytes ---

  function HexDigit(d: nat): char
    requires d < 16
  {
    "0123456789abcdef"[d]
  }

  /** The value of a hex digit of either case. */
  function HexValue(c: char): Option<nat> {
    if '0' <= c <= '9' then Some((c as int - '0' as int) as nat)
    else if 'a' <= c <= 'f' then Some((c as int - 'a' as int + 10) as nat)
    else if 'A' <= c <= 'F' then Some((c as int - 'A' as int + 10) as nat)
    else None
  }

  function HexEncode(bytes: seq<byte>): string {
    if bytes == [] then ""
    else [HexDigit(bytes[0] as nat / 16), HexDigit(bytes[0] as nat % 16)] + HexEncode(bytes[1..])
  }

  predicate IsPair(text: string) {
    |text| >= 2 && HexValue(text[0]).Some? && HexValue(text[1]).Some? &&
    HexValue(text[0]).value < 16 && HexValue(text[1]).value < 16
  }

  /** Decoding as Node does: pair by pair, up to the first pair that is not two hex digits. */
  function HexDecode(text: string): seq<byte> {
    if IsPair(text)
    then [(HexValue(text[0]).value * 16 + HexValue(text[1]).value) as byte] + HexDecode(text[2..])
    else []
  }

  predicate SameHex(a: string, b: string) {
    |a| == |b| && forall i | 0 <= i < |a| :: HexValue(a[i]) == HexValue(b[i])
  }

  lemma DigitValueOf(d: nat)
    requires d < 16
    ensures HexValue(HexDigit(d)) == Some(d) && HexDigit(d) != '.'
  {}

  lemma {:induction false} HexEncoded(bytes: seq<byte>)
    ensures HexDecode(HexEncode(bytes)) == bytes
    ensures |HexEncode(bytes)| == 2 * |bytes| && DotFree(HexEncode(bytes))
  {
    if bytes != [] {
      HexEncoded(bytes[1..]);
      DigitValueOf(bytes[0] as nat / 16);
      DigitValueOf(bytes[0] as nat % 16);
      assert HexEncode(bytes)[2..] == HexEncode(bytes[1..]);
    }
  }

  /**
   * A text decodes to `bytes` exactly when it starts with their encoding, in
   * either letter case, and what follows starts with no pair of hex digits.
   */
  lemma {:induction false} HexExact(text: string, bytes: seq<byte>)
    ensures HexDecode(text) == bytes <==>
            |text| >= 2 * |bytes| && SameHex(text[..2 * |bytes|], HexEncode(bytes)) && !IsPair(text[2 * |bytes|..])
  {
    HexEncoded(bytes);
    if bytes == [] {
      assert text[0..] == text && text[..0] == "";
    } else if |text| >= 2 {
      var code := HexEncode(bytes);
      HexExact(text[2..], bytes[1..]);
      DigitValueOf(bytes[0] as nat / 16);
      DigitValueOf(bytes[0] as nat % 16);
      assert code == code[..2] + HexEncode(bytes[1..]);
      if |text| >= 2 * |bytes| {
        assert text[2..][..2 * |bytes| - 2] == text[2..2 * |bytes|];
        assert text[2..][2 * |bytes| - 2..] == text[2 * |bytes|..];
        SameHexSplit(text[..2 * |bytes|], code);
        assert text[..2 * |bytes|][2..] == text[2..2 * |bytes|] && code[2..] == HexEncode(bytes[1..]);
      }
      HexStep(text, bytes);
    }
  }

  lemma SameHexSplit(a: string, b: string)
    requires |a| == |b| >= 2
    ensures SameHex(a, b) <==>
            HexValue(a[0]) == HexValue(b[0]) && HexValue(a[1]) == HexValue(b[1]) && SameHex(a[2..], b[2..])
  {
    if SameHex(a[2..], b[2..]) && HexValue(a[0]) == HexValue(b[0]) && HexValue(a[1]) == HexValue(b[1]) {
      forall i | 0 <= i < |a| ensures HexValue(a[i]) == HexValue(b[i]) {
        if i >= 2 { assert a[i] == a[2..][i - 2] && b[i] == b[2..][i - 2]; }
      }
    }
  }

  lemma HexStep(text: string, bytes: seq<byte>)
    requires |text| >= 2 && bytes != []
    ensures HexDecode(text) == bytes <==>
            HexValue(text[0]) == Some(bytes[0] as nat / 16) && HexValue(text[1]) == Some(bytes[0] as nat % 16) &&
            HexDecode(text[2..]) == bytes[1..]
  {
    assert bytes == [bytes[0]] + bytes[1..];
    if IsPair(text) {
      var hi, lo := HexValue(text[0]).value, HexValue(text[1]).value;
      assert hi < 16 && lo < 16;
      assert (hi * 16 + lo) / 16 == hi && (hi * 16 + lo) % 16 == lo;
      assert HexDecode(text)[0] == (hi * 16 + lo) as byte && HexDecode(text)[1..] == HexDecode(text[2..]);
    }
  }

  // --- Base 16 as section 8 of RFC 4648 has it, and Node's reading of it ---

  /** The character is the digit of value `v`, in either case. */
  predicate IsHexDigit(c: char, v: int) {
    0 <= v < 16 && (c == "0123456789abcdef"[v] || c == "0123456789ABCDEF"[v])
  }

  lemma HexValueIs(c: char, v: nat)
    ensures HexValue(c) == Some(v) <==> IsHexDigit(c, v)
  {}

  /** Two hex digits that stand for the byte. */
  predicate Spells(text: string, at: nat, b: byte) {
    at + 1 < |text| && IsHexDigit(text[at], b as int / 16) && IsHexDigit(text[at + 1], b as int % 16)
  }

  /** The text starts with some two hex digits. */
  ghost predicate StartsWithByte(text: string) {
    exists b: byte :: Spells(text, 0, b)
  }

  lemma PairIs(text: string)
    ensures IsPair(text) <==> StartsWithByte(text)
  {
    if IsPair(text) {
      var hi, lo := HexValue(text[0]).value, HexValue(text[1]).value;
      HexValueIs(text[0], hi);
      HexValueIs(text[1], lo);
      assert (hi * 16 + lo) / 16 == hi && (hi * 16 + lo) % 16 == lo;
      assert Spells(text, 0, (hi * 16 + lo) as byte);
    }
    if b: byte :| Spells(text, 0, b) {
      HexValueIs(text[0], b as nat / 16);
      HexValueIs(text[1], b as nat % 16);
    }
  }

  /** A text decodes to `bytes` exactly if it spells them, in either letter case, and no further byte after them. */
  lemma {:induction false} HexReads(text: string, bytes: seq<byte>)
    ensures HexDecode(text) == bytes <==>
            2 * |bytes| <= |text| && (forall i: nat :: i < |bytes| ==> Spells(text, 2 * i, bytes[i])) &&
            !StartsWithByte(text[2 * |bytes|..])
  {
    if bytes == [] {
      assert text[0..] == text;
      PairIs(text);
    } else if |text| >= 2 {
      HexReads(text[2..], bytes[1..]);
      HexStep(text, bytes);
      HexValueIs(text[0], bytes[0] as nat / 16);
      HexValueIs(text[1], bytes[0] as nat % 16);
      assert Spells(text, 0, bytes[0]) <==>
             HexValue(text[0]) == Some(bytes[0] as nat / 16) && HexValue(text[1]) == Some(bytes[0] as nat % 16);
      SpellsRest(text, bytes);
    }
  }

  lemma SpellsRest(text: string, bytes: seq<byte>)
    requires |text| >= 2 && bytes != []
    ensures 2 * |bytes| <= |text| ==> text[2..][2 * |bytes[1..]|..] == text[2 * |bytes|..]
    ensures (forall i: nat :: i < |bytes| ==> Spells(text, 2 * i, bytes[i])) <==>
            Spells(text, 0, bytes[0]) && forall i: nat :: i < |bytes[1..]| ==> Spells(text[2..], 2 * i, bytes[1..][i])
  {
    forall i: nat | i < |bytes[1..]|
      ensures Spells(text[2..], 2 * i, bytes[1..][i]) <==> Spells(text, 2 * (i + 1), bytes[i + 1])
    {}
    if Spells(text, 0, bytes[0]) && forall i: nat :: i < |bytes[1..]| ==> Spells(text[2..], 2 * i, bytes[1..][i]) {
      forall i: nat | i < |bytes| ensures Spells(text, 2 * i, bytes[i]) {
        if i > 0 { assert Spells(text[2..], 2 * (i - 1), bytes[1..][i - 1]); }
      }
    }
  }

  lemma LowerDigit(d: nat)
    requires d < 16
    ensures HexDigit(d) in "0123456789abcdef"
  {
    assert "0123456789abcdef"[d] in "0123456789abcdef";
  }

  lemma {:induction false} HexLower(bytes: seq<byte>)
    ensures forall c :: c in HexEncode(bytes) ==> c in "0123456789abcdef"
  {
    if bytes != [] {
      HexLower(bytes[1..]);
      LowerDigit(bytes[0] as nat / 16);
      LowerDigit(bytes[0] as nat % 16);
    }
  }
}
