// Bytes as text: the hexadecimal printer and the BCD reader.

module Hex {
  import opened Bytes

  /** The upper and the lower four bits. */
  function Hi(b: byte): (n: byte)
    ensures n < 16 && n as nat == b as nat / 16
  {
    (b >> 4) & 0x0F
  }

  function Lo(b: byte): (n: byte)
    ensures n < 16 && n as nat == b as nat % 16
  {
    b & 0x0F
  }

  function Join(hi: byte, lo: byte): byte {
    (hi << 4) | lo
  }

  lemma JoinNibbles(b: byte)
    ensures Join(Hi(b), Lo(b)) == b
  {
  }

  lemma NibblesOfJoin(hi: byte, lo: byte)
    requires hi < 16 && lo < 16
    ensures Hi(Join(hi, lo)) == hi && Lo(Join(hi, lo)) == lo
  {
  }

  function HexDigit(n: byte): char
    requires n < 16
  {
    "0123456789ABCDEF"[n as nat]
  }

  function HexValue(c: char): (n: Option<byte>)
    ensures n.Some? ==> n.value < 16
  {
    match c
    case '0' => Some(0)  case '1' => Some(1)  case '2' => Some(2)  case '3' => Some(3)
    case '4' => Some(4)  case '5' => Some(5)  case '6' => Some(6)  case '7' => Some(7)
    case '8' => Some(8)  case '9' => Some(9)  case 'A' => Some(10) case 'B' => Some(11)
    case 'C' => Some(12) case 'D' => Some(13) case 'E' => Some(14) case 'F' => Some(15)
    case _ => None
  }

  lemma HexDigitValue(n: byte, c: char)
    requires n < 16
    ensures HexDigit(n) == c <==> HexValue(c) == Some(n)
  {
  }

  lemma DigitsOf(b: byte)
    ensures HexDigit(Hi(b)) == "0123456789ABCDEF"[b as nat / 16]
    ensures HexDigit(Lo(b)) == "0123456789ABCDEF"[b as nat % 16]
  {
  }

  /** The text has upper-case digits to base sixteen, the high one of each byte first. */
  lemma {:induction false} HexDigits(data: seq<byte>, i: nat)
    requires i < |data|
    ensures |ToHex(data)| == 2 * |data|
    ensures ToHex(data)[2 * i] == "0123456789ABCDEF"[data[i] as nat / 16]
    ensures ToHex(data)[2 * i + 1] == "0123456789ABCDEF"[data[i] as nat % 16]
  {
    hide HexDigit, FromHex, Hi, Lo;
    HexReadsBack(data);
    HexReadsBack(data[1..]);
    DigitsOf(data[0]);
    assert ToHex(data)[2..] == ToHex(data[1..]);
    if i > 0 {
      HexDigits(data[1..], i - 1);
    }
  }

  /** Two upper-case digits a byte, high digit first. */
  function ToHex(data: seq<byte>): string {
    if data == [] then ""
    else [HexDigit(Hi(data[0])), HexDigit(Lo(data[0]))] + ToHex(data[1..])
  }

  /** Reads such text back; anything else is refused. */
  function FromHex(s: string): Option<seq<byte>> {
    if s == "" then Some([])
    else if |s| == 1 then None
    else match (HexValue(s[0]), HexValue(s[1]), FromHex(s[2..]))
      case (Some(hi), Some(lo), Some(tail)) => Some([Join(hi, lo)] + tail)
      case _ => None
  }

  /** Printing bytes loses nothing. */
  lemma {:induction false} HexReadsBack(data: seq<byte>)
    ensures |ToHex(data)| == 2 * |data|
    ensures FromHex(ToHex(data)) == Some(data)
  {
    if data != [] {
      var b := data[0];
      HexReadsBack(data[1..]);
      HexDigitValue(Hi(b), HexDigit(Hi(b)));
      HexDigitValue(Lo(b), HexDigit(Lo(b)));
      JoinNibbles(b);
      assert ToHex(data)[2..] == ToHex(data[1..]);
      assert data == [b] + data[1..];
    }
  }

  /** Only the text that the printer writes is read. */
  lemma {:induction false} HexIsCanonical(s: string)
    requires FromHex(s).Some?
    ensures ToHex(FromHex(s).value) == s
  {
    if s != "" {
      var hi, lo := HexValue(s[0]).value, HexValue(s[1]).value;
      HexIsCanonical(s[2..]);
      NibblesOfJoin(hi, lo);
      HexDigitValue(hi, s[0]);
      HexDigitValue(lo, s[1]);
      assert FromHex(s).value[1..] == FromHex(s[2..]).value;
      assert s == [s[0], s[1]] + s[2..];
    }
  }

  lemma {:induction false} ToHexSnoc(data: seq<byte>, b: byte)
    ensures ToHex(data + [b]) == ToHex(data) + [HexDigit(Hi(b)), HexDigit(Lo(b))]
  {
    if data != [] {
      ToHexSnoc(data[1..], b);
      assert (data + [b])[1..] == data[1..] + [b];
    }
  }

  method PrintHex(data: seq<byte>) returns (result: string)
    ensures result == ToHex(data)
  {
    result := "";
    for i := 0 to |data|
      invariant result == ToHex(data[..i])
    {
      ToHexSnoc(data[..i], data[i]);
      assert data[..i + 1] == data[..i] + [data[i]];
      result := result + [HexDigit(Hi(data[i]))];
      result := result + [HexDigit(Lo(data[i]))];
    }
    assert data[..|data|] == data;
  }

  // ---- BCD, least significant byte first ------------------------------------

  predicate IsBcd(b: byte) {
    Hi(b) <= 9 && Lo(b) <= 9
  }

  predicate IsDigit(c: char) {
    '0' <= c <= '9'
  }

  /** The digits of a little-endian BCD number, most significant first. */
  function BcdText(data: seq<byte>): Option<string> {
    if data == [] then Some("")
    else if !IsBcd(data[0]) || BcdText(data[1..]).None? then None
    else Some(BcdText(data[1..]).value + [HexDigit(Hi(data[0])), HexDigit(Lo(data[0]))])
  }

  /** The number that the bytes stand for. */
  function BcdValue(data: seq<byte>): nat {
    if data == [] then 0 else 10 * (data[0] as nat / 16) + data[0] as nat % 16 + 100 * BcdValue(data[1..])
  }

  /** The number that a row of digits stands for. */
  function DecimalValue(s: string): int {
    if s == "" then 0 else 10 * DecimalValue(s[..|s| - 1]) + (s[|s| - 1] as int - '0' as int)
  }

  /** Packs a row of digits into bytes again, two digits a byte. */
  function PackBcd(s: string): seq<byte> {
    if |s| < 2 then []
    else
      var hi, lo := HexValue(s[|s| - 2]), HexValue(s[|s| - 1]);
      (if hi.Some? && lo.Some? then [Join(hi.value, lo.value)] else []) + PackBcd(s[..|s| - 2])
  }

  /** A decimal half byte prints as the digit for its value and reads back. */
  lemma DecimalDigit(n: byte)
    requires n <= 9
    ensures IsDigit(HexDigit(n)) && HexDigit(n) as int - '0' as int == n as int
    ensures HexValue(HexDigit(n)) == Some(n)
  {
    HexDigitValue(n, HexDigit(n));
  }

  /** A text comes out exactly when every half byte is a decimal digit. */
  lemma {:induction false} BcdAcceptsDigits(data: seq<byte>)
    ensures BcdText(data).Some? <==>
              forall i :: 0 <= i < |data| ==> data[i] as nat / 16 <= 9 && data[i] as nat % 16 <= 9
  {
    if data != [] {
      BcdAcceptsDigits(data[1..]);
      assert forall i :: 1 <= i < |data| ==> data[i] == data[1..][i - 1];
    }
  }

  lemma LastTwoDigits(head: string, h: char, l: char)
    ensures DecimalValue(head + [h, l])
         == 100 * DecimalValue(head) + 10 * (h as int - '0' as int) + (l as int - '0' as int)
    ensures HexValue(h).Some? && HexValue(l).Some? ==>
              PackBcd(head + [h, l]) == [Join(HexValue(h).value, HexValue(l).value)] + PackBcd(head)
  {
    var s := head + [h, l];
    assert s[..|s| - 1] == head + [h];
    assert (head + [h])[..|s| - 2] == head;
    assert s[..|s| - 2] == head;
  }

  lemma BcdTextStep(b: byte, tail: seq<byte>)
    requires BcdText(tail).Some?
    ensures BcdText([b] + tail)
         == if IsBcd(b) then Some(BcdText(tail).value + [HexDigit(Hi(b))] + [HexDigit(Lo(b))]) else None
  {
    assert ([b] + tail)[1..] == tail;
    var h, l := HexDigit(Hi(b)), HexDigit(Lo(b));
    assert BcdText(tail).value + [h] + [l] == BcdText(tail).value + [h, l];
  }

  lemma BcdTextCons(b: byte, tail: seq<byte>)
    requires IsBcd(b) && BcdText(tail).Some?
    ensures BcdText([b] + tail).Some?
    ensures var s, head := BcdText([b] + tail).value, BcdText(tail).value;
            && s == head + [HexDigit(Hi(b)), HexDigit(Lo(b))]
            && IsDigit(HexDigit(Hi(b))) && IsDigit(HexDigit(Lo(b)))
            && DecimalValue(s) == 100 * DecimalValue(head) + 10 * (Hi(b) as int) + Lo(b) as int
            && PackBcd(s) == [b] + PackBcd(head)
    ensures BcdValue([b] + tail) == 10 * (Hi(b) as nat) + Lo(b) as nat + 100 * BcdValue(tail)
  {
    assert ([b] + tail)[1..] == tail;
    JoinNibbles(b);
    DecimalDigit(Hi(b));
    DecimalDigit(Lo(b));
    LastTwoDigits(BcdText(tail).value, HexDigit(Hi(b)), HexDigit(Lo(b)));
  }

  /** The text has two digits a byte, names the same number, and packs to the same bytes. */
  lemma {:induction false} BcdTextMeaning(data: seq<byte>)
    requires BcdText(data).Some?
    ensures var s := BcdText(data).value;
            && |s| == 2 * |data| && (forall i :: 0 <= i < |s| ==> IsDigit(s[i]))
            && DecimalValue(s) == BcdValue(data)
            && PackBcd(s) == data
  {
    if data != [] {
      assert data == [data[0]] + data[1..];
      assert IsBcd(data[0]) && BcdText(data[1..]).Some?;
      hide HexDigit, DecimalValue, PackBcd, BcdText, BcdValue;
      BcdTextMeaning(data[1..]);
      BcdTextCons(data[0], data[1..]);
    }
  }

  /** The reader: last byte first, giving up at the first half byte above nine. */
  method DecodeBcd(data: seq<byte>) returns (result: Option<string>)
    ensures result == BcdText(data)
  {
    var text := "";
    assert data[|data|..] == [];
    for i := |data| downto 0
      invariant BcdText(data[i..]) == Some(text)
    {
      assert data[i..] == [data[i]] + data[i + 1..];
      BcdTextStep(data[i], data[i + 1..]);
      var hi, lo := Hi(data[i]), Lo(data[i]);
      if hi > 9 || lo > 9 {
        BcdAcceptsDigits(data);
        assert !IsBcd(data[i]);
        return None;
      }
      text := text + [HexDigit(hi)];
      text := text + [HexDigit(lo)];
    }
    assert data[0..] == data;
    return Some(text);
  }
}
