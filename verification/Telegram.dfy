// The wireless M-Bus telegram inside a data indication: what is published and what is logged.

module Telegrams {
  import opened Bytes
  import opened Framing
  import opened Hex

  datatype ServerPayload =
    ServerPayload(payloadHex: string, gatewayId: string, rssi: Option<int>, timestamp: string, topic: string)

  /** A data indication taken apart: the telegram and, if it was appended, its signal strength. */
  datatype Reading = Reading(telegram: seq<byte>, rssi: Option<int>)

  /** What the log says about one data indication. */
  datatype Printout =
    | TooShort(hex: string)
    | Fields(l: byte, c: byte, manufacturer: bv16, id: Option<string>, version: byte, device: byte,
             rssi: Option<int>, ci: Option<byte>, appData: string, raw: string)

  /** Two's complement. */
  function Signed(b: byte): (n: int)
    ensures -128 <= n <= 127 && (n - b as int) % 256 == 0
  {
    if b >= 128 then b as int - 256 else b as int
  }

  /** Division by two that cuts toward zero. */
  function Halve(n: int): int {
    if n >= 0 then n / 2 else -((-n) / 2)
  }

  /** Signal strength in dBm. */
  function Dbm(b: byte): int {
    Halve(Signed(b)) - 74
  }

  /** What a data indication's payload says. */
  function Read(payload: seq<byte>, rssiEnabled: bool): Option<Reading> {
    if |payload| < 11 then None
    else if rssiEnabled && |payload| >= 12 then
      Some(Reading(payload[..|payload| - 1], Some(Dbm(payload[|payload| - 1]))))
    else Some(Reading(payload, None))
  }

  function Published(r: Reading, gatewayId: string, topic: string, timestamp: string): ServerPayload {
    ServerPayload(ToHex(r.telegram), gatewayId, r.rssi, timestamp, topic)
  }

  function LittleEndian(lo: byte, hi: byte): bv16 {
    (lo as bv16) | ((hi as bv16) << 8)
  }

  function FieldsOf(r: Reading): Printout
    requires |r.telegram| >= 11
  {
    var t := r.telegram;
    Fields(t[0], t[1], LittleEndian(t[2], t[3]), BcdText(t[4..8]), t[8], t[9],
           r.rssi, Some(t[10]), ToHex(t[11..]), ToHex(t))
  }

  method ParseAndPrint(frame: Frame, rssiEnabled: bool, gatewayId: string, topic: string, timestamp: string)
    returns (payload: Option<ServerPayload>, line: Printout)
    ensures match Read(frame.payload, rssiEnabled)
            case None => payload == None && line == TooShort(ToHex(frame.payload))
            case Some(r) =>
              && |r.telegram| >= 11
              && payload == Some(Published(r, gatewayId, topic, timestamp)) && line == FieldsOf(r)
  {
    var bytes := frame.payload;
    if |bytes| < 11 {
      var hex := PrintHex(bytes);
      return None, TooShort(hex);
    }
    var rssi: Option<int> := None;
    var length := |bytes|;
    if rssiEnabled && |bytes| >= 12 {
      rssi := Some(Dbm(bytes[|bytes| - 1]));
      length := |bytes| - 1;
    }
    var wmbus := bytes[..length];
    var manufacturer := LittleEndian(wmbus[2], wmbus[3]);
    var id := DecodeBcd(wmbus[4..8]);
    var ci: Option<byte> := None;
    var app := "";
    if length > 10 {
      ci := Some(wmbus[10]);
      app := PrintHex(wmbus[11..][..length - 11]);
    }
    var raw := PrintHex(wmbus);
    line := Fields(wmbus[0], wmbus[1], manufacturer, id, wmbus[8], wmbus[9], rssi, ci, app, raw);
    payload := Some(ServerPayload(raw, gatewayId, rssi, timestamp, topic));
    assert Read(frame.payload, rssiEnabled).value.telegram == wmbus;
    assert wmbus[11..][..length - 11] == wmbus[11..];
  }

  // ---- What is reported ------------------------------------------------------

  /**
   * A strength byte below 128 stands for itself and any other for itself less 256, in half-decibel steps
   * from -74 dBm, cut toward -74: 0x00 stands for -74, 0x7F for -11, 0xE0 for -90 and 0x80 for -138 dBm.
   */
  lemma DbmRange(b: byte)
    ensures -138 <= Dbm(b) <= -11
    ensures b as int < 128 ==> 2 * (Dbm(b) + 74) <= b as int < 2 * (Dbm(b) + 74) + 2
    ensures b as int >= 128 ==> 2 * (Dbm(b) + 74) - 2 < b as int - 256 <= 2 * (Dbm(b) + 74)
  {
    ByteOrder(b, 128);
  }

  lemma ByteOrder(a: byte, b: byte)
    ensures a < b <==> a as nat < b as nat
  {
  }

  /**
   * A telegram sent with its strength byte is reported as such exactly when the option is known
   * to be on and the telegram has at least eleven bytes.
   */
  lemma ReadingComesThrough(telegram: seq<byte>, strength: byte, rssiEnabled: bool)
    ensures Read(telegram + [strength], rssiEnabled) == Some(Reading(telegram, Some(Dbm(strength))))
            <==> rssiEnabled && |telegram| >= 11
  {
    assert (telegram + [strength])[..|telegram|] == telegram;
  }

  /** The strength in dBm that a byte stands for. */
  predicate StandsFor(dbm: int, b: byte) {
    var n := if b as int < 128 then b as int else b as int - 256;
    if n >= 0 then 2 * (dbm + 74) <= n < 2 * (dbm + 74) + 2 else 2 * (dbm + 74) - 2 < n <= 2 * (dbm + 74)
  }

  /**
   * The published text reads back to the telegram: to the whole indication exactly when that is not
   * mistaken for one with a strength byte, and otherwise to all but its last byte, which then gives the
   * strength. Identifier, topic and time stamp are those given.
   */
  lemma PublishedReadsBack(payload: seq<byte>, rssiEnabled: bool, gatewayId: string, topic: string, timestamp: string)
    ensures Read(payload, rssiEnabled).Some? <==> |payload| >= 11
    ensures |payload| >= 11 ==>
              var p := Published(Read(payload, rssiEnabled).value, gatewayId, topic, timestamp);
              && (p.rssi.Some? <==> rssiEnabled && |payload| >= 12)
              && (FromHex(p.payloadHex) == Some(payload) <==> !(rssiEnabled && |payload| >= 12))
              && FromHex(p.payloadHex) == Some(if p.rssi.Some? then payload[..|payload| - 1] else payload)
              && (p.rssi.Some? ==> StandsFor(p.rssi.value, payload[|payload| - 1]))
              && p.gatewayId == gatewayId && p.topic == topic && p.timestamp == timestamp
  {
    if |payload| >= 11 {
      HexReadsBack(Read(payload, rssiEnabled).value.telegram);
      DbmRange(payload[|payload| - 1]);
      assert |payload[..|payload| - 1]| < |payload|;
    }
  }

  /** The bytes that the logged fields stand for, in telegram order. */
  function Rebuilt(line: Printout): seq<byte>
    requires line.Fields? && line.id.Some? && line.ci.Some? && FromHex(line.appData).Some?
  {
    [line.l, line.c, LowByte(line.manufacturer), HighByte(line.manufacturer)]
    + PackBcd(line.id.value) + [line.version, line.device, line.ci.value] + FromHex(line.appData).value
  }

  function LowByte(n: bv16): byte {
    (n & 0xFF) as byte
  }

  function HighByte(n: bv16): byte {
    (n >> 8) as byte
  }

  lemma LittleEndianParts(lo: byte, hi: byte)
    ensures LowByte(LittleEndian(lo, hi)) == lo && HighByte(LittleEndian(lo, hi)) == hi
    ensures LittleEndian(lo, hi) as nat == lo as nat + 256 * hi as nat
  {
  }

  /** The logged fields miss no byte and overlap nowhere: they spell the telegram whenever its id is decimal. */
  lemma FieldsSpellTelegram(r: Reading)
    requires |r.telegram| >= 11
    ensures FieldsOf(r).id.Some? <==>
              forall i :: 4 <= i < 8 ==> r.telegram[i] as nat / 16 <= 9 && r.telegram[i] as nat % 16 <= 9
    ensures FieldsOf(r).id.Some? ==> |FieldsOf(r).id.value| == 8
    ensures FromHex(FieldsOf(r).appData).Some?
    ensures FromHex(FieldsOf(r).raw) == Some(r.telegram) && FieldsOf(r).rssi == r.rssi
    ensures FieldsOf(r).manufacturer as nat == r.telegram[2] as nat + 256 * r.telegram[3] as nat
    ensures FieldsOf(r).id.Some? ==> Rebuilt(FieldsOf(r)) == r.telegram
  {
    var t := r.telegram;
    DecimalId(t);
    HexReadsBack(t[11..]);
    HexReadsBack(t);
    LittleEndianParts(t[2], t[3]);
    if FieldsOf(r).id.Some? {
      BcdTextMeaning(t[4..8]);
      RebuiltIsTelegram(r);
    }
  }

  lemma RebuiltIsTelegram(r: Reading)
    requires |r.telegram| >= 11 && BcdText(r.telegram[4..8]).Some?
    requires PackBcd(BcdText(r.telegram[4..8]).value) == r.telegram[4..8]
    requires FromHex(ToHex(r.telegram[11..])) == Some(r.telegram[11..])
    ensures Rebuilt(FieldsOf(r)) == r.telegram
  {
    var t := r.telegram;
    LittleEndianParts(t[2], t[3]);
    TelegramParts(t);
  }

  lemma DecimalId(t: seq<byte>)
    requires |t| >= 11
    ensures BcdText(t[4..8]).Some? <==> forall i :: 4 <= i < 8 ==> t[i] as nat / 16 <= 9 && t[i] as nat % 16 <= 9
  {
    var id := t[4..8];
    BcdAcceptsDigits(id);
    assert forall i :: 4 <= i < 8 ==> t[i] == id[i - 4];
    assert forall i :: 0 <= i < 4 ==> id[i] == t[i + 4];
  }

  lemma TelegramParts(t: seq<byte>)
    requires |t| >= 11
    ensures t == [t[0], t[1], t[2], t[3]] + t[4..8] + [t[8], t[9], t[10]] + t[11..]
  {
  }
}
