/** The text commands of the radio: "fs20 send HC ADDR CMD" and
    "fs20 receive", which drains the receive queue into 11-character hex
    records. The sscanf/sprintf machinery is abstracted: a send request
    arrives as the values the scanner converted, and a record is built
    from its digits directly. */
module Ecmd {
  import opened Timing
  import opened Layout
  import opened Results
  import opened Encoder
  import opened Fs20Receiver

  /** ECMD_FINAL_OK and ECMD_ERR_PARSE_ERROR. */
  datatype Reply = FinalOk | ParseError

  /** The number of hex fields the send command needs. */
  const SendFields: nat := 3

  /** Characters per drained record: five two-digit bytes and a newline. */
  const RecordLength: nat := 11

  // ---- fs20 send ----

  /** parse_cmd_fs20_send: scanned holds the values "%x %x %x" converted
      into uint16_t before the scanner stopped. Only when all three
      converted is fs20_send called, with the low bytes of address and
      command; otherwise nothing is sent. */
  function SendCommand(scanned: seq<bv16>): (r: (Reply, Option<seq<Symbol>>))
    requires |scanned| <= SendFields
    ensures r.0 == FinalOk <==> |scanned| == SendFields
    ensures r.1.Some? <==> r.0 == FinalOk
    ensures r.1.Some? ==>
              var t := Telegram(scanned[0], Lo8(scanned[1]), Lo8(scanned[2]));
              && |r.1.value| == Repetitions * RepetitionLength
              && forall i :: 0 <= i < Repetitions ==>
                   ReadRepetition(r.1.value[RepetitionLength * i .. RepetitionLength * (i + 1)]) == Some(t)
  {
    if |scanned| == SendFields then
      (FinalOk, Some(Send(Telegram(scanned[0], Lo8(scanned[1]), Lo8(scanned[2])))))
    else (ParseError, None)
  }

  lemma Lo8Mask(w: bv16)
    ensures Lo8(w & 0xFF) == Lo8(w)
  {
    assert (w & 0xFF) & 0xFF == w & 0xFF;
  }

  /** The high bytes of the address and command fields are ignored: only
      the housecode is sent in full. */
  lemma SendIgnoresHighBytes(hc: bv16, address: bv16, command: bv16)
    ensures SendCommand([hc, address, command]) == SendCommand([hc, address & 0xFF, command & 0xFF])
  {
    Lo8Mask(address);
    Lo8Mask(command);
  }

  // ---- fs20 receive ----

  /** A lower-case hex digit, as %x prints it. */
  function HexDigit(d: nat): (c: char)
    requires d < 16
    ensures '0' <= c <= '9' || 'a' <= c <= 'f'
  {
    if d < 10 then ('0' as int + d) as char else ('a' as int + d - 10) as char
  }

  /** A byte as %02x prints it: two digits, high nibble first. */
  function Hex2(b: bv8): (s: string)
    ensures |s| == 2
  {
    [HexDigit(b as nat / 16), HexDigit(b as nat % 16)]
  }

  /** The five bytes of a queue entry that a record shows. */
  datatype Entry = Entry(hc1: bv8, hc2: bv8, addr: bv8, cmd: bv8, ext: bv8)

  function EntryOf(c: Command): Entry {
    Entry(c.hc1, c.hc2, c.addr, c.cmd, c.ext)
  }

  /** One drained record: hc1, hc2, addr, cmd and ext in hex, then a
      newline. The type character of the entry is not part of it. */
  function Record(c: Command): (s: string)
    ensures |s| == RecordLength && s[RecordLength - 1] == '\n'
  {
    seq(RecordLength, i requires 0 <= i < RecordLength => RecordChar(EntryOf(c), i))
  }

  /** The k-th byte of a record, in printing order. */
  function Byte(e: Entry, k: nat): bv8
    requires k < 5
  {
    [e.hc1, e.hc2, e.addr, e.cmd, e.ext][k]
  }

  /** Character i of a record: two digits per byte, then the newline. */
  function RecordChar(e: Entry, i: nat): char
    requires i < RecordLength
  {
    if i == RecordLength - 1 then '\n' else Hex2(Byte(e, i / 2))[i % 2]
  }

  /** The records of several entries, first entry first. */
  function Records(cs: seq<Command>): (s: string)
    ensures |s| == RecordLength * |cs|
  {
    if |cs| == 0 then "" else Record(cs[0]) + Records(cs[1..])
  }

  lemma {:induction false} RecordsAppend(cs: seq<Command>, c: Command)
    ensures Records(cs + [c]) == Records(cs) + Record(c)
  {
    if |cs| == 0 {
      assert cs + [c] == [c];
      assert Records([c]) == Record(c) + Records([]);
    } else {
      assert (cs + [c])[1..] == cs[1..] + [c];
      RecordsAppend(cs[1..], c);
    }
  }

  lemma RecordsPrefix(q: seq<Command>, l: nat)
    requires l < |q|
    ensures Records(q[..l + 1]) == Records(q[..l]) + Record(q[l])
  {
    RecordsAppend(q[..l], q[l]);
    assert q[..l + 1] == q[..l] + [q[l]];
  }

  /** parse_cmd_fs20_receive: records go out from queue[0], the newest
      entry, while entries remain and (uint8_t)(outlen + 11) is below the
      buffer size; afterwards the queue is emptied, whether or not every
      entry fitted. The reply length is the 8-bit outlen. */
  method Receive(ch: Fs20Channel, bufLen: nat) returns (out: string, outlen: nat, r: Fs20Channel)
    requires |ch.queue| == QueueLength && ch.len <= QueueLength
    ensures r == ch.(len := 0)
    ensures outlen == |out| && outlen % RecordLength == 0
    ensures var n := outlen / RecordLength;
            && n <= ch.len
            && out == Records(ch.queue[..n])
            && (n == 0 || RecordLength * n < bufLen)
            && (n < ch.len ==> RecordLength * (n + 1) >= bufLen)
  {
    var queue, len := ch.queue, ch.len;
    out := "";
    outlen := 0;
    var l: nat := 0;
    while l < len && (outlen + RecordLength) % 256 < bufLen
      invariant l <= len
      invariant outlen == RecordLength * l && |out| == outlen
      invariant out == Records(queue[..l])
      invariant l == 0 || RecordLength * l < bufLen
      decreases len - l
    {
      RecordsPrefix(queue, l);
      out := out + Record(queue[l]);
      outlen := (outlen + RecordLength) % 256;
      l := l + 1;
    }
    assert outlen + RecordLength < 256;
    assert outlen / RecordLength == l;
    r := ch.(len := 0);
  }

  // ---- the partner: reading records back ----

  /** The value of a lower-case hex digit. */
  function DigitValue(c: char): Option<nat> {
    if '0' <= c <= '9' then Some(c as int - '0' as int)
    else if 'a' <= c <= 'f' then Some(c as int - 'a' as int + 10)
    else None
  }

  lemma DigitValueOf(d: nat)
    requires d < 16
    ensures DigitValue(HexDigit(d)) == Some(d)
  {
  }

  /** The byte with high nibble hi and low nibble lo. */
  function FromNibbles(hi: nat, lo: nat): bv8
    requires hi < 16 && lo < 16
  {
    (hi * 16 + lo) as bv8
  }

  /** Two hex digits back to a byte. */
  function ReadHex2(s: string): Option<bv8>
    requires |s| == 2
  {
    var hi, lo := DigitValue(s[0]), DigitValue(s[1]);
    if hi.None? || lo.None? then None
    else Some(FromNibbles(hi.value, lo.value))
  }

  lemma ReadHexDigits(hi: nat, lo: nat)
    requires hi < 16 && lo < 16
    ensures ReadHex2([HexDigit(hi), HexDigit(lo)]) == Some(FromNibbles(hi, lo))
  {
    DigitValueOf(hi);
    DigitValueOf(lo);
  }

  lemma NatByte(b: bv8)
    ensures b as nat < 256 && (b as nat) as bv8 == b
  {
  }

  lemma SplitNat(n: nat)
    requires n < 256
    ensures n / 16 < 16 && n % 16 < 16 && n / 16 * 16 + n % 16 == n
  {
  }

  /** A byte is its two nibbles put back together. */
  lemma Nibbles(b: bv8)
    ensures b as nat / 16 < 16 && b as nat % 16 < 16
    ensures FromNibbles(b as nat / 16, b as nat % 16) == b
  {
    var n := b as nat;
    NatByte(b);
    SplitNat(n);
    assert FromNibbles(n / 16, n % 16) == n as bv8;
  }

  lemma ReadHex2Of(b: bv8)
    ensures ReadHex2(Hex2(b)) == Some(b)
  {
    Nibbles(b);
    ReadHexDigits(b as nat / 16, b as nat % 16);
  }

  /** A record back to its bytes, if it is one. */
  function ReadRecord(s: string): Option<Entry>
    requires |s| == RecordLength
  {
    var b0, b1, b2, b3, b4 := ReadHex2(s[0..2]), ReadHex2(s[2..4]), ReadHex2(s[4..6]),
                              ReadHex2(s[6..8]), ReadHex2(s[8..10]);
    if b0.None? || b1.None? || b2.None? || b3.None? || b4.None? || s[10] != '\n' then None
    else Some(Entry(b0.value, b1.value, b2.value, b3.value, b4.value))
  }

  lemma RecordSlice(c: Command, k: nat)
    requires k < 5
    ensures Record(c)[2 * k .. 2 * k + 2] == Hex2(Byte(EntryOf(c), k))
  {
    var s, h := Record(c), Hex2(Byte(EntryOf(c), k));
    assert s[2 * k] == h[0];
    assert s[2 * k + 1] == h[1];
  }

  lemma RecordSlices(c: Command)
    ensures var s := Record(c);
            && s[0..2] == Hex2(c.hc1) && s[2..4] == Hex2(c.hc2) && s[4..6] == Hex2(c.addr)
            && s[6..8] == Hex2(c.cmd) && s[8..10] == Hex2(c.ext)
  {
    RecordSlice(c, 0);
    RecordSlice(c, 1);
    RecordSlice(c, 2);
    RecordSlice(c, 3);
    RecordSlice(c, 4);
  }

  lemma ReadRecordOf(c: Command)
    ensures ReadRecord(Record(c)) == Some(EntryOf(c))
  {
    RecordSlices(c);
    ReadHex2Of(c.hc1);
    ReadHex2Of(c.hc2);
    ReadHex2Of(c.addr);
    ReadHex2Of(c.cmd);
    ReadHex2Of(c.ext);
  }

  /** A drain reply back to its entries, record by record. */
  function ReadRecords(s: string): Option<seq<Entry>>
    decreases |s|
  {
    if |s| == 0 then Some([])
    else if |s| < RecordLength then None
    else
      var e, rest := ReadRecord(s[..RecordLength]), ReadRecords(s[RecordLength..]);
      if e.None? || rest.None? then None else Some([e.value] + rest.value)
  }

  /** The drained text gives back exactly the bytes of the entries it
      covers, in queue order. */
  lemma {:induction false} ReadRecordsOf(cs: seq<Command>)
    ensures ReadRecords(Records(cs)) == Some(seq(|cs|, k requires 0 <= k < |cs| => EntryOf(cs[k])))
  {
    if |cs| > 0 {
      var s := Records(cs);
      assert s == Record(cs[0]) + Records(cs[1..]);
      assert s[..RecordLength] == Record(cs[0]);
      assert s[RecordLength..] == Records(cs[1..]);
      ReadRecordOf(cs[0]);
      ReadRecordsOf(cs[1..]);
      var tail := seq(|cs| - 1, k requires 0 <= k < |cs| - 1 => EntryOf(cs[1..][k]));
      assert ReadRecords(s) == Some([EntryOf(cs[0])] + tail);
      assert [EntryOf(cs[0])] + tail == seq(|cs|, k requires 0 <= k < |cs| => EntryOf(cs[k]));
    } else {
      assert Records(cs) == "";
      assert seq(|cs|, k requires 0 <= k < |cs| => EntryOf(cs[k])) == [];
    }
  }
}
