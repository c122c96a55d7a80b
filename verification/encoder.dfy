/** The FS20 sender (fs20_send and its helpers) as the list of symbols it
    emits. A ZERO is a 400us pulse and 400us pause, a ONE the same at 600us;
    the delays themselves are not modelled. */
module Encoder {
  import opened Timing
  import opened Layout
  import opened Results
  import ByteSum

  /** A decoded FS20 send request. */
  datatype Telegram = Telegram(housecode: bv16, address: bv8, command: bv8)

  /** Number of repetitions of a telegram. */
  const Repetitions: nat := 3
  /** Preamble: this many ZEROs, then a ONE. */
  const PreambleZeros: nat := 12
  /** Symbols per repetition: preamble, five 9-symbol bytes, trailing ZERO. */
  const RepetitionLength: nat := 59

  function SymbolOf(b: bv1): Symbol {
    if b == 1 then One else Zero
  }

  function BitOfSymbol(s: Symbol): bv1 {
    if s == One then 1 else 0
  }

  lemma BitOfSymbolOf(b: bv1)
    ensures BitOfSymbol(SymbolOf(b)) == b
  {
  }

  /** Number of ONEs in a symbol list. */
  function Ones(syms: seq<Symbol>): nat {
    if |syms| == 0 then 0 else (if syms[0] == One then 1 else 0) + Ones(syms[1..])
  }

  lemma {:induction false} OnesAppend(a: seq<Symbol>, b: seq<Symbol>)
    ensures Ones(a + b) == Ones(a) + Ones(b)
  {
    if |a| == 0 {
      assert a + b == b;
    } else {
      assert (a + b)[1..] == a[1..] + b;
      OnesAppend(a[1..], b);
    }
  }

  lemma SymbolCount(x: bv1)
    ensures (if SymbolOf(x) == One then 1 else 0) == x as nat
  {
    if x == 0 {
    } else {
      assert x == 1;
    }
  }

  /** Bits n-1 down to 0 of b, most significant first. */
  function MsbFirst(b: bv8, n: nat): (syms: seq<Symbol>)
    requires n <= 8
    ensures |syms| == n
  {
    seq(n, i requires 0 <= i < n => SymbolOf(BitOf(b, n - 1 - i)))
  }

  lemma {:induction false} MsbFirstOnes(b: bv8, n: nat)
    requires n <= 8
    ensures Ones(MsbFirst(b, n)) == OnesBelow(b, n)
  {
    if n > 0 {
      var s := MsbFirst(b, n);
      MsbFirstOnes(b, n - 1);
      assert s[1..] == MsbFirst(b, n - 1);
      SymbolCount(BitOf(b, n - 1));
    }
  }

  /** fs20_send_byte: bits 7..0, then the even-parity bit. The nine symbols
      always hold an even number of ONEs. */
  function ByteSymbols(b: bv8): (syms: seq<Symbol>)
    ensures |syms| == 9
    ensures Ones(syms) % 2 == 0
  {
    MsbFirstOnes(b, 8);
    ParityEvenCountsOnes(b);
    OnesAppend(MsbFirst(b, 8), [SymbolOf(ParityEven(b))]);
    assert Ones([SymbolOf(ParityEven(b))]) == ParityEven(b) as nat;
    MsbFirst(b, 8) + [SymbolOf(ParityEven(b))]
  }

  /** fs20_send_sync: twelve ZEROs and a ONE. */
  function SyncSymbols(): (syms: seq<Symbol>)
    ensures |syms| == PreambleZeros + 1
  {
    seq(PreambleZeros, _ => Zero) + [One]
  }

  function Hi8(w: bv16): bv8 { (w >> 8) as bv8 }

  function Lo8(w: bv16): bv8 { (w & 0xFF) as bv8 }

  /** The checksum byte: an 8-bit running sum seeded with 6, so it wraps
      at 256. */
  function Checksum(t: Telegram): bv8 {
    ByteSum.ChecksumOf(Hi8(t.housecode), Lo8(t.housecode), t.address, t.command)
  }

  /** The checksum byte of a telegram is 6 plus housecode high byte,
      housecode low byte, address and command, taken modulo 256. */
  lemma ChecksumIsLowByte(t: Telegram)
    ensures Checksum(t) as bv32
            == ByteSum.UnwrappedSum(Hi8(t.housecode), Lo8(t.housecode), t.address, t.command) & 0xFF
  {
    assert Checksum(t) == ByteSum.ChecksumOf(Hi8(t.housecode), Lo8(t.housecode), t.address, t.command);
    ByteSum.ChecksumIsLowByte(Hi8(t.housecode), Lo8(t.housecode), t.address, t.command);
  }

  /** The five bytes of one repetition: housecode high, housecode low,
      address, command, checksum. */
  function TelegramBytes(t: Telegram): seq<bv8> {
    [Hi8(t.housecode), Lo8(t.housecode), t.address, t.command, Checksum(t)]
  }

  /** The symbols of five bytes, each followed by its parity. */
  function BytesSymbols(b: seq<bv8>): (syms: seq<Symbol>)
    requires |b| == 5
    ensures |syms| == 45
  {
    ByteSymbols(b[0]) + ByteSymbols(b[1]) + ByteSymbols(b[2]) + ByteSymbols(b[3]) + ByteSymbols(b[4])
  }

  /** The 45 data symbols of one repetition. */
  function BodySymbols(t: Telegram): (syms: seq<Symbol>)
    ensures |syms| == 45
  {
    BytesSymbols(TelegramBytes(t))
  }

  /** The symbol list of one repetition, block by block. */
  function RepetitionOf(t: Telegram): seq<Symbol> {
    SyncSymbols() + BodySymbols(t) + [Zero]
  }

  /** Five blocks of nine, concatenated, give each block back. */
  lemma Blocks5(x0: seq<Symbol>, x1: seq<Symbol>, x2: seq<Symbol>, x3: seq<Symbol>, x4: seq<Symbol>)
    requires |x0| == 9 && |x1| == 9 && |x2| == 9 && |x3| == 9 && |x4| == 9
    ensures var s := x0 + x1 + x2 + x3 + x4;
            && s[0..9] == x0 && s[9..18] == x1 && s[18..27] == x2 && s[27..36] == x3 && s[36..45] == x4
  {
    var p1 := x0 + x1;
    var p2 := p1 + x2;
    var p3 := p2 + x3;
    var s := p3 + x4;
    assert s[..36] == p3 && s[36..45] == x4;
    assert p3[..27] == p2 && p3[27..36] == x3;
    assert p2[..18] == p1 && p2[18..27] == x2;
    assert p1[..9] == x0 && p1[9..18] == x1;
  }

  lemma BodyBlocks(b: seq<bv8>)
    requires |b| == 5
    ensures var body := BytesSymbols(b);
            && body[0..9] == ByteSymbols(b[0]) && body[9..18] == ByteSymbols(b[1])
            && body[18..27] == ByteSymbols(b[2]) && body[27..36] == ByteSymbols(b[3])
            && body[36..45] == ByteSymbols(b[4])
  {
    Blocks5(ByteSymbols(b[0]), ByteSymbols(b[1]), ByteSymbols(b[2]), ByteSymbols(b[3]), ByteSymbols(b[4]));
  }

  lemma FrameSlices(body: seq<Symbol>)
    requires |body| == 45
    ensures var s := SyncSymbols() + body + [Zero];
            && |s| == RepetitionLength
            && s[..13] == SyncSymbols()
            && s[13..22] == body[0..9] && s[22..31] == body[9..18]
            && s[31..40] == body[18..27] && s[40..49] == body[27..36]
            && s[49..58] == body[36..45] && s[58] == Zero
  {
    var s := SyncSymbols() + body + [Zero];
    assert s[13..58] == body;
    assert s[13..22] == body[0..9];
    assert s[22..31] == body[9..18];
    assert s[31..40] == body[18..27];
    assert s[40..49] == body[27..36];
    assert s[49..58] == body[36..45];
  }

  lemma FrameBlocks(b: seq<bv8>)
    requires |b| == 5
    ensures var s := SyncSymbols() + BytesSymbols(b) + [Zero];
            && |s| == RepetitionLength
            && s[..13] == SyncSymbols()
            && s[13..22] == ByteSymbols(b[0]) && s[22..31] == ByteSymbols(b[1])
            && s[31..40] == ByteSymbols(b[2]) && s[40..49] == ByteSymbols(b[3])
            && s[49..58] == ByteSymbols(b[4]) && s[58] == Zero
  {
    BodyBlocks(b);
    FrameSlices(BytesSymbols(b));
  }

  lemma RepetitionBlocks(t: Telegram)
    ensures var s, b := RepetitionOf(t), TelegramBytes(t);
            && |s| == RepetitionLength
            && s[..13] == SyncSymbols()
            && s[13..22] == ByteSymbols(b[0]) && s[22..31] == ByteSymbols(b[1])
            && s[31..40] == ByteSymbols(b[2]) && s[40..49] == ByteSymbols(b[3])
            && s[49..58] == ByteSymbols(b[4]) && s[58] == Zero
  {
    FrameBlocks(TelegramBytes(t));
  }

  /** Block g of a frame is the symbols of byte g. */
  lemma FrameBlock(b: seq<bv8>, g: nat)
    requires |b| == 5 && g < 5
    ensures (SyncSymbols() + BytesSymbols(b) + [Zero])[13 + 9 * g .. 22 + 9 * g] == ByteSymbols(b[g])
  {
    FrameBlocks(b);
    if g == 0 {
    } else if g == 1 {
    } else if g == 2 {
    } else if g == 3 {
    } else {
      assert g == 4;
    }
  }

  /** Block g of a repetition is the symbols of byte g. */
  lemma BlockOf(t: Telegram, g: nat)
    requires g < 5
    ensures RepetitionOf(t)[13 + 9 * g .. 22 + 9 * g] == ByteSymbols(TelegramBytes(t)[g])
  {
    FrameBlock(TelegramBytes(t), g);
  }

  lemma PreambleShape(t: Telegram)
    ensures var s := RepetitionOf(t);
            && |s| == RepetitionLength
            && (forall i :: 0 <= i < PreambleZeros ==> s[i] == Zero)
            && s[PreambleZeros] == One && s[RepetitionLength - 1] == Zero
  {
    var s := RepetitionOf(t);
    RepetitionBlocks(t);
    assert forall i :: 0 <= i < PreambleZeros ==> s[i] == s[..13][i];
  }

  lemma RepetitionShape(t: Telegram)
    ensures var s := RepetitionOf(t);
            && |s| == RepetitionLength
            && (forall i :: 0 <= i < PreambleZeros ==> s[i] == Zero)
            && s[PreambleZeros] == One && s[RepetitionLength - 1] == Zero
            && forall g :: 0 <= g < 5 ==> Ones(s[13 + 9 * g .. 22 + 9 * g]) % 2 == 0
  {
    PreambleShape(t);
    forall g | 0 <= g < 5
      ensures Ones(RepetitionOf(t)[13 + 9 * g .. 22 + 9 * g]) % 2 == 0
    {
      BlockOf(t, g);
    }
  }

  lemma ReadRepetitionOf(t: Telegram)
    ensures ReadRepetition(RepetitionOf(t)) == Some(t)
  {
    var s := RepetitionOf(t);
    var b := TelegramBytes(t);
    RepetitionShape(t);
    RepetitionBlocks(t);
    ReadByteSymbols(b[0]);
    ReadByteSymbols(b[1]);
    ReadByteSymbols(b[2]);
    ReadByteSymbols(b[3]);
    ReadByteSymbols(b[4]);
    assert ReadByte(s[13..22]) == Some(b[0]);
    assert ReadByte(s[22..31]) == Some(b[1]);
    assert ReadByte(s[31..40]) == Some(b[2]);
    assert ReadByte(s[40..49]) == Some(b[3]);
    assert ReadByte(s[49..58]) == Some(b[4]);
    assert !exists i :: 0 <= i < PreambleZeros && s[i] != Zero;
    AssembleBytes(t);
  }

  /** One iteration of the loop in fs20_send: preamble, five bytes with
      their parity, and a trailing ZERO; it reads back as the request. */
  function Repetition(t: Telegram): (syms: seq<Symbol>)
    ensures |syms| == RepetitionLength
    ensures forall i :: 0 <= i < PreambleZeros ==> syms[i] == Zero
    ensures syms[PreambleZeros] == One && syms[RepetitionLength - 1] == Zero
    ensures forall g :: 0 <= g < 5 ==> Ones(syms[13 + 9 * g .. 22 + 9 * g]) % 2 == 0
    ensures ReadRepetition(syms) == Some(t)
  {
    RepetitionShape(t);
    ReadRepetitionOf(t);
    RepetitionOf(t)
  }

  lemma ThreeCopies(r: seq<Symbol>)
    requires |r| == RepetitionLength
    ensures forall i :: 0 <= i < Repetitions ==>
              (r + r + r)[RepetitionLength * i .. RepetitionLength * (i + 1)] == r
  {
    var s := r + r + r;
    forall i | 0 <= i < Repetitions
      ensures s[RepetitionLength * i .. RepetitionLength * (i + 1)] == r
    {
      if i == 0 {
        assert s[0..59] == r;
      } else if i == 1 {
        assert s[59..118] == r;
      } else {
        assert s[118..177] == r;
      }
    }
  }

  /** fs20_send: three repetitions; every one reads back as the request. */
  function Send(t: Telegram): (syms: seq<Symbol>)
    ensures |syms| == Repetitions * RepetitionLength
    ensures forall i :: 0 <= i < Repetitions ==>
              ReadRepetition(syms[RepetitionLength * i .. RepetitionLength * (i + 1)]) == Some(t)
  {
    var r := Repetition(t);
    ThreeCopies(r);
    r + r + r
  }

  // ---- reading symbols back: the partner of the encoder ----

  /** The byte in nine symbols, if their parity is even. */
  function ReadByte(syms: seq<Symbol>): Option<bv8>
    requires |syms| == 9
  {
    if Ones(syms) % 2 != 0 then None
    else Some(ByteOfBits([BitOfSymbol(syms[7]), BitOfSymbol(syms[6]), BitOfSymbol(syms[5]),
                          BitOfSymbol(syms[4]), BitOfSymbol(syms[3]), BitOfSymbol(syms[2]),
                          BitOfSymbol(syms[1]), BitOfSymbol(syms[0])]))
  }

  lemma ByteOfOwnBits(b: bv8)
    ensures ByteOfBits([BitOf(b, 0), BitOf(b, 1), BitOf(b, 2), BitOf(b, 3),
                        BitOf(b, 4), BitOf(b, 5), BitOf(b, 6), BitOf(b, 7)]) == b
  {
  }

  /** Sending a byte and reading it back gives the byte. */
  lemma ReadByteSymbols(b: bv8)
    ensures ReadByte(ByteSymbols(b)) == Some(b)
  {
    var s := ByteSymbols(b);
    forall i | 0 <= i < 8
      ensures BitOfSymbol(s[i]) == BitOf(b, 7 - i)
    {
      assert s[i] == MsbFirst(b, 8)[i] == SymbolOf(BitOf(b, 7 - i));
      BitOfSymbolOf(BitOf(b, 7 - i));
    }
    ByteOfOwnBits(b);
  }

  /** The request whose housecode bytes, address and command are given. */
  function Assemble(hi: bv8, lo: bv8, address: bv8, command: bv8): Telegram {
    Telegram(((hi as bv16) << 8) | (lo as bv16), address, command)
  }

  /** Splitting a request into bytes and assembling them is the identity. */
  lemma AssembleBytes(t: Telegram)
    ensures Assemble(Hi8(t.housecode), Lo8(t.housecode), t.address, t.command) == t
  {
  }

  /** Reads one repetition: the preamble, five parity-checked bytes whose
      last is the checksum of the other four, and the trailing ZERO. */
  function ReadRepetition(syms: seq<Symbol>): Option<Telegram> {
    if |syms| != RepetitionLength then None
    else if exists i :: 0 <= i < PreambleZeros && syms[i] != Zero then None
    else if syms[PreambleZeros] != One || syms[RepetitionLength - 1] != Zero then None
    else
      var b0, b1, b2, b3, b4 := ReadByte(syms[13..22]), ReadByte(syms[22..31]), ReadByte(syms[31..40]),
                                ReadByte(syms[40..49]), ReadByte(syms[49..58]);
      if b0.None? || b1.None? || b2.None? || b3.None? || b4.None? then None
      else
        var t := Assemble(b0.value, b1.value, b2.value, b3.value);
        if b4.value != Checksum(t) then None else Some(t)
  }
}
