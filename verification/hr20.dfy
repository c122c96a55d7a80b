/** The segment LCD of the HR20 thermostat: 20 display registers
    LCDDR0..LCDDR19 of 8 bits, so 160 segments, segment i being bit i&7 of
    register i/8. The character and bar tables of the display are not part
    of the model; the routines take the table entries they read as
    parameters. */
module Hr20 {
  import opened Layout
  import E = Ecmd

  const RegisterCount: nat := 20
  const Segments: nat := 160
  const Bars: nat := 24
  const GlyphSegments: nat := 7

  /** One display register, bit 0 first. */
  type Register = r: seq<bool> | |r| == 8 witness [false, false, false, false, false, false, false, false]

  /** The display memory. */
  type Lcd = d: seq<Register> | |d| == RegisterCount
    witness seq(RegisterCount, _ => [false, false, false, false, false, false, false, false])

  /** Segment i is lit. */
  predicate Seg(d: Lcd, i: nat)
    requires i < Segments
  {
    d[i / 8][i % 8]
  }

  /** LCD_SEG_SET (v true) and LCD_SEG_CLEAR (v false): bit i&7 of register
      i/8 (for a non-negative i, i&7 is i%8). */
  function SegWrite(d: Lcd, i: nat, v: bool): (r: Lcd)
    requires i < Segments
    ensures Seg(r, i) == v
    ensures forall j :: 0 <= j < Segments && j != i ==> Seg(r, j) == Seg(d, j)
  {
    var k := i / 8;
    forall j | 0 <= j < Segments && j != i
      ensures j / 8 != k || j % 8 != i % 8
    {
      assert j == 8 * (j / 8) + j % 8;
    }
    d[k := d[k][i % 8 := v]]
  }

  /** LCD_SEG_TOGGLE. */
  function SegToggle(d: Lcd, i: nat): (r: Lcd)
    requires i < Segments
    ensures Seg(r, i) == !Seg(d, i)
    ensures forall j :: 0 <= j < Segments && j != i ==> Seg(r, j) == Seg(d, j)
  {
    SegWrite(d, i, !Seg(d, i))
  }

  /** Two displays with the same segments are the same display. */
  lemma SegExtensional(a: Lcd, b: Lcd)
    requires forall j :: 0 <= j < Segments ==> Seg(a, j) == Seg(b, j)
    ensures a == b
  {
    forall k, t | 0 <= k < RegisterCount && 0 <= t < 8
      ensures a[k][t] == b[k][t]
    {
      assert Seg(a, 8 * k + t) == Seg(b, 8 * k + t);
      assert (8 * k + t) / 8 == k && (8 * k + t) % 8 == t;
    }
    forall k | 0 <= k < RegisterCount
      ensures a[k] == b[k]
    {
    }
  }

  // ---- hr20 toggle ----

  /** parse_cmd_hr20_toggle: n is what atoi returns; it is truncated to a
      uint8_t, numbers from 160 up are rejected, and otherwise exactly
      that segment flips. */
  function ToggleCommand(d: Lcd, n: int): (r: (E.Reply, Lcd))
    ensures r.0 == E.ParseError <==> n % 256 >= Segments
    ensures r.0 == E.ParseError ==> r.1 == d
    ensures r.0 == E.FinalOk ==>
              && Seg(r.1, n % 256) == !Seg(d, n % 256)
              && forall j :: 0 <= j < Segments && j != n % 256 ==> Seg(r.1, j) == Seg(d, j)
  {
    var i := n % 256;
    if i >= Segments then (E.ParseError, d) else (E.FinalOk, SegToggle(d, i))
  }

  /** The same command twice leaves the display as it was. */
  lemma ToggleTwice(d: Lcd, n: int)
    ensures ToggleCommand(ToggleCommand(d, n).1, n).1 == d
  {
    var r := ToggleCommand(ToggleCommand(d, n).1, n).1;
    forall j | 0 <= j < Segments
      ensures Seg(r, j) == Seg(d, j)
    {
    }
    SegExtensional(r, d);
  }

  /** Arguments 256 apart toggle the same segment. */
  lemma ToggleTruncates(d: Lcd, n: int)
    ensures ToggleCommand(d, n + 256) == ToggleCommand(d, n)
  {
    assert (n + 256) % 256 == n % 256;
  }

  // ---- writing a list of segments ----

  /** No later entry of segs names the same segment as entry k, so the
      write of entry k is the one that stays. */
  predicate LastWrite(segs: seq<nat>, k: nat, upTo: nat)
    requires k < upTo <= |segs|
  {
    forall m :: k < m < upTo ==> segs[m] != segs[k]
  }

  /** The loop both display routines share: segment segs[k] is set when
      on[k] holds and cleared otherwise, for k = 0, 1, ... in turn. */
  method Paint(d: Lcd, segs: seq<nat>, on: seq<bool>) returns (r: Lcd)
    requires |segs| == |on|
    requires forall k :: 0 <= k < |segs| ==> segs[k] < Segments
    ensures forall k :: 0 <= k < |segs| && LastWrite(segs, k, |segs|) ==> Seg(r, segs[k]) == on[k]
    ensures forall j :: 0 <= j < Segments && j !in segs ==> Seg(r, j) == Seg(d, j)
  {
    r := d;
    var l := 0;
    while l < |segs|
      invariant l <= |segs|
      invariant forall k :: 0 <= k < l && LastWrite(segs, k, l) ==> Seg(r, segs[k]) == on[k]
      invariant forall j :: 0 <= j < Segments && j !in segs[..l] ==> Seg(r, j) == Seg(d, j)
    {
      r := SegWrite(r, segs[l], on[l]);
      forall k | 0 <= k < l + 1 && LastWrite(segs, k, l + 1)
        ensures Seg(r, segs[k]) == on[k]
      {
        if k < l {
          assert segs[l] != segs[k];
          assert LastWrite(segs, k, l);
        }
      }
      assert segs[..l + 1] == segs[..l] + [segs[l]];
      l := l + 1;
    }
    assert segs[..l] == segs;
  }

  /** Entries of segs are pairwise different. */
  predicate Distinct(segs: seq<nat>) {
    forall a, b :: 0 <= a < b < |segs| ==> segs[a] != segs[b]
  }

  // ---- hr20_lcd_putchar ----

  /** The segment numbers of one digit: the digit's base segment plus each
      of the seven segment offsets, as a uint8_t sum. */
  function DigitSegments(base: nat, offsets: seq<nat>): (segs: seq<nat>)
    requires |offsets| == GlyphSegments
    ensures |segs| == GlyphSegments
    ensures forall k :: 0 <= k < GlyphSegments ==> segs[k] < 256
  {
    seq(GlyphSegments, k requires 0 <= k < GlyphSegments => (base + offsets[k]) % 256)
  }

  /** hr20_lcd_putchar with the table entries it reads: base is the
      digit's entry of the position table and glyph the character's entry
      of the charset. Segment k of the digit is lit exactly when bit k of
      the glyph is set; nothing else changes. */
  method PutChar(d: Lcd, base: nat, glyph: bv8, offsets: seq<nat>) returns (r: Lcd)
    requires |offsets| == GlyphSegments
    requires forall k :: 0 <= k < GlyphSegments ==> DigitSegments(base, offsets)[k] < Segments
    ensures var segs := DigitSegments(base, offsets);
            && (forall k :: 0 <= k < GlyphSegments && LastWrite(segs, k, GlyphSegments) ==>
                  Seg(r, segs[k]) == (BitOf(glyph, k) == 1))
            && (forall j :: 0 <= j < Segments && j !in segs ==> Seg(r, j) == Seg(d, j))
  {
    var segs := DigitSegments(base, offsets);
    var on := seq(GlyphSegments, k requires 0 <= k < GlyphSegments => BitOf(glyph, k) == 1);
    r := Paint(d, segs, on);
  }

  // ---- hr20_lcd_hourbar ----

  /** The bars an hour range lights: start..stop, or, when stop is before
      start, the range that wraps past bar 23 back to bar 0. */
  predicate BarLit(start: nat, stop: nat, i: nat) {
    if start <= stop then start <= i <= stop else i <= stop || start <= i
  }

  /** The test of the loop, after the wrap case has set left_portion to
      stop + 1 and stop to 24 (stop + 1 cannot wrap, as stop < start). */
  predicate CodedLit(start: nat, stop: nat, i: nat) {
    var left := if stop < start then stop + 1 else 0;
    var last := if stop < start then Bars else stop;
    i < left || (i >= start && i <= last)
  }

  lemma CodedLitIsBarLit(start: nat, stop: nat, i: nat)
    requires i < Bars
    ensures CodedLit(start, stop, i) <==> BarLit(start, stop, i)
  {
  }

  /** hr20_lcd_hourbar with the 24 entries of the bar table: each bar is
      set or cleared according to the range, whatever it showed before. */
  method Hourbar(d: Lcd, start: nat, stop: nat, bars: seq<nat>) returns (r: Lcd)
    requires start < 256 && stop < 256
    requires |bars| == Bars && forall k :: 0 <= k < Bars ==> bars[k] < Segments
    ensures forall i :: 0 <= i < Bars && LastWrite(bars, i, Bars) ==> Seg(r, bars[i]) == BarLit(start, stop, i)
    ensures Distinct(bars) ==> forall i :: 0 <= i < Bars ==> Seg(r, bars[i]) == BarLit(start, stop, i)
    ensures forall j :: 0 <= j < Segments && j !in bars ==> Seg(r, j) == Seg(d, j)
  {
    var on := seq(Bars, i requires 0 <= i < Bars => CodedLit(start, stop, i));
    r := Paint(d, bars, on);
    forall i | 0 <= i < Bars
      ensures on[i] == BarLit(start, stop, i)
    {
      CodedLitIsBarLit(start, stop, i);
    }
    if Distinct(bars) {
      forall i | 0 <= i < Bars
        ensures LastWrite(bars, i, Bars)
      {
      }
    }
  }
}
