/**
 * The byte layout of the six command frames the controller understands, and the three-byte
 * rate encoding used by the mirage frame. Each function's postconditions give the layout
 * offset by offset: the bytes the builder stores, and the memset fill everywhere else.
 */
module Frames {
  import opened Protocol

  /** A colour as three intensities. */
  datatype Rgb = Rgb(red: byte, green: byte, blue: byte)

  /** The parameters of one effect-update frame, in the order the frame carries them. */
  datatype Effect = Effect(channel: byte, speed: byte, flags: byte, mode: byte,
                           brightness: byte, colour1: Rgb, colour2: Rgb)

  /**
   * The three unsigned values the non-zero branch of hz_to_bytes computes in single-precision
   * arithmetic: the divisor m, and the integer part r0 and scaled fraction r1 of the quotient.
   */
  datatype Quotients = Quotients(divisor: nat, integral: nat, fraction: nat)

  function EnableFrame(): (f: Frame)
    ensures |f| == CMD_SIZE
    ensures f[1] == 0x41 && f[2] == 0x80
    ensures forall k :: 0 <= k < CMD_SIZE && k != 1 && k != 2 ==> f[k] == 0x00
  {
    Blank(0x00)[1 := 0x41][2 := 0x80]
  }

  function ApplyFrame(): (f: Frame)
    ensures |f| == CMD_SIZE
    ensures f[1] == 0x51 && f[2] == 0x28 && f[5] == 0xE0
    ensures forall k :: 0 <= k < CMD_SIZE && k != 1 && k != 2 && k != 5 ==> f[k] == 0x00
  {
    Blank(0x00)[1 := 0x51][2 := 0x28][5 := 0xE0]
  }

  function QueryFrame(channel: byte): (f: Frame)
    ensures |f| == CMD_SIZE
    ensures f[1] == 0x40 && f[2] == 0x21 && f[3] == channel
    ensures forall k :: 0 <= k < CMD_SIZE && !(1 <= k <= 3) ==> f[k] == 0x00
  {
    Blank(0x00)[1 := 0x40][2 := 0x21][3 := channel]
  }

  /** Fill 0xFF; the header 00 51 2C 01 00 and then the effect parameters at offsets 5..16. */
  function EffectFrame(e: Effect): (f: Frame)
    ensures |f| == CMD_SIZE
  {
    Blank(0xFF)
      [0x00 := 0x00][0x01 := 0x51][0x02 := 0x2C][0x03 := 0x01][0x04 := 0x00]
      [0x05 := e.channel][0x06 := e.speed][0x07 := e.flags][0x08 := e.mode]
      [0x09 := 0xFF][0x0A := e.brightness]
      [0x0B := e.colour1.red][0x0C := e.colour1.green][0x0D := e.colour1.blue]
      [0x0E := e.colour2.red][0x0F := e.colour2.green][0x10 := e.colour2.blue]
  }

  /** Zero fill; opcode 51 A0 01, 0x03 at offset 6, logo and fan ids, then the 15 ring slots. */
  function ChannelMapFrame(ring: seq<byte>, logo: byte, fan: byte): (f: Frame)
    requires |ring| == 15
    ensures |f| == CMD_SIZE
  {
    Put(Blank(0x00)[0x01 := 0x51][0x02 := 0xA0][0x03 := 0x01][0x06 := 0x03][0x09 := logo][0x0A := fan],
        0x0B, ring)
  }

  /** The three bytes hz_to_bytes stores for a rate: the 0 Hz sentinel, or (divisor, fraction, integer). */
  function HzToBytes(hz: nat, quotients: nat -> Quotients): (b: seq<byte>)
    ensures |b| == 3
    ensures hz == 0 ==> b == [0x00, 0xFF, 0x4A]
    ensures hz != 0 ==> var q := quotients(hz);
      && b[0] == (if q.divisor < 255 then q.divisor else 255)
      && b[1] == q.fraction % 256
      && b[2] == q.integral % 256
  {
    if hz == 0 then [0x00, 0xFF, 0x4A]
    else
      var q := quotients(hz);
      [Saturate(q.divisor), q.fraction % 256, q.integral % 256]
  }

  /** An unsigned value stored through `m < 255 ? m : 255`. */
  function Saturate(m: nat): (r: byte)
    ensures r <= m && (r == m || r == 255)
  {
    if m < 255 then m else 255
  }

  /**
   * Zero fill; opcode 51 71; selector bytes 01..04 at offsets 5, 9, 13, 17, each followed by a
   * rate encoding: the fixed 0 Hz sentinel, then the red, green and blue rates.
   */
  function MirageFrame(red: nat, green: nat, blue: nat, quotients: nat -> Quotients): (f: Frame)
    ensures |f| == CMD_SIZE
  {
    var off, r, g, b := HzToBytes(0, quotients), HzToBytes(red, quotients),
                        HzToBytes(green, quotients), HzToBytes(blue, quotients);
    Blank(0x00)[0x01 := 0x51][0x02 := 0x71]
      [0x05 := 0x01][0x06 := off[0]][0x07 := off[1]][0x08 := off[2]]
      [0x09 := 0x02][0x0A := r[0]][0x0B := r[1]][0x0C := r[2]]
      [0x0D := 0x03][0x0E := g[0]][0x0F := g[1]][0x10 := g[2]]
      [0x11 := 0x04][0x12 := b[0]][0x13 := b[1]][0x14 := b[2]]
  }

  // ---------------------------------------------------------------------------------------
  // Properties of the frames

  /**
   * The effect frame, offset by offset: the header 00 51 2C 01 00; channel, speed, flags and
   * mode at 5..8; 0xFF at 9; brightness at 10; the primary colour at 11..13 and the secondary
   * at 14..16; and the 0xFF fill from 17 to the end.
   */
  lemma EffectFrameLayout(e: Effect)
    ensures var f := EffectFrame(e);
      && f[0] == 0x00 && f[1] == 0x51 && f[2] == 0x2C && f[3] == 0x01 && f[4] == 0x00
      && f[5] == e.channel && f[6] == e.speed && f[7] == e.flags && f[8] == e.mode
      && f[9] == 0xFF && f[10] == e.brightness
      && f[11] == e.colour1.red && f[12] == e.colour1.green && f[13] == e.colour1.blue
      && f[14] == e.colour2.red && f[15] == e.colour2.green && f[16] == e.colour2.blue
      && (forall k :: 17 <= k < CMD_SIZE ==> f[k] == 0xFF)
  {
  }

  /**
   * The channel-map frame, offset by offset: 51 A0 01 at 1..3, 0x03 at 6, logo at 9, fan at
   * 10, ring slot i at 0x0B + i, and zero everywhere else.
   */
  lemma ChannelMapFrameLayout(ring: seq<byte>, logo: byte, fan: byte)
    requires |ring| == 15
    ensures var f := ChannelMapFrame(ring, logo, fan);
      && f[1] == 0x51 && f[2] == 0xA0 && f[3] == 0x01 && f[6] == 0x03
      && f[9] == logo && f[10] == fan
      && (forall i :: 0 <= i < 15 ==> f[0x0B + i] == ring[i])
      && f[0] == 0x00 && f[4] == 0x00 && f[5] == 0x00 && f[7] == 0x00 && f[8] == 0x00
      && (forall k :: 0x0B + 15 <= k < CMD_SIZE ==> f[k] == 0x00)
  {
  }

  /**
   * The mirage frame, offset by offset: 51 71 at 1..2; the selectors 01..04 at 5, 9, 13 and
   * 17, each followed by a rate encoding, the first always the 0 Hz sentinel; zero elsewhere.
   */
  lemma MirageFrameLayout(red: nat, green: nat, blue: nat, quotients: nat -> Quotients)
    ensures var f := MirageFrame(red, green, blue, quotients);
      && f[1] == 0x51 && f[2] == 0x71
      && f[5] == 0x01 && f[9] == 0x02 && f[13] == 0x03 && f[17] == 0x04
      && f[6..9] == [0x00, 0xFF, 0x4A]
      && f[10..13] == HzToBytes(red, quotients)
      && f[14..17] == HzToBytes(green, quotients)
      && f[18..21] == HzToBytes(blue, quotients)
      && f[0] == 0x00 && f[3] == 0x00 && f[4] == 0x00
      && (forall k :: 21 <= k < CMD_SIZE ==> f[k] == 0x00)
  {
    var f := MirageFrame(red, green, blue, quotients);
    var r, g, b := HzToBytes(red, quotients), HzToBytes(green, quotients), HzToBytes(blue, quotients);
    assert f[10..13] == r by {
      assert f[10] == r[0] && f[11] == r[1] && f[12] == r[2];
    }
    assert f[14..17] == g by {
      assert f[14] == g[0] && f[15] == g[1] && f[16] == g[2];
    }
    assert f[18..21] == b by {
      assert f[18] == b[0] && f[19] == b[1] && f[20] == b[2];
    }
  }

  /** An effect frame carries its whole effect: two effects give the same frame only when they are equal. */
  lemma EffectFrameDetermines(e1: Effect, e2: Effect)
    ensures EffectFrame(e1) == EffectFrame(e2) <==> e1 == e2
  {
    EffectFrameLayout(e1);
    EffectFrameLayout(e2);
  }

  /** A channel-map frame carries its 15 ring slots and the logo and fan ids. */
  lemma ChannelMapFrameDetermines(ring1: seq<byte>, logo1: byte, fan1: byte, ring2: seq<byte>, logo2: byte, fan2: byte)
    requires |ring1| == 15 && |ring2| == 15
    ensures ChannelMapFrame(ring1, logo1, fan1) == ChannelMapFrame(ring2, logo2, fan2) <==>
      ring1 == ring2 && logo1 == logo2 && fan1 == fan2
  {
    ChannelMapFrameLayout(ring1, logo1, fan1);
    ChannelMapFrameLayout(ring2, logo2, fan2);
  }

  /** A query frame carries its channel. */
  lemma QueryFrameDetermines(channel1: byte, channel2: byte)
    ensures QueryFrame(channel1) == QueryFrame(channel2) <==> channel1 == channel2
  {
  }

  /** The six kinds of frame are told apart by their opcode bytes 1 and 2, whatever their parameters. */
  lemma FrameKindsDistinct(e: Effect, ring: seq<byte>, logo: byte, fan: byte, channel: byte,
                           red: nat, green: nat, blue: nat, quotients: nat -> Quotients)
    requires |ring| == 15
    ensures var frames := [EnableFrame(), ApplyFrame(), QueryFrame(channel), EffectFrame(e),
                           ChannelMapFrame(ring, logo, fan), MirageFrame(red, green, blue, quotients)];
      forall a, b :: 0 <= a < b < |frames| ==> frames[a] != frames[b]
  {
    EffectFrameLayout(e);
    ChannelMapFrameLayout(ring, logo, fan);
    MirageFrameLayout(red, green, blue, quotients);
  }

  /**
   * The floating-point stage of hz_to_bytes matters only for the non-zero rates a mirage frame
   * asks for: the 0 Hz slot and any rate of 0 are the fixed sentinel.
   */
  lemma MirageFrameDependsOnRates(red: nat, green: nat, blue: nat, q1: nat -> Quotients, q2: nat -> Quotients)
    requires red != 0 ==> q1(red) == q2(red)
    requires green != 0 ==> q1(green) == q2(green)
    requires blue != 0 ==> q1(blue) == q2(blue)
    ensures MirageFrame(red, green, blue, q1) == MirageFrame(red, green, blue, q2)
  {
  }
}
