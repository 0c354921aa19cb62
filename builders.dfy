/**
 * The six frame builders. Each fills a local CMD_SIZE buffer (memset), stores its bytes one
 * offset at a time, and hands the buffer to Communicate once. None of them looks at the
 * transaction's status, so each appends exactly one frame to the device's record whatever
 * the device answered.
 */
module Builders {
  import opened Protocol
  import opened Frames
  import opened Transport

  /** buf[at] = value. */
  method Store(buf: array<byte>, at: nat, value: byte)
    requires at < buf.Length
    modifies buf
    ensures buf[..] == old(buf[..])[at := value]
  {
    buf[at] := value;
  }

  /** memset(buf, fill, CMD_SIZE) on a fresh local buffer. */
  method NewBuffer(fill: byte) returns (buf: array<byte>)
    ensures fresh(buf) && buf[..] == Blank(fill)
  {
    buf := new byte[CMD_SIZE](_ => fill);
  }

  /** wraith_enable */
  method Enable(dev: HidDevice)
    modifies dev
    ensures dev.sent == old(dev.sent) + [EnableFrame()]
  {
    var buf := NewBuffer(0x00);
    Store(buf, 1, 0x41);
    Store(buf, 2, 0x80);
    var status := Communicate(dev, buf[..]);
  }

  /** wraith_apply */
  method Apply(dev: HidDevice)
    modifies dev
    ensures dev.sent == old(dev.sent) + [ApplyFrame()]
  {
    var buf := NewBuffer(0x00);
    Store(buf, 1, 0x51);
    Store(buf, 2, 0x28);
    Store(buf, 5, 0xE0);
    var status := Communicate(dev, buf[..]);
  }

  /** hz_to_bytes(&buf[at], hz): the three bytes for `hz` go to buf[at], buf[at + 1], buf[at + 2]. */
  method StoreHz(buf: array<byte>, at: nat, hz: nat, quotients: nat -> Quotients)
    requires at + 3 <= buf.Length
    modifies buf
    ensures var h := HzToBytes(hz, quotients);
      buf[..] == old(buf[..])[at := h[0]][at + 1 := h[1]][at + 2 := h[2]]
  {
    if hz == 0 {
      Store(buf, at, 0x00);
      Store(buf, at + 1, 0xFF);
      Store(buf, at + 2, 0x4A);
    } else {
      var q := quotients(hz);
      Store(buf, at, if q.divisor < 255 then q.divisor else 255);
      Store(buf, at + 1, q.fraction % 256);
      Store(buf, at + 2, q.integral % 256);
    }
  }

  /** wraith_mirage: the first rate slot is always programmed with 0 Hz. */
  method Mirage(dev: HidDevice, red: nat, green: nat, blue: nat, quotients: nat -> Quotients)
    modifies dev
    ensures dev.sent == old(dev.sent) + [MirageFrame(red, green, blue, quotients)]
  {
    var buf := NewBuffer(0x00);
    Store(buf, 0x01, 0x51);
    Store(buf, 0x02, 0x71);
    Store(buf, 0x05, 0x01);
    StoreHz(buf, 0x06, 0, quotients);
    Store(buf, 0x09, 0x02);
    StoreHz(buf, 0x0A, red, quotients);
    Store(buf, 0x0D, 0x03);
    StoreHz(buf, 0x0E, green, quotients);
    Store(buf, 0x11, 0x04);
    StoreHz(buf, 0x12, blue, quotients);
    assert buf[..] == MirageFrame(red, green, blue, quotients);
    var status := Communicate(dev, buf[..]);
  }

  /** wraith_effect_update: the only builder whose buffer is filled with 0xFF. */
  method EffectUpdate(dev: HidDevice, e: Effect)
    modifies dev
    ensures dev.sent == old(dev.sent) + [EffectFrame(e)]
  {
    var buf := NewBuffer(0xFF);
    Store(buf, 0x00, 0x00);
    Store(buf, 0x01, 0x51);
    Store(buf, 0x02, 0x2C);
    Store(buf, 0x03, 0x01);
    Store(buf, 0x04, 0x00);
    Store(buf, 0x05, e.channel);
    Store(buf, 0x06, e.speed);
    Store(buf, 0x07, e.flags);
    Store(buf, 0x08, e.mode);
    Store(buf, 0x09, 0xFF);
    Store(buf, 0x0A, e.brightness);
    Store(buf, 0x0B, e.colour1.red);
    Store(buf, 0x0C, e.colour1.green);
    Store(buf, 0x0D, e.colour1.blue);
    Store(buf, 0x0E, e.colour2.red);
    Store(buf, 0x0F, e.colour2.green);
    Store(buf, 0x10, e.colour2.blue);
    var status := Communicate(dev, buf[..]);
  }

  /** wraith_query_channel */
  method QueryChannel(dev: HidDevice, channel: byte)
    modifies dev
    ensures dev.sent == old(dev.sent) + [QueryFrame(channel)]
  {
    var buf := NewBuffer(0x00);
    Store(buf, 0x01, 0x40);
    Store(buf, 0x02, 0x21);
    Store(buf, 0x03, channel);
    var status := Communicate(dev, buf[..]);
  }

  /** wraith_channel_map: after the header, the 15 ring slots are copied to offsets 0x0B.. in a loop. */
  method ChannelMap(dev: HidDevice, ring: array<byte>, logo: byte, fan: byte)
    requires ring.Length == 15
    modifies dev
    ensures dev.sent == old(dev.sent) + [ChannelMapFrame(ring[..], logo, fan)]
  {
    var buf := NewBuffer(0x00);
    Store(buf, 0x01, 0x51);
    Store(buf, 0x02, 0xA0);
    Store(buf, 0x03, 0x01);
    Store(buf, 0x06, 0x03);
    Store(buf, 0x09, logo);
    Store(buf, 0x0A, fan);
    ghost var header := buf[..];
    for i := 0 to 15
      modifies buf
      invariant buf[..] == Put(header, 0x0B, ring[..i])
    {
      Store(buf, 0x0B + i, ring[i]);
      assert buf[..] == Put(header, 0x0B, ring[..i + 1]);
    }
    assert ring[..15] == ring[..];
    assert header == Blank(0x00)[0x01 := 0x51][0x02 := 0xA0][0x03 := 0x01][0x06 := 0x03][0x09 := logo][0x0A := fan];
    var status := Communicate(dev, buf[..]);
  }
}
