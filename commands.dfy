/**
 * The command parsers. Each reads its words in order, rejects the command before anything is
 * sent when a required word is missing or out of range, and otherwise calls one builder and
 * returns what that command adds to the count of commands needing an Apply. Each method is
 * proved against the outcome function of the same command.
 */
module Commands {
  import opened Protocol
  import opened Frames
  import opened Transport
  import opened Builders
  import opened Parsing

  /** parse_channel */
  method ParseChannel(name: Option<string>) returns (r: int)
    ensures r == ChannelId(name)
  {
    r := FindValue(name, CHANNEL_NAMES, CHANNEL_VALUES);
  }

  /** parse_mode */
  method ParseMode(name: Option<string>) returns (r: int)
    ensures r == ModeId(name)
  {
    r := FindValue(name, MODE_NAMES, MODE_VALUES);
  }

  /** parse_ring_channel */
  method ParseRingChannel(name: Option<string>) returns (r: int)
    ensures r == RingChannelId(name)
  {
    r := FindValue(name, RING_NAMES, RING_VALUES);
  }

  /**
   * parse_ring_map: up to 15 ring channel names, stopping at the first missing word; a bad
   * name or no name at all rejects the command; the last slot named fills the rest.
   */
  method ParseRingMap(dev: HidDevice, args: seq<Token>) returns (ret: int)
    modifies dev
    ensures ret == Ret(RingMapOutcome(args))
    ensures dev.sent == old(dev.sent) + Sent(RingMapOutcome(args))
  {
    var ring := new byte[15];
    var i := 0;
    while i < 15
      modifies ring
      invariant 0 <= i <= 15 && i <= |args|
      invariant LookupAll(args[..i], RING_NAMES, RING_VALUES) == Some(ring[..i])
    {
      var channel := Word(args, i);
      if channel.None? {
        break;
      }
      var value := ParseRingChannel(channel);
      if value < 0 {
        RingSlotsRejectsWord(args, i);
        assert RingMapOutcome(args) == Rejected;
        return -1;
      }
      LookupAllStep(args, i, RING_NAMES, RING_VALUES);
      ghost var before := ring[..i];
      ring[i] := value as byte;
      assert ring[..i + 1] == before + [value as byte];
      i := i + 1;
    }
    if i == 0 {
      assert RingMapOutcome(args) == Rejected;
      return -1;
    }
    assert i == if |args| < 15 then |args| else 15;
    ghost var ids := ring[..i];
    var n := i;
    var value := ring[i - 1];
    while i < 15
      modifies ring
      invariant n <= i <= 15
      invariant ring[..n] == ids
      invariant forall j :: n <= j < i ==> ring[j] == value
    {
      ring[i] := value;
      i := i + 1;
    }
    ghost var slots := ring[..];
    assert slots[..n] == ids;
    SlotsFromOfPrefix(args, slots, RING_NAMES, RING_VALUES);
    assert RingMapOutcome(args) == Accepted(1, ChannelMapFrame(slots, CHANNEL_LOGO, CHANNEL_FAN));
    ChannelMap(dev, ring, CHANNEL_LOGO, CHANNEL_FAN);
    assert ring[..] == slots;
    return 1;
  }

  /** parse_effect: every required word must parse before the mode's switch picks the speed byte. */
  method ParseEffect(dev: HidDevice, args: seq<Token>) returns (ret: int)
    modifies dev
    ensures ret == Ret(EffectOutcome(args))
    ensures dev.sent == old(dev.sent) + Sent(EffectOutcome(args))
  {
    var channel := ParseChannel(Word(args, 0));
    var mode := ParseMode(Word(args, 1));
    var speed := ParseValue(Arg(args, 2), 1, 5, -1);
    var brightness := ParseValue(Arg(args, 3), 0, 255, -1);
    var red := ParseValue(Arg(args, 4), 0, 255, -1);
    var green := ParseValue(Arg(args, 5), 0, 255, -1);
    var blue := ParseValue(Arg(args, 6), 0, 255, -1);
    var red2 := ParseValue(Arg(args, 7), 0, 255, 0);
    var green2 := ParseValue(Arg(args, 8), 0, 255, 0);
    var blue2 := ParseValue(Arg(args, 9), 0, 255, 0);
    var flags := ParseValue(Arg(args, 10), 0, 255, 0x20);
    if channel >= 0 && mode >= 0 && speed >= 0 && brightness >= 0 && red >= 0 && blue >= 0 && green >= 0 {
      match EffectSpeed(mode, speed)
      case None =>
        return -1;
      case Some(s) =>
        EffectUpdate(dev, Effect(channel, s, flags, mode, brightness, Rgb(red, green, blue), Rgb(red2, green2, blue2)));
        return 1;
    }
    return -1;
  }

  /** parse_ring_effect: the ring channel's switch picks both the mode and the speed byte. */
  method ParseRingEffect(dev: HidDevice, args: seq<Token>) returns (ret: int)
    modifies dev
    ensures ret == Ret(RingEffectOutcome(args))
    ensures dev.sent == old(dev.sent) + Sent(RingEffectOutcome(args))
  {
    var channel := ParseRingChannel(Word(args, 0));
    var speed := ParseValue(Arg(args, 1), 1, 5, -1);
    var brightness := ParseValue(Arg(args, 2), 0, 255, -1);
    var red := ParseValue(Arg(args, 3), 0, 255, -1);
    var green := ParseValue(Arg(args, 4), 0, 255, -1);
    var blue := ParseValue(Arg(args, 5), 0, 255, -1);
    var red2 := ParseValue(Arg(args, 6), 0, 255, 0);
    var green2 := ParseValue(Arg(args, 7), 0, 255, 0);
    var blue2 := ParseValue(Arg(args, 8), 0, 255, 0);
    var flags := ParseValue(Arg(args, 9), 0, 255, 0x20);
    if channel >= 0 && speed >= 0 && brightness >= 0 && red >= 0 && blue >= 0 && green >= 0 {
      match RingSetting(channel, speed)
      case None =>
        return -1;
      case Some((mode, s)) =>
        EffectUpdate(dev, Effect(channel, s, flags, mode, brightness, Rgb(red, green, blue), Rgb(red2, green2, blue2)));
        return 1;
    }
    return -1;
  }

  /** parse_mirage */
  method ParseMirage(dev: HidDevice, args: seq<Token>, quotients: nat -> Quotients) returns (ret: int)
    modifies dev
    ensures ret == Ret(MirageOutcome(args, quotients))
    ensures dev.sent == old(dev.sent) + Sent(MirageOutcome(args, quotients))
  {
    var red := ParseValue(Arg(args, 0), 0, 65536, -1);
    var green := ParseValue(Arg(args, 1), 0, 65336, -1);
    var blue := ParseValue(Arg(args, 2), 0, 65536, -1);
    if red >= 0 && green >= 0 && blue >= 0 {
      Mirage(dev, red, green, blue, quotients);
      return 1;
    }
    return -1;
  }

  /** parse_query_channel: the query frame is sent, but the command returns 0. */
  method ParseQueryChannel(dev: HidDevice, args: seq<Token>) returns (ret: int)
    modifies dev
    ensures ret == Ret(QueryOutcome(args))
    ensures dev.sent == old(dev.sent) + Sent(QueryOutcome(args))
  {
    var id := ParseValue(Arg(args, 0), 0, 0x0F, -1);
    if id >= 0 {
      QueryChannel(dev, id);
      return 0;
    }
    return -1;
  }

  /** parse_command: reject an over-long argument, then dispatch on the command word. */
  method ParseCommand(dev: HidDevice, cmd: Command, quotients: nat -> Quotients) returns (ret: int)
    modifies dev
    ensures ret == Ret(CommandOutcome(cmd, quotients))
    ensures dev.sent == old(dev.sent) + Sent(CommandOutcome(cmd, quotients))
  {
    if Length(cmd) >= 256 {
      return -1;
    }
    if cmd.word == "ring-map" {
      ret := ParseRingMap(dev, cmd.args);
    } else if cmd.word == "effect" {
      ret := ParseEffect(dev, cmd.args);
    } else if cmd.word == "ring-effect" {
      ret := ParseRingEffect(dev, cmd.args);
    } else if cmd.word == "mirage" {
      ret := ParseMirage(dev, cmd.args, quotients);
    } else if cmd.word == "query-channel" {
      ret := ParseQueryChannel(dev, cmd.args);
    } else {
      ret := -1;
    }
  }
}
