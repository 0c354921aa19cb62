/**
 * Translating command arguments into device parameters: the name tables, the range-checked
 * value parser, the speed and mode selection of the effect commands, the right-filled ring
 * map, and what each command word makes of its arguments (the value it returns and the one
 * frame it sends, or a rejection before anything is sent).
 */
module Parsing {
  import opened Protocol
  import opened Frames

  /**
   * One space-separated word of a command, with `number` the int that strtoul(text, NULL, 0)
   * yields for it (the conversion itself is not modelled).
   */
  datatype Token = Token(text: string, number: int)

  /** One command-line argument: its command word and the words after it. */
  datatype Command = Command(word: string, args: seq<Token>)

  /** The i-th word after the command word, or None once strsep has run out of words. */
  function Arg(args: seq<Token>, i: nat): Option<Token>
  {
    if i < |args| then Some(args[i]) else None
  }

  function Word(args: seq<Token>, i: nat): Option<string>
  {
    if i < |args| then Some(args[i].text) else None
  }

  /** How many bytes the UTF-8 encoding of `c` takes. */
  function Utf8Width(c: char): (w: nat)
    ensures 1 <= w <= 4
    ensures w == 1 <==> c as int < 0x80
  {
    if c as int < 0x80 then 1
    else if c as int < 0x800 then 2
    else if c as int < 0x1_0000 then 3
    else 4
  }

  /** How many bytes the UTF-8 encoding of `s` takes: what strlen counts for it. */
  function Utf8Size(s: string): (n: nat)
    ensures |s| <= n <= 4 * |s|
  {
    if s == [] then 0 else Utf8Size(s[..|s| - 1]) + Utf8Width(s[|s| - 1])
  }

  /** For ASCII text, strlen counts characters. */
  lemma {:induction false} Utf8SizeAscii(s: string)
    requires forall i :: 0 <= i < |s| ==> s[i] as int < 0x80
    ensures Utf8Size(s) == |s|
  {
    if s != [] {
      assert forall i :: 0 <= i < |s| - 1 ==> s[..|s| - 1][i] == s[i];
      Utf8SizeAscii(s[..|s| - 1]);
    }
  }

  /** A run of one character takes that character's width once per copy. */
  lemma {:induction false} Utf8SizeRepeat(c: char, n: nat)
    ensures Utf8Size(seq(n, _ => c)) == n * Utf8Width(c)
  {
    if n > 0 {
      assert seq(n, _ => c)[..n - 1] == seq(n - 1, _ => c);
      Utf8SizeRepeat(c, n - 1);
    }
  }

  /**
   * strlen of the argument the words were split from, one space before each word after the
   * first, its bytes being the UTF-8 encoding of its characters.
   */
  function Length(cmd: Command): nat
  {
    Utf8Size(cmd.word) + ArgsLength(cmd.args)
  }

  function ArgsLength(args: seq<Token>): nat
  {
    if args == [] then 0 else 1 + Utf8Size(args[0].text) + ArgsLength(args[1..])
  }

  /** The words of two runs of words add up their bytes. */
  lemma {:induction false} ArgsLengthAppend(a: seq<Token>, b: seq<Token>)
    ensures ArgsLength(a + b) == ArgsLength(a) + ArgsLength(b)
  {
    if a != [] {
      assert (a + b)[0] == a[0] && (a + b)[1..] == a[1..] + b;
      ArgsLengthAppend(a[1..], b);
    } else {
      assert a + b == b;
    }
  }

  // The names each parser accepts, and the ids they stand for, as parallel tables.
  const CHANNEL_NAMES: seq<string> := ["logo", "fan"]
  const CHANNEL_VALUES: seq<byte> := [CHANNEL_LOGO, CHANNEL_FAN]
  const MODE_NAMES: seq<string> := ["static", "cycle", "breath"]
  const MODE_VALUES: seq<byte> := [MODE_STATIC, MODE_COLOUR_CYCLE, MODE_BREATH]
  const RING_NAMES: seq<string> :=
    ["static", "cycle", "breath", "rainbow", "bounce", "chase", "swirl", "morse", "off"]
  const RING_VALUES: seq<byte> :=
    [CHANNEL_RING_STATIC, CHANNEL_RING_COLOUR_CYCLE, CHANNEL_RING_BREATH, CHANNEL_RING_RAINBOW,
     CHANNEL_RING_BOUNCE, CHANNEL_RING_CHASE, CHANNEL_RING_SWIRL, CHANNEL_RING_MORSE, CHANNEL_OFF]

  // The same tables as dictionaries from name to id.
  const CHANNELS: map<string, byte> := map["logo" := CHANNEL_LOGO, "fan" := CHANNEL_FAN]
  const MODES: map<string, byte> :=
    map["static" := MODE_STATIC, "cycle" := MODE_COLOUR_CYCLE, "breath" := MODE_BREATH]
  const RING_CHANNELS: map<string, byte> :=
    map["static" := CHANNEL_RING_STATIC, "cycle" := CHANNEL_RING_COLOUR_CYCLE,
        "breath" := CHANNEL_RING_BREATH, "rainbow" := CHANNEL_RING_RAINBOW,
        "bounce" := CHANNEL_RING_BOUNCE, "chase" := CHANNEL_RING_CHASE,
        "swirl" := CHANNEL_RING_SWIRL, "morse" := CHANNEL_RING_MORSE, "off" := CHANNEL_OFF]

  /** FIND_VALUE: the id paired with the first entry equal to `name`; -1 for a missing word or an unknown name. */
  function Lookup(name: Option<string>, names: seq<string>, values: seq<byte>): (r: int)
    requires |names| == |values|
    ensures -1 <= r < 256
    decreases name, |names|
  {
    if name.None? || names == [] then -1
    else if names[0] == name.value then values[0]
    else Lookup(name, names[1..], values[1..])
  }

  /** The lookup fails exactly for a missing word or a name not in the table, and otherwise finds an id paired with the name. */
  lemma {:induction false} LookupSpec(name: Option<string>, names: seq<string>, values: seq<byte>)
    requires |names| == |values|
    ensures Lookup(name, names, values) == -1 <==> name.None? || name.value !in names
    ensures Lookup(name, names, values) != -1 ==>
      exists i :: 0 <= i < |names| && names[i] == name.value && values[i] == Lookup(name, names, values)
    decreases |names|
  {
    if name.Some? && names != [] && names[0] != name.value {
      LookupSpec(name, names[1..], values[1..]);
      var r := Lookup(name, names[1..], values[1..]);
      if r != -1 {
        var i :| 0 <= i < |names[1..]| && names[1..][i] == name.value && values[1..][i] == r;
        assert names[i + 1] == name.value && values[i + 1] == r;
      }
      assert name.value in names <==> name.value in names[1..] by {
        assert names == [names[0]] + names[1..];
      }
    }
  }

  /** FIND_VALUE's search loop. */
  method FindValue(name: Option<string>, names: seq<string>, values: seq<byte>) returns (r: int)
    requires |names| == |values|
    ensures r == Lookup(name, names, values)
  {
    if name.None? {
      return -1;
    }
    var i := 0;
    while i < |names|
      invariant 0 <= i <= |names|
      invariant Lookup(name, names, values) == Lookup(name, names[i..], values[i..])
    {
      if names[i] == name.value {
        return values[i];
      }
      assert names[i..][1..] == names[i + 1..] && values[i..][1..] == values[i + 1..];
      i := i + 1;
    }
    return -1;
  }

  /** parse_channel */
  function ChannelId(name: Option<string>): int
  {
    Lookup(name, CHANNEL_NAMES, CHANNEL_VALUES)
  }

  /** parse_mode */
  function ModeId(name: Option<string>): int
  {
    Lookup(name, MODE_NAMES, MODE_VALUES)
  }

  /** parse_ring_channel */
  function RingChannelId(name: Option<string>): int
  {
    Lookup(name, RING_NAMES, RING_VALUES)
  }

  /**
   * parse_value: the word's number when it lies in [min, max]; `fallback` when it does not or
   * when the word is missing.
   */
  function ParseValue(token: Option<Token>, min: int, max: int, fallback: int): (v: int)
    ensures v == fallback || min <= v <= max
  {
    if token.None? then fallback
    else if min <= token.value.number <= max then token.value.number
    else fallback
  }

  /** parse_value yields the word's own number exactly when it lies in range, and the default otherwise. */
  lemma ParseValueChoice(token: Option<Token>, min: int, max: int, fallback: int)
    ensures token.Some? && min <= token.value.number <= max ==> ParseValue(token, min, max, fallback) == token.value.number
    ensures ParseValue(token, min, max, fallback) != fallback ==>
      token.Some? && ParseValue(token, min, max, fallback) == token.value.number
  {
  }

  /** The speed byte parse_effect sends for a mode id at speed level 1..5; None for other modes. */
  function EffectSpeed(mode: int, level: int): Option<byte>
    requires 1 <= level <= 5
  {
    if mode == MODE_STATIC then Some(STATIC_SPEED)
    else if mode == MODE_COLOUR_CYCLE then Some(CYCLE_SPEED[level - 1])
    else if mode == MODE_BREATH then Some(BREATH_SPEED[level - 1])
    else None
  }

  /** The (mode, speed) pair parse_ring_effect sends for a ring channel id at level 1..5; None for `off`. */
  function RingSetting(channel: int, level: int): Option<(byte, byte)>
    requires 1 <= level <= 5
  {
    if channel == CHANNEL_RING_STATIC then Some((MODE_RING_DEFAULT, STATIC_SPEED))
    else if channel == CHANNEL_RING_COLOUR_CYCLE then Some((MODE_RING_DEFAULT, CYCLE_SPEED[level - 1]))
    else if channel == CHANNEL_RING_BREATH then Some((MODE_BREATH, BREATH_SPEED[level - 1]))
    else if channel == CHANNEL_RING_RAINBOW then Some((MODE_RING_RAINBOW, RAINBOW_SPEED[level - 1]))
    else if channel == CHANNEL_RING_BOUNCE then Some((MODE_RING_DEFAULT, 0))
    else if channel == CHANNEL_RING_CHASE then Some((MODE_RING_CHASE, CHASE_SPEED[level - 1]))
    else if channel == CHANNEL_RING_SWIRL then Some((MODE_RING_SWIRL, SWIRL_SPEED[level - 1]))
    else if channel == CHANNEL_RING_MORSE then Some((MODE_RING_RAINBOW, 0))
    else None
  }

  /** The effect an `effect` command asks for: logo|fan, mode, level, brightness, r g b [r2 g2 b2 flags]. */
  function EffectRequest(args: seq<Token>): Option<Effect>
  {
    var channel := ChannelId(Word(args, 0));
    var mode := ModeId(Word(args, 1));
    var speed := ParseValue(Arg(args, 2), 1, 5, -1);
    var brightness := ParseValue(Arg(args, 3), 0, 255, -1);
    var red := ParseValue(Arg(args, 4), 0, 255, -1);
    var green := ParseValue(Arg(args, 5), 0, 255, -1);
    var blue := ParseValue(Arg(args, 6), 0, 255, -1);
    var red2 := ParseValue(Arg(args, 7), 0, 255, 0);
    var green2 := ParseValue(Arg(args, 8), 0, 255, 0);
    var blue2 := ParseValue(Arg(args, 9), 0, 255, 0);
    var flags := ParseValue(Arg(args, 10), 0, 255, 0x20);
    if channel >= 0 && mode >= 0 && speed >= 0 && brightness >= 0 && red >= 0 && blue >= 0 && green >= 0 then
      match EffectSpeed(mode, speed)
      case None => None
      case Some(s) =>
        Some(Effect(channel, s, flags, mode, brightness, Rgb(red, green, blue), Rgb(red2, green2, blue2)))
    else None
  }

  /** The effect a `ring-effect` command asks for: channel, level, brightness, r g b [r2 g2 b2 flags]. */
  function RingEffectRequest(args: seq<Token>): Option<Effect>
  {
    var channel := RingChannelId(Word(args, 0));
    var speed := ParseValue(Arg(args, 1), 1, 5, -1);
    var brightness := ParseValue(Arg(args, 2), 0, 255, -1);
    var red := ParseValue(Arg(args, 3), 0, 255, -1);
    var green := ParseValue(Arg(args, 4), 0, 255, -1);
    var blue := ParseValue(Arg(args, 5), 0, 255, -1);
    var red2 := ParseValue(Arg(args, 6), 0, 255, 0);
    var green2 := ParseValue(Arg(args, 7), 0, 255, 0);
    var blue2 := ParseValue(Arg(args, 8), 0, 255, 0);
    var flags := ParseValue(Arg(args, 9), 0, 255, 0x20);
    if channel >= 0 && speed >= 0 && brightness >= 0 && red >= 0 && blue >= 0 && green >= 0 then
      match RingSetting(channel, speed)
      case None => None
      case Some((mode, s)) =>
        Some(Effect(channel, s, flags, mode, brightness, Rgb(red, green, blue), Rgb(red2, green2, blue2)))
    else None
  }

  /** The red, green and blue rates a `mirage` command asks for. */
  function MirageRequest(args: seq<Token>): Option<(nat, nat, nat)>
  {
    var red := ParseValue(Arg(args, 0), 0, 65536, -1);
    var green := ParseValue(Arg(args, 1), 0, 65336, -1);
    var blue := ParseValue(Arg(args, 2), 0, 65536, -1);
    if red >= 0 && green >= 0 && blue >= 0 then Some((red, green, blue)) else None
  }

  /** The channel a `query-channel` command asks for. */
  function QueryRequest(args: seq<Token>): Option<byte>
  {
    var id := ParseValue(Arg(args, 0), 0, 0x0F, -1);
    if id >= 0 then Some(id) else None
  }

  /** The id Lookup finds for each of `words`, in order; None when one of them is not in the table. */
  function LookupAll(words: seq<Token>, names: seq<string>, values: seq<byte>): (ids: Option<seq<byte>>)
    requires |names| == |values|
    ensures ids.Some? ==> |ids.value| == |words|
  {
    if words == [] then Some([])
    else
      var id := Lookup(Some(words[|words| - 1].text), names, values);
      match LookupAll(words[..|words| - 1], names, values)
      case None => None
      case Some(ids) => if id < 0 then None else Some(ids + [id as byte])
  }

  /**
   * The 15 slots a map of names asks for, with each name looked up in `names`/`values`: the
   * ids of its first (at most 15) words, the last of them repeated into the remaining slots.
   * None when there is no word or one of those words is not in the table.
   */
  function SlotsFrom(args: seq<Token>, names: seq<string>, values: seq<byte>): Option<seq<byte>>
    requires |names| == |values|
  {
    var n := if |args| < 15 then |args| else 15;
    if n == 0 then None
    else match LookupAll(args[..n], names, values)
      case None => None
      case Some(ids) => Some(RightFill(ids))
  }

  /** The first slots followed by copies of the last of them, 15 slots in all. */
  function RightFill(ids: seq<byte>): (slots: seq<byte>)
    requires 0 < |ids| <= 15
    ensures |slots| == 15
  {
    ids + seq(15 - |ids|, _ => ids[|ids| - 1])
  }

  /** Fifteen slots whose tail from n on repeats slot n - 1 are the right fill of their first n. */
  lemma RightFillOf(slots: seq<byte>, n: nat)
    requires 0 < n <= |slots| == 15
    requires forall j :: n <= j < 15 ==> slots[j] == slots[n - 1]
    ensures RightFill(slots[..n]) == slots
  {
    var fill := RightFill(slots[..n]);
    forall k | 0 <= k < 15
      ensures fill[k] == slots[k]
    {
    }
  }

  /** The 15 ring slots a `ring-map` command asks for, by ring channel name. */
  function RingSlots(args: seq<Token>): Option<seq<byte>>
  {
    SlotsFrom(args, RING_NAMES, RING_VALUES)
  }

  /** What a parser makes of a command: rejected before anything is sent, or the value it returns and the frame it sent. */
  datatype Parsed = Rejected | Accepted(count: nat, frame: Frame)

  /** The int a parser returns. */
  function Ret(p: Parsed): int
  {
    match p
    case Rejected => -1
    case Accepted(count, _) => count
  }

  /** The frames a parser hands to the device. */
  function Sent(p: Parsed): seq<Frame>
  {
    match p
    case Rejected => []
    case Accepted(_, frame) => [frame]
  }

  function RingMapOutcome(args: seq<Token>): Parsed
  {
    match RingSlots(args)
    case None => Rejected
    case Some(ring) => Accepted(1, ChannelMapFrame(ring, CHANNEL_LOGO, CHANNEL_FAN))
  }

  function EffectOutcome(args: seq<Token>): Parsed
  {
    match EffectRequest(args)
    case None => Rejected
    case Some(e) => Accepted(1, EffectFrame(e))
  }

  function RingEffectOutcome(args: seq<Token>): Parsed
  {
    match RingEffectRequest(args)
    case None => Rejected
    case Some(e) => Accepted(1, EffectFrame(e))
  }

  function MirageOutcome(args: seq<Token>, quotients: nat -> Quotients): Parsed
  {
    match MirageRequest(args)
    case None => Rejected
    case Some((red, green, blue)) => Accepted(1, MirageFrame(red, green, blue, quotients))
  }

  /** A query is sent but returns 0: it does not count as a command that needs an Apply. */
  function QueryOutcome(args: seq<Token>): Parsed
  {
    match QueryRequest(args)
    case None => Rejected
    case Some(id) => Accepted(0, QueryFrame(id))
  }

  /** parse_command: an argument of 256 bytes or more, or an unknown command word, is rejected. */
  function CommandOutcome(cmd: Command, quotients: nat -> Quotients): Parsed
  {
    if Length(cmd) >= 256 then Rejected
    else if cmd.word == "ring-map" then RingMapOutcome(cmd.args)
    else if cmd.word == "effect" then EffectOutcome(cmd.args)
    else if cmd.word == "ring-effect" then RingEffectOutcome(cmd.args)
    else if cmd.word == "mirage" then MirageOutcome(cmd.args, quotients)
    else if cmd.word == "query-channel" then QueryOutcome(cmd.args)
    else Rejected
  }

  // ---------------------------------------------------------------------------------------
  // Properties of the translation

  /** No name occurs twice in a table. */
  ghost predicate Distinct(names: seq<string>)
  {
    forall a, b :: 0 <= a < b < |names| ==> names[a] != names[b]
  }

  /** In a table without repeated names, looking up an entry's name finds that entry's id. */
  lemma {:induction false} LookupFinds(names: seq<string>, values: seq<byte>, i: nat)
    requires |names| == |values| && Distinct(names) && i < |names|
    ensures Lookup(Some(names[i]), names, values) == values[i]
  {
    if i > 0 {
      assert names[0] != names[i];
      assert names[1..][i - 1] == names[i];
      LookupFinds(names[1..], values[1..], i - 1);
    }
  }

  /** A table without repeated names that holds exactly the dictionary's entries looks names up as the dictionary does. */
  lemma LookupAgrees(name: string, names: seq<string>, values: seq<byte>, dict: map<string, byte>)
    requires |names| == |values| && Distinct(names)
    requires forall i :: 0 <= i < |names| ==> names[i] in dict && dict[names[i]] == values[i]
    requires forall k :: k in dict ==> k in names
    ensures Lookup(Some(name), names, values) == if name in dict then dict[name] else -1
  {
    LookupSpec(Some(name), names, values);
    if name in dict {
      var i :| 0 <= i < |names| && names[i] == name;
      LookupFinds(names, values, i);
    }
  }

  /** parse_channel agrees with the name-to-id dictionary of channels. */
  lemma ChannelIdByName(name: string)
    ensures ChannelId(Some(name)) == if name in CHANNELS then CHANNELS[name] else -1
  {
    assert Distinct(CHANNEL_NAMES);
    LookupAgrees(name, CHANNEL_NAMES, CHANNEL_VALUES, CHANNELS);
  }

  /** parse_mode agrees with the name-to-id dictionary of modes. */
  lemma ModeIdByName(name: string)
    ensures ModeId(Some(name)) == if name in MODES then MODES[name] else -1
  {
    assert Distinct(MODE_NAMES);
    LookupAgrees(name, MODE_NAMES, MODE_VALUES, MODES);
  }

  /** The parallel ring tables pair each name with the id the dictionary gives it. */
  lemma RingTablesAgree()
    ensures forall i :: 0 <= i < |RING_NAMES| ==>
      RING_NAMES[i] in RING_CHANNELS && RING_CHANNELS[RING_NAMES[i]] == RING_VALUES[i]
  {
  }

  /** parse_ring_channel agrees with the name-to-id dictionary of ring channels. */
  lemma RingChannelIdByName(name: string)
    ensures RingChannelId(Some(name)) == if name in RING_CHANNELS then RING_CHANNELS[name] else -1
  {
    assert Distinct(RING_NAMES);
    RingTablesAgree();
    LookupAgrees(name, RING_NAMES, RING_VALUES, RING_CHANNELS);
  }

  /**
   * An `effect` command is accepted exactly when it names logo or fan, an effect mode, a
   * speed level 1..5 (even for static, which ignores it), and a brightness and a primary
   * colour in 0..255; the optional words never cause a rejection.
   */
  lemma EffectRequestAccepted(args: seq<Token>)
    ensures EffectRequest(args).Some? <==>
      && |args| >= 7
      && args[0].text in CHANNELS
      && args[1].text in MODES
      && 1 <= args[2].number <= 5
      && 0 <= args[3].number <= 255
      && 0 <= args[4].number <= 255 && 0 <= args[5].number <= 255 && 0 <= args[6].number <= 255
  {
    var channel := ChannelId(Word(args, 0));
    var mode := ModeId(Word(args, 1));
    if |args| >= 1 { ChannelIdByName(args[0].text); }
    if |args| >= 2 { ModeIdByName(args[1].text); }
    assert channel >= 0 <==> |args| >= 1 && args[0].text in CHANNELS;
    assert mode >= 0 <==> |args| >= 2 && args[1].text in MODES;
    assert mode >= 0 ==> mode == MODE_STATIC || mode == MODE_COLOUR_CYCLE || mode == MODE_BREATH;
  }

  /** An accepted effect carries the parsed words, with the speed byte the mode's switch picks. */
  lemma EffectRequestValue(args: seq<Token>)
    requires EffectRequest(args).Some?
    ensures var e, mode, level := EffectRequest(args).value, ModeId(Word(args, 1)), ParseValue(Arg(args, 2), 1, 5, -1);
      && 1 <= level <= 5
      && e.channel == ChannelId(Word(args, 0))
      && e.mode == mode
      && EffectSpeed(mode, level) == Some(e.speed)
      && e.brightness == ParseValue(Arg(args, 3), 0, 255, -1)
      && e.colour1.red == ParseValue(Arg(args, 4), 0, 255, -1)
      && e.colour1.green == ParseValue(Arg(args, 5), 0, 255, -1)
      && e.colour1.blue == ParseValue(Arg(args, 6), 0, 255, -1)
      && e.colour2.red == ParseValue(Arg(args, 7), 0, 255, 0)
      && e.colour2.green == ParseValue(Arg(args, 8), 0, 255, 0)
      && e.colour2.blue == ParseValue(Arg(args, 9), 0, 255, 0)
      && e.flags == ParseValue(Arg(args, 10), 0, 255, 0x20)
  {
  }

  /** The speed byte parse_effect picks for each mode name at a level 1..5. */
  lemma EffectSpeedByName(mode: string, level: int)
    requires mode in MODES && 1 <= level <= 5
    ensures EffectSpeed(MODES[mode], level) == Some(if mode == "static" then STATIC_SPEED
                                                     else if mode == "cycle" then CYCLE_SPEED[level - 1]
                                                     else BREATH_SPEED[level - 1])
  {
  }

  /**
   * What an accepted `effect` command sends: the named channel and mode; speed 0xFF for
   * static and the level's entry of the cycle or breath table otherwise; the brightness and
   * primary colour given; the secondary colour 0 0 0 and the flags 0x20 unless given in range.
   */
  lemma EffectRequestFields(args: seq<Token>)
    requires EffectRequest(args).Some?
    ensures |args| >= 7 && args[0].text in CHANNELS && args[1].text in MODES && 1 <= args[2].number <= 5
    ensures var e, mode, level := EffectRequest(args).value, args[1].text, args[2].number;
      && e.channel == CHANNELS[args[0].text]
      && e.mode == MODES[mode]
      && e.speed == (if mode == "static" then STATIC_SPEED
                     else if mode == "cycle" then CYCLE_SPEED[level - 1]
                     else BREATH_SPEED[level - 1])
      && e.brightness == args[3].number
      && e.colour1 == Rgb(args[4].number, args[5].number, args[6].number)
      && e.colour2 == Rgb(ParseValue(Arg(args, 7), 0, 255, 0), ParseValue(Arg(args, 8), 0, 255, 0),
                          ParseValue(Arg(args, 9), 0, 255, 0))
      && e.flags == ParseValue(Arg(args, 10), 0, 255, 0x20)
  {
    EffectRequestAccepted(args);
    EffectRequestValue(args);
    ChannelIdByName(args[0].text);
    ModeIdByName(args[1].text);
    ParseValueChoice(Arg(args, 2), 1, 5, -1);
    ParseValueChoice(Arg(args, 3), 0, 255, -1);
    ParseValueChoice(Arg(args, 4), 0, 255, -1);
    ParseValueChoice(Arg(args, 5), 0, 255, -1);
    ParseValueChoice(Arg(args, 6), 0, 255, -1);
    EffectSpeedByName(args[1].text, args[2].number);
  }

  /**
   * The mode and speed parse_ring_effect picks for each ring channel name at a level 1..5:
   * static, cycle and bounce keep the default mode 0xFF; bounce and morse get speed 0
   * whatever the level; morse runs the rainbow mode; the others take the level's entry of
   * their own speed table; `off` has no setting.
   */
  lemma RingSettingByName(name: string, level: int)
    requires name in RING_CHANNELS && 1 <= level <= 5
    ensures var s := RingSetting(RING_CHANNELS[name], level);
      && (s.None? <==> name == "off")
      && (name == "static" ==> s == Some((MODE_RING_DEFAULT, STATIC_SPEED)))
      && (name == "cycle" ==> s == Some((MODE_RING_DEFAULT, CYCLE_SPEED[level - 1])))
      && (name == "breath" ==> s == Some((MODE_BREATH, BREATH_SPEED[level - 1])))
      && (name == "rainbow" ==> s == Some((MODE_RING_RAINBOW, RAINBOW_SPEED[level - 1])))
      && (name == "bounce" ==> s == Some((MODE_RING_DEFAULT, 0)))
      && (name == "chase" ==> s == Some((MODE_RING_CHASE, CHASE_SPEED[level - 1])))
      && (name == "swirl" ==> s == Some((MODE_RING_SWIRL, SWIRL_SPEED[level - 1])))
      && (name == "morse" ==> s == Some((MODE_RING_RAINBOW, 0)))
  {
  }

  /** A ring effect is requested exactly when every required word parses and the channel has a setting. */
  lemma RingEffectRequestGuard(args: seq<Token>)
    ensures var channel, level := RingChannelId(Word(args, 0)), ParseValue(Arg(args, 1), 1, 5, -1);
      RingEffectRequest(args).Some? <==>
      && channel >= 0 && level >= 0 && ParseValue(Arg(args, 2), 0, 255, -1) >= 0
      && ParseValue(Arg(args, 3), 0, 255, -1) >= 0 && ParseValue(Arg(args, 4), 0, 255, -1) >= 0
      && ParseValue(Arg(args, 5), 0, 255, -1) >= 0 && RingSetting(channel, level).Some?
  {
  }

  /** The speed level, the brightness and the primary colour of a ring effect parse exactly when they are present and in range. */
  lemma RingEffectNumbers(args: seq<Token>)
    ensures (&& ParseValue(Arg(args, 1), 1, 5, -1) >= 0 && ParseValue(Arg(args, 2), 0, 255, -1) >= 0
             && ParseValue(Arg(args, 3), 0, 255, -1) >= 0 && ParseValue(Arg(args, 4), 0, 255, -1) >= 0
             && ParseValue(Arg(args, 5), 0, 255, -1) >= 0) <==>
      (&& |args| >= 6 && 1 <= args[1].number <= 5 && 0 <= args[2].number <= 255
       && 0 <= args[3].number <= 255 && 0 <= args[4].number <= 255 && 0 <= args[5].number <= 255)
  {
  }

  /** Among the ring channel names only `off` has no mode and speed. */
  lemma RingSettingOff(name: string, level: int)
    requires name in RING_CHANNELS && 1 <= level <= 5
    ensures RingSetting(RING_CHANNELS[name], level).None? <==> name == "off"
  {
  }

  /**
   * A `ring-effect` command is accepted exactly when it names a ring channel other than `off`,
   * a speed level 1..5 (even for the channels that ignore it), and a brightness and a primary
   * colour in 0..255.
   */
  lemma RingEffectRequestAccepted(args: seq<Token>)
    ensures RingEffectRequest(args).Some? <==>
      && |args| >= 6
      && args[0].text in RING_CHANNELS && args[0].text != "off"
      && 1 <= args[1].number <= 5
      && 0 <= args[2].number <= 255
      && 0 <= args[3].number <= 255 && 0 <= args[4].number <= 255 && 0 <= args[5].number <= 255
  {
    RingEffectRequestGuard(args);
    RingEffectNumbers(args);
    if |args| >= 1 {
      RingChannelIdByName(args[0].text);
      if args[0].text in RING_CHANNELS && ParseValue(Arg(args, 1), 1, 5, -1) >= 0 {
        RingSettingOff(args[0].text, args[1].number);
      }
    }
  }

  /** An accepted ring effect carries the parsed words, with the mode and speed of the channel's setting. */
  lemma RingEffectRequestValue(args: seq<Token>)
    requires RingEffectRequest(args).Some?
    ensures var e, channel, level := RingEffectRequest(args).value, RingChannelId(Word(args, 0)), ParseValue(Arg(args, 1), 1, 5, -1);
      && 1 <= level <= 5
      && e.channel == channel
      && RingSetting(channel, level) == Some((e.mode, e.speed))
      && e.brightness == ParseValue(Arg(args, 2), 0, 255, -1)
      && e.colour1.red == ParseValue(Arg(args, 3), 0, 255, -1)
      && e.colour1.green == ParseValue(Arg(args, 4), 0, 255, -1)
      && e.colour1.blue == ParseValue(Arg(args, 5), 0, 255, -1)
      && e.colour2.red == ParseValue(Arg(args, 6), 0, 255, 0)
      && e.colour2.green == ParseValue(Arg(args, 7), 0, 255, 0)
      && e.colour2.blue == ParseValue(Arg(args, 8), 0, 255, 0)
      && e.flags == ParseValue(Arg(args, 9), 0, 255, 0x20)
  {
  }

  /**
   * What an accepted `ring-effect` command sends: the named ring channel, the mode and speed
   * of that channel's setting at the given level (listed name by name in RingSettingByName),
   * the brightness and primary colour given, and the secondary colour 0 0 0 and the flags
   * 0x20 unless given in range.
   */
  lemma RingEffectRequestFields(args: seq<Token>)
    requires RingEffectRequest(args).Some?
    ensures |args| >= 6 && args[0].text in RING_CHANNELS && args[0].text != "off" && 1 <= args[1].number <= 5
    ensures var e, name, level := RingEffectRequest(args).value, args[0].text, args[1].number;
      && e.channel == RING_CHANNELS[name]
      && RingSetting(RING_CHANNELS[name], level) == Some((e.mode, e.speed))
      && e.brightness == args[2].number
      && e.colour1 == Rgb(args[3].number, args[4].number, args[5].number)
      && e.colour2 == Rgb(ParseValue(Arg(args, 6), 0, 255, 0), ParseValue(Arg(args, 7), 0, 255, 0),
                          ParseValue(Arg(args, 8), 0, 255, 0))
      && e.flags == ParseValue(Arg(args, 9), 0, 255, 0x20)
  {
    RingEffectRequestAccepted(args);
    RingEffectRequestValue(args);
    RingChannelIdByName(args[0].text);
    ParseValueChoice(Arg(args, 1), 1, 5, -1);
    ParseValueChoice(Arg(args, 2), 0, 255, -1);
    ParseValueChoice(Arg(args, 3), 0, 255, -1);
    ParseValueChoice(Arg(args, 4), 0, 255, -1);
    ParseValueChoice(Arg(args, 5), 0, 255, -1);
  }

  /** A `mirage` command needs all three rates; green is bounded by 65336, red and blue by 65536. */
  lemma MirageRequestAccepted(args: seq<Token>)
    ensures MirageRequest(args).Some? <==>
      && |args| >= 3
      && 0 <= args[0].number <= 65536
      && 0 <= args[1].number <= 65336
      && 0 <= args[2].number <= 65536
    ensures MirageRequest(args).Some? ==>
      MirageRequest(args).value == (args[0].number, args[1].number, args[2].number)
  {
  }

  /** A `query-channel` command needs a channel id 0..15. */
  lemma QueryRequestAccepted(args: seq<Token>)
    ensures QueryRequest(args).Some? <==> |args| >= 1 && 0 <= args[0].number <= 0x0F
    ensures QueryRequest(args).Some? ==> QueryRequest(args).value == args[0].number
  {
  }

  /** LookupAll succeeds exactly when every word is in the table, and then holds each word's id. */
  lemma {:induction false} LookupAllSpec(words: seq<Token>, names: seq<string>, values: seq<byte>)
    requires |names| == |values|
    ensures LookupAll(words, names, values).Some? <==>
      forall j :: 0 <= j < |words| ==> Lookup(Some(words[j].text), names, values) >= 0
    ensures LookupAll(words, names, values).Some? ==>
      forall j :: 0 <= j < |words| ==> LookupAll(words, names, values).value[j] == Lookup(Some(words[j].text), names, values)
    decreases |words|
  {
    if words != [] {
      var m := |words| - 1;
      var front := words[..m];
      LookupAllSpec(front, names, values);
      assert forall j :: 0 <= j < m ==> front[j] == words[j];
    }
  }

  /** One more word extends the ids by its own id, or fails when it is not in the table. */
  lemma LookupAllStep(args: seq<Token>, i: nat, names: seq<string>, values: seq<byte>)
    requires i < |args| && |names| == |values|
    ensures LookupAll(args[..i + 1], names, values) ==
      if LookupAll(args[..i], names, values).Some? && Lookup(Some(args[i].text), names, values) >= 0
      then Some(LookupAll(args[..i], names, values).value + [Lookup(Some(args[i].text), names, values) as byte])
      else None
  {
    assert args[..i + 1][..i] == args[..i];
  }

  /** The slots are there exactly when there is a word and each of the first 15 words is in the table. */
  lemma SlotsFromAccepted(args: seq<Token>, names: seq<string>, values: seq<byte>)
    requires |names| == |values|
    ensures SlotsFrom(args, names, values).Some? <==>
      |args| > 0 && forall j :: 0 <= j < |args| && j < 15 ==> Lookup(Some(args[j].text), names, values) >= 0
  {
    var n := if |args| < 15 then |args| else 15;
    var words := args[..n];
    LookupAllSpec(words, names, values);
    assert forall j :: 0 <= j < n ==> words[j] == args[j];
  }

  /** The slots hold the ids of the first n = min(|args|, 15) words, and every later slot repeats slot n - 1. */
  lemma SlotsFromRightFill(args: seq<Token>, names: seq<string>, values: seq<byte>)
    requires |names| == |values| && SlotsFrom(args, names, values).Some?
    ensures var n, slots := if |args| < 15 then |args| else 15, SlotsFrom(args, names, values).value;
      && 0 < n && |slots| == 15
      && (forall j :: 0 <= j < n ==> slots[j] == Lookup(Some(args[j].text), names, values))
      && (forall j :: n <= j < 15 ==> slots[j] == slots[n - 1])
  {
    var n := if |args| < 15 then |args| else 15;
    var words := args[..n];
    LookupAllSpec(words, names, values);
    assert forall j :: 0 <= j < n ==> words[j] == args[j];
  }

  /** Fifteen slots that start with the ids of the first n = min(|args|, 15) words and repeat slot n - 1 are the slots of `args`. */
  lemma SlotsFromOfPrefix(args: seq<Token>, slots: seq<byte>, names: seq<string>, values: seq<byte>)
    requires |names| == |values| && |slots| == 15
    requires var n := if |args| < 15 then |args| else 15;
      && 0 < n && LookupAll(args[..n], names, values) == Some(slots[..n])
      && forall j :: n <= j < 15 ==> slots[j] == slots[n - 1]
    ensures SlotsFrom(args, names, values) == Some(slots)
  {
    RightFillOf(slots, if |args| < 15 then |args| else 15);
  }

  /** The converse of LookupAllSpec: ids found for every word are the ids LookupAll returns. */
  lemma LookupAllOfIds(words: seq<Token>, ids: seq<byte>, names: seq<string>, values: seq<byte>)
    requires |names| == |values| && |ids| == |words|
    requires forall j :: 0 <= j < |words| ==> Lookup(Some(words[j].text), names, values) >= 0 && ids[j] == Lookup(Some(words[j].text), names, values)
    ensures LookupAll(words, names, values) == Some(ids)
  {
    LookupAllSpec(words, names, values);
    assert LookupAll(words, names, values).value == ids;
  }

  /** The converse: slots of that shape are the slots of `args`. */
  lemma SlotsFromUnique(args: seq<Token>, slots: seq<byte>, names: seq<string>, values: seq<byte>)
    requires |names| == |values|
    requires var n := if |args| < 15 then |args| else 15;
      && 0 < n && |slots| == 15
      && (forall j :: 0 <= j < n ==> Lookup(Some(args[j].text), names, values) >= 0 && slots[j] == Lookup(Some(args[j].text), names, values))
      && (forall j :: n <= j < 15 ==> slots[j] == slots[n - 1])
    ensures SlotsFrom(args, names, values) == Some(slots)
  {
    var n := if |args| < 15 then |args| else 15;
    LookupAllOfIds(args[..n], slots[..n], names, values);
    SlotsFromOfPrefix(args, slots, names, values);
  }

  /** A `ring-map` command is accepted exactly when it has a word and its first 15 words all name ring channels. */
  lemma RingSlotsAccepted(args: seq<Token>)
    ensures RingSlots(args).Some? <==>
      |args| > 0 && forall j :: 0 <= j < |args| && j < 15 ==> args[j].text in RING_CHANNELS
  {
    SlotsFromAccepted(args, RING_NAMES, RING_VALUES);
    forall j | 0 <= j < |args| && j < 15
      ensures RingChannelId(Some(args[j].text)) >= 0 <==> args[j].text in RING_CHANNELS
    {
      RingChannelIdByName(args[j].text);
    }
  }

  /** A word among the first 15 that parse_ring_channel does not know rejects the ring map. */
  lemma RingSlotsRejectsWord(args: seq<Token>, i: nat)
    requires i < |args| && i < 15 && RingChannelId(Some(args[i].text)) < 0
    ensures RingSlots(args) == None
  {
    SlotsFromAccepted(args, RING_NAMES, RING_VALUES);
  }

  /**
   * An accepted ring map holds the channels of its first n = min(|args|, 15) words in order,
   * and every later slot repeats slot n - 1.
   */
  lemma RingSlotsRightFill(args: seq<Token>)
    requires RingSlots(args).Some?
    ensures var n, slots := if |args| < 15 then |args| else 15, RingSlots(args).value;
      && 0 < n && |slots| == 15
      && (forall j :: 0 <= j < n ==> args[j].text in RING_CHANNELS && slots[j] == RING_CHANNELS[args[j].text])
      && (forall j :: n <= j < 15 ==> slots[j] == slots[n - 1])
  {
    SlotsFromAccepted(args, RING_NAMES, RING_VALUES);
    SlotsFromRightFill(args, RING_NAMES, RING_VALUES);
    var n := if |args| < 15 then |args| else 15;
    forall j | 0 <= j < n
      ensures args[j].text in RING_CHANNELS && RING_CHANNELS[args[j].text] == RingChannelId(Some(args[j].text))
    {
      RingChannelIdByName(args[j].text);
    }
  }

  /** The converse of RingSlotsRightFill: those slots are the only ones an accepted ring map can hold. */
  lemma RingSlotsUnique(args: seq<Token>, slots: seq<byte>)
    requires var n := if |args| < 15 then |args| else 15;
      && 0 < n && |slots| == 15
      && (forall j :: 0 <= j < n ==> args[j].text in RING_CHANNELS && slots[j] == RING_CHANNELS[args[j].text])
      && (forall j :: n <= j < 15 ==> slots[j] == slots[n - 1])
    ensures RingSlots(args) == Some(slots)
  {
    var n := if |args| < 15 then |args| else 15;
    forall j | 0 <= j < n
      ensures RingChannelId(Some(args[j].text)) >= 0 && RingChannelId(Some(args[j].text)) == slots[j]
    {
      RingChannelIdByName(args[j].text);
    }
    SlotsFromUnique(args, slots, RING_NAMES, RING_VALUES);
  }

  /** Words after the fifteenth are never read. */
  lemma RingSlotsIgnoresExtraWords(args: seq<Token>, extra: seq<Token>)
    requires |args| == 15
    ensures RingSlots(args + extra) == RingSlots(args)
  {
    assert (args + extra)[..15] == args[..15];
  }

  // The opcode byte at offset 2 of the frame each kind of command sends.

  lemma RingMapOpcode(args: seq<Token>)
    requires RingMapOutcome(args).Accepted?
    ensures RingMapOutcome(args).frame[2] == 0xA0
  {
    ChannelMapFrameLayout(RingSlots(args).value, CHANNEL_LOGO, CHANNEL_FAN);
  }

  lemma EffectOpcode(args: seq<Token>)
    requires EffectOutcome(args).Accepted?
    ensures EffectOutcome(args).frame[2] == 0x2C
  {
    EffectFrameOpcode(EffectRequest(args).value);
  }

  lemma RingEffectOpcode(args: seq<Token>)
    requires RingEffectOutcome(args).Accepted?
    ensures RingEffectOutcome(args).frame[2] == 0x2C
  {
    EffectFrameOpcode(RingEffectRequest(args).value);
  }

  lemma EffectFrameOpcode(e: Effect)
    ensures EffectFrame(e)[2] == 0x2C
  {
    EffectFrameLayout(e);
  }

  lemma MirageOpcode(args: seq<Token>, quotients: nat -> Quotients)
    requires MirageOutcome(args, quotients).Accepted?
    ensures MirageOutcome(args, quotients).frame[2] == 0x71
  {
    var (red, green, blue) := MirageRequest(args).value;
    MirageFrameLayout(red, green, blue, quotients);
  }

  lemma QueryOpcode(args: seq<Token>)
    requires QueryOutcome(args).Accepted?
    ensures QueryOutcome(args).frame[2] == 0x21
  {
  }

  /**
   * An accepted command returns 1, except a query, which returns 0; its frame is a whole
   * command frame and never the Enable or the Apply frame.
   */
  lemma CommandOutcomeAccepted(cmd: Command, quotients: nat -> Quotients)
    requires CommandOutcome(cmd, quotients).Accepted?
    ensures var p := CommandOutcome(cmd, quotients);
      && Length(cmd) < 256
      && p.count == (if cmd.word == "query-channel" then 0 else 1)
      && |p.frame| == CMD_SIZE
      && p.frame != EnableFrame() && p.frame != ApplyFrame()
  {
    var p := CommandOutcome(cmd, quotients);
    if cmd.word == "ring-map" {
      RingMapOpcode(cmd.args);
    } else if cmd.word == "effect" {
      EffectOpcode(cmd.args);
    } else if cmd.word == "ring-effect" {
      RingEffectOpcode(cmd.args);
    } else if cmd.word == "mirage" {
      MirageOpcode(cmd.args, quotients);
    } else {
      QueryOpcode(cmd.args);
    }
    var f := p.frame;
    assert f[2] != EnableFrame()[2] && f[2] != ApplyFrame()[2];
  }
}
