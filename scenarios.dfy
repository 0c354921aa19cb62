/**
 * Whole sessions for particular command lines: what the device is sent, frame by frame.
 */
module Scenarios {
  import opened Protocol
  import opened Frames
  import opened Parsing
  import opened Session

  /** A session of one accepted command: Enable, its frame, and Apply when it counts. */
  lemma OneAccepted(cmd: Command, quotients: nat -> Quotients, count: nat, frame: Frame)
    requires CommandOutcome(cmd, quotients) == Accepted(count, frame)
    ensures Trace(Outcomes([cmd], quotients)) == [EnableFrame(), frame] + (if count > 0 then [ApplyFrame()] else [])
  {
    var os := Outcomes([cmd], quotients);
    assert os == [Accepted(count, frame)];
    assert os[1..] == [];
    assert CommandFrames(os) == [frame];
    assert Count(os) == count;
  }

  /** A single static logo effect: Enable, the effect frame, Apply. */
  lemma StaticLogo(quotients: nat -> Quotients)
    ensures Trace(Outcomes([Command("effect", [Token("logo", 0), Token("static", 0), Token("1", 1), Token("255", 255),
                                               Token("255", 255), Token("0", 0), Token("0", 0)])], quotients))
      == [EnableFrame(), EffectFrame(Effect(CHANNEL_LOGO, STATIC_SPEED, 0x20, MODE_STATIC, 255, Rgb(255, 0, 0), Rgb(0, 0, 0))),
          ApplyFrame()]
  {
    var cmd := Command("effect", [Token("logo", 0), Token("static", 0), Token("1", 1), Token("255", 255), Token("255", 255), Token("0", 0), Token("0", 0)]);
    var e := Effect(CHANNEL_LOGO, STATIC_SPEED, 0x20, MODE_STATIC, 255, Rgb(255, 0, 0), Rgb(0, 0, 0));
    assert Length(cmd) < 256;
    assert EffectRequest(cmd.args) == Some(e);
    OneAccepted(cmd, quotients, 1, EffectFrame(e));
    assert [EnableFrame(), EffectFrame(e)] + [ApplyFrame()] == [EnableFrame(), EffectFrame(e), ApplyFrame()];
  }

  /** `ring-map static` fills all 15 ring slots with the static channel. */
  lemma RingMapStatic(quotients: nat -> Quotients)
    ensures CommandOutcome(Command("ring-map", [Token("static", 0)]), quotients)
      == Accepted(1, ChannelMapFrame(seq(15, _ => CHANNEL_RING_STATIC), CHANNEL_LOGO, CHANNEL_FAN))
  {
    RingSlotsUnique([Token("static", 0)], seq(15, _ => CHANNEL_RING_STATIC));
  }

  /** `mirage 0 0 0` is accepted and sends the all-sentinel mirage frame. */
  lemma MirageOff(quotients: nat -> Quotients)
    ensures CommandOutcome(Command("mirage", [Token("0", 0), Token("0", 0), Token("0", 0)]), quotients)
      == Accepted(1, MirageFrame(0, 0, 0, quotients))
  {
    assert Length(Command("mirage", [Token("0", 0), Token("0", 0), Token("0", 0)])) < 256;
  }

  /**
   * The length limit counts bytes: a further word of 150 copies of U+00E9 (two bytes each in
   * UTF-8) takes the argument past 300 bytes (333 in all), though it has only 183 characters,
   * and the command is rejected.
   */
  lemma LongArgumentRejected(quotients: nat -> Quotients)
    ensures var cmd := Command("effect", [Token("logo", 0), Token("static", 0), Token("1", 1), Token("255", 255),
                                          Token("255", 255), Token("0", 0), Token("0", 0), Token(seq(150, _ => '\U{E9}'), 0)]);
      Length(cmd) > 300 && CommandOutcome(cmd, quotients) == Rejected
  {
    var front := [Token("logo", 0), Token("static", 0), Token("1", 1), Token("255", 255),
                  Token("255", 255), Token("0", 0), Token("0", 0)];
    var last := Token(seq(150, _ => '\U{E9}'), 0);
    Utf8SizeRepeat('\U{E9}', 150);
    ArgsLengthAppend(front, [last]);
    assert ArgsLength([last]) == 301;
    assert front + [last] == [Token("logo", 0), Token("static", 0), Token("1", 1), Token("255", 255),
                              Token("255", 255), Token("0", 0), Token("0", 0), last];
  }

  /** `effect` with no words is rejected. */
  lemma EffectWithoutWords(quotients: nat -> Quotients)
    ensures CommandOutcome(Command("effect", []), quotients) == Rejected
  {
  }

  /** The outcomes of `ring-map static`, `mirage 0 0 0`, `effect`. */
  lemma TwoThenRejectedOutcomes(quotients: nat -> Quotients)
    ensures Outcomes([Command("ring-map", [Token("static", 0)]),
                      Command("mirage", [Token("0", 0), Token("0", 0), Token("0", 0)]),
                      Command("effect", [])], quotients)
      == [Accepted(1, ChannelMapFrame(seq(15, _ => CHANNEL_RING_STATIC), CHANNEL_LOGO, CHANNEL_FAN)),
          Accepted(1, MirageFrame(0, 0, 0, quotients)), Rejected]
  {
    RingMapStatic(quotients);
    MirageOff(quotients);
    EffectWithoutWords(quotients);
  }

  /** Two accepted commands and then a rejected one: both frames go out, then Apply, and nothing after the rejection. */
  lemma TwoAcceptedThenRejected(f1: Frame, f2: Frame, rest: seq<Parsed>)
    ensures Trace([Accepted(1, f1), Accepted(1, f2), Rejected] + rest) == [EnableFrame(), f1, f2, ApplyFrame()]
  {
    var os := [Accepted(1, f1), Accepted(1, f2), Rejected] + rest;
    ExtendAccepted([], os[0]);
    ExtendAccepted([os[0]], os[1]);
    StopAtRejected(os[..2], os[2..]);
    assert os[..2] + os[2..] == os;
    assert [os[0]] + [os[1]] == os[..2];
  }

  /** Two valid commands and an invalid third: Apply is still sent, after the two frames. */
  lemma TwoThenRejected(quotients: nat -> Quotients)
    ensures Trace(Outcomes([Command("ring-map", [Token("static", 0)]),
                            Command("mirage", [Token("0", 0), Token("0", 0), Token("0", 0)]),
                            Command("effect", [])], quotients))
      == [EnableFrame(), ChannelMapFrame(seq(15, _ => CHANNEL_RING_STATIC), CHANNEL_LOGO, CHANNEL_FAN),
          MirageFrame(0, 0, 0, quotients), ApplyFrame()]
  {
    TwoThenRejectedOutcomes(quotients);
    TwoAcceptedThenRejected(ChannelMapFrame(seq(15, _ => CHANNEL_RING_STATIC), CHANNEL_LOGO, CHANNEL_FAN),
                            MirageFrame(0, 0, 0, quotients), []);
    assert [Accepted(1, ChannelMapFrame(seq(15, _ => CHANNEL_RING_STATIC), CHANNEL_LOGO, CHANNEL_FAN)),
            Accepted(1, MirageFrame(0, 0, 0, quotients)), Rejected] + [] ==
           [Accepted(1, ChannelMapFrame(seq(15, _ => CHANNEL_RING_STATIC), CHANNEL_LOGO, CHANNEL_FAN)),
            Accepted(1, MirageFrame(0, 0, 0, quotients)), Rejected];
  }

  /** A query alone is sent but does not lead to Apply. */
  lemma QueryOnly(quotients: nat -> Quotients)
    ensures Trace(Outcomes([Command("query-channel", [Token("3", 3)])], quotients)) == [EnableFrame(), QueryFrame(3)]
  {
    var cmd := Command("query-channel", [Token("3", 3)]);
    assert Length(cmd) < 256;
    OneAccepted(cmd, quotients, 0, QueryFrame(3));
  }
}
