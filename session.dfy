/**
 * One run of the tool with a device open: the Enable frame, the commands in order up to the
 * first one that is rejected, and the Apply frame when at least one executed command asked
 * for it.
 */
module Session {
  import opened Protocol
  import opened Frames
  import opened Transport
  import opened Builders
  import opened Parsing
  import opened Commands

  /** What each command of `cmds` makes of its arguments, in order. */
  function Outcomes(cmds: seq<Command>, quotients: nat -> Quotients): (os: seq<Parsed>)
    ensures |os| == |cmds|
  {
    seq(|cmds|, j requires 0 <= j < |cmds| => CommandOutcome(cmds[j], quotients))
  }

  /** Every outcome of `os` is an acceptance. */
  ghost predicate AllAccepted(os: seq<Parsed>)
  {
    forall j :: 0 <= j < |os| ==> os[j].Accepted?
  }

  /** How many commands run: those before the first rejected one. */
  function Executed(os: seq<Parsed>): (n: nat)
    ensures n <= |os|
  {
    if os == [] || os[0].Rejected? then 0 else 1 + Executed(os[1..])
  }

  /** The frames the commands send, one per executed command. */
  function CommandFrames(os: seq<Parsed>): seq<Frame>
  {
    if os == [] then []
    else match os[0]
      case Rejected => []
      case Accepted(_, frame) => [frame] + CommandFrames(os[1..])
  }

  /** n_commands at the end of the loop: the sum of what the executed commands returned. */
  function Count(os: seq<Parsed>): nat
  {
    if os == [] then 0
    else match os[0]
      case Rejected => 0
      case Accepted(count, _) => count + Count(os[1..])
  }

  /** Everything a session with an open device sends. */
  function Trace(os: seq<Parsed>): seq<Frame>
  {
    [EnableFrame()] + CommandFrames(os) + (if Count(os) > 0 then [ApplyFrame()] else [])
  }

  /** How many of `cmds` are not queries. */
  function NonQueries(cmds: seq<Command>): nat
  {
    if cmds == [] then 0
    else (if cmds[0].word == "query-channel" then 0 else 1) + NonQueries(cmds[1..])
  }

  // ---------------------------------------------------------------------------------------
  // Properties of a session

  /** An accepted command extends an all-accepted prefix by its frame and its count. */
  lemma {:induction false} ExtendAccepted(os: seq<Parsed>, p: Parsed)
    requires AllAccepted(os) && p.Accepted?
    ensures AllAccepted(os + [p])
    ensures CommandFrames(os + [p]) == CommandFrames(os) + [p.frame]
    ensures Count(os + [p]) == Count(os) + p.count
  {
    if os != [] {
      assert (os + [p])[1..] == os[1..] + [p];
      ExtendAccepted(os[1..], p);
    }
  }

  /** A rejected command ends the run: nothing after it is sent or counted. */
  lemma {:induction false} StopAtRejected(os: seq<Parsed>, rest: seq<Parsed>)
    requires AllAccepted(os) && rest != [] && rest[0].Rejected?
    ensures Executed(os + rest) == |os|
    ensures CommandFrames(os + rest) == CommandFrames(os)
    ensures Count(os + rest) == Count(os)
    ensures Trace(os + rest) == Trace(os)
  {
    if os != [] {
      assert (os + rest)[1..] == os[1..] + rest;
      StopAtRejected(os[1..], rest);
    }
  }

  /** Each executed command sends exactly one frame, and no later command sends any. */
  lemma {:induction false} OneFramePerCommand(os: seq<Parsed>)
    ensures |CommandFrames(os)| == Executed(os) <= |os|
  {
    if os != [] && os[0].Accepted? {
      OneFramePerCommand(os[1..]);
    }
  }

  /** The outcomes of the commands after the first are the outcomes after the first. */
  lemma OutcomesTail(cmds: seq<Command>, quotients: nat -> Quotients)
    requires cmds != []
    ensures Outcomes(cmds, quotients)[0] == CommandOutcome(cmds[0], quotients)
    ensures Outcomes(cmds, quotients)[1..] == Outcomes(cmds[1..], quotients)
  {
  }

  /** n_commands counts the executed commands that are not queries. */
  lemma {:induction false} CountsNonQueries(cmds: seq<Command>, quotients: nat -> Quotients)
    ensures Executed(Outcomes(cmds, quotients)) <= |cmds|
    ensures Count(Outcomes(cmds, quotients)) == NonQueries(cmds[..Executed(Outcomes(cmds, quotients))])
  {
    var os := Outcomes(cmds, quotients);
    if cmds != [] {
      OutcomesTail(cmds, quotients);
      if os[0].Accepted? {
        CountsNonQueries(cmds[1..], quotients);
        CommandOutcomeAccepted(cmds[0], quotients);
        var k := Executed(os[1..]);
        assert cmds[..1 + k][1..] == cmds[1..][..k];
      }
    }
  }

  /** No accepted outcome carries an Enable or an Apply frame. */
  ghost predicate NoControlOutcome(os: seq<Parsed>)
  {
    forall j :: 0 <= j < |os| && os[j].Accepted? ==> os[j].frame != EnableFrame() && os[j].frame != ApplyFrame()
  }

  /** No command's frame is an Enable or an Apply frame. */
  lemma OutcomesNoControl(cmds: seq<Command>, quotients: nat -> Quotients)
    ensures NoControlOutcome(Outcomes(cmds, quotients))
  {
    forall j | 0 <= j < |cmds| && CommandOutcome(cmds[j], quotients).Accepted? {
      CommandOutcomeAccepted(cmds[j], quotients);
    }
  }

  /** No command frame is an Enable or an Apply frame. */
  lemma {:induction false} NoControlFrames(os: seq<Parsed>)
    requires NoControlOutcome(os)
    ensures EnableFrame() !in CommandFrames(os)
    ensures ApplyFrame() !in CommandFrames(os)
  {
    if os != [] && os[0].Accepted? {
      assert NoControlOutcome(os[1..]) by {
        forall j | 0 <= j < |os[1..]| && os[1..][j].Accepted?
          ensures os[1..][j].frame != EnableFrame() && os[1..][j].frame != ApplyFrame()
        {
          assert os[1..][j] == os[j + 1];
        }
      }
      NoControlFrames(os[1..]);
    }
  }

  /**
   * A session sends Enable exactly once and first; it sends Apply at most once, last, and
   * exactly when n_commands is positive.
   */
  lemma ControlFrames(os: seq<Parsed>)
    requires NoControlOutcome(os)
    ensures var t := Trace(os);
      && t[0] == EnableFrame() && EnableFrame() !in t[1..]
      && (ApplyFrame() in t <==> Count(os) > 0)
      && (ApplyFrame() in t ==> t[|t| - 1] == ApplyFrame() && ApplyFrame() !in t[..|t| - 1])
  {
    NoControlFrames(os);
    var t, frames := Trace(os), CommandFrames(os);
    assert EnableFrame() != ApplyFrame() by {
      assert EnableFrame()[1] != ApplyFrame()[1];
    }
    if Count(os) > 0 {
      assert t[1..] == frames + [ApplyFrame()];
      assert t[..|t| - 1] == [EnableFrame()] + frames;
    } else {
      assert t[1..] == frames;
    }
  }

  /**
   * For the commands given on the command line: Enable goes first and once, and Apply goes
   * last and once exactly when some command up to the first rejected one is not a query.
   */
  lemma SessionControlFrames(cmds: seq<Command>, quotients: nat -> Quotients)
    ensures Executed(Outcomes(cmds, quotients)) <= |cmds|
    ensures var t, n := Trace(Outcomes(cmds, quotients)), Executed(Outcomes(cmds, quotients));
      && t[0] == EnableFrame() && EnableFrame() !in t[1..]
      && (ApplyFrame() in t <==> NonQueries(cmds[..n]) > 0)
      && (ApplyFrame() in t ==> t[|t| - 1] == ApplyFrame() && ApplyFrame() !in t[..|t| - 1])
  {
    OutcomesNoControl(cmds, quotients);
    ControlFrames(Outcomes(cmds, quotients));
    CountsNonQueries(cmds, quotients);
  }

  /** One turn of main's loop for an accepted command: its frame joins the record and its count the total. */
  lemma StepAccepted(start: seq<Frame>, os: seq<Parsed>, i: nat, sent: seq<Frame>)
    requires i < |os| && AllAccepted(os[..i]) && os[i].Accepted?
    requires sent == start + CommandFrames(os[..i]) + Sent(os[i])
    ensures AllAccepted(os[..i + 1])
    ensures sent == start + CommandFrames(os[..i + 1])
    ensures Count(os[..i + 1]) == Count(os[..i]) + Ret(os[i])
  {
    assert os[..i + 1] == os[..i] + [os[i]];
    ExtendAccepted(os[..i], os[i]);
  }

  /** The turn of main's loop that meets a rejected command: the record already holds every command frame. */
  lemma StepRejected(start: seq<Frame>, os: seq<Parsed>, i: nat, sent: seq<Frame>)
    requires i < |os| && AllAccepted(os[..i]) && os[i].Rejected?
    requires sent == start + CommandFrames(os[..i]) + Sent(os[i])
    ensures sent == start + CommandFrames(os)
    ensures Count(os) == Count(os[..i])
  {
    StopAtRejected(os[..i], os[i..]);
    assert os[..i] + os[i..] == os;
  }

  /**
   * main's command loop: each command in turn is parsed and run, and the first one that is
   * rejected ends the loop; `n` is n_commands, the sum of what the executed commands returned.
   */
  method RunCommands(dev: HidDevice, commands: seq<Command>, quotients: nat -> Quotients) returns (n: nat)
    modifies dev
    ensures dev.sent == old(dev.sent) + CommandFrames(Outcomes(commands, quotients))
    ensures n == Count(Outcomes(commands, quotients))
  {
    ghost var os := Outcomes(commands, quotients);
    n := 0;
    var i := 0;
    while i < |commands|
      invariant 0 <= i <= |commands|
      invariant AllAccepted(os[..i])
      invariant dev.sent == old(dev.sent) + CommandFrames(os[..i])
      invariant n == Count(os[..i])
    {
      var ret := ParseCommand(dev, commands[i], quotients);
      assert os[i] == CommandOutcome(commands[i], quotients);
      if ret < 0 {
        StepRejected(old(dev.sent), os, i, dev.sent);
        break;
      }
      StepAccepted(old(dev.sent), os, i, dev.sent);
      n := n + ret;
      i := i + 1;
    }
    if i == |commands| {
      assert os[..i] == os;
    }
  }

  /** The frames of a session, sent in three parts: Enable, the commands' frames, and Apply when counted. */
  lemma TraceOfParts(before: seq<Frame>, os: seq<Parsed>, sent: seq<Frame>)
    requires sent == before + [EnableFrame()] + CommandFrames(os) + (if Count(os) > 0 then [ApplyFrame()] else [])
    ensures sent == before + Trace(os)
  {
  }

  /**
   * main from the point where the device is opened: `dev` is what wraith_open returned and
   * `commands` the command arguments, each already split into its words. Without a device
   * nothing is sent and the exit status is 1. With one, the session is sent and the exit
   * status is 0, even when a command was rejected or a transaction failed.
   */
  method Run(dev: HidDevice?, commands: seq<Command>, quotients: nat -> Quotients) returns (status: int)
    modifies dev
    ensures status == if dev == null then 1 else 0
    ensures dev != null ==> dev.sent == old(dev.sent) + Trace(Outcomes(commands, quotients))
  {
    if dev == null {
      return 1;
    }
    ghost var before := dev.sent;
    Enable(dev);
    var n := RunCommands(dev, commands, quotients);
    if n > 0 {
      Apply(dev);
    }
    TraceOfParts(before, Outcomes(commands, quotients), dev.sent);
    return 0;
  }
}
