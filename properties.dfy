/** Properties of the session engine that span several blocks of one
    iteration, or several iterations. */
module EngineProperties {

  import opened Wrappers
  import opened Protocol
  import opened Engine

  // ---------------------------------------------------------------------
  // The retry budget and the transmission count

  /** An OPEN or CLOSE transmission. */
  predicate IsCommandTransmission(f: seq<Byte>)
  {
    |f| == COMMAND_FRAME_SIZE && (f[3] == Code(Open) || f[3] == Code(Close))
  }

  /** How many OPEN / CLOSE frames a sequence of transmissions holds. */
  function Transmissions(frames: seq<seq<Byte>>): nat
  {
    if frames == [] then 0
    else (if IsCommandTransmission(frames[0]) then 1 else 0) + Transmissions(frames[1..])
  }

  lemma {:induction false} TransmissionsAppend(a: seq<seq<Byte>>, c: seq<seq<Byte>>)
    ensures Transmissions(a + c) == Transmissions(a) + Transmissions(c)
  {
    if a != [] {
      assert (a + c)[0] == a[0];
      assert (a + c)[1..] == a[1..] + c;
      TransmissionsAppend(a[1..], c);
    } else {
      assert a + c == c;
    }
  }

  /** The retransmissions a session can still make. */
  function Budget(s: Session): nat
  {
    if Pending(s) && s.cmd.currentRepeat < N_REPEAT_COMMANDS - 1 then N_REPEAT_COMMANDS - 1 - s.cmd.currentRepeat
    else 0
  }

  // ---------------------------------------------------------------------
  // The three groups of blocks of an iteration

  /** The button blocks keep the invariant; without up / down they change
      nothing but the selection, send nothing and take no time; with up /
      down they start a fresh pending command and send it once. */
  lemma PressFacts(s: Session, now: nat, b: Buttons)
    requires Invariant(s)
    ensures var p := Press(s, now, b);
      var sel := Select(s, b.left, b.right).next;
      && Invariant(p.next)
      && p.next.currentLauncher == sel.currentLauncher
      && (!(b.up || b.down) ==> p.next == sel && p.sent == [] && p.clock == now)
      && (b.up || b.down ==>
            && p.sent == [CommandFrame(LauncherByte(sel.currentLauncher), p.next.cmd.currentCommand)]
            && p.next.cmd.currentCommand == (if b.up then Open else Close)
            && Pending(p.next) && p.next.cmd.currentRepeat == 0
            && p.next.cmd.tCommandSent == p.clock && p.clock == IssueTime(sel, now))
      && (!p.refresh ==> p.next == s && p.clock == now)
  {
  }

  /** Without up / down the button blocks do not add to the retry budget. */
  lemma PressBudget(s: Session, now: nat, b: Buttons)
    requires Invariant(s)
    requires !b.up && !b.down
    ensures Press(s, now, b).sent == []
    ensures Budget(Press(s, now, b).next) <= Budget(s)
  {
  }

  /** The radio blocks keep the invariant and the command in flight, and send
      at most a GET_STATUS, only when idle. */
  lemma ExchangeFacts(u: Session, t: nat, ok: bool, rx: Option<RxFrame>)
    requires Invariant(u)
    ensures var x := Exchange(u, t, ok, rx);
      && Invariant(x.next)
      && x.next.currentLauncher == u.currentLauncher
      && x.next.cmd.currentCommand == u.cmd.currentCommand
      && x.next.cmd.tCommandSent == u.cmd.tCommandSent
      && x.next.cmd.currentRepeat == u.cmd.currentRepeat
      && x.next.cmd.commandFailed == u.cmd.commandFailed
      && (x.sent == [] || (Idle(u) && x.sent == [CommandFrame(LauncherByte(u.currentLauncher), GetStatus)]))
      && (rx.None? ==> !x.refresh)
      && (!x.refresh ==> x.next == u.(tGetStatus := x.next.tGetStatus))
  {
  }

  /** The radio blocks never add to the retry budget. */
  lemma ExchangeBudget(u: Session, t: nat, ok: bool, rx: Option<RxFrame>)
    requires Invariant(u)
    ensures Transmissions(Exchange(u, t, ok, rx).sent) == 0
    ensures Budget(Exchange(u, t, ok, rx).next) <= Budget(u)
  {
    var x := Exchange(u, t, ok, rx);
    if x.sent != [] {
      assert !IsCommandTransmission(x.sent[0]);
    }
  }

  /** A STATUS frame for the selected launcher installs its telemetry. */
  lemma ExchangeStatus(u: Session, t: nat, ok: bool, f: RxFrame)
    requires Classify(f, u.currentLauncher).StatusOf?
    ensures var x := Exchange(u, t, ok, Some(f));
      && x.next.telemetry == Classify(f, u.currentLauncher).telemetry
      && x.next.telemAvailable && x.next.tTelem == t
  {
  }

  /** A frame not addressed to the selected launcher does not change what the
      radio blocks do. */
  lemma ExchangeIgnoresForeign(u: Session, t: nat, ok: bool, f: RxFrame)
    requires !Addressed(f, u.currentLauncher)
    ensures Exchange(u, t, ok, Some(f)) == Exchange(u, t, ok, None)
  {
  }

  /** The timer blocks keep the invariant and send at most one retransmission
      of the command in flight; none in the iteration of a send. */
  lemma TimersFacts(u: Session, t: nat)
    requires Invariant(u)
    ensures var z := Timers(u, t);
      && Invariant(z.next)
      && z.next.currentLauncher == u.currentLauncher
      && (z.sent == [] || (Pending(u) && z.sent == [CommandFrame(LauncherByte(u.currentLauncher), u.cmd.currentCommand)]))
      && (Pending(u) && u.cmd.tCommandSent == t ==> z.sent == [])
      && (!z.refresh ==> z.next == u)
  {
  }

  /** A retransmission is paid for by one unit of the retry budget. */
  lemma TimersBudget(u: Session, t: nat)
    requires Invariant(u)
    ensures Transmissions(Timers(u, t).sent) + Budget(Timers(u, t).next) <= Budget(u)
  {
    var exp := Expire(u, t);
    var rty := Retry(exp.next, t);
    if rty.sent != [] {
      assert IsCommandTransmission(rty.sent[0]);
      assert Transmissions(rty.sent) == 1;
    }
  }

  /** The timer blocks keep the telemetry values and hide them once stale. */
  lemma TimersTelemetry(u: Session, t: nat)
    ensures Timers(u, t).next.telemetry == u.telemetry
    ensures Timers(u, t).next.telemAvailable <==> u.telemAvailable && !Stale(u, t)
    ensures Timers(u, t).next.tTelem == (if Stale(u, t) then 0 else u.tTelem)
  {
  }

  // ---------------------------------------------------------------------
  // The state invariant

  /** Every iteration keeps the invariant: the selection stays in range, the
      repeat counter within the retry budget, and the command flags consistent. */
  lemma StepPreservesInvariant(s: Session, now: nat, b: Buttons, rx: Option<RxFrame>)
    requires Invariant(s)
    ensures Invariant(Step(s, now, b, rx).next)
  {
    var p := Press(s.(init := false), now, b);
    PressFacts(s.(init := false), now, b);
    var x := Exchange(p.next, p.clock, b.ok, rx);
    ExchangeFacts(p.next, p.clock, b.ok, rx);
    TimersFacts(x.next, p.clock);
  }

  /** ... and so does any run of iterations. */
  lemma {:induction false} RunPreservesInvariant(s: Session, xs: seq<Stimulus>)
    requires Invariant(s)
    ensures Invariant(Run(s, xs).next)
    decreases |xs|
  {
    if xs != [] {
      StepPreservesInvariant(s, xs[0].now, xs[0].buttons, xs[0].rx);
      RunPreservesInvariant(Step(s, xs[0].now, xs[0].buttons, xs[0].rx).next, xs[1..]);
    }
  }

  /** Hence, whatever the button edges, the selection never leaves the range
      of launchers. */
  lemma RunKeepsSelection(s: Session, xs: seq<Stimulus>)
    requires Invariant(s)
    ensures 0 <= Run(s, xs).next.currentLauncher < N_LAUNCHERS
  {
    RunPreservesInvariant(s, xs);
  }

  // ---------------------------------------------------------------------
  // Timestamps

  /** No timestamp of the session lies after `t`. */
  predicate NotAfter(s: Session, t: nat)
  {
    s.cmd.tCommandSent <= t && s.cmd.tAckReceived <= t && s.tGetStatus <= t && s.tTelem <= t
  }

  lemma PressNotAfter(s: Session, now: nat, b: Buttons)
    requires NotAfter(s, now)
    ensures NotAfter(Press(s, now, b).next, Press(s, now, b).clock)
  {
  }

  lemma ExchangeNotAfter(u: Session, t: nat, ok: bool, rx: Option<RxFrame>)
    requires NotAfter(u, t)
    ensures NotAfter(Exchange(u, t, ok, rx).next, t)
  {
  }

  lemma TimersNotAfter(u: Session, t: nat)
    requires NotAfter(u, t)
    ensures NotAfter(Timers(u, t).next, t)
  {
  }

  /** Every timestamp an iteration records is a reading of the clock, so with
      a clock that never goes back no timestamp is ever ahead of it: the
      unsigned differences `t - tGetStatus` and `t - tCommandSent` of the
      issuance block never wrap. */
  lemma StepNotAfter(s: Session, now: nat, b: Buttons, rx: Option<RxFrame>)
    requires NotAfter(s, now)
    ensures NotAfter(Step(s, now, b, rx).next, Step(s, now, b, rx).clock)
  {
    var s0 := s.(init := false);
    var p := Press(s0, now, b);
    PressNotAfter(s0, now, b);
    var x := Exchange(p.next, p.clock, b.ok, rx);
    ExchangeNotAfter(p.next, p.clock, b.ok, rx);
    TimersNotAfter(x.next, p.clock);
  }

  /** The two waits before a user command add up: both are computed from the
      same reading of the clock, so a poll and a command 100 ms back delay the
      command by 600 ms, not 300. */
  lemma WaitsAdd(s: Session, now: nat)
    requires now >= 100
    requires s.tGetStatus == now - 100 && s.cmd.tCommandSent == now - 100
    ensures IssueTime(s, now) == now + 600
  {
    assert Wait(now, s.tGetStatus) == 300;
    assert Wait(now, s.cmd.tCommandSent) == 300;
  }

  /** What the loop object keeps between iterations survives an iteration
      followed by the loop's final pause. */
  lemma StepKeepsValid(s: Session, now: nat, b: Buttons, rx: Option<RxFrame>)
    requires Invariant(s) && NotAfter(s, now)
    ensures Invariant(Step(s, now, b, rx).next)
    ensures NotAfter(Step(s, now, b, rx).next, Step(s, now, b, rx).clock + LOOP_PERIOD)
  {
    StepPreservesInvariant(s, now, b, rx);
    StepNotAfter(s, now, b, rx);
  }

  // ---------------------------------------------------------------------
  // Outgoing frames

  /** The launcher whose frames an iteration listens to and addresses: the
      one selected once the left / right edges have been handled. */
  function ListeningTo(s: Session, b: Buttons): int
  {
    Select(s.(init := false), b.left, b.right).next.currentLauncher
  }

  /** Of three groups' transmissions, at most one is non-empty: their
      concatenation is that one. */
  lemma FirstNonEmpty(a: seq<seq<Byte>>, c: seq<seq<Byte>>, d: seq<seq<Byte>>)
    requires a != [] ==> c == [] && d == []
    requires c != [] ==> d == []
    ensures a + c + d == if a != [] then a else if c != [] then c else d
  {
    if a != [] {
      assert a + c + d == a;
    } else if c != [] {
      assert a + c + d == c;
    } else {
      assert a + c + d == d;
    }
  }

  /** The frame an iteration transmits, if any: GET_STATUS, OPEN or CLOSE,
      addressed to the launcher selected at the end of the iteration. */
  lemma StepFrame(s: Session, now: nat, b: Buttons, rx: Option<RxFrame>)
    requires Invariant(s)
    ensures var it := Step(s, now, b, rx);
      var l := LauncherByte(it.next.currentLauncher);
      && it.next.currentLauncher == ListeningTo(s, b)
      && (it.sent == [] || it.sent == [CommandFrame(l, GetStatus)]
          || it.sent == [CommandFrame(l, Open)] || it.sent == [CommandFrame(l, Close)])
  {
    var s0 := s.(init := false);
    var p := Press(s0, now, b);
    PressFacts(s0, now, b);
    var x := Exchange(p.next, p.clock, b.ok, rx);
    ExchangeFacts(p.next, p.clock, b.ok, rx);
    var z := Timers(x.next, p.clock);
    TimersFacts(x.next, p.clock);
    FirstNonEmpty(p.sent, x.sent, z.sent);
  }

  /** An iteration transmits at most one frame, and that frame is a 4-byte
      command frame for the launcher selected at the end of the iteration,
      carrying GET_STATUS, OPEN or CLOSE. */
  lemma StepSendsOneFrameAtMost(s: Session, now: nat, b: Buttons, rx: Option<RxFrame>)
    requires Invariant(s)
    ensures var it := Step(s, now, b, rx);
      && it.next.currentLauncher == ListeningTo(s, b)
      && |it.sent| <= 1
      && (|it.sent| == 1 ==>
            && ParseCommandFrame(it.sent[0]).Some?
            && ParseCommandFrame(it.sent[0]).value.0 == it.next.currentLauncher
            && ParseCommandFrame(it.sent[0]).value.1 in {GetStatus, Open, Close})
  {
    StepFrame(s, now, b, rx);
    var it := Step(s, now, b, rx);
    var l := LauncherByte(it.next.currentLauncher);
    CommandFrameRoundTrip(l, GetStatus);
    CommandFrameRoundTrip(l, Open);
    CommandFrameRoundTrip(l, Close);
  }

  /** A user command is transmitted no earlier than DELAY_MIN_BETWEEN_COMMANDS
      after the previous command transmission and, unless the selection just
      moved, after the last status poll; and no more than two such delays
      after the button edge. */
  lemma UserCommandSpacing(s: Session, now: nat, b: Buttons, rx: Option<RxFrame>)
    requires Invariant(s)
    requires b.up || b.down
    requires s.tGetStatus <= now && s.cmd.tCommandSent <= now
    ensures var it := Step(s, now, b, rx);
      && it.sent == [CommandFrame(LauncherByte(it.next.currentLauncher), if b.up then Open else Close)]
      && it.next.cmd.currentCommand == (if b.up then Open else Close)
      && it.next.cmd.tCommandSent == it.clock
      && it.clock >= s.cmd.tCommandSent + DELAY_MIN_BETWEEN_COMMANDS
      && (it.next.currentLauncher == s.currentLauncher ==>
            it.clock >= s.tGetStatus + DELAY_MIN_BETWEEN_COMMANDS)
      && it.clock <= now + 2 * DELAY_MIN_BETWEEN_COMMANDS
  {
    var s0 := s.(init := false);
    var sel := Select(s0, b.left, b.right).next;
    assert sel.cmd.tCommandSent == s.cmd.tCommandSent;
    assert sel.currentLauncher == s.currentLauncher ==> sel.tGetStatus == s.tGetStatus;
    PressedIteration(s, now, b, rx);
  }

  /** In an iteration with an up / down edge, the frame of the new command is
      the only one sent, and its session is still open at the end. */
  lemma PressedIteration(s: Session, now: nat, b: Buttons, rx: Option<RxFrame>)
    requires Invariant(s)
    requires b.up || b.down
    ensures var it := Step(s, now, b, rx);
      var p := Press(s.(init := false), now, b);
      && it.sent == p.sent
      && it.clock == p.clock
      && it.next.currentLauncher == p.next.currentLauncher
      && it.next.cmd.currentCommand == p.next.cmd.currentCommand
      && it.next.cmd.tCommandSent == p.next.cmd.tCommandSent
  {
    var s0 := s.(init := false);
    var p := Press(s0, now, b);
    PressFacts(s0, now, b);
    var x := Exchange(p.next, p.clock, b.ok, rx);
    ExchangeFacts(p.next, p.clock, b.ok, rx);
    var z := Timers(x.next, p.clock);
    TimersFacts(x.next, p.clock);
    assert z.sent == [] && x.sent == [];
    // the ACK hold cannot end in the iteration that set tAckReceived
    assert z.next.cmd.currentCommand == x.next.cmd.currentCommand;
  }

  // ---------------------------------------------------------------------
  // Incoming frames

  /** A frame that is not addressed to the selected launcher (wrong tag, wrong
      launcher index, or shorter than 4 bytes) has the same effect as no frame. */
  lemma ForeignFrameIgnored(s: Session, now: nat, b: Buttons, f: RxFrame)
    requires !Addressed(f, ListeningTo(s, b))
    ensures Step(s, now, b, Some(f)) == Step(s, now, b, None)
  {
    var p := Press(s.(init := false), now, b);
    ExchangeIgnoresForeign(p.next, p.clock, b.ok, f);
  }

  /** An ACK is taken once: receiving an ACK again after one was accepted
      changes nothing. */
  lemma AckAcceptedOnce(s: Session, t: nat, t': nat, f: RxFrame, g: RxFrame)
    requires Invariant(s)
    requires AcceptsAck(s, f)
    requires Classify(g, s.currentLauncher).AckOf?
    ensures var s' := Receive(s, t, Some(f)).next;
      && s'.cmd.ackReceived
      && Receive(s', t', Some(g)) == Outcome(s', [], false)
  {
  }

  /** An ACK whose echo is not the command in flight is ignored. */
  lemma MismatchedAckIgnored(s: Session, t: nat, echo: Byte)
    requires Invariant(s)
    requires echo != Code(s.cmd.currentCommand)
    requires 0 <= s.currentLauncher < 256
    ensures Receive(s, t, Some(AckFrame(s.currentLauncher, echo))) == Outcome(s, [], false)
  {
    AckFrameRoundTrip(s.currentLauncher, echo, s.currentLauncher);
  }

  /** A STATUS frame sent by the selected launcher installs exactly the
      telemetry it was encoded from and marks it fresh. */
  lemma StatusInstallsTelemetry(s: Session, t: nat, tel: Telemetry)
    requires 0 <= s.currentLauncher < 256
    requires Encodable(tel)
    ensures var s' := Receive(s, t, Some(StatusFrame(s.currentLauncher, tel))).next;
      s'.telemetry == tel && s'.telemAvailable && s'.tTelem == t
  {
    StatusFrameRoundTrip(s.currentLauncher, tel, s.currentLauncher);
  }

  /** The worked example: [c, s, 1, STATUS, 1, 0x00, 0x64, 0x00, 0xC8, 50] for
      launcher 1 reads as hatch open, altitude 100, temperature 200, battery 50 %. */
  lemma StatusExample(s: Session, t: nat)
    requires s.currentLauncher == 1
    ensures var s' := Receive(s, t, Some([99, 115, 1, 3, 1, 0x00, 0x64, 0x00, 0xC8, 50])).next;
      && s'.telemetry.hatchOpen && s'.telemetry.altitude == 100 && s'.telemetry.temperature == 200 && s'.telemetry.batteryPercent == 50
      && s'.telemAvailable && s'.tTelem == t
  {
  }

  /** The example of a foreign ACK: an ACK from launcher 2 while launcher 1 is
      selected and an OPEN is in flight leaves the iteration as if nothing
      had been received. */
  lemma ForeignAckExample(s: Session, now: nat)
    requires s.currentLauncher == 1 && s.cmd.currentCommand == Open
    ensures Step(s, now, Buttons(false, false, false, false, false), Some(AckFrame(2, Code(Open))))
         == Step(s, now, Buttons(false, false, false, false, false), None)
  {
    ForeignFrameIgnored(s, now, Buttons(false, false, false, false, false), AckFrame(2, Code(Open)));
  }

  // ---------------------------------------------------------------------
  // Telemetry freshness

  /** Telemetry received at T stays available at every quiet iteration before
      T + DELAY_GET_STATUS_TIMEOUT and is unavailable from then on. */
  lemma TelemetryFreshness(s: Session, now: nat, ok: bool)
    requires Invariant(s)
    requires s.telemAvailable && s.tTelem > 0
    ensures (Step(s, now, Buttons(false, false, false, false, ok), None).next.telemAvailable
             <==> now < s.tTelem + DELAY_GET_STATUS_TIMEOUT)
  {
    var b := Buttons(false, false, false, false, ok);
    var s0 := s.(init := false);
    var p := Press(s0, now, b);
    PressFacts(s0, now, b);
    var x := Exchange(p.next, p.clock, b.ok, None);
    ExchangeFacts(p.next, p.clock, b.ok, None);
    TimersTelemetry(x.next, p.clock);
  }

  /** Telemetry that went stale reappears with the next STATUS frame. */
  lemma TelemetryRecovers(s: Session, now: nat, tel: Telemetry)
    requires Invariant(s) && Encodable(tel)
    ensures var it := Step(s, now, Buttons(false, false, false, false, false),
                           Some(StatusFrame(s.currentLauncher, tel)));
      it.next.telemAvailable && it.next.telemetry == tel && it.next.tTelem == now
  {
    var b := Buttons(false, false, false, false, false);
    var f := StatusFrame(s.currentLauncher, tel);
    StatusFrameRoundTrip(s.currentLauncher, tel, s.currentLauncher);
    var s0 := s.(init := false);
    var p := Press(s0, now, b);
    PressFacts(s0, now, b);
    var x := Exchange(p.next, p.clock, b.ok, Some(f));
    ExchangeStatus(p.next, p.clock, b.ok, f);
    TimersTelemetry(x.next, p.clock);
  }

  /** Without up / down edges an iteration transmits an OPEN or CLOSE only by
      spending one unit of the retry budget. */
  lemma StepSpendsBudget(s: Session, now: nat, b: Buttons, rx: Option<RxFrame>)
    requires Invariant(s)
    requires !b.up && !b.down
    ensures var it := Step(s, now, b, rx);
      Transmissions(it.sent) + Budget(it.next) <= Budget(s)
  {
    var s0 := s.(init := false);
    var p := Press(s0, now, b);
    PressFacts(s0, now, b);
    PressBudget(s0, now, b);
    var x := Exchange(p.next, p.clock, b.ok, rx);
    ExchangeFacts(p.next, p.clock, b.ok, rx);
    ExchangeBudget(p.next, p.clock, b.ok, rx);
    var z := Timers(x.next, p.clock);
    TimersBudget(x.next, p.clock);
    assert p.sent + x.sent + z.sent == x.sent + z.sent;
    TransmissionsAppend(x.sent, z.sent);
  }

  /** Over any run of iterations without up / down edges, the OPEN and CLOSE
      frames transmitted never exceed the budget the run started with. */
  lemma {:induction false} RunSpendsBudget(s: Session, xs: seq<Stimulus>)
    requires Invariant(s)
    requires forall i :: 0 <= i < |xs| ==> !xs[i].buttons.up && !xs[i].buttons.down
    ensures Transmissions(Run(s, xs).sent) <= Budget(s)
    decreases |xs|
  {
    if xs != [] {
      var it := Step(s, xs[0].now, xs[0].buttons, xs[0].rx);
      StepSpendsBudget(s, xs[0].now, xs[0].buttons, xs[0].rx);
      StepPreservesInvariant(s, xs[0].now, xs[0].buttons, xs[0].rx);
      RunSpendsBudget(it.next, xs[1..]);
      TransmissionsAppend(it.sent, Run(it.next, xs[1..]).sent);
    }
  }

  /** A command instance is transmitted at most N_REPEAT_COMMANDS times: once
      when the button is pressed, then at most N_REPEAT_COMMANDS - 1 retries,
      whatever the clock and the radio do until the next up / down edge. */
  lemma AtMostThreeTransmissions(s: Session, x: Stimulus, xs: seq<Stimulus>)
    requires Invariant(s)
    requires x.buttons.up || x.buttons.down
    requires forall i :: 0 <= i < |xs| ==> !xs[i].buttons.up && !xs[i].buttons.down
    ensures Transmissions(Run(s, [x] + xs).sent) <= N_REPEAT_COMMANDS
  {
    var it := Step(s, x.now, x.buttons, x.rx);
    var rest := Run(it.next, xs);
    assert ([x] + xs)[0] == x && ([x] + xs)[1..] == xs;
    assert Run(s, [x] + xs).sent == it.sent + rest.sent;
    StepSendsOneFrameAtMost(s, x.now, x.buttons, x.rx);
    StepPreservesInvariant(s, x.now, x.buttons, x.rx);
    RunSpendsBudget(it.next, xs);
    OneThenBudget(it.sent, rest.sent, Budget(it.next));
  }

  /** One transmission followed by at most a whole retry budget. */
  lemma OneThenBudget(first: seq<seq<Byte>>, rest: seq<seq<Byte>>, budget: nat)
    requires |first| <= 1
    requires Transmissions(rest) <= budget <= N_REPEAT_COMMANDS - 1
    ensures Transmissions(first + rest) <= N_REPEAT_COMMANDS
  {
    TransmissionsAppend(first, rest);
    if first != [] {
      assert first[1..] == [];
    }
  }

  // ---------------------------------------------------------------------
  // The failure scenario

  /** No button edge in this iteration. */
  const NO_EDGES := Buttons(false, false, false, false, false)

  /** Without an ACK, the command in flight goes out again
      DELAY_COMMAND_TIMEOUT after its last transmission, while retries remain. */
  lemma RetransmitsWithoutAck(u: Session, t: nat)
    requires Invariant(u) && Pending(u)
    requires u.cmd.tCommandSent > 0 && t >= u.cmd.tCommandSent + DELAY_COMMAND_TIMEOUT
    requires u.cmd.currentRepeat < N_REPEAT_COMMANDS - 1
    ensures var it := Step(u, t, NO_EDGES, None);
      && it.sent == [CommandFrame(LauncherByte(u.currentLauncher), u.cmd.currentCommand)]
      && it.next.currentLauncher == u.currentLauncher
      && it.next.cmd == u.cmd.(tCommandSent := t, currentRepeat := u.cmd.currentRepeat + 1)
  {
  }

  /** Once the retries are used up the command fails; if the iteration comes
      after the display hold has already run out, it is cleared at once. */
  lemma FailsWithoutAck(u: Session, t: nat)
    requires Invariant(u) && Pending(u)
    requires u.cmd.tCommandSent > 0 && t >= u.cmd.tCommandSent + DELAY_COMMAND_TIMEOUT
    requires u.cmd.currentRepeat == N_REPEAT_COMMANDS - 1
    ensures var it := Step(u, t, NO_EDGES, None);
      && it.sent == []
      && it.next.currentLauncher == u.currentLauncher
      && it.next.cmd == if t > u.cmd.tCommandSent + DELAY_COMMAND_TIMEOUT + DELAY_ORDER_DISPLAYED
                        then NO_COMMAND else u.cmd.(commandFailed := true)
  {
  }

  /** A failed command stays on display until DELAY_COMMAND_TIMEOUT +
      DELAY_ORDER_DISPLAYED after its last transmission, and is cleared after. */
  lemma FailureDisplayed(u: Session, t: nat)
    requires Invariant(u) && u.cmd.commandFailed
    ensures var it := Step(u, t, NO_EDGES, None);
      && it.sent == []
      && it.next.currentLauncher == u.currentLauncher
      && it.next.cmd == if t > u.cmd.tCommandSent + DELAY_COMMAND_TIMEOUT + DELAY_ORDER_DISPLAYED
                        then NO_COMMAND else u.cmd
  {
  }

  /** Up on an idle launcher whose last poll and command are long past sends
      OPEN at once and starts a fresh session. */
  lemma OpenFromIdle(s: Session, now: nat)
    requires Invariant(s) && Idle(s)
    requires s.tGetStatus + DELAY_MIN_BETWEEN_COMMANDS <= now
    requires s.cmd.tCommandSent + DELAY_MIN_BETWEEN_COMMANDS <= now
    ensures var it := Step(s, now, Buttons(false, false, true, false, false), None);
      && it.sent == [CommandFrame(LauncherByte(s.currentLauncher), Open)]
      && it.next.currentLauncher == s.currentLauncher
      && it.next.cmd == CommandState(Open, false, false, 0, now, 0)
  {
  }

  /** Launcher 1 is selected and idle, the operator presses up at T = 10000
      and no ACK ever comes: OPEN goes out at T, T + 1000 and T + 2000, the
      command is failed at T + 3000, still displayed at T + 4000 and cleared
      at the first iteration after that. */
  lemma FailureScenario(s: Session)
    requires Invariant(s) && Idle(s) && s.currentLauncher == 1
    requires s.tGetStatus == 9000 && s.cmd.tCommandSent == 0
    ensures
      var up := Buttons(false, false, true, false, false);
      var open := CommandFrame(1, Open);
      var i1 := Step(s, 10000, up, None);
      var i2 := Step(i1.next, 11000, NO_EDGES, None);
      var i3 := Step(i2.next, 12000, NO_EDGES, None);
      var i4 := Step(i3.next, 13000, NO_EDGES, None);
      var i5 := Step(i4.next, 14000, NO_EDGES, None);
      var i6 := Step(i5.next, 14001, NO_EDGES, None);
      && i1.sent == [open] && i2.sent == [open] && i3.sent == [open]
      && i4.sent == [] && i5.sent == [] && i6.sent == []
      && Pending(i3.next) && i3.next.cmd.currentRepeat == 2
      && StatusLabel(i4.next.cmd.currentCommand, i4.next.cmd.ackReceived, i4.next.cmd.commandFailed) == LABEL_COMMAND_FAILED
      && i5.next.cmd.commandFailed
      && Idle(i6.next) && i6.next.cmd == NO_COMMAND
  {
    var up := Buttons(false, false, true, false, false);
    var i1 := Step(s, 10000, up, None);
    OpenFromIdle(s, 10000);
    StepPreservesInvariant(s, 10000, up, None);
    var i2 := Step(i1.next, 11000, NO_EDGES, None);
    RetransmitsWithoutAck(i1.next, 11000);
    StepPreservesInvariant(i1.next, 11000, NO_EDGES, None);
    var i3 := Step(i2.next, 12000, NO_EDGES, None);
    RetransmitsWithoutAck(i2.next, 12000);
    StepPreservesInvariant(i2.next, 12000, NO_EDGES, None);
    var i4 := Step(i3.next, 13000, NO_EDGES, None);
    FailsWithoutAck(i3.next, 13000);
    StepPreservesInvariant(i3.next, 13000, NO_EDGES, None);
    var i5 := Step(i4.next, 14000, NO_EDGES, None);
    FailureDisplayed(i4.next, 14000);
    StepPreservesInvariant(i4.next, 14000, NO_EDGES, None);
    FailureDisplayed(i5.next, 14001);
  }

  // ---------------------------------------------------------------------
  // Redraws

  /** An iteration that does not ask for a redraw changes nothing but the
      poll timestamp (and the first-iteration flag). */
  lemma QuietIteration(s: Session, now: nat, b: Buttons, rx: Option<RxFrame>)
    requires Invariant(s)
    requires !Step(s, now, b, rx).refresh
    ensures var it := Step(s, now, b, rx);
      it.next == s.(init := false, tGetStatus := it.next.tGetStatus)
  {
    var s0 := s.(init := false);
    var p := Press(s0, now, b);
    PressFacts(s0, now, b);
    var x := Exchange(p.next, p.clock, b.ok, rx);
    ExchangeFacts(p.next, p.clock, b.ok, rx);
    TimersFacts(x.next, p.clock);
  }

  /** Hence the screen is redrawn whenever what it shows changes. */
  lemma RedrawOnViewChange(s: Session, now: nat, b: Buttons, rx: Option<RxFrame>)
    requires Invariant(s)
    requires Render(Step(s, now, b, rx).next) != Render(s)
    ensures Step(s, now, b, rx).refresh
  {
    if !Step(s, now, b, rx).refresh {
      QuietIteration(s, now, b, rx);
    }
  }

  // ---------------------------------------------------------------------
  // Selection

  /** The selection block as written leaves the range when left and right are
      seen in the same iteration on the first launcher. */
  lemma SelectAsWrittenLeavesRange(s: Session)
    requires s.currentLauncher == 0
    ensures SelectAsWritten(s, true, true).next.currentLauncher == -1
  {
  }

  /** The corrected selection differs from the written one only there. */
  lemma SelectAgreesWithAsWritten(s: Session, left: bool, right: bool)
    requires 0 <= s.currentLauncher < N_LAUNCHERS
    requires !(left && right && s.currentLauncher == 0)
    ensures Select(s, left, right) == SelectAsWritten(s, left, right)
  {
  }

}
