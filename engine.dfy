/** The command/telemetry session engine of the remote, as values: the state
    the main loop keeps between iterations, one function per block of the
    loop body, and their composition into one iteration (Step) and a run of
    iterations (Run). The class in remote.dfy is proved to do exactly this. */
module Engine {

  import opened Wrappers
  import opened Protocol

  const N_LAUNCHERS := 3
  const DELAY_MIN_BETWEEN_COMMANDS := 400
  const DELAY_COMMAND_TIMEOUT := 1000
  const N_REPEAT_COMMANDS := 3
  const DELAY_ORDER_DISPLAYED := 1000
  const DELAY_GET_STATUS := 3000
  const DELAY_GET_STATUS_TIMEOUT := 10000
  /** The `Core::sleep(10)` that ends every iteration. */
  const LOOP_PERIOD := 10

  /** Falling edges of the five buttons seen in one iteration. */
  datatype Buttons = Buttons(left: bool, right: bool, up: bool, down: bool, ok: bool)

  /** The command in flight, or the last one until it is cleared.
      Timestamps are milliseconds; 0 means "unset". */
  datatype CommandState = CommandState(
    currentCommand: Command,
    ackReceived: bool,
    commandFailed: bool,
    currentRepeat: int,
    tCommandSent: nat,
    tAckReceived: nat)

  /** The loop's state: the selection, the command session, the status poll
      and the last telemetry received. */
  datatype Session = Session(
    init: bool,
    currentLauncher: int,
    cmd: CommandState,
    tGetStatus: nat,
    tTelem: nat,
    telemAvailable: bool,
    telemetry: Telemetry)

  /** What one block of the loop body produces: the new state, the frames it
      transmitted, and whether it asked for a redraw. */
  datatype Outcome = Outcome(next: Session, sent: seq<seq<Byte>>, refresh: bool)

  /** One whole iteration; `clock` is the time once the session code is done. */
  datatype Iteration = Iteration(next: Session, sent: seq<seq<Byte>>, refresh: bool, clock: nat)

  /** What holds of a command session between any two iterations: only OPEN
      and CLOSE are ever in flight, an acknowledged command never fails, a
      failed one has used up its retransmissions, and an idle session is reset. */
  predicate CommandInvariant(c: CommandState)
  {
    && (c.currentCommand == NoCommand || c.currentCommand == Open || c.currentCommand == Close)
    && 0 <= c.currentRepeat <= N_REPEAT_COMMANDS - 1
    && !(c.ackReceived && c.commandFailed)
    && (c.commandFailed ==> c.currentRepeat == N_REPEAT_COMMANDS - 1)
    && (c.currentCommand == NoCommand ==>
          !c.ackReceived && !c.commandFailed && c.currentRepeat == 0 && c.tAckReceived == 0)
  }

  /** What holds of the state between any two iterations. */
  predicate Invariant(s: Session)
  {
    && 0 <= s.currentLauncher < N_LAUNCHERS
    && CommandInvariant(s.cmd)
    && Encodable(s.telemetry)
  }

  /** The command session once a command is cleared: nothing in flight. */
  const NO_COMMAND := CommandState(NoCommand, false, false, 0, 0, 0)

  /** The state before the first iteration. */
  function Initial(): (s: Session)
    ensures Invariant(s) && Idle(s) && !s.telemAvailable && s.init
  {
    Session(true, 0, NO_COMMAND, 0, 0, false, Telemetry(false, 0, 0, 0))
  }

  predicate Idle(s: Session) { s.cmd.currentCommand == NoCommand }

  /** A command is in flight: neither acknowledged nor failed yet. */
  predicate Pending(s: Session)
  {
    s.cmd.currentCommand != NoCommand && !s.cmd.ackReceived && !s.cmd.commandFailed
  }

  /** The launcher index as `static_cast<uint8_t>` puts it on the wire. */
  function LauncherByte(launcher: int): (b: Byte)
    ensures 0 <= launcher < 256 ==> b == launcher
  {
    launcher % 256
  }

  // ---------------------------------------------------------------------
  // Launcher selection (left / right buttons)

  /** The guard of the selection block: the edge points at an existing launcher. */
  predicate Moves(launcher: int, left: bool, right: bool)
  {
    (left && launcher > 0) || (right && launcher < N_LAUNCHERS - 1)
  }

  /** Everything that belongs to the previously selected launcher is dropped;
      the last telemetry values stay, hidden behind `telemAvailable`. */
  function Reselect(s: Session, launcher: int): (r: Session)
    ensures r.currentLauncher == launcher && Idle(r) && !r.telemAvailable && r.tGetStatus == 0
    ensures r.cmd == NO_COMMAND.(tCommandSent := s.cmd.tCommandSent)
    ensures r.telemetry == s.telemetry && r.tTelem == s.tTelem && r.init == s.init
    ensures Invariant(s) && 0 <= launcher < N_LAUNCHERS ==> Invariant(r)
  {
    s.(currentLauncher := launcher, telemAvailable := false, tGetStatus := 0,
       cmd := s.cmd.(currentCommand := NoCommand, ackReceived := false, commandFailed := false,
                     currentRepeat := 0, tAckReceived := 0))
  }

  /** The selection block as written: once the guard holds, the direction is
      taken from `btnLeft` alone, even when only the right edge satisfied it. */
  function SelectAsWritten(s: Session, left: bool, right: bool): (o: Outcome)
    ensures o.sent == []
    ensures o.refresh <==> Moves(s.currentLauncher, left, right)
    ensures !o.refresh ==> o.next == s
  {
    if Moves(s.currentLauncher, left, right) then
      Outcome(Reselect(s, if left then s.currentLauncher - 1 else s.currentLauncher + 1), [], true)
    else
      Outcome(s, [], false)
  }

  /** The selection block as evidently intended: move left when that is
      possible, otherwise right when that is possible, clamped to the range. */
  function Select(s: Session, left: bool, right: bool): (o: Outcome)
    ensures o.sent == []
    ensures Invariant(s) ==> Invariant(o.next)
    ensures o.refresh <==> Moves(s.currentLauncher, left, right)
    ensures o.refresh <==> o.next.currentLauncher != s.currentLauncher
    ensures 0 <= s.currentLauncher < N_LAUNCHERS ==> 0 <= o.next.currentLauncher < N_LAUNCHERS
    ensures -1 <= o.next.currentLauncher - s.currentLauncher <= 1
    ensures left && s.currentLauncher > 0 ==> o.next.currentLauncher == s.currentLauncher - 1
    ensures !(left && s.currentLauncher > 0) && right && s.currentLauncher < N_LAUNCHERS - 1 ==>
      o.next.currentLauncher == s.currentLauncher + 1
    ensures !o.refresh ==> o.next == s
    ensures o.refresh ==> o.next == Reselect(s, o.next.currentLauncher)
  {
    if left && s.currentLauncher > 0 then
      Outcome(Reselect(s, s.currentLauncher - 1), [], true)
    else if right && s.currentLauncher < N_LAUNCHERS - 1 then
      Outcome(Reselect(s, s.currentLauncher + 1), [], true)
    else
      Outcome(s, [], false)
  }

  // ---------------------------------------------------------------------
  // Command issuance (up / down buttons)

  /** How long `Core::sleep` waits so that DELAY_MIN_BETWEEN_COMMANDS has
      passed since `since`, measured at `t`. A `since` later than `t` makes the
      unsigned difference wrap to a huge value, hence no wait. */
  function Wait(t: nat, since: nat): (w: nat)
    ensures w <= DELAY_MIN_BETWEEN_COMMANDS
    ensures since <= t ==> t + w >= since + DELAY_MIN_BETWEEN_COMMANDS
    ensures w > 0 ==> since <= t < since + DELAY_MIN_BETWEEN_COMMANDS
    ensures w > 0 ==> t + w == since + DELAY_MIN_BETWEEN_COMMANDS
  {
    if since <= t && t - since < DELAY_MIN_BETWEEN_COMMANDS then DELAY_MIN_BETWEEN_COMMANDS - (t - since) else 0
  }

  /** The time at which a user command goes out: both waits are computed from
      the same reading `now`, and they add up. */
  function IssueTime(s: Session, now: nat): (t: nat)
    ensures now <= t <= now + 2 * DELAY_MIN_BETWEEN_COMMANDS
    ensures t == now + Wait(now, s.tGetStatus) + Wait(now, s.cmd.tCommandSent)
    ensures s.tGetStatus <= now ==> t >= s.tGetStatus + DELAY_MIN_BETWEEN_COMMANDS
    ensures s.cmd.tCommandSent <= now ==> t >= s.cmd.tCommandSent + DELAY_MIN_BETWEEN_COMMANDS
  {
    now + Wait(now, s.tGetStatus) + Wait(now, s.cmd.tCommandSent)
  }

  /** The clock once the issuance block is done. */
  function ClockAfterIssue(s: Session, now: nat, up: bool, down: bool): (t: nat)
    ensures t >= now
  {
    if up || down then IssueTime(s, now) else now
  }

  /** Up starts an OPEN, down a CLOSE (up wins when both are pressed). A press
      while another command is in flight restarts the session with the new one. */
  function Issue(s: Session, now: nat, up: bool, down: bool): (o: Outcome)
    ensures Invariant(s) ==> Invariant(o.next)
    ensures o.next.currentLauncher == s.currentLauncher
    ensures !(up || down) ==> o == Outcome(s, [], false)
    ensures up || down ==>
      var c := if up then Open else Close;
      && o.refresh
      && o.sent == [CommandFrame(LauncherByte(s.currentLauncher), c)]
      && o.next.cmd.currentCommand == c && Pending(o.next)
      && o.next.cmd.currentRepeat == 0 && o.next.cmd.tAckReceived == 0
      && o.next.cmd.tCommandSent == IssueTime(s, now)
      && o.next == s.(cmd := o.next.cmd)
  {
    if up || down then
      var c := if up then Open else Close;
      Outcome(s.(cmd := CommandState(c, false, false, 0, IssueTime(s, now), 0)),
              [CommandFrame(LauncherByte(s.currentLauncher), c)], true)
    else
      Outcome(s, [], false)
  }

  // ---------------------------------------------------------------------
  // Status polling

  predicate PollDue(s: Session, t: nat, ok: bool)
  {
    (ok || t >= s.tGetStatus + DELAY_GET_STATUS) && Idle(s)
  }

  /** A GET_STATUS goes out only while no command is in flight, on OK or
      once DELAY_GET_STATUS has passed since the last poll. */
  function Poll(s: Session, t: nat, ok: bool): (o: Outcome)
    ensures Invariant(s) ==> Invariant(o.next)
    ensures o.next.currentLauncher == s.currentLauncher
    ensures !o.refresh
    ensures o.sent != [] <==> PollDue(s, t, ok)
    ensures o.sent != [] ==>
      o.sent == [CommandFrame(LauncherByte(s.currentLauncher), GetStatus)] && o.next == s.(tGetStatus := t)
    ensures o.sent == [] ==> o.next == s
  {
    if PollDue(s, t, ok) then
      Outcome(s.(tGetStatus := t), [CommandFrame(LauncherByte(s.currentLauncher), GetStatus)], false)
    else
      Outcome(s, [], false)
  }

  // ---------------------------------------------------------------------
  // Reception of one frame

  /** An ACK counts only for a command in flight whose code it echoes. */
  predicate AcceptsAck(s: Session, f: seq<Byte>)
  {
    Pending(s) && Classify(f, s.currentLauncher) == AckOf(Code(s.cmd.currentCommand))
  }

  /** Handles at most one received buffer; a frame that is not addressed to
      the selected launcher, or that has neither shape, changes nothing. */
  function Receive(s: Session, t: nat, rx: Option<RxFrame>): (o: Outcome)
    ensures o.sent == []
    ensures Invariant(s) ==> Invariant(o.next)
    ensures o.next.currentLauncher == s.currentLauncher
    ensures !o.refresh ==> o.next == s
    ensures rx.None? ==> !o.refresh
    ensures rx.Some? && !Addressed(rx.value, s.currentLauncher) ==> !o.refresh
    // an ACK is taken exactly when it matches the command in flight
    ensures o.next.cmd.ackReceived != s.cmd.ackReceived <==> rx.Some? && AcceptsAck(s, rx.value)
    ensures rx.Some? && AcceptsAck(s, rx.value) ==>
      && o.next.cmd == s.cmd.(ackReceived := true, tAckReceived := t)
      && (s.cmd.currentCommand == Open ==> o.next.telemetry.hatchOpen)
      && (s.cmd.currentCommand == Close ==> !o.next.telemetry.hatchOpen)
      && o.next == s.(cmd := o.next.cmd, telemetry := s.telemetry.(hatchOpen := o.next.telemetry.hatchOpen))
    // any other frame, addressed or not, is ignored
    ensures rx.Some? && !AcceptsAck(s, rx.value) && !Classify(rx.value, s.currentLauncher).StatusOf? ==>
      o == Outcome(s, [], false)
    // a STATUS overwrites the telemetry and marks it fresh
    ensures rx.Some? && Classify(rx.value, s.currentLauncher).StatusOf? ==>
      o.next == s.(telemetry := Classify(rx.value, s.currentLauncher).telemetry,
                   tTelem := t, telemAvailable := true)
  {
    if rx.None? then Outcome(s, [], false)
    else
      match Classify(rx.value, s.currentLauncher)
      case AckOf(echo) =>
        if Pending(s) && echo == Code(s.cmd.currentCommand) then
          var hatch := if s.cmd.currentCommand == Close then false
                       else if s.cmd.currentCommand == Open then true
                       else s.telemetry.hatchOpen;
          Outcome(s.(telemetry := s.telemetry.(hatchOpen := hatch),
                     cmd := s.cmd.(ackReceived := true, tAckReceived := t)), [], true)
        else
          Outcome(s, [], false)
      case StatusOf(tel) =>
        Outcome(s.(telemetry := tel, tTelem := t, telemAvailable := true), [], true)
      case Unrecognized =>
        Outcome(s, [], false)
  }

  // ---------------------------------------------------------------------
  // Telemetry freshness

  predicate Stale(s: Session, t: nat)
  {
    s.tTelem > 0 && t >= s.tTelem + DELAY_GET_STATUS_TIMEOUT
  }

  /** Telemetry older than DELAY_GET_STATUS_TIMEOUT becomes unavailable; its
      values are kept (the display hides them). */
  function Expire(s: Session, t: nat): (o: Outcome)
    ensures o.sent == []
    ensures Invariant(s) ==> Invariant(o.next)
    ensures o.next.currentLauncher == s.currentLauncher
    ensures o.refresh <==> Stale(s, t)
    ensures o.next.telemetry == s.telemetry
    ensures o.next.telemAvailable <==> s.telemAvailable && !Stale(s, t)
    ensures Stale(s, t) ==> o.next == s.(tTelem := 0, telemAvailable := false)
    ensures !Stale(s, t) ==> o.next == s
  {
    if Stale(s, t) then Outcome(s.(tTelem := 0, telemAvailable := false), [], true)
    else Outcome(s, [], false)
  }

  // ---------------------------------------------------------------------
  // Retransmission and failure

  predicate RetryDue(s: Session, t: nat)
  {
    Pending(s) && s.cmd.tCommandSent > 0 && t >= s.cmd.tCommandSent + DELAY_COMMAND_TIMEOUT
  }

  /** Resends the command in flight after DELAY_COMMAND_TIMEOUT without ACK,
      for N_REPEAT_COMMANDS transmissions in all; then marks it failed. */
  function Retry(s: Session, t: nat): (o: Outcome)
    ensures Invariant(s) ==> Invariant(o.next)
    ensures o.next.currentLauncher == s.currentLauncher
    ensures o.refresh <==> RetryDue(s, t)
    ensures !RetryDue(s, t) ==> o == Outcome(s, [], false)
    ensures RetryDue(s, t) && s.cmd.currentRepeat < N_REPEAT_COMMANDS - 1 ==>
      && o.sent == [CommandFrame(LauncherByte(s.currentLauncher), s.cmd.currentCommand)]
      && o.next.cmd.tCommandSent >= s.cmd.tCommandSent + DELAY_COMMAND_TIMEOUT
      && o.next == s.(cmd := s.cmd.(tCommandSent := t, currentRepeat := s.cmd.currentRepeat + 1))
    ensures RetryDue(s, t) && s.cmd.currentRepeat >= N_REPEAT_COMMANDS - 1 ==>
      o.sent == [] && o.next == s.(cmd := s.cmd.(commandFailed := true))
  {
    if RetryDue(s, t) then
      if s.cmd.currentRepeat < N_REPEAT_COMMANDS - 1 then
        Outcome(s.(cmd := s.cmd.(tCommandSent := t, currentRepeat := s.cmd.currentRepeat + 1)),
                [CommandFrame(LauncherByte(s.currentLauncher), s.cmd.currentCommand)], true)
      else
        Outcome(s.(cmd := s.cmd.(commandFailed := true)), [], true)
    else
      Outcome(s, [], false)
  }

  // ---------------------------------------------------------------------
  // End of the result display hold

  predicate HoldOver(s: Session, t: nat)
  {
    s.cmd.currentCommand != NoCommand &&
    ((s.cmd.ackReceived && t > s.cmd.tAckReceived + DELAY_ORDER_DISPLAYED) ||
     (s.cmd.commandFailed && t > s.cmd.tCommandSent + DELAY_COMMAND_TIMEOUT + DELAY_ORDER_DISPLAYED))
  }

  /** After the display hold an acknowledged or failed command is forgotten. */
  function Clear(s: Session, t: nat): (o: Outcome)
    ensures o.sent == []
    ensures Invariant(s) ==> Invariant(o.next)
    ensures o.next.currentLauncher == s.currentLauncher
    ensures o.refresh <==> HoldOver(s, t)
    ensures Idle(o.next) <==> Idle(s) || HoldOver(s, t)
    ensures HoldOver(s, t) ==> o.next == s.(cmd := NO_COMMAND)
    ensures !HoldOver(s, t) ==> o.next == s
  {
    if HoldOver(s, t) then
      Outcome(s.(cmd := NO_COMMAND), [], true)
    else
      Outcome(s, [], false)
  }

  // ---------------------------------------------------------------------
  // One iteration and a run of iterations

  /** The button blocks: selection, then issuance; `clock` is the time once
      the waits before a user command are over. */
  function Press(s: Session, now: nat, b: Buttons): (it: Iteration)
    ensures it.clock >= now
  {
    var sel := Select(s, b.left, b.right);
    var iss := Issue(sel.next, now, b.up, b.down);
    Iteration(iss.next, iss.sent, sel.refresh || iss.refresh, ClockAfterIssue(sel.next, now, b.up, b.down))
  }

  /** The radio blocks: the status poll, then at most one received frame. */
  function Exchange(s: Session, t: nat, ok: bool, rx: Option<RxFrame>): (o: Outcome)
  {
    var pol := Poll(s, t, ok);
    var rcv := Receive(pol.next, t, rx);
    Outcome(rcv.next, pol.sent, rcv.refresh)
  }

  /** The timer blocks: telemetry expiry, retransmission, end of the display hold. */
  function Timers(s: Session, t: nat): (o: Outcome)
  {
    var exp := Expire(s, t);
    var rty := Retry(exp.next, t);
    var clr := Clear(rty.next, t);
    Outcome(clr.next, rty.sent, exp.refresh || rty.refresh || clr.refresh)
  }

  /** One pass through the loop's session code, in the loop's order, with
      `now` the clock when the pass starts. */
  function Step(s: Session, now: nat, b: Buttons, rx: Option<RxFrame>): (it: Iteration)
    ensures it.clock >= now
  {
    var p := Press(s.(init := false), now, b);
    var x := Exchange(p.next, p.clock, b.ok, rx);
    var z := Timers(x.next, p.clock);
    Iteration(z.next, p.sent + x.sent + z.sent, s.init || p.refresh || x.refresh || z.refresh, p.clock)
  }

  /** What the loop sees in one iteration: the clock, the button edges and
      the frame the radio holds, if any. */
  datatype Stimulus = Stimulus(now: nat, buttons: Buttons, rx: Option<RxFrame>)

  /** Consecutive iterations; the frames are concatenated in order. */
  function Run(s: Session, xs: seq<Stimulus>): (o: Outcome)
    decreases |xs|
  {
    if xs == [] then Outcome(s, [], false)
    else
      var it := Step(s, xs[0].now, xs[0].buttons, xs[0].rx);
      var rest := Run(it.next, xs[1..]);
      Outcome(rest.next, it.sent + rest.sent, it.refresh || rest.refresh)
  }

  // ---------------------------------------------------------------------
  // What the display shows

  const LABEL_COMMAND_OPEN := "Ouverture..."
  const LABEL_COMMAND_CLOSE := "Fermeture..."
  const LABEL_COMMAND_OPEN_ACK := "OUVERTURE !"
  const LABEL_COMMAND_CLOSE_ACK := "FERMETURE !"
  const LABEL_COMMAND_FAILED := "Echec de la commande"
  const LABEL_HINT := "Haut : ouvrir | Bas : fermer"

  /** The status line at the bottom of the screen; empty when nothing is printed. */
  function StatusLabel(c: Command, ack: bool, failed: bool): (line: string)
    ensures line == LABEL_HINT <==> c == NoCommand
    ensures line == LABEL_COMMAND_OPEN_ACK <==> c == Open && ack
    ensures line == LABEL_COMMAND_CLOSE_ACK <==> c == Close && ack
    ensures line == LABEL_COMMAND_FAILED <==> c != NoCommand && !ack && failed
    ensures line == LABEL_COMMAND_OPEN <==> c == Open && !ack && !failed
    ensures line == LABEL_COMMAND_CLOSE <==> c == Close && !ack && !failed
    ensures line == "" <==> c !in {NoCommand, Open, Close} && (ack || !failed)
  {
    if c != NoCommand then
      if ack then
        if c == Open then LABEL_COMMAND_OPEN_ACK
        else if c == Close then LABEL_COMMAND_CLOSE_ACK
        else ""
      else if failed then LABEL_COMMAND_FAILED
      else
        if c == Open then LABEL_COMMAND_OPEN
        else if c == Close then LABEL_COMMAND_CLOSE
        else ""
    else
      LABEL_HINT
  }

  /** Everything the redraw puts on the screen. */
  datatype View = View(launcher: int, canGoLeft: bool, canGoRight: bool,
                       telemetry: Option<Telemetry>, statusLine: string)

  /** The redraw as a value: numbers are shown only while telemetry is available. */
  function Render(s: Session): (v: View)
    ensures v.launcher == s.currentLauncher
    ensures v.statusLine == StatusLabel(s.cmd.currentCommand, s.cmd.ackReceived, s.cmd.commandFailed)
    ensures v.telemetry.Some? <==> s.telemAvailable
    ensures v.telemetry.Some? ==> v.telemetry.value == s.telemetry
    ensures v.canGoLeft <==> Moves(s.currentLauncher, true, false)
    ensures v.canGoRight <==> Moves(s.currentLauncher, false, true)
  {
    View(s.currentLauncher, s.currentLauncher > 0, s.currentLauncher < N_LAUNCHERS - 1,
         if s.telemAvailable then Some(s.telemetry) else None,
         StatusLabel(s.cmd.currentCommand, s.cmd.ackReceived, s.cmd.commandFailed))
  }

}
