/** The main loop of the remote as it runs: the loop's variables as the fields
    of one object, one method per block of the loop body, and one iteration
    (Tick) proved to do exactly what Engine.Step describes. */
module RemoteLoop {

  import opened Wrappers
  import opened Protocol
  import opened Engine
  import opened EngineProperties

  /** `sendCommand`: fills the 4-byte buffer handed to the radio. The launcher
      index is narrowed to a byte the way `static_cast<uint8_t>` does. */
  method SendCommand(currentLauncher: int, command: Command) returns (frame: seq<Byte>)
    ensures frame == CommandFrame(LauncherByte(currentLauncher), command)
    ensures ParseCommandFrame(frame) == Some((LauncherByte(currentLauncher), command))
  {
    var buffer := new Byte[COMMAND_FRAME_SIZE];
    buffer[0] := TAG_OUT_0;
    buffer[1] := TAG_OUT_1;
    buffer[2] := LauncherByte(currentLauncher);
    buffer[3] := Code(command);
    frame := buffer[..];
    CommandFrameRoundTrip(LauncherByte(currentLauncher), command);
  }

  class Remote {
    var init: bool
    var currentLauncher: int
    var currentCommand: Command
    var ackReceived: bool
    var commandFailed: bool
    var currentRepeat: int
    var tCommandSent: nat
    var tAckReceived: nat
    var tGetStatus: nat
    var tTelem: nat
    var telemAvailable: bool
    var hatchOpen: bool
    var altitude: int
    var temperature: int
    var batteryPercent: int
    /** What `Core::time()` reads, in milliseconds. */
    var clock: nat

    /** The loop's variables as a Session value. */
    function Snapshot(): Session
      reads this
    {
      Session(init, currentLauncher,
              CommandState(currentCommand, ackReceived, commandFailed, currentRepeat, tCommandSent, tAckReceived),
              tGetStatus, tTelem, telemAvailable,
              Telemetry(hatchOpen, altitude, temperature, batteryPercent))
    }

    /** The session invariant holds and no timestamp is ahead of the clock. */
    ghost predicate Valid()
      reads this
    {
      Invariant(Snapshot()) && NotAfter(Snapshot(), clock)
    }

    /** The state set up before the loop starts, at time `start`. */
    constructor(start: nat)
      ensures Snapshot() == Initial() && clock == start
      ensures Valid()
    {
      init := true;
      currentLauncher := 0;
      tCommandSent := 0;
      tAckReceived := 0;
      currentCommand := NoCommand;
      ackReceived := false;
      commandFailed := false;
      currentRepeat := 0;
      tTelem := 0;
      telemAvailable := false;
      hatchOpen := false;
      altitude := 0;
      temperature := 0;
      batteryPercent := 0;
      tGetStatus := 0;
      clock := start;
    }

    /** Forgets the command session and the telemetry of the launcher that
        was selected before `currentLauncher`. The time of the last command
        is kept: it still spaces the next command. */
    method ForgetSession()
      modifies this
      ensures Snapshot() == Reselect(old(Snapshot()), old(currentLauncher))
      ensures clock == old(clock)
    {
      telemAvailable := false;
      tGetStatus := 0;
      currentCommand := NoCommand;
      ackReceived := false;
      commandFailed := false;
      currentRepeat := 0;
      tAckReceived := 0;
    }

    /** Left and right: select the launcher, forgetting the previous one's
        command session and telemetry. */
    method SelectLauncher(btnLeft: bool, btnRight: bool) returns (refresh: bool)
      modifies this
      ensures Snapshot() == Select(old(Snapshot()), btnLeft, btnRight).next
      ensures refresh == Select(old(Snapshot()), btnLeft, btnRight).refresh
      ensures clock == old(clock)
    {
      refresh := false;
      if (btnLeft && currentLauncher > 0) || (btnRight && currentLauncher < N_LAUNCHERS - 1) {
        if btnLeft && currentLauncher > 0 {
          currentLauncher := currentLauncher - 1;
        } else {
          currentLauncher := currentLauncher + 1;
        }
        ForgetSession();
        refresh := true;
      }
    }

    /** The two waits before a command: at least DELAY_MIN_BETWEEN_COMMANDS
        after the last GET_STATUS and after the last command, both measured
        from the same reading of the clock. */
    method WaitForChannel()
      modifies this
      ensures Snapshot() == old(Snapshot())
      ensures clock == IssueTime(old(Snapshot()), old(clock))
    {
      var t := clock;
      // unsigned differences: a timestamp ahead of t wraps to a huge value
      if tGetStatus <= t && t - tGetStatus < DELAY_MIN_BETWEEN_COMMANDS {
        clock := clock + (DELAY_MIN_BETWEEN_COMMANDS - (t - tGetStatus));
      }
      if tCommandSent <= t && t - tCommandSent < DELAY_MIN_BETWEEN_COMMANDS {
        clock := clock + (DELAY_MIN_BETWEEN_COMMANDS - (t - tCommandSent));
      }
    }

    /** Opens a new command session for `c`, sent now. */
    method StartCommand(c: Command)
      modifies this
      ensures Snapshot() == old(Snapshot()).(cmd := CommandState(c, false, false, 0, old(clock), 0))
      ensures clock == old(clock)
    {
      currentCommand := c;
      tCommandSent := clock;
      ackReceived := false;
      commandFailed := false;
      currentRepeat := 0;
      tAckReceived := 0;
    }

    /** Up and down: wait until the launcher is likely free, then send OPEN
        or CLOSE and start a new command session. */
    method IssueCommand(btnUp: bool, btnDown: bool) returns (sent: seq<seq<Byte>>, refresh: bool)
      modifies this
      ensures Snapshot() == Issue(old(Snapshot()), old(clock), btnUp, btnDown).next
      ensures sent == Issue(old(Snapshot()), old(clock), btnUp, btnDown).sent
      ensures refresh == Issue(old(Snapshot()), old(clock), btnUp, btnDown).refresh
      ensures clock == ClockAfterIssue(old(Snapshot()), old(clock), btnUp, btnDown)
    {
      sent := [];
      refresh := false;
      if btnUp || btnDown {
        WaitForChannel();
        var c := if btnUp then Open else Close;
        var frame := SendCommand(currentLauncher, c);
        sent := [frame];
        StartCommand(c);
        refresh := true;
      }
    }

    /** Asks for the launcher's status while no command is in flight. */
    method PollStatus(btnOk: bool) returns (sent: seq<seq<Byte>>)
      modifies this
      ensures Snapshot() == Poll(old(Snapshot()), old(clock), btnOk).next
      ensures sent == Poll(old(Snapshot()), old(clock), btnOk).sent
      ensures clock == old(clock)
    {
      sent := [];
      var t := clock;
      if (btnOk || t >= tGetStatus + DELAY_GET_STATUS) && currentCommand == NoCommand {
        var frame := SendCommand(currentLauncher, GetStatus);
        sent := [frame];
        tGetStatus := t;
      }
    }

    /** Records the ACK of the command in flight: the hatch takes the
        position the command asked for. */
    method AcceptAck()
      modifies this
      ensures Snapshot() == old(Snapshot()).(
        telemetry := old(Snapshot()).telemetry.(
          hatchOpen := if old(currentCommand) == Close then false
                       else if old(currentCommand) == Open then true
                       else old(hatchOpen)),
        cmd := old(Snapshot()).cmd.(ackReceived := true, tAckReceived := old(clock)))
      ensures clock == old(clock)
    {
      if currentCommand == Close {
        hatchOpen := false;
      } else if currentCommand == Open {
        hatchOpen := true;
      }
      ackReceived := true;
      tAckReceived := clock;
    }

    /** Installs the telemetry of a STATUS frame: hatch byte, two big-endian
        words and the battery byte, marked fresh as of now. */
    method StoreStatus(rxBuffer: RxFrame)
      requires |rxBuffer| == STATUS_FRAME_SIZE
      modifies this
      ensures Snapshot() == old(Snapshot()).(
        telemetry := Telemetry(rxBuffer[4] != 0, Word(rxBuffer[5], rxBuffer[6]),
                               Word(rxBuffer[7], rxBuffer[8]), rxBuffer[9]),
        tTelem := old(clock), telemAvailable := true)
      ensures clock == old(clock)
    {
      hatchOpen := rxBuffer[4] != 0;
      altitude := (rxBuffer[5] as int) * 256 + rxBuffer[6] as int;
      temperature := (rxBuffer[7] as int) * 256 + rxBuffer[8] as int;
      batteryPercent := rxBuffer[9];
      tTelem := clock;
      telemAvailable := true;
    }

    /** Handles the buffer the radio holds, if any: an ACK of the command in
        flight, or a STATUS with fresh telemetry. */
    method ReceiveFrame(rx: Option<RxFrame>) returns (refresh: bool)
      modifies this
      ensures Snapshot() == Receive(old(Snapshot()), old(clock), rx).next
      ensures refresh == Receive(old(Snapshot()), old(clock), rx).refresh
      ensures clock == old(clock)
    {
      refresh := false;
      var t := clock;
      if rx.Some? {
        var rxBuffer := rx.value;
        if |rxBuffer| >= 4 && rxBuffer[0] == TAG_IN_0 && rxBuffer[1] == TAG_IN_1
           && rxBuffer[2] == currentLauncher {
          var command := rxBuffer[3];
          if |rxBuffer| == ACK_FRAME_SIZE && command == Code(Ack) && currentCommand != NoCommand
             && !ackReceived && !commandFailed {
            var command2 := rxBuffer[4];
            if command2 == Code(currentCommand) {
              AcceptAck();
              refresh := true;
            }
          } else if |rxBuffer| == STATUS_FRAME_SIZE && command == Code(Status) {
            StoreStatus(rxBuffer);
            refresh := true;
          }
        }
      }
    }

    /** Hides telemetry older than DELAY_GET_STATUS_TIMEOUT. */
    method ExpireTelemetry() returns (refresh: bool)
      modifies this
      ensures Snapshot() == Expire(old(Snapshot()), old(clock)).next
      ensures refresh == Expire(old(Snapshot()), old(clock)).refresh
      ensures clock == old(clock)
    {
      refresh := false;
      if tTelem > 0 && clock >= tTelem + DELAY_GET_STATUS_TIMEOUT {
        tTelem := 0;
        telemAvailable := false;
        refresh := true;
      }
    }

    /** Resends a command that was not acknowledged in time, or gives up. */
    method RetryCommand() returns (sent: seq<seq<Byte>>, refresh: bool)
      modifies this
      ensures Snapshot() == Retry(old(Snapshot()), old(clock)).next
      ensures sent == Retry(old(Snapshot()), old(clock)).sent
      ensures refresh == Retry(old(Snapshot()), old(clock)).refresh
      ensures clock == old(clock)
    {
      sent := [];
      refresh := false;
      var t := clock;
      if currentCommand != NoCommand && !ackReceived && !commandFailed && tCommandSent > 0
         && t >= tCommandSent + DELAY_COMMAND_TIMEOUT {
        if currentRepeat < N_REPEAT_COMMANDS - 1 {
          var frame := SendCommand(currentLauncher, currentCommand);
          sent := [frame];
          tCommandSent := t;
          currentRepeat := currentRepeat + 1;
          refresh := true;
        } else {
          commandFailed := true;
          refresh := true;
        }
      }
    }

    /** Forgets an acknowledged or failed command once it has been displayed
        for DELAY_ORDER_DISPLAYED. */
    method ClearCommand() returns (refresh: bool)
      modifies this
      ensures Snapshot() == Clear(old(Snapshot()), old(clock)).next
      ensures refresh == Clear(old(Snapshot()), old(clock)).refresh
      ensures clock == old(clock)
    {
      refresh := false;
      var t := clock;
      if currentCommand != NoCommand
         && ((ackReceived && t > tAckReceived + DELAY_ORDER_DISPLAYED)
             || (commandFailed && t > tCommandSent + DELAY_COMMAND_TIMEOUT + DELAY_ORDER_DISPLAYED)) {
        currentCommand := NoCommand;
        ackReceived := false;
        commandFailed := false;
        tCommandSent := 0;
        currentRepeat := 0;
        tAckReceived := 0;
        refresh := true;
      }
    }

    /** The button blocks of one iteration: selection, then issuance. */
    method HandleButtons(buttons: Buttons) returns (sent: seq<seq<Byte>>, refresh: bool)
      modifies this
      ensures Snapshot() == Press(old(Snapshot()), old(clock), buttons).next
      ensures sent == Press(old(Snapshot()), old(clock), buttons).sent
      ensures refresh == Press(old(Snapshot()), old(clock), buttons).refresh
      ensures clock == Press(old(Snapshot()), old(clock), buttons).clock
    {
      var moved := SelectLauncher(buttons.left, buttons.right);
      var issued;
      sent, issued := IssueCommand(buttons.up, buttons.down);
      refresh := moved || issued;
    }

    /** The radio blocks of one iteration: status poll, then reception. */
    method HandleRadio(btnOk: bool, rx: Option<RxFrame>) returns (sent: seq<seq<Byte>>, refresh: bool)
      modifies this
      ensures Snapshot() == Exchange(old(Snapshot()), old(clock), btnOk, rx).next
      ensures sent == Exchange(old(Snapshot()), old(clock), btnOk, rx).sent
      ensures refresh == Exchange(old(Snapshot()), old(clock), btnOk, rx).refresh
      ensures clock == old(clock)
    {
      sent := PollStatus(btnOk);
      refresh := ReceiveFrame(rx);
    }

    /** The timer blocks of one iteration: expiry, retransmission, clearing. */
    method HandleTimers() returns (sent: seq<seq<Byte>>, refresh: bool)
      modifies this
      ensures Snapshot() == Timers(old(Snapshot()), old(clock)).next
      ensures sent == Timers(old(Snapshot()), old(clock)).sent
      ensures refresh == Timers(old(Snapshot()), old(clock)).refresh
      ensures clock == old(clock)
    {
      var expired := ExpireTelemetry();
      var retried;
      sent, retried := RetryCommand();
      var cleared := ClearCommand();
      refresh := expired || retried || cleared;
    }

    /** One pass through the loop's session code, starting when the clock
        reads `now`: the frames it transmits, whether it redraws, and the new
        state are those of Step, and the loop's final 10 ms pause follows. */
    method Tick(now: nat, buttons: Buttons, rx: Option<RxFrame>) returns (sent: seq<seq<Byte>>, refresh: bool)
      requires Valid() && now >= clock
      modifies this
      ensures Snapshot() == Step(old(Snapshot()), now, buttons, rx).next
      ensures sent == Step(old(Snapshot()), now, buttons, rx).sent
      ensures refresh == Step(old(Snapshot()), now, buttons, rx).refresh
      ensures clock == Step(old(Snapshot()), now, buttons, rx).clock + LOOP_PERIOD
      ensures Valid()
    {
      ghost var s := Snapshot();
      ghost var it := Step(s, now, buttons, rx);
      StepKeepsValid(s, now, buttons, rx);
      clock := now;
      refresh := false;
      if init {
        refresh := true;
        init := false;
      }
      ghost var s0 := s.(init := false);
      assert Snapshot() == s0;
      var f1, r1 := HandleButtons(buttons);
      ghost var p := Press(s0, now, buttons);
      var f2, r2 := HandleRadio(buttons.ok, rx);
      ghost var x := Exchange(p.next, p.clock, buttons.ok, rx);
      var f3, r3 := HandleTimers();
      ghost var z := Timers(x.next, p.clock);
      assert it == Iteration(z.next, p.sent + x.sent + z.sent, s.init || p.refresh || x.refresh || z.refresh, p.clock);
      sent := f1 + f2 + f3;
      refresh := refresh || r1 || r2 || r3;
      clock := clock + LOOP_PERIOD;
      assert Snapshot() == it.next;
    }
  }

}
