# CanSat launcher remote — command and telemetry session

The remote is a hand-held box with five buttons, a small OLED screen and a
LoRa radio. It drives up to three hatch launchers. Its main loop in
`cansat_launcher_remote.cpp` keeps one session with the selected launcher:

- left/right select the launcher and drop the previous one's command session
  and poll time and hide its telemetry; the time of the last command, the
  telemetry values and their timestamp are kept;
- up/down send OPEN or CLOSE after waiting until the launcher is probably
  free to listen;
- a GET_STATUS poll goes out every 3 s (or on OK) while no command is in flight;
- an incoming ACK that echoes the command in flight confirms it, and an
  incoming STATUS installs fresh telemetry;
- telemetry older than 10 s is hidden;
- an unacknowledged command is sent again after 1 s, three transmissions in
  all, and then shown as failed;
- a confirmed or failed command stays on screen for a while and is then
  forgotten.

This project models that session in Dafny and proves its properties.

- `wrappers.dfy` — `Option`.
- `protocol.dfy` (module `Protocol`) — the command codes. It also holds the
  4-byte command frame that `sendCommand` builds and an independent decoder
  for it. It classifies the 5-byte ACK and 10-byte STATUS frames the remote
  receives, and it has the encoders a launcher would use, so that round trips
  can be stated.
- `engine.dfy` (module `Engine`) — the loop's state as a value (`Session`).
  There is one function per block of the loop body: `Select`, `Issue`,
  `Poll`, `Receive`, `Expire`, `Retry`, `Clear`. `Step` composes them in the
  loop's order into one iteration, and `Run` chains iterations. `StatusLabel`
  and `Render` describe what a redraw shows. This is the specification.
- `properties.dfy` (module `EngineProperties`) — what the session
  guarantees. Proved properties include:
  - the state invariant;
  - at most one frame per iteration, always addressed to the selected launcher;
  - the spacing between a user command and earlier traffic;
  - at most three transmissions per user command;
  - ACK and STATUS handling, and frames for other launchers being ignored;
  - telemetry expiry;
  - the whole retry/fail/clear scenario;
  - redraws.
- `remote.dfy` (module `RemoteLoop`) — the loop as it runs. Class `Remote`
  holds the loop's local variables as fields, plus `clock` for what
  `Core::time()` reads. There is one method per block of the loop body. Each
  method is proved to change the fields exactly as the corresponding `Engine`
  function says. `Tick`, one iteration, is proved equal to `Engine.Step` and
  to keep the invariant. `SendCommand` fills the 4-byte buffer the way
  `sendCommand` does.

How time is modelled:

- Time is in milliseconds and 0 means "unset", as in the source.
- The clock moves only through the loop's `Core::sleep` calls: the waits
  before a user command and the 10 ms pause that ends an iteration.
- `Tick` is given the clock reading at the start of the iteration. Every
  later `Core::time()` in that iteration reads the time after the waits.

## Model

| member | source | states |
|---|---|---|
| `Protocol.Code` | cansat_launcher_remote.cpp:15-22 | Every command has a wire code of at most 5, and only NONE has code 0 |
| `Protocol.CommandOf` | cansat_launcher_remote.cpp:15-22 | Reading a code back gives a command exactly for the codes 0..5, and that command's code is the byte read |
| `Protocol.ParseCommandFrame` | cansat_launcher_remote.cpp:372-376 | The launcher-side decoder accepts only 4-byte frames tagged 'C','S' |
| `Protocol.CommandFrameRoundTrip` | cansat_launcher_remote.cpp:372-376 | A command frame is 4 bytes long and decodes to the launcher and command it was built from |
| `Protocol.ParseCommandFrameExact` | cansat_launcher_remote.cpp:372-376 | Any frame the decoder accepts is exactly the frame built from what it decoded, so encoding and decoding are mutually inverse |
| `Protocol.Word` | cansat_launcher_remote.cpp:274-275 | Shifting the high byte left by 8 and or-ing in the low byte gives a 16-bit value whose high and low bytes are those two |
| `Protocol.Classify` | cansat_launcher_remote.cpp:253-281 | A buffer is an ACK exactly when it is tagged 'c','s', addressed to the selected launcher, 5 bytes long with code ACK. It is a STATUS exactly under the same conditions with 10 bytes and code STATUS. Nothing else is recognised. An ACK carries byte 4 as its echo. A STATUS reads any non-zero hatch byte as open, and its decoded telemetry always fits the frame's fields |
| `Protocol.AckFrameRoundTrip` | cansat_launcher_remote.cpp:254-270 | An ACK frame is recognised with its echoed code by the launcher it names and discarded by any other |
| `Protocol.StatusFrameRoundTrip` | cansat_launcher_remote.cpp:272-276 | A STATUS frame decodes to the telemetry it encodes for the launcher it names, and is discarded by any other |
| `Protocol.StatusFrameExact` | cansat_launcher_remote.cpp:272-276 | Re-encoding the telemetry of any recognised STATUS frame reproduces every byte except the hatch byte, and the whole frame when that byte is 0 or 1 |
| `Engine.Initial` | cansat_launcher_remote.cpp:98-128 | The state before the loop satisfies the invariant, has no command in flight, shows no telemetry and asks for a first redraw |
| `Engine.LauncherByte` | cansat_launcher_remote.cpp:374 | The `uint8_t` cast of the launcher index leaves every index 0..255 unchanged |
| `Engine.SelectAsWritten` | cansat_launcher_remote.cpp:190-195 | The selection block as written: it redraws exactly when the guard holds and otherwise changes nothing |
| `Engine.Reselect` | cansat_launcher_remote.cpp:196-202 | Changing launcher leaves no command in flight, hides the telemetry and resets the poll time. It keeps the time of the last command, the telemetry values and their timestamp. The invariant is kept for any index in 0..2 |
| `Engine.Select` | cansat_launcher_remote.cpp:189-204 | Corrected selection. It redraws exactly when the edge points at an existing launcher, and exactly when the selection changes. A left edge moves one launcher down when there is one. Otherwise a right edge moves one up when there is one. The new index stays in 0..2. The new state is `Reselect` of the old one: no command in flight, telemetry hidden, poll time reset, while the time of the last command, the telemetry values and their timestamp are kept. The invariant is kept |
| `Engine.Wait` | cansat_launcher_remote.cpp:211-218 | A wait is at most 400 ms. When there is one, it lasts exactly what is missing to 400 ms after the reference time, so the clock ends at least 400 ms past any reference that is not in the future. There is no wait when the reference lies in the future, because the unsigned difference wraps |
| `Engine.IssueTime` | cansat_launcher_remote.cpp:207-218 | A user command leaves after the sum of both waits, both measured from the same reading. That is between 0 and 800 ms after the button is read, and at least 400 ms after the last GET_STATUS and after the last command |
| `Engine.Issue` | cansat_launcher_remote.cpp:206-236 | Up sends OPEN and down sends CLOSE, as a single frame to the selected launcher. A fresh pending session is started, stamped with the time after the waits. Without either button nothing changes |
| `Engine.Poll` | cansat_launcher_remote.cpp:238-243 | A GET_STATUS frame goes out exactly when no command is in flight and either OK was pressed or 3 s have passed. It stamps the poll time and never redraws |
| `Engine.Receive` | cansat_launcher_remote.cpp:245-282 | An ACK is taken exactly when it echoes the command in flight: it marks the command acknowledged at the current time and sets the hatch to what was asked. A STATUS replaces the telemetry and marks it fresh. Anything else, including a frame for another launcher, changes nothing and does not redraw |
| `Engine.Expire` | cansat_launcher_remote.cpp:283-287 | Telemetry becomes unavailable, with a redraw, exactly when it is 10 s old. The values themselves are kept |
| `Engine.Retry` | cansat_launcher_remote.cpp:289-301 | A command in flight for at least 1 s is resent, with the counter bumped and the time restamped, until three transmissions are used up. After that it is marked failed without a frame. Otherwise nothing changes |
| `Engine.Clear` | cansat_launcher_remote.cpp:303-313 | An acknowledged command (after 1 s) or a failed one (after 2 s) is forgotten with a redraw, exactly then, leaving no command in flight |
| `Engine.StatusLabel` | cansat_launcher_remote.cpp:344-362 | The bottom line is the hint exactly when idle. It shows the OPEN/CLOSE confirmation exactly when acknowledged, the failure message exactly when failed, and the progress message exactly while pending |
| `Engine.Render` | cansat_launcher_remote.cpp:315-362 | The view shows the selected launcher and the status line of `StatusLabel`. Telemetry is shown exactly when available, with the stored values. The arrows show exactly when the selection can move that way |
| `EngineProperties.StepPreservesInvariant` | cansat_launcher_remote.cpp:131-313 | After every iteration the launcher index stays in 0..2. Only OPEN or CLOSE is ever in flight. An acknowledged command is never failed, a failed one has used all its retries, an idle session is reset, and telemetry fits its frame fields |
| `EngineProperties.RunPreservesInvariant` | cansat_launcher_remote.cpp:131-369 | The invariant holds after any number of iterations |
| `EngineProperties.RunKeepsSelection` | cansat_launcher_remote.cpp:189-204 | The selected launcher, which indexes the names table, is always one of the three |
| `EngineProperties.StepNotAfter` | cansat_launcher_remote.cpp:206-311 | No timestamp kept by the session is ever ahead of the clock, so the unsigned differences the loop computes never wrap |
| `EngineProperties.WaitsAdd` | cansat_launcher_remote.cpp:210-218 | With the last poll and the last command both 100 ms back, the command leaves 600 ms later, not 300: the two sleeps add |
| `EngineProperties.StepKeepsValid` | cansat_launcher_remote.cpp:131-368 | The invariant and the ordering of timestamps and clock both survive an iteration and its final pause |
| `EngineProperties.StepFrame` | cansat_launcher_remote.cpp:206-301 | An iteration transmits nothing, a GET_STATUS, an OPEN or a CLOSE, always to the launcher selected at its end |
| `EngineProperties.StepSendsOneFrameAtMost` | cansat_launcher_remote.cpp:206-301 | An iteration transmits at most one frame. A launcher decodes it as addressed to the selected launcher and carrying GET_STATUS, OPEN or CLOSE |
| `EngineProperties.PressedIteration` | cansat_launcher_remote.cpp:206-243 | In an iteration where up or down is pressed, the command frame is the only transmission: no poll and no retransmission follows it |
| `EngineProperties.UserCommandSpacing` | cansat_launcher_remote.cpp:206-236 | A user command goes out at least 400 ms after the previous command, and at least 400 ms after the last poll of the same launcher. It is delayed by no more than 800 ms and its send time is recorded |
| `EngineProperties.OpenFromIdle` | cansat_launcher_remote.cpp:206-236 | Pressing up when the channel is quiet sends OPEN at once and opens a fresh pending session |
| `EngineProperties.ForeignFrameIgnored` | cansat_launcher_remote.cpp:253-256 | A frame not addressed to the launcher selected in that iteration has no effect at all on the iteration |
| `EngineProperties.ForeignAckExample` | cansat_launcher_remote.cpp:253-256 | An ACK from launcher index 2 is ignored while launcher index 1 waits for its OPEN confirmation |
| `EngineProperties.ExchangeIgnoresForeign` | cansat_launcher_remote.cpp:253-256 | The poll and receive blocks treat a frame for another launcher as if nothing had been received |
| `EngineProperties.AckAcceptedOnce` | cansat_launcher_remote.cpp:258-270 | Once a command is acknowledged, any further ACK is ignored |
| `EngineProperties.MismatchedAckIgnored` | cansat_launcher_remote.cpp:258-261 | An ACK echoing a different command than the one in flight changes nothing |
| `EngineProperties.StatusInstallsTelemetry` | cansat_launcher_remote.cpp:272-279 | A STATUS frame from the selected launcher installs exactly the telemetry it encodes, fresh as of now |
| `EngineProperties.StatusExample` | cansat_launcher_remote.cpp:272-279 | A concrete STATUS frame decodes to hatch open, altitude 100, temperature 200 and battery 50 |
| `EngineProperties.TelemetryFreshness` | cansat_launcher_remote.cpp:283-287 | Over a quiet iteration, telemetry stays available exactly while it is younger than 10 s |
| `EngineProperties.TimersTelemetry` | cansat_launcher_remote.cpp:283-287 | The timer blocks never alter telemetry values; they only hide stale ones |
| `EngineProperties.TelemetryRecovers` | cansat_launcher_remote.cpp:245-287 | A STATUS received in any state makes telemetry available again with exactly its values |
| `EngineProperties.StepSpendsBudget` | cansat_launcher_remote.cpp:289-301 | Without up/down, every transmission of OPEN or CLOSE in an iteration uses up one of the retransmissions left |
| `EngineProperties.RunSpendsBudget` | cansat_launcher_remote.cpp:289-301 | Over any run without up/down, the remote sends no more commands than the retransmissions left at the start |
| `EngineProperties.AtMostThreeTransmissions` | cansat_launcher_remote.cpp:289-301 | One press of up or down leads to at most three OPEN/CLOSE transmissions, however long the buttons stay untouched |
| `EngineProperties.RetransmitsWithoutAck` | cansat_launcher_remote.cpp:289-296 | After 1 s without ACK, the command is resent with the counter bumped and the time restamped |
| `EngineProperties.FailsWithoutAck` | cansat_launcher_remote.cpp:297-313 | After the third transmission times out, the command is marked failed without a frame. When that iteration comes more than 2 s after the last transmission, the command is also forgotten in the same iteration |
| `EngineProperties.FailureDisplayed` | cansat_launcher_remote.cpp:303-313 | A failed command stays, unchanged and silent, until 2 s after its last transmission, and is then forgotten |
| `EngineProperties.FailureScenario` | cansat_launcher_remote.cpp:206-313 | Up at 10 s with no answer gives OPEN at 10, 11 and 12 s, then "Echec de la commande" at 13 s, still failed at 14 s, and idle again at 14.001 s |
| `EngineProperties.QuietIteration` | cansat_launcher_remote.cpp:131-313 | An iteration that does not redraw changes nothing but the poll timestamp |
| `EngineProperties.RedrawOnViewChange` | cansat_launcher_remote.cpp:315-362 | Whenever an iteration changes what the screen would show, it asks for a redraw |
| `EngineProperties.SelectAsWrittenLeavesRange` | cansat_launcher_remote.cpp:190-195 | As written, left and right together on the first launcher select index -1 |
| `EngineProperties.SelectAgreesWithAsWritten` | cansat_launcher_remote.cpp:190-204 | The corrected selection differs from the written one only for left and right together on the first launcher |
| `RemoteLoop.SendCommand` | cansat_launcher_remote.cpp:372-376 | The buffer handed to the radio is the command frame for the launcher's byte, and a launcher decodes it back to that launcher and command |
| `RemoteLoop.Remote.constructor` | cansat_launcher_remote.cpp:98-128 | The variables start as the initial session, which is valid |
| `RemoteLoop.Remote.ForgetSession` | cansat_launcher_remote.cpp:196-202 | The fields become the reselected session |
| `RemoteLoop.Remote.SelectLauncher` | cansat_launcher_remote.cpp:189-204 | The fields and the redraw flag become what `Engine.Select` gives, and the clock is untouched |
| `RemoteLoop.Remote.WaitForChannel` | cansat_launcher_remote.cpp:207-218 | The two sleeps move the clock to `Engine.IssueTime` and change no variable |
| `RemoteLoop.Remote.StartCommand` | cansat_launcher_remote.cpp:224-234 | The fields become a fresh pending session for the command, stamped now |
| `RemoteLoop.Remote.IssueCommand` | cansat_launcher_remote.cpp:206-236 | The fields, the frames sent, the redraw flag and the clock after the waits are those of `Engine.Issue` |
| `RemoteLoop.Remote.PollStatus` | cansat_launcher_remote.cpp:238-243 | The fields and frames sent are those of `Engine.Poll` |
| `RemoteLoop.Remote.AcceptAck` | cansat_launcher_remote.cpp:262-269 | The hatch takes the commanded position, and the command is marked acknowledged now |
| `RemoteLoop.Remote.StoreStatus` | cansat_launcher_remote.cpp:273-279 | The telemetry fields take the decoded hatch byte, the two big-endian words and the battery byte, fresh as of now |
| `RemoteLoop.Remote.ReceiveFrame` | cansat_launcher_remote.cpp:245-282 | The fields and redraw flag become those of `Engine.Receive` |
| `RemoteLoop.Remote.ExpireTelemetry` | cansat_launcher_remote.cpp:283-287 | The fields and redraw flag become those of `Engine.Expire` |
| `RemoteLoop.Remote.RetryCommand` | cansat_launcher_remote.cpp:289-301 | The fields, frames sent and redraw flag become those of `Engine.Retry` |
| `RemoteLoop.Remote.ClearCommand` | cansat_launcher_remote.cpp:303-313 | The fields and redraw flag become those of `Engine.Clear` |
| `RemoteLoop.Remote.HandleButtons` | cansat_launcher_remote.cpp:189-236 | Selection followed by issuance behaves as `Engine.Press` |
| `RemoteLoop.Remote.HandleRadio` | cansat_launcher_remote.cpp:238-282 | Polling followed by reception behaves as `Engine.Exchange` |
| `RemoteLoop.Remote.HandleTimers` | cansat_launcher_remote.cpp:283-313 | Expiry, retransmission and clearing behave as `Engine.Timers` |
| `RemoteLoop.Remote.Tick` | cansat_launcher_remote.cpp:131-368 | One iteration sends the frames, asks for the redraw and leaves the variables exactly as `Engine.Step` says. It ends 10 ms later and keeps the invariant and the timestamp ordering, so all the `EngineProperties` results apply to the running loop |

## Left out

- The power button and shutdown sequence (lines 140-173) and the power LED (175-180): they do not touch the session.
- Hardware setup (38-96): clocks, SPI, OLED and LoRa configuration, and the error handlers (379 on). They are driver calls outside the session logic.
- Drawing on the OLED (315-363) is reduced to its content, `Engine.Render`: launcher, arrows, telemetry values and the status line. Fonts, positions, the splitting of altitude and temperature into whole and tenths, and the launcher names table are not modelled.
- `LoRa::rx` is represented by the buffer it fills, at most 10 bytes, given to `Tick` as an `Option`. A packet longer than the buffer and the driver's own behaviour are not part of this model. `LoRa::tx` is represented by the frames an iteration returns, in order.
- `Core::time()` is a field that advances only through the modelled sleeps, and each iteration receives its starting time as a parameter. The time the code itself takes to run, and so the small differences between successive `Core::time()` reads in one iteration, is not modelled.
- `Core::Time` wraps around after 2^32 ms (about 49 days). Timestamps here are unbounded naturals. `EngineProperties.StepNotAfter` shows that before the wrap no timestamp is ahead of the clock, so the unsigned subtractions at lines 211 and 215 never wrap. What happens after the clock itself wraps is not modelled.
- `RemoteLoop.Remote.Tick` requires the time it is given to be no earlier than the clock, as a monotonic `Core::time()` guarantees.
- `Engine.Step`, `Engine.Press`, `Engine.Exchange`, `Engine.Timers` and `Engine.Run` are the specification of the iteration. Their own contracts only bound the clock; what they guarantee is stated by the `EngineProperties` lemmas in the table.
- The loop runs the corrected selection (`Engine.Select`), not the one as written; see Findings.

## Findings

| source | as written | input that shows it | evidently intended | confidence | as-written member | corrected member |
|---|---|---|---|---|---|---|
| cansat_launcher_remote.cpp:190-195 | Once the guard holds, the direction comes from `btnLeft` alone, even when only the right-hand condition made the guard true | Left and right edges in the same iteration while launcher 0 is selected: the guard holds through the right button and the body decrements to -1. The screen then indexes `LAUNCHERS_NAMES[-1]` at line 319, and -1 is sent as launcher byte 255 | Move left only when that is possible, otherwise move right, so the index stays in 0..2 | not executed | `EngineProperties.SelectAsWrittenLeavesRange` | `Engine.Select` |
