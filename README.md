# idasen in Dafny

A model of the `idasen` Python library and its command-line helpers. The
library controls an IKEA IDÅSEN standing desk (a Linak controller) over
Bluetooth Low Energy. The model covers:

- the telemetry codec: a 4-byte frame is little-endian unsigned 16-bit height
  plus signed 16-bit speed, in units of 1/10000 m above 0.62 m and
  1/10000 m/s; a target height is packed back as a truncated unsigned 16-bit
  counter;
- the `IdasenDesk` state machine: connect with retries, wakeup, move up or
  down, move to a target with its running write loop, stop, the height and
  speed reads, and the monitor subscription with its jitter-filtering
  listener;
- the CLI helpers: verbosity to log level, subcommand dispatch, the
  configuration schema and `load_config`, `from_config`, and the read,
  compare and print loop of the `monitor` subcommand.

Layout:

- `errors.dfy` holds the exceptions and the result wrappers.
- `codec.dfy` holds the frame codec.
- `transport.dfy` holds the BLE client, reduced to a value `Link`:
  - a script of connect outcomes;
  - a set of write positions that fail;
  - a script of frames for reads, where a read past its end raises;
  - the GATT services;
  - a log of the writes that succeeded.
- `telemetry.dfy` holds the monitor listener, as the class `OutputListener`,
  and its dispatch rule.
- `desk.dfy` holds the class `IdasenDesk`. Its methods update the link, the
  `moving` flag, the move task, the log and the recorded sleeps.
  - `Connect` and `DoMove` hold loops. Each is proved equal to a
    specification function: `ConnectFrom` for `Connect`, and `DoMoveSpec`,
    built on `RefLoop`, for `DoMove`. The properties of connecting and
    moving are lemmas about those functions.
  - `Wakeup`, `SendStop` and the `Get*` reads are specified through the
    transport functions `WriteInOrder`, `WriteTogether` and `ReadReading`.
  - `MoveUp`, `MoveDown`, `MoveToTarget`, `Stop` and `Monitor` have direct
    contracts on the old and new state.
- `cli.dfy` holds the CLI helpers, the class `Namespace` for the parsed
  arguments, and the monitor subcommand loop.

Heights and speeds are kept as their integer counters. Meters are exact reals
`c/10000 + 0.62`. The float comparisons of the source (`current_height ==
target`, `speed == 0`) become comparisons of these exact values.

Concurrency is modelled as follows. `move_to_target` takes a parameter
`stopDuring`. `Some(n)` means a concurrent `stop()` clears `_moving` while
the n-th iteration of the write loop sleeps. The rest of that `stop()` is
a later call of `Stop`, shown by `StopDuringMove`.

Some behaviour is modelled as the source has it:

- `move_to_target` has no `try/finally`. It clears the flag only when the
  move ended normally. A move that raised leaves the flag as it was: set,
  unless a concurrent `stop()` cleared it.
- A later `stop()` awaits the crashed task, so it re-raises that task's
  exception and sends no stop commands.
- voluptuous accepts a bool where a number is expected, because a Python
  bool is an int. So `stand_height: true` passes the schema as 1 m.

## Model

| member | source | states |
|---|---|---|
| Codec.HeightOf | idasen/__init__.py:41 | A height counter is c/10000 m above MIN_HEIGHT (0.62 m). |
| Codec.SpeedOf | idasen/__init__.py:42 | A speed counter is s/10000 m/s. |
| Codec.U16 | idasen/__init__.py:40 | The `<H` field: the low byte plus 256 times the high byte. |
| Codec.S16 | idasen/__init__.py:40 | The `<h` field: the same two bytes read as a two's-complement value, so 0x8000 and above are negative. |
| Codec.BytesToMetersAndSpeed | idasen/__init__.py:32-44 | A frame decodes exactly when it is 4 bytes long, and otherwise raises with its length. The height counter is bytes 0-1 read as unsigned 16-bit little-endian, and the speed counter is bytes 2-3 read as signed 16-bit. |
| Codec.DecodedFrame | idasen/__init__.py:39-43 | No bytes are lost in decoding: re-packing the decoded counters gives back the exact frame. |
| Codec.PackU16 | idasen/__init__.py:50 | `struct.pack("<H")` gives two bytes that unpack to the same counter. |
| Codec.PackS16 | idasen/__init__.py:40 | The signed 16-bit form, in two's complement, unpacks to the same value. |
| Codec.UnpackPack | idasen/__init__.py:40 | Packing what two bytes unpack to gives back those two bytes, in both the unsigned and the signed form. |
| Codec.DecodeFrame | idasen/__init__.py:32-44 | Decoding the frame of any pair of 16-bit counters gives back that pair. |
| Codec.DecodeTestVectors | tests/test_idasen.py:123-133 | `64 19` decodes to 1.27 m (MAX_HEIGHT) and `00 00` to 0.62 m (MIN_HEIGHT). `51 04` decodes to 0.7305 m and `08 08` to 0.8256 m. Speed bytes `02 01` decode to 0.0258 m/s, and `FF FF` to counter -1. |
| Codec.Trunc | idasen/__init__.py:49 | `int()` truncates toward zero: the result lies within 1 of its argument, on the side nearer zero. |
| Codec.TargetCounter | idasen/__init__.py:49 | The counter for a height: (meters - 0.62) * 10000, truncated toward zero. |
| Codec.MetersToBytes | idasen/__init__.py:47-50 | The result is the little-endian packing of the truncated counter. A counter outside 0..65535 raises `struct.error`. |
| Codec.EncodeInRange | idasen/__init__.py:47-50 | Every height in [0.62, 1.27] encodes to a counter in 0..6500. That counter is the grid point at or just below the height. |
| Codec.EncodeDecodeGrid | idasen/__init__.py:32-50 | Encoding the height of every grid counter 0..6500 and decoding the two bytes, with any speed bytes after them, returns that counter. |
| Transport.Connect | idasen/__init__.py:156 | `client.connect()` takes the next scripted outcome. A success marks the link connected, and an exhausted script fails. |
| Transport.WriteChar | idasen/__init__.py:283-289 | One `write_gatt_char`: it fails exactly at a scripted fault position, and only a write that succeeded is logged. Every attempt advances the write counter. |
| Transport.WriteInOrder | idasen/__init__.py:283-289 | Writes awaited one after the other: the first failure raises, and the writes after it are not attempted. |
| Transport.WriteTogether | idasen/__init__.py:388-393 | `asyncio.gather` of two writes: both are attempted, and the call fails when either does. |
| Transport.WriteInOrderEffect | idasen/__init__.py:283-289 | Awaited writes run in order up to the first failing one, and only the writes before it are logged. The call fails exactly when one of them is a fault. Nothing but the write log and counter changes. |
| Transport.WriteTogetherEffect | idasen/__init__.py:388-393 | Both gathered writes are attempted. The call fails when either fails, and on success both are logged in order. |
| Transport.ReadFrame | idasen/__init__.py:443 | `read_gatt_char` on the height characteristic returns the next scripted frame. An exhausted script raises. |
| Transport.AfterRead | idasen/__init__.py:443 | A read consumes the frame it returned, and nothing else changes. |
| Transport.ReadReading | idasen/__init__.py:443-444 | A read returns the decoded head of the frame script. An exhausted script raises a transport error. A frame of the wrong length raises a decode error. |
| Telemetry.Suppressed | idasen/__init__.py:210-212 | The listener drops a sample less than 0.001 from the previous height, and also from the previous speed when speed is tracked. |
| Telemetry.Dispatched | idasen/__init__.py:208-220 | The samples the listener passes on for a stream of decoded frames. Each is dropped when it is within 0.001 of the last sample passed on in height, and also in speed when speed is tracked. |
| Telemetry.StartNeverSuppresses | idasen/__init__.py:201-213 | No decoded height is within 0.001 of the initial previous height 0.0. |
| Telemetry.FirstFrameDispatched | idasen/__init__.py:201-220 | The first decoded frame is always passed to the callback, and it is the first callback. |
| Telemetry.DispatchedSeparated | idasen/__init__.py:208-215 | No two consecutive callbacks are within 0.001 in height, nor also in speed when speed is tracked. The first callback is not within 0.001 of the start. |
| Telemetry.DispatchedFromInput | idasen/__init__.py:210-220 | Every callback carries a received sample, and there are never more callbacks than frames. |
| Telemetry.NearDuplicateDispatchedOnce | idasen/__init__.py:210-213 | As the first two frames of a stream, two frames less than 0.001 m apart give a height-only callback exactly once, for the first of them. |
| Telemetry.OutputListener.constructor | idasen/__init__.py:200-202 | The previous height and speed start at 0.0, no callback has been made, and the speed flag is the one given. |
| Telemetry.OutputListener.OnFrame | idasen/__init__.py:204-220 | A bad frame raises and changes nothing. Otherwise the frame is recorded, and a callback is added unless it is within 0.001 of the previous values. The previous values move only on dispatch. The invariant `Valid` ties all callbacks to the dispatch filter over all frames. |
| Desk.TargetBytes | idasen/__init__.py:360 | An in-range target is encoded without error, as the packed truncated counter. |
| Desk.Attempt | idasen/__init__.py:155-158 | One pass of the `try` block: `client.connect()`, then `wakeup()` only if the connect succeeded. A failure in either fails the attempt. |
| Desk.ConnectFrom | idasen/__init__.py:153-169 | The retry loop after i retries: an attempt that succeeds returns. A failure with i at 3 exits or re-raises. Any other failure retries on the link the attempt left. |
| Desk.Retries | idasen/__init__.py:159-168 | How many times the loop incremented i and retried: 3 when the attempts ran out, otherwise one less than the attempts made. |
| Desk.RetryWarning | idasen/__init__.py:165-167 | The warning after the k-th failed attempt: "retrying (k/3)". |
| Desk.RetryWarnings | idasen/__init__.py:164-167 | The warnings for retries 1 to k, in order. |
| Desk.Backoff | idasen/__init__.py:169 | The sleep after the k-th failed attempt: 0.3 times k. |
| Desk.Backoffs | idasen/__init__.py:169 | The sleeps for retries 1 to k, in order. |
| Desk.ConnectLog | idasen/__init__.py:159-167 | What connect logs: one warning per retry, then one critical "Connection failed" line when the attempts ran out. |
| Desk.ConnectFromOutcome | idasen/__init__.py:153-169 | There are at most 4 attempts. A success returns at once; otherwise all 4 attempts were made. After the 4th failure the result is `SystemExit(1)` when `exit_on_fail` is set, else the transport error re-raised. |
| Desk.ConnectFromAttempts | idasen/__init__.py:153-158 | Each attempt, a connect followed by `wakeup`, runs on the link the previous attempt left, and the loop leaves the link of its last attempt. |
| Desk.ConnectFromFirstSuccess | idasen/__init__.py:155-160 | Every attempt before the last failed, and the loop passes exactly when its last attempt succeeded. |
| Desk.ConnectScenarios | idasen/__init__.py:153-169 | Three failures then a success give 4 attempts, three warnings, sleeps of 0.3, 0.6 and 0.9, and a connected link. Failing throughout gives 4 attempts, the three warnings then one critical line, the same sleeps, and `SystemExit(1)` or the error. `tests/test_idasen.py` checks the failing-throughout case with `exit_on_fail` set. |
| Desk.RefLoop | idasen/__init__.py:362-370 | The `while self._moving` loop. Each iteration writes the target and sleeps 0.2 s. A concurrent `stop()` may clear the flag during that sleep. The iteration then reads the speed and breaks at 0. A raised write or read ends the loop with that error. |
| Desk.DoMoveSpec | idasen/__init__.py:350-370 | `do_move`: read the height and return at once if it equals the target. Otherwise write WAKEUP then STOP, and run the loop with the encoded target. |
| Desk.RefLoopWrites | idasen/__init__.py:362-364 | Each loop iteration writes the same encoded target to the reference input and sleeps 0.2 s. Nothing else is written. |
| Desk.RefLoopStops | idasen/__init__.py:362-370 | A loop that ends normally has decoded one frame per iteration. It stops at the first zero-speed frame or in the iteration in which `stop()` cleared the flag. The flag is down exactly in the second case. |
| Desk.RefLoopCrashKeepsFlag | idasen/__init__.py:362-370 | Without a concurrent `stop()`, a write loop that raised leaves the flag set. |
| Desk.MoveCrashKeepsFlag | idasen/__init__.py:350-374 | Without a concurrent `stop()`, a move that raised leaves `_moving` set, because `move_to_target` has no `try/finally`. |
| Desk.MovePassWrites | idasen/__init__.py:350-370 | A move that ends normally writes nothing when the desk is already at the target. Otherwise it writes WAKEUP, then STOP, then only the encoded target, once per iteration. |
| Desk.MoveEndsAtFirstStandstill | idasen/__init__.py:362-370 | An unstopped move that ends normally ran exactly until the first frame with speed 0, and no further. |
| Desk.FindService | idasen/__init__.py:222-224 | The result is the position of the first service with the output UUID, or none exactly when no service has it. |
| Desk.IdasenDesk.constructor | idasen/__init__.py:102-118 | A new desk is not moving, has no move task, and has logged and slept nothing. |
| Desk.IdasenDesk.WriteGattChar | idasen/__init__.py:283-289 | One `write_gatt_char` on the desk's client, with the effect `WriteChar` gives it on the link. |
| Desk.IdasenDesk.TryAttempt | idasen/__init__.py:155-157 | The body of the `try`: `client.connect()`, then `wakeup()` only if the connect succeeded, leaving exactly the link and the success of `Attempt`. |
| Desk.IdasenDesk.Wakeup | idasen/__init__.py:270-289 | The two DPG frames, then WAKEUP on the command characteristic, are written in order. The first failure raises. |
| Desk.IdasenDesk.Connect | idasen/__init__.py:153-169 | The `while True` retry loop leaves the link and the outcome of `ConnectFrom`. It logs "retrying (k/3)" after the k-th failed attempt, for k from 1 up to the retries used, then one critical "Connection failed" line when the attempts ran out. It sleeps 0.3·k after the k-th failure. |
| Desk.IdasenDesk.MoveUp | idasen/__init__.py:291-303 | One `47 00` write to the command characteristic, with response=False. |
| Desk.IdasenDesk.MoveDown | idasen/__init__.py:305-317 | One `46 00` write to the command characteristic, with response=False. |
| Desk.IdasenDesk.GetHeightAndSpeed | idasen/__init__.py:429-444 | One read of the height characteristic, decoded. |
| Desk.IdasenDesk.GetHeight | idasen/__init__.py:395-410 | The height of one read, or that read's exception. |
| Desk.IdasenDesk.GetSpeed | idasen/__init__.py:412-427 | The speed of one read, or that read's exception. |
| Desk.IdasenDesk.DoMove | idasen/__init__.py:350-370 | `do_move` leaves exactly the link, flag, sleeps and outcome of `DoMoveSpec`. |
| Desk.IdasenDesk.MoveToTarget | idasen/__init__.py:334-374 | A target above 1.27 or below 0.62 raises before any I/O and changes nothing; both bounds are accepted. If already moving, it logs an "Already moving" error and changes nothing else. Otherwise it runs `do_move`. The task is recorded as completed or crashed. The flag is cleared only when the move ended normally; a move that raised leaves the flag as it was, set unless a concurrent `stop()` cleared it. |
| Desk.IdasenDesk.SendStop | idasen/__init__.py:385-393 | `FF 00` to the command characteristic and `01 80` to the reference input, both gathered and with response=False. |
| Desk.IdasenDesk.Stop | idasen/__init__.py:376-383 | The flag is down afterwards. With no task, or a completed one, the stop pair is sent. A crashed task's exception is re-raised instead. |
| Desk.IdasenDesk.Monitor | idasen/__init__.py:188-235 | A callback arity other than 1 or 2 raises before anything else. A missing service or characteristic is logged as an error. Otherwise a fresh listener is subscribed, tracking speed exactly for arity 2. |
| Desk.StopDuringMove | idasen/__init__.py:376-393 | A stop that lands during the first iteration leaves the flag down and, when the move did not raise, a completed move task. When neither the move nor the stop raised, the last two writes are the stop pair. |
| Cli.CountToLevel | idasen/cli.py:162-172 | The level is DEBUG exactly for a count of 4 or more and CRITICAL exactly for 0 or less. Counts 1, 2 and 3 give ERROR, WARNING and INFO. |
| Cli.CountToLevelMonotone | idasen/cli.py:162-172 | More `-v` flags never give a higher level. |
| Cli.SubcommandToCallable | idasen/cli.py:175-187 | The five subcommand names, and only they, resolve to a handler registered under that name. Any other name raises an internal error. |
| Cli.DispatchRoundTrip | idasen/cli.py:175-187 | Every handler is reached from its own name, so distinct handlers have distinct names. |
| Cli.ValidEntry | idasen/cli.py:23-36 | One entry of the schema. `mac_address` is a string of exactly 17 characters. Each height is a float or an int (a bool counts as an int) in [0.62, 1.27]. Any other key is rejected. |
| Cli.SchemaAccepts | idasen/cli.py:23-36 | A document passes when it is a mapping and every one of its entries passes. Every key is optional. |
| Cli.LoadConfig | idasen/cli.py:39-51 | A missing file gives `{}`. A YAML error propagates. A parsed file is returned when the schema accepts it and otherwise exits with status 1. Whatever is returned satisfies the schema entry by entry. |
| Cli.DefaultConfigAccepted | idasen/cli.py:17-36 | The default configuration (1.1, 0.75, `AA:AA:AA:AA:AA:AA`), which `init` writes when no desk is discovered, passes the schema unchanged. |
| Cli.SchemaRejections | idasen/cli.py:23-36 | These are each rejected by the schema, so `load_config` exits with status 1: an extra key (`extra_key: 456`), a document that is not a mapping, a short MAC address, and a height out of range. A bool height is accepted. `tests/test_cli.py` checks the extra-key case. |
| Cli.ResolveFromConfig | idasen/cli.py:152-159 | It errors exactly when the attribute exists, is None, and the key is not in the configuration. A set CLI value is kept, a None one is filled from the configuration, and a missing attribute is left alone. No other attribute changes. |
| Cli.Namespace.FromConfig | idasen/cli.py:152-159 | `setattr` on the parsed arguments as `ResolveFromConfig` says. On the error the attributes are unchanged. |
| Cli.ConfiguredHeightInRange | idasen/cli.py:23-36 | A height taken from a configuration the schema accepted is a number in [0.62, 1.27]. |
| Cli.ReadHeights | idasen/cli.py:126-127 | The heights read, one per leading frame that decodes, in order. The list stops only where the script runs out or at the first frame that does not decode. |
| Cli.ReadError | idasen/cli.py:126 | The read that ends the loop raises the decode error of the first frame that does not decode, or the transport error when every frame decoded. |
| Cli.FramesLeft | idasen/cli.py:126 | After the loop, the frames left are those after the first frame that does not decode, or none. |
| Cli.CliPrinted | idasen/cli.py:125-131 | The heights the loop prints: each one that is more than 0.001 away from the height read just before it, printed or not. The first is compared with 0.0. |
| Cli.CliPrintedSnoc | idasen/cli.py:125-131 | A new reading is printed exactly when it is more than 0.001 from the last reading, printed or not. |
| Cli.CliPrintedFromInput | idasen/cli.py:125-131 | Only readings are printed, at most one line per reading. |
| Cli.DedupRulesDiffer | idasen/cli.py:125-131 | A drift of 0.0006 m per reading gives two library callbacks but one printed line: the listener compares with the last value passed on, the loop with the last value read. |
| Cli.ThresholdStepDiffers | idasen/cli.py:128 | With heights as exact reals, a step of exactly 0.001 m is passed on by the library listener (strict less-than suppresses) but not printed by the subcommand (strict greater-than prints). |
| Cli.MonitorLoop | idasen/cli.py:122-133 | The loop prints exactly `CliPrinted` of the heights read until the first read that raises. That read's exception ends the loop. Only the read script changes. |

## Left out

- BLE transport internals of bleak: `BleakClient`, `start_notify` and GATT types. They are replaced by the scripted `Link`. A failing connect or write is a scripted fault, not an exception type.
- `discover`, `_is_desk`, `pair`, `disconnect`, `is_connected`, `is_moving`, `mac` and `__aenter__`/`__aexit__`: scanning wrappers and pass-throughs to the client.
- asyncio: real interleaving, task scheduling and `gather` ordering. The only interleaving modelled is a `stop()` landing during a pacing sleep of the move loop. Sleeps are recorded as durations, not waited.
- Floating point: heights, speeds and sleeps are exact reals. Python's `0.3 * 3` is 0.8999…, and a float product in `_meters_to_bytes` can truncate to one counter less than the exact value.
- Floating point, exact threshold steps: the source builds each height as the float `c/10000 + 0.62`. Whether a step of exactly 10 counters comes out as more or less than 0.001 depends on rounding. So whether the listener passes such a step on, and whether the subcommand prints it, depends on the counters involved. The model decides both exactly, as in `Cli.ThresholdStepDiffers`.
- Unbounded loops: the `while self._moving` loop of `do_move` never ends if the desk never reports speed 0 and no stop arrives, and the `monitor` subcommand loops while reads succeed. The model bounds both loops by the finite read script (`Desk.RefLoop` and `Cli.MonitorLoop`), so a run that goes on forever is not represented.
- _DeskLoggingAdapter: the MAC prefix of log messages. Logs are level and message tokens.
- The listener's "Got data" debug line is not modelled; the listener receives no desk log.
- Telemetry.OutputListener.OnFrame: an exception raised by the user's callback is not modelled; the callback is recorded, not called.
- DPG wake frames are opaque byte strings, written as three opaque writes.
- Desk.IdasenDesk.MoveToTarget: models at most one concurrent `stop()` per move. A second concurrent `move_to_target` call is modelled only as the "already moving" branch.
- Desk.IdasenDesk.Monitor: frames pushed after the subscription are modelled by calling `OnFrame` on the returned listener, not by a notification loop.
- CLI plumbing: `get_parser`/argparse, `main`, logging handler setup, `init` (file and YAML writes), `height`, `sit` and `stand` (one-line calls into the library), stdout formatting, and the `KeyboardInterrupt` that ends `monitor`.
- Cli.LoadConfig: YAML parsing is reduced to a mapping from string keys to values, or something else. Non-string keys, nested values and non-finite floats are not represented. An unreadable file that exists is not represented.
- Cli.MonitorLoop: the connection made by `async with` is not part of the loop. It runs on a desk whose link is given.
- The tests `tests/test_cli.py` and `tests/test_idasen.py` were written against other revisions (`DEFAULT_CONFIG`, `xdg_config_home`, `pair`, `positions`, `_bytes_to_meters`). Only test cases that agree with the revision of `idasen/__init__.py` and `idasen/cli.py` modelled here are cited.
