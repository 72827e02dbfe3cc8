/** IdasenDesk: the connection and movement state machine of the desk. The
    BLE client is the value `link` (see module Transport); log lines are
    level and message tokens; asyncio.sleep calls are recorded as their
    durations in `sleeps`. */
module Desk {
  import opened Errors
  import opened Codec
  import opened Transport
  import opened Telemetry

  /** Number of times connect retries after a failed attempt. */
  const RETRY_COUNT: nat := 3
  /** Seconds slept after the i-th failed attempt: RETRY_BACKOFF * i. */
  const RETRY_BACKOFF: real := 0.3
  /** Seconds slept after each reference-input write. */
  const MOVE_PACE: real := 0.2

  const COMMAND_REFERENCE_INPUT_STOP: seq<byte> := [0x01, 0x80]
  const COMMAND_UP: seq<byte> := [0x47, 0x00]
  const COMMAND_DOWN: seq<byte> := [0x46, 0x00]
  const COMMAND_STOP: seq<byte> := [0xFF, 0x00]
  const COMMAND_WAKEUP: seq<byte> := [0xFE, 0x00]
  /** The two wake frames of the DPG1C controller, treated as opaque. */
  const DPG_WAKEUP_1: seq<byte> := [0x7F, 0x86, 0x00]
  const DPG_WAKEUP_2: seq<byte> :=
    [0x7F, 0x86, 0x80, 0x01, 0x02, 0x03, 0x04, 0x05, 0x06, 0x07, 0x08, 0x09, 0x0A,
     0x0B, 0x0C, 0x0D, 0x0E, 0x0F, 0x10, 0x11]

  const OUTPUT_SERVICE_UUID: string := "99fa0020-338a-1024-8a49-009c0215f78a"
  const OUTPUT_CHAR_UUID: string := "99fa0021-338a-1024-8a49-009c0215f78a"

  /** The writes of wakeup(), in order. */
  const WAKEUP_WRITES: seq<Write> := [
    Write(DpgChar, DPG_WAKEUP_1, DefaultResponse),
    Write(DpgChar, DPG_WAKEUP_2, DefaultResponse),
    Write(CommandChar, COMMAND_WAKEUP, DefaultResponse)]

  /** The wakeup and stop commands that arm the reference input before a move. */
  const ARM_WRITES: seq<Write> := [
    Write(CommandChar, COMMAND_WAKEUP, DefaultResponse),
    Write(CommandChar, COMMAND_STOP, DefaultResponse)]

  /** The two writes of _stop, both fire-and-forget. */
  const STOP_WRITE: Write := Write(CommandChar, COMMAND_STOP, WithoutResponse)
  const REFERENCE_STOP_WRITE: Write := Write(ReferenceInputChar, COMMAND_REFERENCE_INPUT_STOP, WithoutResponse)

  datatype Level = Debug | Info | Warning | Error | Critical

  datatype Message =
    | ConnectionFailed
    | Retrying(attempt: nat, retries: nat)
    | AlreadyMoving
    | WaitingForStop
    | SendingStopCommands
    | StartingNotify
    | NoOutputCharacteristic
    | OutputServiceNotFound

  datatype LogLine = LogLine(level: Level, message: Message)

  /** What _move_task holds: nothing yet, or the last move's task, which
      either returned or raised. */
  datatype MoveTask = NoTask | Completed | Crashed(exception: Exception)

  /** What monitor() did. */
  datatype MonitorResult =
    | Rejected(exception: Exception)
    | NoOutputChar
    | NoOutputService
    | Subscribed(listener: OutputListener)

  function Repeat<T>(x: T, n: nat): (s: seq<T>)
    ensures |s| == n && forall i :: 0 <= i < n ==> s[i] == x
  {
    if n == 0 then [] else [x] + Repeat(x, n - 1)
  }

  // ---------------------------------------------------------------------
  // connect

  /** One connect attempt: client.connect() followed by wakeup(); a
      failure in either fails the attempt. */
  function Attempt(l: Link): Step {
    var c := Connect(l);
    if !c.ok then c else WriteInOrder(c.link, WAKEUP_WRITES)
  }

  /** The link after n attempts. */
  function AfterAttempts(l: Link, n: nat): Link {
    if n == 0 then l else Attempt(AfterAttempts(l, n - 1)).link
  }

  datatype ConnectRun = ConnectRun(link: Link, attempts: nat, outcome: Outcome)

  /** connect's retry loop from the point where i retries have been used:
      the link it leaves, how many attempts it made, how it ended. */
  function ConnectFrom(i: nat, l: Link, exitOnFail: bool): ConnectRun
    requires i <= RETRY_COUNT
    decreases RETRY_COUNT - i
  {
    var a := Attempt(l);
    if a.ok then ConnectRun(a.link, i + 1, Pass)
    else if i >= RETRY_COUNT then
      ConnectRun(a.link, i + 1, Fail(if exitOnFail then SystemExit(1) else TransportError))
    else ConnectFrom(i + 1, a.link, exitOnFail)
  }

  /** The failed attempts after which connect retried. */
  function Retries(run: ConnectRun): nat {
    if run.outcome.Fail? then RETRY_COUNT else if run.attempts == 0 then 0 else run.attempts - 1
  }

  /** The warning after the k-th failed attempt: "retrying (k/3)". */
  function RetryWarning(k: nat): LogLine {
    LogLine(Warning, Retrying(k, RETRY_COUNT))
  }

  /** The sleep after the k-th failed attempt. */
  function Backoff(k: nat): real {
    RETRY_BACKOFF * k as real
  }

  /** The warnings "retrying (1/3)" .. "retrying (k/3)". */
  function RetryWarnings(k: nat): seq<LogLine> {
    if k == 0 then [] else RetryWarnings(k - 1) + [RetryWarning(k)]
  }

  /** The back-off sleeps 0.3, 0.6, .., 0.3 * k. */
  function Backoffs(k: nat): seq<real> {
    if k == 0 then [] else Backoffs(k - 1) + [Backoff(k)]
  }

  /** What connect logs: a warning per retry, then "Connection failed" at
      critical level when the attempts ran out. */
  function ConnectLog(run: ConnectRun): seq<LogLine> {
    RetryWarnings(Retries(run)) + if run.outcome.Pass? then [] else [LogLine(Critical, ConnectionFailed)]
  }

  lemma AppendAssoc<T>(a: seq<T>, b: seq<T>, c: seq<T>)
    ensures a + b + c == a + (b + c)
  {
  }

  /** One round of connect's retry loop. */
  lemma ConnectFromStep(i: nat, l: Link, exitOnFail: bool)
    requires i <= RETRY_COUNT
    ensures var a := Attempt(l); var run := ConnectFrom(i, l, exitOnFail);
      && (a.ok ==> run == ConnectRun(a.link, i + 1, Pass))
      && (!a.ok && i >= RETRY_COUNT ==>
            run == ConnectRun(a.link, i + 1, Fail(if exitOnFail then SystemExit(1) else TransportError)))
      && (!a.ok && i < RETRY_COUNT ==> run == ConnectFrom(i + 1, a.link, exitOnFail))
  {
  }

  /** How connect ends: a success returns at once, and otherwise all
      RETRY_COUNT + 1 attempts are made and the last failure exits or
      re-raises. */
  lemma {:induction false} ConnectFromOutcome(i: nat, l: Link, exitOnFail: bool)
    requires i <= RETRY_COUNT
    ensures var run := ConnectFrom(i, l, exitOnFail);
      && i < run.attempts <= RETRY_COUNT + 1
      && (run.outcome.Pass? || run.attempts == RETRY_COUNT + 1)
      && (run.outcome.Fail? ==> run.outcome.exception == if exitOnFail then SystemExit(1) else TransportError)
    decreases RETRY_COUNT - i
  {
    ConnectFromStep(i, l, exitOnFail);
    var a := Attempt(l);
    if !a.ok && i < RETRY_COUNT {
      ConnectFromOutcome(i + 1, a.link, exitOnFail);
    }
  }

  /** connect makes at most RETRY_COUNT + 1 attempts, each on the link the
      previous one left. */
  lemma {:induction false} ConnectFromAttempts(i: nat, l0: Link, exitOnFail: bool)
    requires i <= RETRY_COUNT
    ensures var run := ConnectFrom(i, AfterAttempts(l0, i), exitOnFail);
      && i < run.attempts <= RETRY_COUNT + 1
      && run.link == AfterAttempts(l0, run.attempts)
    decreases RETRY_COUNT - i
  {
    var l := AfterAttempts(l0, i);
    var a := Attempt(l);
    assert AfterAttempts(l0, i + 1) == a.link;
    ConnectFromStep(i, l, exitOnFail);
    if !a.ok && i < RETRY_COUNT {
      ConnectFromAttempts(i + 1, l0, exitOnFail);
    }
  }

  /** connect goes on until the first attempt that succeeds: every attempt
      before the last failed, and it passes exactly when the last one
      succeeded. */
  predicate StopsAtFirstSuccess(i: nat, l0: Link, exitOnFail: bool)
    requires i <= RETRY_COUNT
  {
    var run := ConnectFrom(i, AfterAttempts(l0, i), exitOnFail);
    && run.attempts > i
    && (forall j :: i <= j < run.attempts - 1 ==> !Attempt(AfterAttempts(l0, j)).ok)
    && (run.outcome.Pass? <==> Attempt(AfterAttempts(l0, run.attempts - 1)).ok)
  }

  lemma {:induction false} ConnectFromFirstSuccess(i: nat, l0: Link, exitOnFail: bool)
    requires i <= RETRY_COUNT
    ensures StopsAtFirstSuccess(i, l0, exitOnFail)
    decreases RETRY_COUNT - i
  {
    var l := AfterAttempts(l0, i);
    var a := Attempt(l);
    ConnectFromStep(i, l, exitOnFail);
    if !a.ok && i < RETRY_COUNT {
      ConnectFromFirstSuccess(i + 1, l0, exitOnFail);
      FirstSuccessStep(i, l0, exitOnFail);
    }
  }

  /** A failed attempt followed by connect's remaining rounds. */
  lemma FirstSuccessStep(i: nat, l0: Link, exitOnFail: bool)
    requires i < RETRY_COUNT && !Attempt(AfterAttempts(l0, i)).ok
    requires StopsAtFirstSuccess(i + 1, l0, exitOnFail)
    ensures StopsAtFirstSuccess(i, l0, exitOnFail)
  {
    var l := AfterAttempts(l0, i);
    var a := Attempt(l);
    assert AfterAttempts(l0, i + 1) == a.link;
    ConnectFromStep(i, l, exitOnFail);
    var run := ConnectFrom(i + 1, AfterAttempts(l0, i + 1), exitOnFail);
    assert ConnectFrom(i, l, exitOnFail) == run;
    forall j | i <= j < run.attempts - 1
      ensures !Attempt(AfterAttempts(l0, j)).ok
    {
    }
  }

  /** The library's connect test and its mirror: three failures then a
      success give three warnings; failures throughout give the three
      warnings, one critical line and SystemExit(1) or the error. */
  lemma ConnectScenarios(l: Link, exitOnFail: bool)
    requires l.connectScript == [false, false, false, true] && l.writeFaults == {}
    ensures var run := ConnectFrom(0, l, exitOnFail);
      && run.outcome == Pass && run.attempts == 4 && run.link.connected
      && ConnectLog(run) == RetryWarnings(3) && Backoffs(Retries(run)) == [0.3, 0.6, 0.9]
    ensures var run := ConnectFrom(0, l.(connectScript := []), exitOnFail);
      && run.outcome == Fail(if exitOnFail then SystemExit(1) else TransportError)
      && run.attempts == 4
      && ConnectLog(run) == RetryWarnings(3) + [LogLine(Critical, ConnectionFailed)]
      && |ConnectLog(run)| == 4 && Backoffs(Retries(run)) == [0.3, 0.6, 0.9]
  {
    var l1 := Attempt(l).link;
    var l2 := Attempt(l1).link;
    var l3 := Attempt(l2).link;
    assert l3.connectScript == [true];
    WriteInOrderEffect(Connect(l3).link, WAKEUP_WRITES);
    assert Attempt(l3).ok;
    ConnectFromOutcome(0, l.(connectScript := []), exitOnFail);
    assert Backoffs(3) == [0.3, 0.6, 0.9];
  }

  // ---------------------------------------------------------------------
  // move_to_target

  /** The reference-input write of a move towards target. */
  function TargetWrite(data: seq<byte>): Write {
    Write(ReferenceInputChar, data, DefaultResponse)
  }

  /** move_to_target's encoding of its (range-checked) target. */
  function TargetBytes(target: real): (data: seq<byte>)
    requires MIN_HEIGHT <= target <= MAX_HEIGHT
    ensures |data| == 2 && U16(data[0], data[1]) == TargetCounter(target)
  {
    EncodeInRange(target);
    MetersToBytes(target).value
  }

  /** The state a move leaves: link, moving flag, sleeps, number of
      reference-input writes made, and how the move task ended. */
  datatype MoveRun = MoveRun(link: Link, moving: bool, sleeps: seq<real>, iterations: nat, outcome: Outcome)

  /** The write loop of do_move from its k-th iteration on. stopDuring ==
      Some(n) says that a concurrent stop() clears the moving flag while
      the n-th iteration sleeps. */
  function RefLoop(l: Link, data: seq<byte>, k: nat, stopDuring: Option<nat>, moving: bool, sleeps: seq<real>): MoveRun
    decreases |l.readScript|
  {
    if !moving then MoveRun(l, false, sleeps, k, Pass)
    else
      var w := WriteChar(l, TargetWrite(data));
      if !w.ok then MoveRun(w.link, true, sleeps, k, Fail(TransportError))
      else
        var sleeps' := sleeps + [MOVE_PACE];
        var moving' := stopDuring != Some(k);
        var speed := ReadReading(w.link);
        var l' := AfterRead(w.link);
        if speed.Err? then MoveRun(l', moving', sleeps', k + 1, Fail(speed.exception))
        else if speed.value.Speed() == 0.0 then MoveRun(l', moving', sleeps', k + 1, Pass)
        else RefLoop(l', data, k + 1, stopDuring, moving', sleeps')
  }

  /** Whether do_move finds the desk already at the target. */
  predicate AtTarget(l: Link, target: real) {
    ReadReading(l).Ok? && ReadReading(l).value.Height() == target
  }

  /** do_move: read the height, stop at once when it equals the target,
      otherwise arm the reference input and run the write loop. */
  function DoMoveSpec(l: Link, target: real, stopDuring: Option<nat>, sleeps: seq<real>): MoveRun
    requires MIN_HEIGHT <= target <= MAX_HEIGHT
  {
    var current := ReadReading(l);
    var l1 := AfterRead(l);
    if current.Err? then MoveRun(l1, true, sleeps, 0, Fail(current.exception))
    else if current.value.Height() == target then MoveRun(l1, true, sleeps, 0, Pass)
    else
      var arm := WriteInOrder(l1, ARM_WRITES);
      if !arm.ok then MoveRun(arm.link, true, sleeps, 0, Fail(TransportError))
      else RefLoop(arm.link, TargetBytes(target), 0, stopDuring, true, sleeps)
  }

  /** Every iteration of the write loop writes the same encoded target and
      sleeps once; nothing else is written, nothing else is slept. */
  lemma {:induction false} RefLoopWrites(l: Link, data: seq<byte>, k: nat, stopDuring: Option<nat>, sleeps: seq<real>)
    ensures var run := RefLoop(l, data, k, stopDuring, true, sleeps);
      && k <= run.iterations
      && run.link.writes == l.writes + Repeat(TargetWrite(data), run.iterations - k)
      && run.sleeps == sleeps + Repeat(MOVE_PACE, run.iterations - k)
      && run.link.connected == l.connected && run.link.services == l.services
    decreases |l.readScript|
  {
    var w := WriteChar(l, TargetWrite(data));
    if w.ok {
      var speed := ReadReading(w.link);
      var l' := AfterRead(w.link);
      var moving' := stopDuring != Some(k);
      if speed.Ok? && speed.value.Speed() != 0.0 {
        if moving' {
          RefLoopWrites(l', data, k + 1, stopDuring, sleeps + [MOVE_PACE]);
        }
      }
    }
  }

  /** The loop goes on after reading this frame in iteration n: it decodes,
      its speed counter is not zero, and no stop() landed in iteration n. */
  predicate KeepsGoing(frame: seq<byte>, stopDuring: Option<nat>, n: nat) {
    && BytesToMetersAndSpeed(frame).Ok?
    && BytesToMetersAndSpeed(frame).value.speedCounter != 0
    && stopDuring != Some(n)
  }

  /** The loop ends normally after reading this frame in iteration n: it
      decodes, and its speed counter is zero or a stop() landed in
      iteration n. */
  predicate Halts(frame: seq<byte>, stopDuring: Option<nat>, n: nat) {
    && BytesToMetersAndSpeed(frame).Ok?
    && (BytesToMetersAndSpeed(frame).value.speedCounter == 0 || stopDuring == Some(n))
  }

  /** One iteration of the write loop that does not end it. */
  lemma RefLoopStep(l: Link, data: seq<byte>, k: nat, stopDuring: Option<nat>, sleeps: seq<real>)
    requires WriteChar(l, TargetWrite(data)).ok
    requires |l.readScript| > 0 && KeepsGoing(l.readScript[0], stopDuring, k)
    ensures var l' := AfterRead(WriteChar(l, TargetWrite(data)).link);
      && l'.readScript == l.readScript[1..]
      && RefLoop(l, data, k, stopDuring, true, sleeps) == RefLoop(l', data, k + 1, stopDuring, true, sleeps + [MOVE_PACE])
  {
    var w := WriteChar(l, TargetWrite(data));
    assert w.link.readScript == l.readScript;
    assert ReadReading(w.link) == BytesToMetersAndSpeed(l.readScript[0]);
  }

  /** The iteration that ends the write loop normally. */
  lemma RefLoopLast(l: Link, data: seq<byte>, k: nat, stopDuring: Option<nat>, sleeps: seq<real>)
    requires WriteChar(l, TargetWrite(data)).ok
    requires |l.readScript| > 0 && !KeepsGoing(l.readScript[0], stopDuring, k)
    ensures var run := RefLoop(l, data, k, stopDuring, true, sleeps);
      run.outcome.Pass? ==>
        && run.iterations == k + 1
        && run.link.readScript == l.readScript[1..]
        && Halts(l.readScript[0], stopDuring, k)
        && (run.moving <==> stopDuring != Some(k))
  {
    var w := WriteChar(l, TargetWrite(data));
    assert w.link.readScript == l.readScript;
    assert ReadReading(w.link) == BytesToMetersAndSpeed(l.readScript[0]);
  }

  /** The loop cannot end normally on a failed write or an exhausted read script. */
  lemma RefLoopNoFrame(l: Link, data: seq<byte>, k: nat, stopDuring: Option<nat>, sleeps: seq<real>)
    requires !WriteChar(l, TargetWrite(data)).ok || |l.readScript| == 0
    ensures RefLoop(l, data, k, stopDuring, true, sleeps).outcome.Fail?
  {
    var w := WriteChar(l, TargetWrite(data));
    assert w.link.readScript == l.readScript;
  }

  /** When the loop ends normally it has consumed one decodable frame per
      iteration; it ends at the first frame whose speed is zero or at the
      iteration during which a stop() cleared the flag, whichever is first. */
  lemma RefLoopStops(l: Link, data: seq<byte>, k: nat, stopDuring: Option<nat>, sleeps: seq<real>)
    ensures var run := RefLoop(l, data, k, stopDuring, true, sleeps); var m := run.iterations - k;
      run.outcome.Pass? ==>
        && 1 <= m <= |l.readScript|
        && run.link.readScript == l.readScript[m..]
        && (forall j :: 0 <= j < m - 1 ==> KeepsGoing(l.readScript[j], stopDuring, k + j))
        && Halts(l.readScript[m - 1], stopDuring, k + m - 1)
        && (run.moving <==> stopDuring != Some(k + m - 1))
  {
    RefLoopConsumes(l, data, k, stopDuring, sleeps);
    RefLoopGoesOn(l, data, k, stopDuring, sleeps);
    RefLoopHalts(l, data, k, stopDuring, sleeps);
    RefLoopFlag(l, data, k, stopDuring, sleeps);
  }

  /** A normally ended loop consumed one frame per iteration. */
  lemma {:induction false} RefLoopConsumes(l: Link, data: seq<byte>, k: nat, stopDuring: Option<nat>, sleeps: seq<real>)
    ensures var run := RefLoop(l, data, k, stopDuring, true, sleeps); var m := run.iterations - k;
      run.outcome.Pass? ==> 1 <= m <= |l.readScript| && run.link.readScript == l.readScript[m..]
    decreases |l.readScript|
  {
    if !WriteChar(l, TargetWrite(data)).ok || |l.readScript| == 0 {
      RefLoopNoFrame(l, data, k, stopDuring, sleeps);
    } else if !KeepsGoing(l.readScript[0], stopDuring, k) {
      RefLoopLast(l, data, k, stopDuring, sleeps);
    } else {
      RefLoopStep(l, data, k, stopDuring, sleeps);
      var l' := AfterRead(WriteChar(l, TargetWrite(data)).link);
      RefLoopConsumes(l', data, k + 1, stopDuring, sleeps + [MOVE_PACE]);
      var run := RefLoop(l', data, k + 1, stopDuring, true, sleeps + [MOVE_PACE]);
      if run.outcome.Pass? {
        var m := run.iterations - k;
        assert l.readScript[1..][m - 1..] == l.readScript[m..];
      }
    }
  }

  /** The frames before the last one of a normally ended loop all let it go on. */
  lemma {:induction false} RefLoopGoesOn(l: Link, data: seq<byte>, k: nat, stopDuring: Option<nat>, sleeps: seq<real>)
    ensures var run := RefLoop(l, data, k, stopDuring, true, sleeps); var m := run.iterations - k;
      run.outcome.Pass? ==>
        && 1 <= m <= |l.readScript|
        && (forall j :: 0 <= j < m - 1 ==> KeepsGoing(l.readScript[j], stopDuring, k + j))
    decreases |l.readScript|
  {
    if !WriteChar(l, TargetWrite(data)).ok || |l.readScript| == 0 {
      RefLoopNoFrame(l, data, k, stopDuring, sleeps);
    } else if !KeepsGoing(l.readScript[0], stopDuring, k) {
      RefLoopLast(l, data, k, stopDuring, sleeps);
    } else {
      RefLoopStep(l, data, k, stopDuring, sleeps);
      var l' := AfterRead(WriteChar(l, TargetWrite(data)).link);
      RefLoopGoesOn(l', data, k + 1, stopDuring, sleeps + [MOVE_PACE]);
      var run := RefLoop(l', data, k + 1, stopDuring, true, sleeps + [MOVE_PACE]);
      if run.outcome.Pass? {
        var m := run.iterations - k;
        forall j | 0 <= j < m - 1
          ensures KeepsGoing(l.readScript[j], stopDuring, k + j)
        {
          if j > 0 { assert l.readScript[j] == l'.readScript[j - 1]; }
        }
      }
    }
  }

  /** The last frame of a normally ended loop halts it. */
  predicate HaltsOnLast(l: Link, data: seq<byte>, k: nat, stopDuring: Option<nat>, sleeps: seq<real>) {
    var run := RefLoop(l, data, k, stopDuring, true, sleeps); var m := run.iterations - k;
    run.outcome.Pass? ==> 1 <= m <= |l.readScript| && Halts(l.readScript[m - 1], stopDuring, run.iterations - 1)
  }

  lemma {:induction false} RefLoopHalts(l: Link, data: seq<byte>, k: nat, stopDuring: Option<nat>, sleeps: seq<real>)
    ensures HaltsOnLast(l, data, k, stopDuring, sleeps)
    decreases |l.readScript|
  {
    if !WriteChar(l, TargetWrite(data)).ok || |l.readScript| == 0 {
      RefLoopNoFrame(l, data, k, stopDuring, sleeps);
    } else if !KeepsGoing(l.readScript[0], stopDuring, k) {
      RefLoopLast(l, data, k, stopDuring, sleeps);
    } else {
      var l' := AfterRead(WriteChar(l, TargetWrite(data)).link);
      RefLoopHalts(l', data, k + 1, stopDuring, sleeps + [MOVE_PACE]);
      RefLoopHaltsStep(l, data, k, stopDuring, sleeps);
    }
  }

  lemma RefLoopHaltsStep(l: Link, data: seq<byte>, k: nat, stopDuring: Option<nat>, sleeps: seq<real>)
    requires WriteChar(l, TargetWrite(data)).ok
    requires |l.readScript| > 0 && KeepsGoing(l.readScript[0], stopDuring, k)
    requires HaltsOnLast(AfterRead(WriteChar(l, TargetWrite(data)).link), data, k + 1, stopDuring, sleeps + [MOVE_PACE])
    ensures HaltsOnLast(l, data, k, stopDuring, sleeps)
  {
    RefLoopStep(l, data, k, stopDuring, sleeps);
    var l' := AfterRead(WriteChar(l, TargetWrite(data)).link);
    var run := RefLoop(l', data, k + 1, stopDuring, true, sleeps + [MOVE_PACE]);
    assert RefLoop(l, data, k, stopDuring, true, sleeps) == run;
    if run.outcome.Pass? {
      var m := run.iterations - k;
      assert Halts(l'.readScript[m - 2], stopDuring, run.iterations - 1);
      assert l.readScript[m - 1] == l'.readScript[m - 2];
    }
  }

  /** The flag is down after a normally ended loop exactly when a stop()
      landed in its last iteration. */
  lemma {:induction false} RefLoopFlag(l: Link, data: seq<byte>, k: nat, stopDuring: Option<nat>, sleeps: seq<real>)
    ensures var run := RefLoop(l, data, k, stopDuring, true, sleeps);
      run.outcome.Pass? ==> k < run.iterations && (run.moving <==> stopDuring != Some(run.iterations - 1))
    decreases |l.readScript|
  {
    if !WriteChar(l, TargetWrite(data)).ok || |l.readScript| == 0 {
      RefLoopNoFrame(l, data, k, stopDuring, sleeps);
    } else if !KeepsGoing(l.readScript[0], stopDuring, k) {
      RefLoopLast(l, data, k, stopDuring, sleeps);
    } else {
      RefLoopStep(l, data, k, stopDuring, sleeps);
      var l' := AfterRead(WriteChar(l, TargetWrite(data)).link);
      RefLoopFlag(l', data, k + 1, stopDuring, sleeps + [MOVE_PACE]);
    }
  }

  /** Without a concurrent stop(), a write loop that raised leaves the flag
      set: nothing in the loop clears it on the way out. */
  lemma {:induction false} RefLoopCrashKeepsFlag(l: Link, data: seq<byte>, k: nat, sleeps: seq<real>)
    ensures var run := RefLoop(l, data, k, None, true, sleeps);
      run.outcome.Fail? ==> run.moving
    decreases |l.readScript|
  {
    var w := WriteChar(l, TargetWrite(data));
    if w.ok && |l.readScript| > 0 && KeepsGoing(l.readScript[0], None, k) {
      RefLoopStep(l, data, k, None, sleeps);
      RefLoopCrashKeepsFlag(AfterRead(w.link), data, k + 1, sleeps + [MOVE_PACE]);
    }
  }

  /** move_to_target has no try/finally: without a concurrent stop(), a
      move that raised leaves the flag set. */
  lemma MoveCrashKeepsFlag(l: Link, target: real, sleeps: seq<real>)
    requires MIN_HEIGHT <= target <= MAX_HEIGHT
    ensures var run := DoMoveSpec(l, target, None, sleeps);
      run.outcome.Fail? ==> run.moving
  {
    var current := ReadReading(l);
    if current.Ok? && current.value.Height() != target {
      var arm := WriteInOrder(AfterRead(l), ARM_WRITES);
      if arm.ok {
        RefLoopCrashKeepsFlag(arm.link, TargetBytes(target), 0, sleeps);
      }
    }
  }

  /** A move that ends normally writes nothing when the desk is already at
      the target, and otherwise WAKEUP, STOP and then only the encoded
      target, once per iteration. */
  lemma MovePassWrites(l: Link, target: real, stopDuring: Option<nat>, sleeps: seq<real>)
    requires MIN_HEIGHT <= target <= MAX_HEIGHT
    ensures var run := DoMoveSpec(l, target, stopDuring, sleeps);
      run.outcome.Pass? ==>
        run.link.writes == l.writes +
          if AtTarget(l, target) then [] else ARM_WRITES + Repeat(TargetWrite(TargetBytes(target)), run.iterations)
  {
    var l1 := AfterRead(l);
    if ReadReading(l).Ok? && !AtTarget(l, target) {
      WriteInOrderEffect(l1, ARM_WRITES);
      var arm := WriteInOrder(l1, ARM_WRITES);
      if arm.ok {
        RefLoopWrites(arm.link, TargetBytes(target), 0, stopDuring, sleeps);
      }
    }
  }

  /** Past the first read, a move that is not at its target is the write
      loop on the armed link, or a failure when arming failed. */
  lemma DoMoveArmed(l: Link, target: real, stopDuring: Option<nat>, sleeps: seq<real>)
    requires MIN_HEIGHT <= target <= MAX_HEIGHT
    requires ReadReading(l).Ok? && !AtTarget(l, target)
    ensures var arm := WriteInOrder(AfterRead(l), ARM_WRITES);
      && (arm.ok ==> DoMoveSpec(l, target, stopDuring, sleeps) == RefLoop(arm.link, TargetBytes(target), 0, stopDuring, true, sleeps))
      && (!arm.ok ==> DoMoveSpec(l, target, stopDuring, sleeps).outcome == Fail(TransportError))
  {
  }

  /** A move nobody stops, that ends normally after arming, ran until the
      first frame whose speed counter is zero and no longer. */
  lemma MoveEndsAtFirstStandstill(l: Link, target: real, sleeps: seq<real>)
    requires MIN_HEIGHT <= target <= MAX_HEIGHT
    requires ReadReading(l).Ok? && !AtTarget(l, target)
    ensures var run := DoMoveSpec(l, target, None, sleeps); var frames := l.readScript[1..];
      run.outcome.Pass? ==>
        && 1 <= run.iterations <= |frames|
        && (forall j :: 0 <= j < run.iterations - 1 ==> KeepsGoing(frames[j], None, j))
        && Halts(frames[run.iterations - 1], None, run.iterations - 1)
        && run.moving
  {
    var l1 := AfterRead(l);
    var arm := WriteInOrder(l1, ARM_WRITES);
    WriteInOrderFrame(l1, ARM_WRITES);
    DoMoveArmed(l, target, None, sleeps);
    var frames := arm.link.readScript;
    assert frames == l.readScript[1..];
    if arm.ok {
      var run := RefLoop(arm.link, TargetBytes(target), 0, None, true, sleeps);
      RefLoopStops(arm.link, TargetBytes(target), 0, None, sleeps);
      if run.outcome.Pass? {
        forall j | 0 <= j < run.iterations - 1
          ensures KeepsGoing(frames[j], None, j)
        {
          assert KeepsGoing(frames[j], None, 0 + j);
        }
      }
    }
  }

  // ---------------------------------------------------------------------
  // monitor

  /** The position of the first service with the given UUID. */
  function FindService(services: seq<Service>, uuid: string): (r: Option<nat>)
    ensures r.None? <==> forall j :: 0 <= j < |services| ==> services[j].uuid != uuid
    ensures r.Some? ==> r.value < |services| && services[r.value].uuid == uuid
    ensures r.Some? ==> forall j :: 0 <= j < r.value ==> services[j].uuid != uuid
    decreases |services|
  {
    if services == [] then None
    else if services[0].uuid == uuid then Some(0)
    else match FindService(services[1..], uuid)
      case None => None
      case Some(i) => Some(i + 1)
  }

  // ---------------------------------------------------------------------
  // the desk

  class IdasenDesk {
    const mac: string
    const exitOnFail: bool
    /** The BLE client. */
    var link: Link
    /** _moving: a move session is active. */
    var moving: bool
    /** _move_task. */
    var moveTask: MoveTask
    var log: seq<LogLine>
    var sleeps: seq<real>

    constructor (mac: string, exitOnFail: bool, link: Link)
      ensures this.mac == mac && this.exitOnFail == exitOnFail && this.link == link
      ensures !moving && moveTask == NoTask && log == [] && sleeps == []
    {
      this.mac, this.exitOnFail, this.link := mac, exitOnFail, link;
      moving, moveTask, log, sleeps := false, NoTask, [], [];
    }

    /** One write_gatt_char call. */
    method WriteGattChar(w: Write) returns (ok: bool)
      modifies this`link
      ensures ok == WriteChar(old(link), w).ok && link == WriteChar(old(link), w).link
    {
      ok := link.writeCount !in link.writeFaults;
      link := WriteChar(link, w).link;
    }

    /** wakeup: the two DPG frames, then WAKEUP on the command
        characteristic; the first failing write raises. */
    method Wakeup() returns (r: Outcome)
      modifies this`link
      ensures var s := WriteInOrder(old(link), WAKEUP_WRITES);
        link == s.link && r == if s.ok then Pass else Fail(TransportError)
    {
      ghost var l0 := link;
      var ok := WriteGattChar(WAKEUP_WRITES[0]);
      if ok {
        ghost var l1 := link;
        ok := WriteGattChar(WAKEUP_WRITES[1]);
        if ok {
          ghost var l2 := link;
          ok := WriteGattChar(WAKEUP_WRITES[2]);
          assert WriteInOrder(l2, WAKEUP_WRITES[2..]) == Step(ok, link);
          assert WAKEUP_WRITES[1..][1..] == WAKEUP_WRITES[2..];
        }
        assert WAKEUP_WRITES[1..][0] == WAKEUP_WRITES[1];
        assert WriteInOrder(l1, WAKEUP_WRITES[1..]) == Step(ok, link);
      }
      assert WriteInOrder(l0, WAKEUP_WRITES) == Step(ok, link);
      r := if ok then Pass else Fail(TransportError);
    }

    /** One attempt of connect: client.connect(), then wakeup() when the
        connection succeeded. */
    method TryAttempt() returns (ok: bool)
      modifies this`link
      ensures Step(ok, link) == Attempt(old(link))
    {
      var c := Transport.Connect(link);
      link := c.link;
      ok := c.ok;
      if ok {
        var w := Wakeup();
        ok := w.Pass?;
      }
    }

    /** connect: at most RETRY_COUNT + 1 attempts of connect-then-wakeup,
        a warning and a back-off after each failure but the last, and
        "Connection failed" at critical level when they run out. */
    method Connect() returns (r: Outcome)
      modifies this`link, this`log, this`sleeps
      ensures var run := ConnectFrom(0, old(link), exitOnFail);
        && link == run.link && r == run.outcome
        && log == old(log) + ConnectLog(run)
        && sleeps == old(sleeps) + Backoffs(Retries(run))
    {
      ghost var run := ConnectFrom(0, link, exitOnFail);
      ghost var before := link;
      var i: nat := 0;
      var ok := TryAttempt();
      while !ok && i < RETRY_COUNT
        invariant i <= RETRY_COUNT
        invariant ConnectFrom(i, before, exitOnFail) == run
        invariant Step(ok, link) == Attempt(before)
        invariant log == old(log) + RetryWarnings(i)
        invariant sleeps == old(sleeps) + Backoffs(i)
        decreases RETRY_COUNT - i
      {
        ConnectFromStep(i, before, exitOnFail);
        AppendAssoc(old(log), RetryWarnings(i), [RetryWarning(i + 1)]);
        AppendAssoc(old(sleeps), Backoffs(i), [Backoff(i + 1)]);
        i := i + 1;
        log := log + [RetryWarning(i)];
        sleeps := sleeps + [Backoff(i)];
        before := link;
        ok := TryAttempt();
      }
      ConnectFromStep(i, before, exitOnFail);
      if ok {
        AppendAssoc(old(log), RetryWarnings(i), []);
        return Pass;
      }
      AppendAssoc(old(log), RetryWarnings(i), [LogLine(Critical, ConnectionFailed)]);
      log := log + [LogLine(Critical, ConnectionFailed)];
      if exitOnFail {
        return Fail(SystemExit(1));
      }
      r := Fail(TransportError);
    }

    /** move_up: one fire-and-forget UP command. */
    method MoveUp() returns (r: Outcome)
      modifies this`link
      ensures var s := WriteChar(old(link), Write(CommandChar, COMMAND_UP, WithoutResponse));
        link == s.link && r == if s.ok then Pass else Fail(TransportError)
    {
      var ok := WriteGattChar(Write(CommandChar, COMMAND_UP, WithoutResponse));
      r := if ok then Pass else Fail(TransportError);
    }

    /** move_down: one fire-and-forget DOWN command. */
    method MoveDown() returns (r: Outcome)
      modifies this`link
      ensures var s := WriteChar(old(link), Write(CommandChar, COMMAND_DOWN, WithoutResponse));
        link == s.link && r == if s.ok then Pass else Fail(TransportError)
    {
      var ok := WriteGattChar(Write(CommandChar, COMMAND_DOWN, WithoutResponse));
      r := if ok then Pass else Fail(TransportError);
    }

    /** get_height_and_speed: one read of the height characteristic,
        decoded. */
    method GetHeightAndSpeed() returns (r: Result<Reading>)
      modifies this`link
      ensures r == ReadReading(old(link)) && link == AfterRead(old(link))
    {
      var raw := ReadFrame(link);
      link := AfterRead(link);
      if raw.Err? {
        return Err(raw.exception);
      }
      r := BytesToMetersAndSpeed(raw.value);
    }

    /** get_height. */
    method GetHeight() returns (r: Result<real>)
      modifies this`link
      ensures link == AfterRead(old(link))
      ensures ReadReading(old(link)).Ok? ==> r == Ok(ReadReading(old(link)).value.Height())
      ensures ReadReading(old(link)).Err? ==> r == Err(ReadReading(old(link)).exception)
    {
      var hs := GetHeightAndSpeed();
      r := if hs.Ok? then Ok(hs.value.Height()) else Err(hs.exception);
    }

    /** get_speed. */
    method GetSpeed() returns (r: Result<real>)
      modifies this`link
      ensures link == AfterRead(old(link))
      ensures ReadReading(old(link)).Ok? ==> r == Ok(ReadReading(old(link)).value.Speed())
      ensures ReadReading(old(link)).Err? ==> r == Err(ReadReading(old(link)).exception)
    {
      var hs := GetHeightAndSpeed();
      r := if hs.Ok? then Ok(hs.value.Speed()) else Err(hs.exception);
    }

    /** do_move, the body of the move task. */
    method DoMove(target: real, stopDuring: Option<nat>) returns (r: Outcome)
      requires MIN_HEIGHT <= target <= MAX_HEIGHT
      requires moving
      modifies this`link, this`moving, this`sleeps
      ensures var run := DoMoveSpec(old(link), target, stopDuring, old(sleeps));
        link == run.link && moving == run.moving && sleeps == run.sleeps && r == run.outcome
    {
      var current := GetHeight();
      if current.Err? {
        return Fail(current.exception);
      }
      if current.value == target {
        return Pass;
      }
      ghost var l1 := link;
      var ok := WriteGattChar(ARM_WRITES[0]);
      if ok {
        ghost var l2 := link;
        ok := WriteGattChar(ARM_WRITES[1]);
        assert ARM_WRITES[1..][1..] == [];
        assert WriteInOrder(l2, ARM_WRITES[1..]) == Step(ok, link);
      }
      assert WriteInOrder(l1, ARM_WRITES) == Step(ok, link);
      if !ok {
        return Fail(TransportError);
      }
      var data := TargetBytes(target);
      ghost var link0, sleeps0 := link, sleeps;
      var k: nat := 0;
      while moving
        invariant RefLoop(link, data, k, stopDuring, moving, sleeps) == RefLoop(link0, data, 0, stopDuring, true, sleeps0)
        decreases |link.readScript|
      {
        ok := WriteGattChar(TargetWrite(data));
        if !ok {
          return Fail(TransportError);
        }
        sleeps := sleeps + [MOVE_PACE];
        if stopDuring == Some(k) {
          moving := false;
        }
        var speed := GetSpeed();
        k := k + 1;
        if speed.Err? {
          return Fail(speed.exception);
        }
        if speed.value == 0.0 {
          return Pass;
        }
      }
      r := Pass;
    }

    /** move_to_target: both range guards and the already-moving guard act
        before any I/O; a move that ends normally clears the flag, one that
        raises leaves it as it was (there is no finally). */
    method MoveToTarget(target: real, stopDuring: Option<nat>) returns (r: Outcome)
      modifies this`link, this`moving, this`moveTask, this`log, this`sleeps
      ensures target > MAX_HEIGHT ==> r == Fail(AboveMaximum(target)) && unchanged(this)
      ensures target < MIN_HEIGHT ==> r == Fail(BelowMinimum(target)) && unchanged(this)
      ensures MIN_HEIGHT <= target <= MAX_HEIGHT && old(moving) ==>
        && r == Pass && moving && link == old(link) && moveTask == old(moveTask)
        && log == old(log) + [LogLine(Error, AlreadyMoving)] && sleeps == old(sleeps)
      ensures MIN_HEIGHT <= target <= MAX_HEIGHT && !old(moving) ==>
        var run := DoMoveSpec(old(link), target, stopDuring, old(sleeps));
        && link == run.link && sleeps == run.sleeps && log == old(log) && r == run.outcome
        && moveTask == (if run.outcome.Pass? then Completed else Crashed(run.outcome.exception))
        && moving == (run.outcome.Fail? && run.moving)
    {
      if target > MAX_HEIGHT {
        return Fail(AboveMaximum(target));
      } else if target < MIN_HEIGHT {
        return Fail(BelowMinimum(target));
      }
      if moving {
        log := log + [LogLine(Error, AlreadyMoving)];
        return Pass;
      }
      moving := true;
      r := DoMove(target, stopDuring);
      if r.Fail? {
        moveTask := Crashed(r.exception);
        return;
      }
      moveTask := Completed;
      moving := false;
    }

    /** _stop: STOP on the command characteristic and the reference-input
        stop, gathered, both without response. */
    method SendStop() returns (r: Outcome)
      modifies this`link, this`log
      ensures var s := WriteTogether(old(link), STOP_WRITE, REFERENCE_STOP_WRITE);
        link == s.link && r == (if s.ok then Pass else Fail(TransportError))
        && log == old(log) + [LogLine(Debug, SendingStopCommands)]
    {
      log := log + [LogLine(Debug, SendingStopCommands)];
      var ok1 := WriteGattChar(STOP_WRITE);
      var ok2 := WriteGattChar(REFERENCE_STOP_WRITE);
      r := if ok1 && ok2 then Pass else Fail(TransportError);
    }

    /** stop: clears the flag first, awaits the move task if there is one
        (which re-raises what that task raised), then sends the stop pair. */
    method Stop() returns (r: Outcome)
      modifies this`link, this`moving, this`log
      ensures !moving
      ensures old(moveTask).Crashed? ==>
        && r == Fail(old(moveTask).exception) && link == old(link)
        && log == old(log) + [LogLine(Debug, WaitingForStop)]
      ensures !old(moveTask).Crashed? ==>
        var s := WriteTogether(old(link), STOP_WRITE, REFERENCE_STOP_WRITE);
        && link == s.link && r == (if s.ok then Pass else Fail(TransportError))
        && log == old(log) + (if old(moveTask).NoTask? then [] else [LogLine(Debug, WaitingForStop)])
                           + [LogLine(Debug, SendingStopCommands)]
    {
      moving := false;
      if !moveTask.NoTask? {
        log := log + [LogLine(Debug, WaitingForStop)];
        if moveTask.Crashed? {
          return Fail(moveTask.exception);
        }
      }
      r := SendStop();
    }

    /** monitor: checks the callback's arity before anything else, then
        looks for the output service and its characteristic; a missing one
        is logged, not raised. */
    method Monitor(arity: int) returns (r: MonitorResult)
      modifies this`log
      ensures arity != 1 && arity != 2 ==> r == Rejected(InvalidCallback(arity)) && log == old(log)
      ensures (arity == 1 || arity == 2) && FindService(link.services, OUTPUT_SERVICE_UUID).None? ==>
        r == NoOutputService && log == old(log) + [LogLine(Error, OutputServiceNotFound)]
      ensures (arity == 1 || arity == 2) && FindService(link.services, OUTPUT_SERVICE_UUID).Some? ==>
        var service := link.services[FindService(link.services, OUTPUT_SERVICE_UUID).value];
        if OUTPUT_CHAR_UUID in service.characteristics then
          && r.Subscribed? && fresh(r.listener) && r.listener.Valid()
          && r.listener.returnSpeed == (arity == 2) && r.listener.calls == []
          && log == old(log) + [LogLine(Debug, StartingNotify)]
        else
          r == NoOutputChar && log == old(log) + [LogLine(Error, NoOutputCharacteristic)]
    {
      if arity != 1 && arity != 2 {
        return Rejected(InvalidCallback(arity));
      }
      var returnSpeed := arity == 2;
      var i := 0;
      while i < |link.services|
        invariant 0 <= i <= |link.services| && log == old(log)
        invariant forall j :: 0 <= j < i ==> link.services[j].uuid != OUTPUT_SERVICE_UUID
      {
        var service := link.services[i];
        if service.uuid == OUTPUT_SERVICE_UUID {
          assert FindService(link.services, OUTPUT_SERVICE_UUID) == Some(i);
          if OUTPUT_CHAR_UUID !in service.characteristics {
            log := log + [LogLine(Error, NoOutputCharacteristic)];
            return NoOutputChar;
          }
          log := log + [LogLine(Debug, StartingNotify)];
          var listener := new OutputListener(returnSpeed);
          return Subscribed(listener);
        }
        i := i + 1;
      }
      log := log + [LogLine(Error, OutputServiceNotFound)];
      r := NoOutputService;
    }
  }

  /** A stop() that lands during the first iteration of a move: the move
      task completes (unless a read or write raised), the flag is down, and
      the stop pair goes out after the move's own writes. */
  method StopDuringMove(desk: IdasenDesk, target: real) returns (moved: Outcome, stopped: Outcome)
    requires !desk.moving && MIN_HEIGHT <= target <= MAX_HEIGHT
    modifies desk
    ensures !desk.moving
    ensures moved.Pass? ==> desk.moveTask == Completed
    ensures moved.Pass? && stopped.Pass? ==>
      var n := |desk.link.writes|;
      n >= 2 && desk.link.writes[n - 2..] == [STOP_WRITE, REFERENCE_STOP_WRITE]
  {
    moved := desk.MoveToTarget(target, Some(0));
    ghost var before := desk.link;
    stopped := desk.Stop();
    WriteTogetherEffect(before, STOP_WRITE, REFERENCE_STOP_WRITE);
  }
}
