/** The BLE client the desk talks through, abstracted to a value: connect
    outcomes and frames read from the height characteristic come from scripts,
    writes either fail (as scripted by their position) or go to a log. */
module Transport {
  import opened Errors
  import opened Codec

  /** The GATT characteristics the desk writes to or reads from. */
  datatype Characteristic = HeightChar | CommandChar | ReferenceInputChar | DpgChar

  /** Whether a write passes response=False or leaves the client's default. */
  datatype Response = DefaultResponse | WithoutResponse

  datatype Write = Write(target: Characteristic, data: seq<byte>, response: Response)

  /** A GATT service: its UUID and the UUIDs of its characteristics. */
  datatype Service = Service(uuid: string, characteristics: seq<string>)

  /** The state of the link.
      connectScript: outcomes of the following connect calls; a call past its end fails.
      writeFaults:   positions (counted from 0 over the link's lifetime) of writes that fail.
      readScript:    frames the following reads return; a read past its end fails.
      writes:        every write that succeeded, in order. */
  datatype Link = Link(
    connected: bool,
    connectScript: seq<bool>,
    writeFaults: set<nat>,
    writeCount: nat,
    readScript: seq<seq<byte>>,
    services: seq<Service>,
    writes: seq<Write>)

  /** Whether a call succeeded, and the link after it. */
  datatype Step = Step(ok: bool, link: Link)

  /** BleakClient.connect. */
  function Connect(l: Link): Step {
    if |l.connectScript| == 0 then Step(false, l)
    else
      var ok := l.connectScript[0];
      Step(ok, l.(connected := l.connected || ok, connectScript := l.connectScript[1..]))
  }

  /** BleakClient.write_gatt_char. */
  function WriteChar(l: Link, w: Write): Step {
    var ok := l.writeCount !in l.writeFaults;
    Step(ok, l.(writeCount := l.writeCount + 1, writes := if ok then l.writes + [w] else l.writes))
  }

  /** Writes awaited one after the other: the first failure raises and the
      writes after it are not attempted. */
  function WriteInOrder(l: Link, ws: seq<Write>): Step
    decreases |ws|
  {
    if ws == [] then Step(true, l)
    else
      var s := WriteChar(l, ws[0]);
      if !s.ok then s else WriteInOrder(s.link, ws[1..])
  }

  /** Two writes gathered together: both are attempted, and the call fails
      when either does. */
  function WriteTogether(l: Link, w1: Write, w2: Write): Step {
    var a := WriteChar(l, w1);
    var b := WriteChar(a.link, w2);
    Step(a.ok && b.ok, b.link)
  }

  /** Only the write counter and the write log differ between two links. */
  predicate SameButWrites(l: Link, l': Link) {
    l'.(writeCount := l.writeCount, writes := l.writes) == l
  }

  /** None of the next n writes on the link is a scripted fault. */
  predicate FaultFree(l: Link, n: nat) {
    forall j :: l.writeCount <= j < l.writeCount + n ==> j !in l.writeFaults
  }

  /** WriteInOrder attempts the writes in order up to the first failing
      one, logs exactly those before it, and touches nothing else. */
  lemma WriteInOrderEffect(l: Link, ws: seq<Write>)
    ensures var s := WriteInOrder(l, ws); var n := s.link.writeCount - l.writeCount;
      && SameButWrites(l, s.link)
      && (s.ok <==> FaultFree(l, |ws|))
      && (s.ok ==> n == |ws| && s.link.writes == l.writes + ws)
      && (!s.ok ==> 1 <= n <= |ws| && FaultFree(l, n - 1) && l.writeCount + n - 1 in l.writeFaults
                    && s.link.writes == l.writes + ws[..n - 1])
  {
    WriteInOrderFrame(l, ws);
    WriteInOrderLog(l, ws);
  }

  lemma {:induction false} WriteInOrderFrame(l: Link, ws: seq<Write>)
    ensures SameButWrites(l, WriteInOrder(l, ws).link)
    ensures WriteInOrder(l, ws).link.writeCount >= l.writeCount
    decreases |ws|
  {
    if ws != [] {
      var s := WriteChar(l, ws[0]);
      if s.ok {
        WriteInOrderFrame(s.link, ws[1..]);
      }
    }
  }

  lemma WriteInOrderLog(l: Link, ws: seq<Write>)
    ensures var s := WriteInOrder(l, ws); var n := s.link.writeCount - l.writeCount;
      && (s.ok <==> FaultFree(l, |ws|))
      && (s.ok ==> n == |ws| && s.link.writes == l.writes + ws)
      && (!s.ok ==> 1 <= n <= |ws| && FaultFree(l, n - 1) && l.writeCount + n - 1 in l.writeFaults
                    && s.link.writes == l.writes + ws[..n - 1])
  {
    WriteInOrderOk(l, ws);
    WriteInOrderFails(l, ws);
  }

  /** One write: it fails exactly at a scripted fault position, and only a
      successful one is logged. */
  lemma WriteCharEffect(l: Link, w: Write)
    ensures var s := WriteChar(l, w);
      && s.link.writeFaults == l.writeFaults && s.link.writeCount == l.writeCount + 1
      && (s.ok <==> l.writeCount !in l.writeFaults)
      && s.link.writes == if s.ok then l.writes + [w] else l.writes
  {
  }

  /** The next n + 1 writes are fault-free when the next one is and the n
      after it are. */
  lemma FaultFreeStep(l: Link, l': Link, n: nat)
    requires l'.writeFaults == l.writeFaults && l'.writeCount == l.writeCount + 1
    ensures FaultFree(l, n + 1) <==> l.writeCount !in l.writeFaults && FaultFree(l', n)
  {
    if l.writeCount !in l.writeFaults && FaultFree(l', n) {
      forall j | l.writeCount <= j < l.writeCount + n + 1
        ensures j !in l.writeFaults
      {
        if j > l.writeCount { assert l'.writeCount <= j < l'.writeCount + n; }
      }
    }
  }

  /** Without a fault among their positions all writes are logged. */
  lemma {:induction false} WriteInOrderOk(l: Link, ws: seq<Write>)
    ensures var s := WriteInOrder(l, ws);
      s.ok <==> FaultFree(l, |ws|)
    ensures var s := WriteInOrder(l, ws);
      s.ok ==> s.link.writeCount == l.writeCount + |ws| && s.link.writes == l.writes + ws
    decreases |ws|
  {
    if ws != [] {
      var s := WriteChar(l, ws[0]);
      WriteCharEffect(l, ws[0]);
      FaultFreeStep(l, s.link, |ws| - 1);
      if s.ok {
        WriteInOrderOk(s.link, ws[1..]);
        assert l.writes + ws == l.writes + [ws[0]] + ws[1..];
      }
    }
  }

  /** A failing run stops at its first fault, having logged the writes
      before it. */
  lemma {:induction false} WriteInOrderFails(l: Link, ws: seq<Write>)
    ensures var s := WriteInOrder(l, ws); var n := s.link.writeCount - l.writeCount;
      !s.ok ==> 1 <= n <= |ws| && FaultFree(l, n - 1) && l.writeCount + n - 1 in l.writeFaults
                && s.link.writes == l.writes + ws[..n - 1]
    decreases |ws|
  {
    if ws != [] {
      var s := WriteChar(l, ws[0]);
      WriteCharEffect(l, ws[0]);
      if s.ok {
        WriteInOrderFails(s.link, ws[1..]);
        var t := WriteInOrder(s.link, ws[1..]);
        assert WriteInOrder(l, ws) == t;
        if !t.ok {
          var m := t.link.writeCount - s.link.writeCount;
          FaultFreeStep(l, s.link, m - 1);
          calc {
            t.link.writes;
            s.link.writes + ws[1..][..m - 1];
            l.writes + [ws[0]] + ws[1..][..m - 1];
            { assert ws[..m] == [ws[0]] + ws[1..][..m - 1]; }
            l.writes + ws[..m];
          }
        }
      } else {
        assert ws[..0] == [];
      }
    }
  }

  /** The two gathered writes are both logged unless one of their
      positions is a scripted fault. */
  lemma WriteTogetherEffect(l: Link, w1: Write, w2: Write)
    ensures var s := WriteTogether(l, w1, w2);
      && SameButWrites(l, s.link)
      && s.link.writeCount == l.writeCount + 2
      && (s.ok <==> l.writeCount !in l.writeFaults && l.writeCount + 1 !in l.writeFaults)
      && (s.ok ==> s.link.writes == l.writes + [w1, w2])
  {
  }

  /** BleakClient.read_gatt_char on the height characteristic. */
  function ReadFrame(l: Link): Result<seq<byte>> {
    if |l.readScript| == 0 then Err(TransportError) else Ok(l.readScript[0])
  }

  /** The link after a read. */
  function AfterRead(l: Link): Link {
    if |l.readScript| == 0 then l else l.(readScript := l.readScript[1..])
  }

  /** get_height_and_speed: a read decoded by the codec. */
  function ReadReading(l: Link): (r: Result<Reading>)
    ensures r.Ok? ==> |l.readScript| > 0 && BytesToMetersAndSpeed(l.readScript[0]) == r
    ensures |l.readScript| == 0 ==> r == Err(TransportError)
    ensures |l.readScript| > 0 && BytesToMetersAndSpeed(l.readScript[0]).Err? ==> r == Err(DecodeError(|l.readScript[0]|))
  {
    match ReadFrame(l)
    case Err(e) => Err(e)
    case Ok(raw) => BytesToMetersAndSpeed(raw)
  }
}
