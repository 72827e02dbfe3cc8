/** The decision helpers of the command-line front end: verbosity to log
    level, subcommand dispatch, configuration validation and loading, the
    "command line, else configuration file, else error" rule, and the
    read-compare-print loop of its monitor subcommand. */
module Cli {
  import opened Errors
  import opened Codec
  import opened Transport
  import opened Telemetry
  import Desk

  // ---------------------------------------------------------------------
  // count_to_level

  /** The numeric levels of Python's logging module. */
  const DEBUG: int := 10
  const INFO: int := 20
  const WARNING: int := 30
  const ERROR: int := 40
  const CRITICAL: int := 50

  /** count_to_level: each -v lowers the threshold by one level, from
      CRITICAL with none down to DEBUG with four or more. */
  function CountToLevel(count: int): (level: int)
    ensures level == DEBUG <==> count >= 4
    ensures level == CRITICAL <==> count <= 0
    ensures 1 <= count <= 3 ==> level == CRITICAL - 10 * count
    ensures DEBUG <= level <= CRITICAL
  {
    if count == 1 then ERROR
    else if count == 2 then WARNING
    else if count == 3 then INFO
    else if count >= 4 then DEBUG
    else CRITICAL
  }

  /** More -v flags never raise the threshold. */
  lemma CountToLevelMonotone(a: int, b: int)
    requires a <= b
    ensures CountToLevel(b) <= CountToLevel(a)
  {
  }

  // ---------------------------------------------------------------------
  // subcommand_to_callable

  /** The coroutines a subcommand can run. */
  datatype Handler = InitHandler | MonitorHandler | SitHandler | HeightHandler | StandHandler

  /** The subcommand name each handler is registered under. */
  function HandlerName(h: Handler): string {
    match h
    case InitHandler => "init"
    case MonitorHandler => "monitor"
    case SitHandler => "sit"
    case HeightHandler => "height"
    case StandHandler => "stand"
  }

  /** subcommand_to_callable: the handler registered under the name; any
      other name is an internal error. */
  function SubcommandToCallable(sub: string): (r: Result<Handler>)
    ensures r.Ok? <==> sub in ["init", "monitor", "sit", "height", "stand"]
    ensures r.Ok? ==> HandlerName(r.value) == sub
    ensures r.Err? ==> r.exception == UnknownSubcommand(sub)
  {
    if sub == "init" then Ok(InitHandler)
    else if sub == "monitor" then Ok(MonitorHandler)
    else if sub == "sit" then Ok(SitHandler)
    else if sub == "height" then Ok(HeightHandler)
    else if sub == "stand" then Ok(StandHandler)
    else Err(UnknownSubcommand(sub))
  }

  /** Every handler is reached from its own name, so the five names give
      five distinct handlers. */
  lemma DispatchRoundTrip(h: Handler, g: Handler)
    ensures SubcommandToCallable(HandlerName(h)) == Ok(h)
    ensures h != g ==> HandlerName(h) != HandlerName(g)
  {
  }

  // ---------------------------------------------------------------------
  // configuration values and the schema

  /** A value as YAML or argparse produce it. */
  datatype Value = Str(s: string) | Float(x: real) | Int(i: int) | Bool(b: bool) | Null | Other

  /** The number a value stands for when the schema asks for a float or
      an int; a bool is an int to Python, so it is 0 or 1. */
  function Number(v: Value): Option<real> {
    match v
    case Float(x) => Some(x)
    case Int(i) => Some(i as real)
    case Bool(b) => Some(if b then 1.0 else 0.0)
    case _ => None
  }

  /** config_schema on one entry: a 17-character MAC address string, or a
      number within the desk's range for either height; any other key is
      an extra key, which the schema forbids. */
  predicate ValidEntry(key: string, v: Value) {
    if key == "mac_address" then v.Str? && |v.s| == 17
    else if key == "stand_height" || key == "sit_height" then
      Number(v).Some? && MIN_HEIGHT <= Number(v).value <= MAX_HEIGHT
    else false
  }

  /** What yaml.load gives for a file that parsed. */
  datatype Document = Mapping(entries: map<string, Value>) | NotMapping

  /** config_schema: only a mapping passes, and only when every entry does;
      every key is optional. */
  predicate SchemaAccepts(doc: Document) {
    doc.Mapping? && forall k :: k in doc.entries ==> ValidEntry(k, doc.entries[k])
  }

  /** The state of the configuration file. */
  datatype ConfigFile = Missing | Unparsable | Parsed(doc: Document)

  /** load_config: no file is an empty configuration, a file the schema
      rejects ends the program with status 1, and a YAML error propagates. */
  function LoadConfig(file: ConfigFile): (r: Result<map<string, Value>>)
    ensures file.Missing? ==> r == Ok(map[])
    ensures file.Unparsable? ==> r == Err(YamlError)
    ensures file.Parsed? ==>
      if SchemaAccepts(file.doc) then r == Ok(file.doc.entries) else r == Err(SystemExit(1))
    ensures r.Ok? ==> forall k :: k in r.value ==> ValidEntry(k, r.value[k])
  {
    match file
    case Missing => Ok(map[])
    case Unparsable => Err(YamlError)
    case Parsed(doc) => if SchemaAccepts(doc) then Ok(doc.entries) else Err(SystemExit(1))
  }

  /** The default configuration, which init writes when no desk is
      discovered, is one the schema accepts. */
  lemma DefaultConfigAccepted()
    ensures var m := map["stand_height" := Float(1.1), "sit_height" := Float(0.75),
                         "mac_address" := Str("AA:AA:AA:AA:AA:AA")];
      LoadConfig(Parsed(Mapping(m))) == Ok(m)
  {
    var m := map["stand_height" := Float(1.1), "sit_height" := Float(0.75),
                 "mac_address" := Str("AA:AA:AA:AA:AA:AA")];
    assert ValidEntry("mac_address", m["mac_address"]);
    assert SchemaAccepts(Mapping(m));
  }

  /** A file holding an unknown key, an empty file, a short MAC address and
      a height just outside the range all end the program with status 1;
      a height given as true passes, as 1 meter. */
  lemma SchemaRejections()
    ensures LoadConfig(Parsed(Mapping(map["extra_key" := Int(456)]))) == Err(SystemExit(1))
    ensures LoadConfig(Parsed(NotMapping)) == Err(SystemExit(1))
    ensures LoadConfig(Parsed(Mapping(map["mac_address" := Str("AA:AA")]))) == Err(SystemExit(1))
    ensures LoadConfig(Parsed(Mapping(map["sit_height" := Float(0.61)]))) == Err(SystemExit(1))
    ensures LoadConfig(Parsed(Mapping(map["stand_height" := Bool(true)]))).Ok?
  {
    var bad := map["extra_key" := Int(456)];
    assert !ValidEntry("extra_key", bad["extra_key"]);
    var short := map["mac_address" := Str("AA:AA")];
    assert !ValidEntry("mac_address", short["mac_address"]);
    var low := map["sit_height" := Float(0.61)];
    assert !ValidEntry("sit_height", low["sit_height"]);
  }

  // ---------------------------------------------------------------------
  // from_config

  /** from_config on the attributes of the parsed arguments: an attribute
      that exists and is None is taken from the configuration, or is an
      error when the configuration lacks it; anything else is left alone. */
  function ResolveFromConfig(attrs: map<string, Value>, config: map<string, Value>, key: string): (r: Result<map<string, Value>>)
    ensures r.Err? <==> key in attrs && attrs[key] == Null && key !in config
    ensures r.Err? ==> r.exception == ParserError(key)
    ensures r.Ok? ==> r.value.Keys == attrs.Keys
    ensures r.Ok? ==> forall k :: k in attrs && k != key ==> r.value[k] == attrs[k]
    ensures r.Ok? && key in attrs ==>
      r.value[key] == if attrs[key] == Null then config[key] else attrs[key]
  {
    if key in attrs && attrs[key] == Null then
      if key in config then Ok(attrs[key := config[key]]) else Err(ParserError(key))
    else Ok(attrs)
  }

  /** The parsed command-line arguments, whose attributes from_config sets. */
  class Namespace {
    var attrs: map<string, Value>

    constructor (attrs: map<string, Value>)
      ensures this.attrs == attrs
    {
      this.attrs := attrs;
    }

    /** from_config. parser.error ends the program, so on an error the
        attributes stay as they were. */
    method FromConfig(config: map<string, Value>, key: string) returns (r: Outcome)
      modifies this
      ensures var resolved := ResolveFromConfig(old(attrs), config, key);
        && (resolved.Ok? ==> r == Pass && attrs == resolved.value)
        && (resolved.Err? ==> r == Fail(resolved.exception) && attrs == old(attrs))
    {
      if key in attrs && attrs[key] == Null {
        if key in config {
          attrs := attrs[key := config[key]];
        } else {
          return Fail(ParserError(key));
        }
      }
      r := Pass;
    }
  }

  /** A height that was not given on the command line and is taken from a
      configuration the schema accepted is a target move_to_target takes. */
  lemma ConfiguredHeightInRange(attrs: map<string, Value>, file: ConfigFile, key: string)
    requires key == "stand_height" || key == "sit_height"
    requires LoadConfig(file).Ok? && key in attrs && attrs[key] == Null
    ensures var r := ResolveFromConfig(attrs, LoadConfig(file).value, key);
      r.Ok? ==> Number(r.value[key]).Some? && MIN_HEIGHT <= Number(r.value[key]).value <= MAX_HEIGHT
  {
    var config := LoadConfig(file).value;
    if key in config {
      assert ValidEntry(key, config[key]);
    }
  }

  // ---------------------------------------------------------------------
  // the monitor subcommand

  /** The heights of the leading frames that decode, up to the first read
      that raises: the script runs out or the next frame does not decode. */
  function ReadHeights(frames: seq<seq<byte>>): (hs: seq<real>)
    ensures |hs| <= |frames|
    ensures forall i :: 0 <= i < |hs| ==>
      BytesToMetersAndSpeed(frames[i]).Ok? && hs[i] == BytesToMetersAndSpeed(frames[i]).value.Height()
    ensures |hs| == |frames| || BytesToMetersAndSpeed(frames[|hs|]).Err?
    decreases |frames|
  {
    if frames == [] then []
    else match BytesToMetersAndSpeed(frames[0])
      case Err(_) => []
      case Ok(r) => [r.Height()] + ReadHeights(frames[1..])
  }

  /** What the read after those raises: the decode error of the frame that
      does not decode, or the transport error of an exhausted script. */
  function ReadError(frames: seq<seq<byte>>): (e: Exception)
    ensures var n := |ReadHeights(frames)|;
      e == if n < |frames| then DecodeError(|frames[n]|) else TransportError
    decreases |frames|
  {
    if frames == [] then TransportError
    else match BytesToMetersAndSpeed(frames[0])
      case Err(e) => e
      case Ok(_) => ReadError(frames[1..])
  }

  /** The frames left once the read that raises has happened: those after
      the frame that does not decode, or none. */
  function FramesLeft(frames: seq<seq<byte>>): (rest: seq<seq<byte>>)
    ensures var n := |ReadHeights(frames)|;
      rest == if n < |frames| then frames[n + 1..] else []
    decreases |frames|
  {
    if frames == [] then []
    else if BytesToMetersAndSpeed(frames[0]).Err? then frames[1..]
    else FramesLeft(frames[1..])
  }

  /** The heights the monitor subcommand prints for a stream of heights:
      each one that differs by more than THRESHOLD from the reading just
      before it, printed or not. */
  function CliPrinted(previous: real, hs: seq<real>): seq<real>
    decreases |hs|
  {
    if hs == [] then []
    else (if Abs(hs[0] - previous) > THRESHOLD then [hs[0]] else []) + CliPrinted(hs[0], hs[1..])
  }

  /** The reading before the next one: the last of hs, or the start value. */
  function LastOr(previous: real, hs: seq<real>): real {
    if hs == [] then previous else hs[|hs| - 1]
  }

  /** A new height is printed exactly when it is more than THRESHOLD away
      from the last height read, whatever was printed before. */
  lemma {:induction false} CliPrintedSnoc(previous: real, hs: seq<real>, h: real)
    ensures CliPrinted(previous, hs + [h]) ==
      CliPrinted(previous, hs) + if Abs(h - LastOr(previous, hs)) > THRESHOLD then [h] else []
    decreases |hs|
  {
    if hs == [] {
      assert [h][1..] == [];
    } else {
      assert (hs + [h])[1..] == hs[1..] + [h];
      CliPrintedSnoc(hs[0], hs[1..], h);
    }
  }

  /** Printed heights are heights that were read, at most one per read. */
  lemma {:induction false} CliPrintedFromInput(previous: real, hs: seq<real>)
    ensures |CliPrinted(previous, hs)| <= |hs|
    ensures forall y :: y in CliPrinted(previous, hs) ==> y in hs
    decreases |hs|
  {
    if hs != [] {
      CliPrintedFromInput(hs[0], hs[1..]);
      assert hs == [hs[0]] + hs[1..];
    }
  }

  /** The two rules differ on a slow drift of 0.0006 m per reading: the
      library's height-only listener compares with the last value it passed
      on and calls back twice, the subcommand compares with the last value
      it read and prints once. */
  lemma DedupRulesDiffer()
    ensures var hs := [HeightOf(0), HeightOf(6), HeightOf(12)];
      && Dispatched(false, [Sample(hs[0], 0.0), Sample(hs[1], 0.0), Sample(hs[2], 0.0)]) ==
           [Sample(hs[0], 0.0), Sample(hs[2], 0.0)]
      && CliPrinted(0.0, hs) == [hs[0]]
  {
    var a, b, c := Sample(HeightOf(0), 0.0), Sample(HeightOf(6), 0.0), Sample(HeightOf(12), 0.0);
    assert a.height == 0.62 && b.height == 0.6206 && c.height == 0.6212;
    assert [a, b, c][..2] == [a, b] && [a, b][..1] == [a] && [a][..0] == [];
    assert !Suppressed(START, a, false);
    assert Dispatched(false, [a]) == [a];
    assert Suppressed(a, b, false);
    assert Dispatched(false, [a, b]) == [a];
    assert !Suppressed(a, c, false);
    var hs := [HeightOf(0), HeightOf(6), HeightOf(12)];
    assert hs[1..] == [HeightOf(6), HeightOf(12)] && hs[1..][1..] == [HeightOf(12)];
    assert CliPrinted(HeightOf(12), []) == [];
    assert CliPrinted(HeightOf(6), [HeightOf(12)]) == [];
    assert CliPrinted(HeightOf(0), [HeightOf(6), HeightOf(12)]) == [];
  }

  /** With heights as exact reals, a step of exactly THRESHOLD is passed on
      by the listener, whose test is "less than", and not printed by the
      subcommand, whose test is "more than". */
  lemma ThresholdStepDiffers()
    ensures var hs := [HeightOf(0), HeightOf(10)];
      && Dispatched(false, [Sample(hs[0], 0.0), Sample(hs[1], 0.0)]) == [Sample(hs[0], 0.0), Sample(hs[1], 0.0)]
      && CliPrinted(0.0, hs) == [hs[0]]
  {
    var a, d := Sample(HeightOf(0), 0.0), Sample(HeightOf(10), 0.0);
    assert a.height == 0.62 && d.height == 0.621;
    assert [a, d][..1] == [a] && [a][..0] == [];
    assert !Suppressed(START, a, false);
    assert Dispatched(false, [a]) == [a];
    assert !Suppressed(a, d, false);
    var gs := [HeightOf(0), HeightOf(10)];
    assert gs[1..] == [HeightOf(10)];
    assert CliPrinted(HeightOf(10), []) == [];
    assert CliPrinted(HeightOf(0), [HeightOf(10)]) == [];
  }

  /** One read of the loop: a frame that decodes contributes its height
      and passes the rest on; the read that raises ends everything. */
  lemma ReadStep(l: Link)
    ensures var r := ReadReading(l); var rest := AfterRead(l).readScript;
      && (r.Ok? ==> ReadHeights(l.readScript) == [r.value.Height()] + ReadHeights(rest)
                    && ReadError(l.readScript) == ReadError(rest)
                    && FramesLeft(l.readScript) == FramesLeft(rest))
      && (r.Err? ==> ReadHeights(l.readScript) == [] && ReadError(l.readScript) == r.exception
                     && FramesLeft(l.readScript) == rest)
  {
  }

  /** The printed heights of a stream, one reading at a time. */
  lemma CliPrintedCons(previous: real, h: real, hs: seq<real>)
    ensures CliPrinted(previous, [h] + hs) ==
      (if Abs(h - previous) > THRESHOLD then [h] else []) + CliPrinted(h, hs)
  {
    assert ([h] + hs)[1..] == hs;
  }

  /** The loop's bookkeeping: what is printed so far plus what the
      remaining frames will print is what the whole script prints, and the
      remaining frames end the loop as the whole script would. */
  predicate Monitoring(script0: seq<seq<byte>>, script: seq<seq<byte>>, previous: real, printed: seq<real>) {
    && printed + CliPrinted(previous, ReadHeights(script)) == CliPrinted(0.0, ReadHeights(script0))
    && ReadError(script) == ReadError(script0)
    && FramesLeft(script) == FramesLeft(script0)
  }

  /** A read that decodes keeps the bookkeeping, printing the height when
      it moved by more than THRESHOLD. */
  lemma MonitorReadOk(script0: seq<seq<byte>>, l: Link, previous: real, printed: seq<real>)
    requires Monitoring(script0, l.readScript, previous, printed)
    requires ReadReading(l).Ok?
    ensures var h := ReadReading(l).value.Height();
      Monitoring(script0, AfterRead(l).readScript, h, printed + if Abs(h - previous) > THRESHOLD then [h] else [])
  {
    ReadStep(l);
    var h := ReadReading(l).value.Height();
    var rest := ReadHeights(AfterRead(l).readScript);
    CliPrintedCons(previous, h, rest);
    assert (printed + if Abs(h - previous) > THRESHOLD then [h] else []) + CliPrinted(h, rest)
      == printed + CliPrinted(previous, [h] + rest);
  }

  /** The read that raises ends the loop with everything printed. */
  lemma MonitorReadErr(script0: seq<seq<byte>>, l: Link, previous: real, printed: seq<real>)
    requires Monitoring(script0, l.readScript, previous, printed)
    requires ReadReading(l).Err?
    ensures printed == CliPrinted(0.0, ReadHeights(script0))
    ensures ReadReading(l).exception == ReadError(script0)
    ensures AfterRead(l).readScript == FramesLeft(script0)
  {
    ReadStep(l);
  }

  /** monitor: reads the height in a loop and prints it whenever it moved by
      more than THRESHOLD since the previous read. The loop only ends by
      an exception: here the read that raises, which is returned. */
  method MonitorLoop(desk: Desk.IdasenDesk) returns (printed: seq<real>, e: Exception)
    modifies desk`link
    ensures printed == CliPrinted(0.0, ReadHeights(old(desk.link.readScript)))
    ensures e == ReadError(old(desk.link.readScript))
    ensures desk.link == old(desk.link).(readScript := FramesLeft(old(desk.link.readScript)))
  {
    ghost var script0 := desk.link.readScript;
    printed := [];
    var previous := 0.0;
    while true
      invariant Monitoring(script0, desk.link.readScript, previous, printed)
      invariant desk.link == old(desk.link).(readScript := desk.link.readScript)
      decreases |desk.link.readScript|
    {
      ghost var l := desk.link;
      var height := desk.GetHeight();
      if height.Err? {
        MonitorReadErr(script0, l, previous, printed);
        return printed, height.exception;
      }
      MonitorReadOk(script0, l, previous, printed);
      if Abs(height.value - previous) > THRESHOLD {
        printed := printed + [height.value];
      }
      previous := height.value;
    }
  }
}
