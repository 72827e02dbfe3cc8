/** The exceptions the desk library and its command-line helpers raise, and
    the result wrappers the model returns in place of raising them. */
module Errors {

  datatype Option<+T> = None | Some(value: T)

  /** One constructor per exception the modelled code can raise. */
  datatype Exception =
    | TransportError                // the BLE stack failed a connect, read or write
    | DecodeError(length: nat)      // AssertionError: a telemetry frame that is not 4 bytes long
    | PackError(counter: int)       // struct.error: a counter outside the unsigned 16-bit range
    | AboveMaximum(target: real)    // ValueError: target higher than MAX_HEIGHT
    | BelowMinimum(target: real)    // ValueError: target lower than MIN_HEIGHT
    | InvalidCallback(arity: int)   // ValueError: monitor callback with neither 1 nor 2 parameters
    | SystemExit(code: int)         // sys.exit
    | ParserError(key: string)      // argparse's parser.error for a setting given nowhere
    | UnknownSubcommand(name: string) // AssertionError: internal error in subcommand dispatch
    | YamlError                     // the configuration file could not be parsed

  /** A value, or the exception raised instead of returning one. */
  datatype Result<+T> = Ok(value: T) | Err(exception: Exception)

  /** The outcome of an operation that returns nothing. */
  datatype Outcome = Pass | Fail(exception: Exception)
}
