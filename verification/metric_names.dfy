/** The engine's metric keys and the names they are reported under. */
module MetricNames {
  import opened Bytes

  datatype Metric = CommandsSuccessful | CommandsErrored | SessionsStarted | SessionsEnded

  /** The `#[repr(u8)]` discriminant. */
  function MetricCode(m: Metric): (r: uint8)
    ensures r in {0, 1, 10, 11}
  {
    match m
    case CommandsSuccessful => 0
    case CommandsErrored => 1
    case SessionsStarted => 10
    case SessionsEnded => 11
  }

  /** `Metric::name`, as the bytes of the ASCII name (`commands_errored`, ...). */
  function Name(m: Metric): (r: Bytes)
    ensures |r| > 0
  {
    match m
    case CommandsErrored => [99, 111, 109, 109, 97, 110, 100, 115, 95, 101, 114, 114, 111, 114, 101, 100]
    case CommandsSuccessful => [99, 111, 109, 109, 97, 110, 100, 115, 95, 115, 117, 99, 99, 101, 115, 115, 102, 117, 108]
    case SessionsEnded => [115, 101, 115, 115, 105, 111, 110, 115, 95, 101, 110, 100, 101, 100]
    case SessionsStarted => [115, 101, 115, 115, 105, 111, 110, 115, 95, 115, 116, 97, 114, 116, 101, 100]
  }

  /** Distinct metrics have distinct codes and distinct names. */
  lemma NamesDistinct(a: Metric, b: Metric)
    requires a != b
    ensures MetricCode(a) != MetricCode(b)
    ensures Name(a) != Name(b)
  {
  }
}
