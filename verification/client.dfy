/**
 * The client library's checks before a request is sent: the statistics reply
 * read as integers, and the key lists of `exists` and `is`, which must fit the
 * request's one-byte argument count.
 */
module Client {
  import opened Bytes
  import opened Wrappers
  import opened Values
  import M = MetricNames

  /** The statistics reply: metric names to their values' bytes. */
  type StatsData = map<Bytes, Bytes>

  /**
   * `StatsData::int`: the metric's entry read as a big-endian `i64`; an entry
   * that is missing, or that is not eight bytes long, reads as 0.
   */
  function Int(stats: StatsData, m: M.Metric): (r: int64)
    ensures M.Name(m) !in stats ==> r == 0
    ensures M.Name(m) in stats && |stats[M.Name(m)]| != 8 ==> r == 0
    ensures M.Name(m) in stats && |stats[M.Name(m)]| == 8 ==> I64BE(r) == stats[M.Name(m)]
  {
    if M.Name(m) in stats && |stats[M.Name(m)]| == 8 then
      I64RoundTripBytes(stats[M.Name(m)]);
      I64FromBE(stats[M.Name(m)])
    else 0
  }

  // The four accessors, each reading its own metric's entry.

  function CommandsErrored(stats: StatsData): (r: int64)
    ensures M.Name(M.CommandsErrored) !in stats ==> r == 0
    ensures M.Name(M.CommandsErrored) in stats && |stats[M.Name(M.CommandsErrored)]| != 8 ==> r == 0
    ensures M.Name(M.CommandsErrored) in stats && |stats[M.Name(M.CommandsErrored)]| == 8 ==> I64BE(r) == stats[M.Name(M.CommandsErrored)]
  {
    Int(stats, M.CommandsErrored)
  }

  function CommandsSuccessful(stats: StatsData): (r: int64)
    ensures M.Name(M.CommandsSuccessful) !in stats ==> r == 0
    ensures M.Name(M.CommandsSuccessful) in stats && |stats[M.Name(M.CommandsSuccessful)]| != 8 ==> r == 0
    ensures M.Name(M.CommandsSuccessful) in stats && |stats[M.Name(M.CommandsSuccessful)]| == 8 ==> I64BE(r) == stats[M.Name(M.CommandsSuccessful)]
  {
    Int(stats, M.CommandsSuccessful)
  }

  function SessionsEnded(stats: StatsData): (r: int64)
    ensures M.Name(M.SessionsEnded) !in stats ==> r == 0
    ensures M.Name(M.SessionsEnded) in stats && |stats[M.Name(M.SessionsEnded)]| != 8 ==> r == 0
    ensures M.Name(M.SessionsEnded) in stats && |stats[M.Name(M.SessionsEnded)]| == 8 ==> I64BE(r) == stats[M.Name(M.SessionsEnded)]
  {
    Int(stats, M.SessionsEnded)
  }

  function SessionsStarted(stats: StatsData): (r: int64)
    ensures M.Name(M.SessionsStarted) !in stats ==> r == 0
    ensures M.Name(M.SessionsStarted) in stats && |stats[M.Name(M.SessionsStarted)]| != 8 ==> r == 0
    ensures M.Name(M.SessionsStarted) in stats && |stats[M.Name(M.SessionsStarted)]| == 8 ==> I64BE(r) == stats[M.Name(M.SessionsStarted)]
  {
    Int(stats, M.SessionsStarted)
  }

  /** A metric written as its eight bytes reads back as written. */
  lemma IntRoundTrip(stats: StatsData, m: M.Metric, x: int64)
    ensures Int(stats[M.Name(m) := I64BE(x)], m) == x
  {
    I64RoundTrip(x);
  }

  /** Whatever is stored under another metric's name, a metric reads the same. */
  lemma IntReadsOwnEntry(stats: StatsData, m: M.Metric, other: M.Metric, v: Bytes)
    requires other != m
    ensures Int(stats[M.Name(other) := v], m) == Int(stats, m)
  {
    M.NamesDistinct(m, other);
  }

  /** Each accessor reads its own metric: another metric's entry never changes what it gives. */
  lemma AccessorsReadOwnMetric(stats: StatsData, other: M.Metric, v: Bytes)
    ensures other != M.CommandsErrored ==> CommandsErrored(stats[M.Name(other) := v]) == CommandsErrored(stats)
    ensures other != M.CommandsSuccessful ==> CommandsSuccessful(stats[M.Name(other) := v]) == CommandsSuccessful(stats)
    ensures other != M.SessionsEnded ==> SessionsEnded(stats[M.Name(other) := v]) == SessionsEnded(stats)
    ensures other != M.SessionsStarted ==> SessionsStarted(stats[M.Name(other) := v]) == SessionsStarted(stats)
  {
    if other != M.CommandsErrored { IntReadsOwnEntry(stats, M.CommandsErrored, other, v); }
    if other != M.CommandsSuccessful { IntReadsOwnEntry(stats, M.CommandsSuccessful, other, v); }
    if other != M.SessionsEnded { IntReadsOwnEntry(stats, M.SessionsEnded, other, v); }
    if other != M.SessionsStarted { IntReadsOwnEntry(stats, M.SessionsStarted, other, v); }
  }

  // `exists` and `is`.

  /** `ExistsError` and `CommandConfigurationError`: the same two refusals. */
  datatype KeysError = NoKeys | TooManyKeys

  /** The most keys a request can carry: its argument count is one byte. */
  const MaxKeys: nat := 255

  datatype ExistsConfigured = ExistsConfigured(keys: seq<Bytes>)

  datatype IsConfigured = IsConfigured(keyType: KeyType, keys: seq<Bytes>)

  /** `Exists::key`: one key, never refused. */
  function ExistsKey(key: Bytes): (r: ExistsConfigured)
    ensures |r.keys| == 1 && r.keys[0] == key
  {
    ExistsConfigured([key])
  }

  /** `Exists::keys`: no keys, or more than 255, are refused; otherwise the keys, in order. */
  function ExistsKeys(keys: seq<Bytes>): (r: Result<ExistsConfigured, KeysError>)
    ensures r == Err(NoKeys) <==> |keys| == 0
    ensures r == Err(TooManyKeys) <==> |keys| > MaxKeys
    ensures r.Ok? ==> r.value.keys == keys
  {
    if |keys| == 0 then Err(NoKeys)
    else if |keys| > MaxKeys then Err(TooManyKeys)
    else Ok(ExistsConfigured(keys))
  }

  /** `Is::key`: one key with the key type asked about, never refused. */
  function IsKey(keyType: KeyType, key: Bytes): (r: IsConfigured)
    ensures r.keyType == keyType && |r.keys| == 1 && r.keys[0] == key
  {
    IsConfigured(keyType, [key])
  }

  /** `Is::keys`: as `Exists::keys`, keeping the key type asked about. */
  function IsKeys(keyType: KeyType, keys: seq<Bytes>): (r: Result<IsConfigured, KeysError>)
    ensures r == Err(NoKeys) <==> |keys| == 0
    ensures r == Err(TooManyKeys) <==> |keys| > MaxKeys
    ensures r.Ok? ==> r.value.keys == keys && r.value.keyType == keyType
  {
    if |keys| == 0 then Err(NoKeys)
    else if |keys| > MaxKeys then Err(TooManyKeys)
    else Ok(IsConfigured(keyType, keys))
  }

  /**
   * The key lists accepted are exactly those whose length the request's count
   * byte holds without wrapping and that are not empty; one key is the same
   * request whichever way it is given.
   */
  lemma KeysAcceptedFit(keyType: KeyType, keys: seq<Bytes>, key: Bytes)
    ensures ExistsKeys(keys).Ok? <==> |keys| > 0 && AsU8(|keys|) == |keys|
    ensures IsKeys(keyType, keys).Ok? <==> ExistsKeys(keys).Ok?
    ensures ExistsKeys([key]) == Ok(ExistsKey(key))
    ensures IsKeys(keyType, [key]) == Ok(IsKey(keyType, key))
  {
    if |keys| > MaxKeys {
      assert AsU8(|keys|) < 256 <= |keys|;
    }
  }
}
