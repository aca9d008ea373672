/**
 * The engine: its configuration and builder, the parts it owns (metrics, pubsub
 * registry, sessions, keyspace), and `dispatch`, which hands a request to the
 * handler of its command and counts the outcome.
 */
module Engine {
  import opened Bytes
  import opened Wrappers
  import opened Values
  import opened Errors
  import opened Keyspace
  import opened Requests
  import opened Handlers
  import opened MetricNames
  import CommandIds
  import M = Metrics
  import PubSub
  import Sessions

  /** `usize::MAX` on a 64-bit target. */
  const USIZE_MAX: int := 0xffff_ffff_ffff_ffff

  datatype Config = Config(pubsubEnabled: bool, sessionsActiveMax: uint64)

  /** `Config::default`: pubsub on, and no limit on active sessions short of `usize::MAX`. */
  function DefaultConfig(): (r: Config)
    ensures r.pubsubEnabled && r.sessionsActiveMax == USIZE_MAX
  {
    Config(true, USIZE_MAX)
  }

  datatype Builder = Builder(config: Config)

  /** `Builder::new`: the default configuration. */
  function NewBuilder(): (r: Builder)
    ensures r.config.pubsubEnabled && r.config.sessionsActiveMax == USIZE_MAX
  {
    Builder(DefaultConfig())
  }

  /** `Builder::pubsub_enabled`: sets that field and keeps the other. */
  function WithPubsubEnabled(b: Builder, enabled: bool): (r: Builder)
    ensures r.config.pubsubEnabled == enabled
    ensures r.config.sessionsActiveMax == b.config.sessionsActiveMax
  {
    Builder(b.config.(pubsubEnabled := enabled))
  }

  /** `Builder::sessions_active_max`: sets that field and keeps the other. */
  function WithSessionsActiveMax(b: Builder, max: uint64): (r: Builder)
    ensures r.config.sessionsActiveMax == max
    ensures r.config.pubsubEnabled == b.config.pubsubEnabled
  {
    Builder(b.config.(sessionsActiveMax := max))
  }

  /** The engine's parts: the metrics instance the engine's writer and the session manager share. */
  datatype Hop = Hop(
    config: Config,
    metrics: M.Snapshot<Metric>,
    pubsub: PubSub.Manager,
    sessions: Sessions.SessionManager,
    state: State)

  /**
   * `Builder::build` (through `From<Builder>`): the builder's configuration, with
   * every other part fresh.
   */
  function Build(b: Builder): (r: Hop)
    ensures r.config == b.config
    ensures |r.metrics.counters| == 0 && |r.metrics.gauges| == 0
    ensures |r.pubsub.keys| == 0 && |r.pubsub.sessions| == 0
    ensures r.sessions.nextId == 0 && |r.sessions.sessions| == 0
    ensures |r.state| == 0
  {
    Hop(b.config, M.New(), PubSub.New(), Sessions.New(), map[])
  }

  /** `Hop::new`: the default configuration and fresh parts. */
  function NewHop(): (r: Hop)
    ensures r.config.pubsubEnabled && r.config.sessionsActiveMax == USIZE_MAX
    ensures |r.state| == 0 && |r.metrics.counters| == 0
  {
    Build(NewBuilder())
  }

  /** The builder example from the documentation: pubsub off and at most 150 sessions. */
  lemma BuilderExample()
    ensures var hop := Build(WithSessionsActiveMax(WithPubsubEnabled(NewBuilder(), false), 150));
      !hop.config.pubsubEnabled && hop.config.sessionsActiveMax == 150
  {
  }

  /** The two setters touch different fields, so their order does not matter. */
  lemma SettersCommute(b: Builder, enabled: bool, max: uint64)
    ensures WithSessionsActiveMax(WithPubsubEnabled(b, enabled), max) ==
      WithPubsubEnabled(WithSessionsActiveMax(b, max), enabled)
  {
  }

  /**
   * Whether the handler of the request's command gets through without a panic:
   * every handler that reaches the keyspace with a client's key panics when that
   * key carries the internal prefix.
   */
  predicate Routable(s: State, req: Request) {
    match req.cmd
    case Append => AppendSafe(s, req)
    case Set => SetSafe(req)
    case Is => IsSafe(s, req)
    case Keys => KeysSafe(req)
    case Length => LengthSafe(req)
    case Increment => Requests.Key(req).Some? ==> ChangeSafe(Requests.Key(req).value, req.keyType)
    case IncrementBy => Requests.Key(req).Some? ==> ChangeSafe(Requests.Key(req).value, req.keyType)
    case Decrement => Requests.Key(req).Some? ==> ChangeSafe(Requests.Key(req).value, req.keyType)
    case DecrementBy => Requests.Key(req).Some? ==> ChangeSafe(Requests.Key(req).value, req.keyType)
    case _ => true
  }

  /** `order` is the iteration order of the map a Keys request lists. */
  predicate Visits(s: State, req: Request, order: seq<Bytes>) {
    req.cmd == CommandIds.Keys ==> KeysVisits(s, req, order)
  }

  /** The handler each command id selects; it panics exactly when the request is not routable. */
  function Route(s: State, req: Request, order: seq<Bytes>, arith: FloatArith): (r: Reply)
    requires Visits(s, req, order)
    ensures r.Panicked? <==> !Routable(s, req)
  {
    match req.cmd
    case Append => Append(s, req)
    case DecrementBy => DecrementBy(s, req, arith)
    case Decrement => Decrement(s, req, arith)
    case Delete => Delete(s, req)
    case Echo => Echo(s, req)
    case Exists => Exists(s, req)
    case Increment => Increment(s, req, arith)
    case IncrementBy => IncrementBy(s, req, arith)
    case Is => Is(s, req)
    case Rename => Rename(s, req)
    case Set => Set(s, req)
    case Stats => Stats(s, req)
    case Length => Length(s, req)
    case Keys => Keys(s, req, order)
  }

  /** The counter a command outcome is counted under. */
  function Outcome(result: Result<Value, DispatchError>): Metric {
    if result.Ok? then CommandsSuccessful else CommandsErrored
  }

  /**
   * What a dispatch comes to: the engine afterwards and the handler's result, or
   * the engine as a handler's panic left it when the panic unwinds out of
   * `dispatch`.
   */
  datatype Dispatched = Dispatched(hop: Hop, result: Result<Value, DispatchError>) | Unwound(hop: Hop)

  /**
   * `Hop::dispatch`: the handler's keyspace and result, unchanged, with exactly
   * one counter bumped, CommandsSuccessful on success and CommandsErrored on
   * failure; nothing else in the engine changes. A handler's panic unwinds before
   * the counter is reached, leaving the keyspace as the handler left it. `order`
   * is the iteration order of the map a Keys request lists, and `arith` the
   * floating-point arithmetic.
   */
  function Dispatch(hop: Hop, req: Request, order: seq<Bytes>, arith: FloatArith): (r: Dispatched)
    requires Visits(hop.state, req, order)
    ensures r.Unwound? <==> !Routable(hop.state, req)
    ensures r.hop.state == Route(hop.state, req, order, arith).state
    ensures r.Dispatched? ==> r.result == Route(hop.state, req, order, arith).response
    ensures r.hop.config == hop.config && r.hop.pubsub == hop.pubsub && r.hop.sessions == hop.sessions
    ensures r.Unwound? ==> r.hop.metrics == hop.metrics
    ensures r.hop.metrics.gauges == hop.metrics.gauges
    ensures r.Dispatched? ==>
      r.hop.metrics.counters == hop.metrics.counters[Outcome(r.result) := M.Bumped(hop.metrics, Outcome(r.result))]
  {
    match Route(hop.state, req, order, arith)
    case Panicked(state) => Unwound(hop.(state := state))
    case Replied(state, result) =>
      var counted := M.Increment(Some(hop.metrics), Outcome(result)).0;
      assert counted.value.counters == hop.metrics.counters[Outcome(result) := M.Bumped(hop.metrics, Outcome(result))];
      Dispatched(hop.(state := state, metrics := counted.value), result)
  }

  /** The number of commands counted so far, successful or not. */
  function Counted(m: M.Snapshot<Metric>): nat {
    (if CommandsSuccessful in m.counters then m.counters[CommandsSuccessful] as int else 0) +
    (if CommandsErrored in m.counters then m.counters[CommandsErrored] as int else 0)
  }

  /**
   * Short of a counter wrapping, every dispatch that returns adds exactly one to
   * the commands counted, and one that unwinds adds nothing.
   */
  lemma DispatchCountsOnce(hop: Hop, req: Request, order: seq<Bytes>, arith: FloatArith)
    requires Visits(hop.state, req, order)
    requires forall m :: m in hop.metrics.counters ==> hop.metrics.counters[m] < USIZE_MAX
    ensures var r := Dispatch(hop, req, order, arith);
      Counted(r.hop.metrics) == Counted(hop.metrics) + if r.Dispatched? then 1 else 0
  {
    var r := Dispatch(hop, req, order, arith);
    NamesDistinct(CommandsSuccessful, CommandsErrored);
    if r.Unwound? {
    } else if r.result.Ok? {
      assert r.hop.metrics.counters[CommandsSuccessful] == Counted(hop.metrics) -
        (if CommandsErrored in hop.metrics.counters then hop.metrics.counters[CommandsErrored] else 0) + 1;
    } else {
      assert r.hop.metrics.counters[CommandsErrored] == Counted(hop.metrics) -
        (if CommandsSuccessful in hop.metrics.counters then hop.metrics.counters[CommandsSuccessful] else 0) + 1;
    }
  }

  /** A few routes spelled out: an echo answers with its arguments and a stats request with "Pong!", state untouched. */
  lemma DispatchEchoAndStats(hop: Hop, req: Request, order: seq<Bytes>, arith: FloatArith)
    requires req.cmd == CommandIds.Echo || req.cmd == CommandIds.Stats
    ensures Dispatch(hop, req, order, arith).Dispatched?
    ensures Dispatch(hop, req, order, arith).hop.state == hop.state
    ensures req.cmd == CommandIds.Echo ==> Dispatch(hop, req, order, arith).result == Echo(hop.state, req).response
    ensures req.cmd == CommandIds.Stats ==> Dispatch(hop, req, order, arith).result == Ok(StringValue(Pong))
  {
  }

  /**
   * Dispatching a delete removes the key exactly when the delete handler does, and
   * counts the outcome; an internal key is deleted like any other.
   */
  lemma DispatchDelete(hop: Hop, req: Request, order: seq<Bytes>, arith: FloatArith)
    requires req.cmd == CommandIds.Delete
    ensures Dispatch(hop, req, order, arith).Dispatched?
    ensures Dispatch(hop, req, order, arith).hop.state == Delete(hop.state, req).state
    ensures Dispatch(hop, req, order, arith).result == Delete(hop.state, req).response
  {
  }

  /**
   * A client key with the internal prefix, sent without a key type to any command
   * that reaches the keyspace with it, makes `dispatch` panic: nothing is counted
   * and the keyspace is left as it was.
   */
  lemma DispatchInternalUnwinds(hop: Hop, req: Request, order: seq<Bytes>, arith: FloatArith)
    requires req.cmd in {CommandIds.Append, CommandIds.Is, CommandIds.Keys, CommandIds.Length,
      CommandIds.Increment, CommandIds.IncrementBy, CommandIds.Decrement, CommandIds.DecrementBy}
    requires Visits(hop.state, req, order)
    requires Requests.Key(req).Some? && IsInternal(Requests.Key(req).value)
    requires req.cmd == CommandIds.Is ==> req.keyType.Some? && ArgCount(req) > 0
    requires req.cmd != CommandIds.Is ==> req.keyType.None?
    requires req.cmd == CommandIds.Append ==> AppendKind(hop.state, req, Requests.Key(req).value) == BytesType
    ensures Dispatch(hop, req, order, arith) == Unwound(hop)
  {
    var key := Requests.Key(req).value;
    if req.cmd == CommandIds.Is {
      assert Collect(req, 0, ArgCount(req))[0] == key;
    } else if req.cmd == CommandIds.Append {
      assert Arg(req, 0) == Some(key);
    }
  }
}
