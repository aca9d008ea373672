/**
 * The session manager: sessions under 32-bit ids handed out by a counter that
 * wraps around, and the SessionsStarted counter each new session bumps.
 */
module Sessions {
  import opened Bytes
  import opened Wrappers
  import opened MetricNames
  import M = Metrics

  const TWO_32: int := 0x1_0000_0000

  /** A client's 32-byte token and the id it was given. */
  datatype Session = Session(clientToken: Bytes, id: uint32)

  datatype SessionManager = SessionManager(nextId: uint32, sessions: map<uint32, Session>)

  /** `SessionManager::new`: no sessions, and the first id is 0. */
  function New(): (r: SessionManager)
    ensures r.nextId == 0 && |r.sessions| == 0
  {
    SessionManager(0, map[])
  }

  /**
   * What `add` comes to: the new session, or the `unreachable!` panic on an id
   * still in use, which leaves the manager and the metrics as they were.
   */
  datatype AddOutcome =
    | Added(mgr: SessionManager, metrics: M.Handle<Metric>, session: Session)
    | Panicked(mgr: SessionManager, metrics: M.Handle<Metric>)

  /**
   * `SessionManager::add`: stores a session under the current id, counts it in
   * SessionsStarted and moves the id on by one, wrapping at 2^32. The source
   * calls an id already in use unreachable, but once the counter has wrapped it
   * can be reached, and then `add` panics before anything changes.
   */
  function Add(mgr: SessionManager, metrics: M.Handle<Metric>, token: Bytes): (r: AddOutcome)
    requires |token| == 32
    ensures r.Panicked? <==> mgr.nextId in mgr.sessions
    ensures r.Panicked? ==> r.mgr == mgr && r.metrics == metrics
    ensures r.Added? ==> r.session == Session(token, mgr.nextId)
    ensures r.Added? ==> r.mgr.sessions == mgr.sessions[mgr.nextId := r.session]
    ensures r.Added? ==> r.mgr.nextId == (mgr.nextId + 1) % TWO_32
    ensures r.Added? ==> r.metrics == M.Increment(metrics, SessionsStarted).0
  {
    if mgr.nextId in mgr.sessions then Panicked(mgr, metrics)
    else
      var session := Session(token, mgr.nextId);
      var counted := M.Increment(metrics, SessionsStarted).0;
      Added(SessionManager((mgr.nextId + 1) % TWO_32, mgr.sessions[mgr.nextId := session]), counted, session)
  }

  /** `SessionManager::remove`: whether the id was present; afterwards it is not. */
  function Remove(mgr: SessionManager, id: uint32): (r: (SessionManager, bool))
    ensures r.1 <==> id in mgr.sessions
    ensures r.0.sessions == mgr.sessions - {id} && r.0.nextId == mgr.nextId
  {
    (mgr.(sessions := mgr.sessions - {id}), id in mgr.sessions)
  }

  /** Every session in use was given an id below the next one, under the id it carries. */
  predicate Allocated(mgr: SessionManager) {
    forall id :: id in mgr.sessions ==> id < mgr.nextId && mgr.sessions[id].id == id
  }

  /**
   * Until the counter wraps, adding keeps every id below the next one, so the id
   * `add` uses next is always free; removing keeps it too.
   */
  lemma AllocatedPreserved(mgr: SessionManager, metrics: M.Handle<Metric>, token: Bytes, id: uint32)
    requires Allocated(mgr) && |token| == 32
    ensures mgr.nextId !in mgr.sessions
    ensures Add(mgr, metrics, token).Added?
    ensures mgr.nextId + 1 < TWO_32 ==> Allocated(Add(mgr, metrics, token).mgr)
    ensures Allocated(Remove(mgr, id).0)
  {
  }

  /** The manager after `n` sessions were added to a fresh one, each with the same token. */
  function AddMany(n: nat, metrics: M.Handle<Metric>, token: Bytes): (r: (SessionManager, M.Handle<Metric>))
    requires |token| == 32 && n < TWO_32
    ensures Allocated(r.0) && r.0.nextId == n
    decreases n
  {
    if n == 0 then (New(), metrics)
    else
      var before := AddMany(n - 1, metrics, token);
      var after := Add(before.0, before.1, token);
      (after.mgr, after.metrics)
  }

  /** From a fresh manager, `n` adds (fewer than 2^32) store exactly the ids 0..n-1. */
  lemma {:induction false} AddManyIds(n: nat, metrics: M.Handle<Metric>, token: Bytes)
    requires |token| == 32 && n < TWO_32
    ensures forall id: uint32 :: id in AddMany(n, metrics, token).0.sessions <==> id < n
    decreases n
  {
    if n > 0 {
      AddManyIds(n - 1, metrics, token);
    }
  }

  /**
   * Starting from a live instance without the counter, `n` adds (fewer than
   * 2^32) keep the instance alive and bump SessionsStarted `n` times.
   */
  lemma {:induction false} AddManyCounts(n: nat, m: M.Snapshot<Metric>, token: Bytes)
    requires |token| == 32 && n < TWO_32
    requires SessionsStarted !in m.counters
    ensures AddMany(n, Some(m), token).1.Some?
    ensures n > 0 ==> M.Counter(AddMany(n, Some(m), token).1, SessionsStarted) == Some(n)
    decreases n
  {
    if n > 0 {
      AddManyCounts(n - 1, m, token);
      var before := AddMany(n - 1, Some(m), token).1;
      if n == 1 {
        assert before == Some(m);
      } else {
        assert M.Counter(before, SessionsStarted) == Some(n - 1);
      }
      M.IncrementCounts(before, SessionsStarted, n - 1);
      AddManyStep(n, Some(m), token);
    }
  }

  /** The `n`-th add is one more increment of SessionsStarted. */
  lemma AddManyStep(n: nat, metrics: M.Handle<Metric>, token: Bytes)
    requires |token| == 32 && 0 < n < TWO_32
    ensures AddMany(n, metrics, token).1 == M.Increment(AddMany(n - 1, metrics, token).1, SessionsStarted).0
  {
  }

  /** At the last id the counter wraps to 0, which may still be in use. */
  lemma WrapsToZero(mgr: SessionManager, metrics: M.Handle<Metric>, token: Bytes)
    requires mgr.nextId == TWO_32 - 1 && mgr.nextId !in mgr.sessions && |token| == 32
    ensures Add(mgr, metrics, token).Added? && Add(mgr, metrics, token).mgr.nextId == 0
  {
  }

  /**
   * The `unreachable!` arm is reachable: with session 0 still live when the
   * counter wraps, the next add panics and changes nothing.
   */
  lemma WrappedIdPanics(mgr: SessionManager, metrics: M.Handle<Metric>, token: Bytes)
    requires mgr.nextId == TWO_32 - 1 && mgr.nextId !in mgr.sessions && 0 in mgr.sessions && |token| == 32
    ensures var wrapped := Add(mgr, metrics, token);
      wrapped.Added? && Add(wrapped.mgr, wrapped.metrics, token) == Panicked(wrapped.mgr, wrapped.metrics)
  {
    WrapsToZero(mgr, metrics, token);
  }
}
