/**
 * The pubsub registry: for each key the set of sessions subscribed to it, and
 * for each session the subscriptions it holds by key. A subscription's channel
 * is abstracted to the session and key it serves; closing it is reported as
 * the set of keys whose subscriptions were closed.
 */
module PubSub {
  import opened Bytes
  import opened Wrappers

  type SessionId = uint32

  /** A handle on the subscription a session holds for a key. */
  datatype Subscription = Subscription(session: SessionId, key: Bytes)

  datatype Manager = Manager(keys: map<Bytes, set<SessionId>>, sessions: map<SessionId, set<Bytes>>)

  function New(): (r: Manager)
    ensures |r.keys| == 0 && |r.sessions| == 0
  {
    Manager(map[], map[])
  }

  /** Whether the session holds a subscription for the key. */
  predicate Holds(m: Manager, key: Bytes, session: SessionId) {
    session in m.sessions && key in m.sessions[session]
  }

  /** `PubSubManager::get`: the session's subscription for the key, if it holds one. */
  function Get(m: Manager, key: Bytes, session: SessionId): (r: Option<Subscription>)
    ensures r.Some? <==> Holds(m, key, session)
    ensures r.Some? ==> r.value == Subscription(session, key)
  {
    if Holds(m, key, session) then Some(Subscription(session, key)) else None
  }

  /** The session map with the session's entry created empty when it is missing. */
  function SessionEntry(m: Manager, session: SessionId): set<Bytes> {
    if session in m.sessions then m.sessions[session] else {}
  }

  /**
   * `PubSubManager::subscribe` as written: an existing subscription gives None and
   * changes nothing; otherwise the session gains the subscription, and only when
   * no set exists for the key yet is one created holding the session and the
   * subscription returned. A second session's subscription is recorded on its
   * side only, and it gets None.
   */
  function SubscribeAsWritten(m: Manager, key: Bytes, session: SessionId): (r: (Manager, Option<Subscription>))
    ensures Holds(m, key, session) ==> r == (m, None)
    ensures !Holds(m, key, session) ==>
      r.0.sessions == m.sessions[session := SessionEntry(m, session) + {key}] &&
      (key in m.keys ==> r.0.keys == m.keys && r.1.None?) &&
      (key !in m.keys ==> r.0.keys == m.keys[key := {session}] && r.1 == Some(Subscription(session, key)))
  {
    if Holds(m, key, session) then (m, None)
    else
      var sessions := m.sessions[session := SessionEntry(m, session) + {key}];
      if key in m.keys then (Manager(m.keys, sessions), None)
      else (Manager(m.keys[key := {session}], sessions), Some(Subscription(session, key)))
  }

  /**
   * `subscribe` as its documentation describes it: None exactly when the
   * subscription already existed; otherwise the session is recorded on both
   * sides and the subscription returned.
   */
  function Subscribe(m: Manager, key: Bytes, session: SessionId): (r: (Manager, Option<Subscription>))
    ensures r.1.None? <==> Holds(m, key, session)
    ensures Holds(m, key, session) ==> r.0 == m
    ensures r.1.Some? ==> r.1.value == Subscription(session, key)
    ensures Holds(r.0, key, session)
    ensures r.1.Some? ==> key in r.0.keys && r.0.keys[key] == (if key in m.keys then m.keys[key] else {}) + {session}
  {
    if Holds(m, key, session) then (m, None)
    else
      var sessions := m.sessions[session := SessionEntry(m, session) + {key}];
      var subscribers := (if key in m.keys then m.keys[key] else {}) + {session};
      (Manager(m.keys[key := subscribers], sessions), Some(Subscription(session, key)))
  }

  /**
   * `PubSubManager::unsubscribe`: drops the session from the key's set and the key
   * from the session's subscriptions, and reports whether either was there.
   */
  function Unsubscribe(m: Manager, key: Bytes, session: SessionId): (r: (Manager, bool))
    ensures r.1 <==> (key in m.keys && session in m.keys[key]) || Holds(m, key, session)
    ensures !Holds(r.0, key, session) && (key in r.0.keys ==> session !in r.0.keys[key])
    ensures r.0.keys.Keys == m.keys.Keys && r.0.sessions.Keys == m.sessions.Keys
    ensures forall k :: k in m.keys && k != key ==> r.0.keys[k] == m.keys[k]
    ensures forall s :: s in m.sessions && s != session ==> r.0.sessions[s] == m.sessions[s]
  {
    var fromKey := key in m.keys && session in m.keys[key];
    var fromSession := Holds(m, key, session);
    var keys := if key in m.keys then m.keys[key := m.keys[key] - {session}] else m.keys;
    var sessions := if session in m.sessions then m.sessions[session := m.sessions[session] - {key}] else m.sessions;
    (Manager(keys, sessions), fromKey || fromSession)
  }

  /**
   * `PubSubManager::remove_session`: whether the session had an entry, and the
   * keys of the subscriptions it closes. The key sets are left as they were.
   */
  function RemoveSession(m: Manager, session: SessionId): (r: (Manager, bool, set<Bytes>))
    ensures r.1 <==> session in m.sessions
    ensures r.2 == SessionEntry(m, session)
    ensures r.0.keys == m.keys && r.0.sessions == m.sessions - {session}
    ensures forall k :: !Holds(r.0, k, session)
  {
    (Manager(m.keys, m.sessions - {session}), session in m.sessions, SessionEntry(m, session))
  }

  /** Every subscription a session holds is also recorded in the key's set. */
  predicate Covered(m: Manager) {
    forall s, k :: s in m.sessions && k in m.sessions[s] ==> k in m.keys && s in m.keys[k]
  }

  /** Subscribing, unsubscribing and removing a session keep every held subscription recorded. */
  lemma CoveredPreserved(m: Manager, key: Bytes, session: SessionId)
    requires Covered(m)
    ensures Covered(Subscribe(m, key, session).0)
    ensures Covered(Unsubscribe(m, key, session).0)
    ensures Covered(RemoveSession(m, session).0)
  {
    var sub := Subscribe(m, key, session).0;
    forall s, k | s in sub.sessions && k in sub.sessions[s]
      ensures k in sub.keys && s in sub.keys[k]
    {
      if s != session && k != key {
        assert k in m.sessions[s];
      }
    }
  }

  /** A second session subscribing to a key is recorded on its side but not in the key's set, and gets None. */
  lemma SecondSubscriberUnrecordedAsWritten(key: Bytes, first: SessionId, second: SessionId)
    requires first != second
    ensures var m := SubscribeAsWritten(New(), key, first).0;
      var r := SubscribeAsWritten(m, key, second);
      r.1.None? && Holds(r.0, key, second) && r.0.keys[key] == {first} && !Covered(r.0)
  {
    var m := SubscribeAsWritten(New(), key, first).0;
    var r := SubscribeAsWritten(m, key, second);
    assert second in r.0.sessions && key in r.0.sessions[second];
  }

  /** The same two subscriptions in the documented behaviour: both are recorded and returned. */
  lemma SecondSubscriberRecorded(key: Bytes, first: SessionId, second: SessionId)
    requires first != second
    ensures var m := Subscribe(New(), key, first).0;
      var r := Subscribe(m, key, second);
      r.1 == Some(Subscription(second, key)) && r.0.keys[key] == {first, second} && Covered(r.0)
  {
    CoveredPreserved(New(), key, first);
    CoveredPreserved(Subscribe(New(), key, first).0, key, second);
  }
}
