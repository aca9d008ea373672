/** The keyspace: a map from byte-string keys to typed values. */
module Keyspace {
  import opened Bytes
  import opened Wrappers
  import opened Values

  type Key = Bytes

  type State = map<Key, Value>

  /** `b"__hop__:"`, the prefix of keys reserved for the server itself. */
  const InternalPrefix: Bytes := [95, 95, 104, 111, 112, 95, 95, 58]

  predicate IsInternal(key: Key) {
    |key| >= |InternalPrefix| && key[..|InternalPrefix|] == InternalPrefix
  }

  predicate ContainsKey(s: State, key: Key) {
    key in s
  }

  /** `State::insert`: the previous value, if any, and the key now maps to `v`; other keys are unchanged. */
  function Insert(s: State, key: Key, v: Value): (r: (State, Option<Value>))
    ensures r.1.Some? <==> key in s
    ensures r.1.Some? ==> r.1.value == s[key]
    ensures key in r.0 && r.0[key] == v
    ensures forall k :: k != key ==> (k in r.0 <==> k in s) && (k in s ==> r.0[k] == s[k])
  {
    (s[key := v], if key in s then Some(s[key]) else None)
  }

  /** `State::remove`: the removed pair, if the key was present; other keys are unchanged. */
  function Remove(s: State, key: Key): (r: (State, Option<(Key, Value)>))
    ensures r.1.Some? <==> key in s
    ensures r.1.Some? ==> r.1.value == (key, s[key])
    ensures key !in r.0
    ensures forall k :: k != key ==> (k in r.0 <==> k in s) && (k in s ==> r.0[k] == s[k])
  {
    (s - {key}, if key in s then Some((key, s[key])) else None)
  }

  /** `State::key_ref`: a lookup that never inserts. It panics on internal keys. */
  function KeyRef(s: State, key: Key): (r: Option<Value>)
    requires !IsInternal(key)
    ensures r.Some? <==> key in s
    ensures r.Some? ==> r.value == s[key]
  {
    if key in s then Some(s[key]) else None
  }

  /**
   * `State::key_or_insert_with`: the existing value untouched, or else `initial`
   * inserted and returned. It panics on internal keys.
   */
  function KeyOrInsertWith(s: State, key: Key, initial: Value): (r: (State, Value))
    requires !IsInternal(key)
    ensures key in r.0 && r.0[key] == r.1
    ensures key in s ==> r.0 == s && r.1 == s[key]
    ensures key !in s ==> r.0 == s[key := initial] && r.1 == initial
  {
    if key in s then (s, s[key]) else (s[key := initial], initial)
  }

  /**
   * `State::typed_key`: makes sure the key exists (inserting the type's default)
   * and yields its value only when it has the requested kind. A value of another
   * kind is never overwritten.
   */
  function TypedKey(s: State, key: Key, kind: KeyType): (r: (State, Option<Value>))
    requires !IsInternal(key)
    ensures key in r.0
    ensures key in s ==> r.0 == s
    ensures key !in s ==> r.0 == s[key := Default(kind)]
    ensures r.1.Some? <==> Kind(r.0[key]) == kind
    ensures r.1.Some? ==> r.1.value == r.0[key]
  {
    var (s', v) := KeyOrInsertWith(s, key, Default(kind));
    (s', if Kind(v) == kind then Some(v) else None)
  }

  /** Inserting then removing a fresh key restores the state. */
  lemma InsertRemove(s: State, key: Key, v: Value)
    requires key !in s
    ensures Remove(Insert(s, key, v).0, key).0 == s
  {
  }

  /** On a fresh key, typed access always succeeds with the type's default. */
  lemma TypedKeyFresh(s: State, key: Key, kind: KeyType)
    requires !IsInternal(key) && key !in s
    ensures TypedKey(s, key, kind).1 == Some(Default(kind))
  {
  }

  lemma InternalExample()
    ensures IsInternal(InternalPrefix + [1, 2])
    ensures !IsInternal([95, 95, 104, 111, 112])
  {
    assert (InternalPrefix + [1, 2])[..|InternalPrefix|] == InternalPrefix;
  }
}
