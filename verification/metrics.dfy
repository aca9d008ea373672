/**
 * The metrics instance: a map of counters and a map of gauges, both `u64`, under
 * keys of any type. Writers and readers reach the instance through a weak
 * handle, modelled as `Handle`: `Some` of the instance's maps while it is alive,
 * `None` once it has been dropped.
 */
module Metrics {
  import opened Bytes
  import opened Wrappers

  /** The counters and gauges of one instance; a snapshot is a copy of both. */
  datatype Snapshot<K(==)> = Snapshot(counters: map<K, uint64>, gauges: map<K, uint64>)

  /** What a writer or reader reaches: the live instance, or nothing once it is gone. */
  type Handle<K(==)> = Option<Snapshot<K>>

  /** `Metrics::new`: no counters and no gauges. */
  function New<K(==)>(): (r: Snapshot<K>)
    ensures |r.counters| == 0 && |r.gauges| == 0
  {
    Snapshot(map[], map[])
  }

  /** `Metrics::snapshot`: a copy of both maps. */
  function Snap<K(==)>(m: Snapshot<K>): (r: Snapshot<K>)
    ensures r.counters == m.counters && r.gauges == m.gauges
  {
    Snapshot(m.counters, m.gauges)
  }

  /** `Snapshot::counter`. */
  function SnapshotCounter<K(==)>(m: Snapshot<K>, key: K): (r: Option<uint64>)
    ensures r.Some? <==> key in m.counters
    ensures r.Some? ==> r.value == m.counters[key]
  {
    if key in m.counters then Some(m.counters[key]) else None
  }

  /** `Snapshot::gauge`. */
  function SnapshotGauge<K(==)>(m: Snapshot<K>, key: K): (r: Option<uint64>)
    ensures r.Some? <==> key in m.gauges
    ensures r.Some? ==> r.value == m.gauges[key]
  {
    if key in m.gauges then Some(m.gauges[key]) else None
  }

  /** A counter's value after one more increment: `or_default() += 1`, wrapping at 2^64. */
  function Bumped<K(==)>(m: Snapshot<K>, key: K): (r: uint64)
    ensures key !in m.counters ==> r == 1
    ensures key in m.counters && m.counters[key] < 0xffff_ffff_ffff_ffff ==> r == m.counters[key] + 1
  {
    ((if key in m.counters then m.counters[key] else 0) + 1) % TWO_64
  }

  /**
   * `Writer::increment`: when the instance is alive, the counter goes from absent
   * to 1, or up by one, and the writer reports success; otherwise nothing changes
   * and it reports failure.
   */
  function Increment<K(==)>(h: Handle<K>, key: K): (r: (Handle<K>, bool))
    ensures r.1 <==> h.Some?
    ensures h.None? ==> r.0 == None
    ensures h.Some? ==> r.0.Some? && r.0.value.gauges == h.value.gauges
    ensures h.Some? ==> r.0.value.counters.Keys == h.value.counters.Keys + {key}
    ensures h.Some? ==> forall k :: k in h.value.counters && k != key ==> r.0.value.counters[k] == h.value.counters[k]
    ensures h.Some? ==> r.0.value.counters[key] == Bumped(h.value, key)
  {
    match h
    case None => (None, false)
    case Some(m) => (Some(m.(counters := m.counters[key := Bumped(m, key)])), true)
  }

  /**
   * `Writer::gauge`: when the instance is alive, the gauge holds exactly `value`
   * afterwards, whatever it held before; otherwise nothing changes.
   */
  function Gauge<K(==)>(h: Handle<K>, key: K, value: uint64): (r: (Handle<K>, bool))
    ensures r.1 <==> h.Some?
    ensures h.None? ==> r.0 == None
    ensures h.Some? ==> r.0.Some? && r.0.value.counters == h.value.counters
    ensures h.Some? ==> r.0.value.gauges.Keys == h.value.gauges.Keys + {key}
    ensures h.Some? ==> forall k :: k in h.value.gauges && k != key ==> r.0.value.gauges[k] == h.value.gauges[k]
    ensures h.Some? ==> r.0.value.gauges[key] == value
  {
    match h
    case None => (None, false)
    case Some(m) => (Some(m.(gauges := m.gauges[key := value])), true)
  }

  /** `Reader::counter`: the counter, if the instance is alive and the counter exists. */
  function Counter<K(==)>(h: Handle<K>, key: K): (r: Option<uint64>)
    ensures r.Some? <==> h.Some? && key in h.value.counters
    ensures r.Some? ==> r.value == h.value.counters[key]
  {
    match h
    case None => None
    case Some(m) => SnapshotCounter(m, key)
  }

  /** `Reader::gauge`: the gauge, if the instance is alive and the gauge was ever set. */
  function GaugeValue<K(==)>(h: Handle<K>, key: K): (r: Option<uint64>)
    ensures r.Some? <==> h.Some? && key in h.value.gauges
    ensures r.Some? ==> r.value == h.value.gauges[key]
  {
    match h
    case None => None
    case Some(m) => SnapshotGauge(m, key)
  }

  /** `Reader::valid` and `Writer::valid`: whether the instance still exists. */
  predicate Valid<K(==)>(h: Handle<K>) {
    h.Some?
  }

  /** One write through a writer. */
  datatype Write<K(==)> = IncrementWrite(key: K) | GaugeWrite(key: K, value: uint64)

  function ApplyWrite<K(==)>(h: Handle<K>, w: Write<K>): Handle<K> {
    match w
    case IncrementWrite(k) => Increment(h, k).0
    case GaugeWrite(k, v) => Gauge(h, k, v).0
  }

  /** The instance after a sequence of writes, the last one applied last. */
  function ApplyWrites<K(==)>(h: Handle<K>, ws: seq<Write<K>>): Handle<K>
    decreases |ws|
  {
    if |ws| == 0 then h else ApplyWrite(ApplyWrites(h, ws[..|ws| - 1]), ws[|ws| - 1])
  }

  /** How many of the writes increment `key`. */
  function Increments<K(==)>(ws: seq<Write<K>>, key: K): nat
    decreases |ws|
  {
    if |ws| == 0 then 0
    else Increments(ws[..|ws| - 1], key) + (if ws[|ws| - 1] == IncrementWrite(key) then 1 else 0)
  }

  /** The value the last gauge write to `key` sets, if any write does. */
  function LastGauge<K(==)>(ws: seq<Write<K>>, key: K): Option<uint64>
    decreases |ws|
  {
    if |ws| == 0 then None
    else match ws[|ws| - 1]
      case GaugeWrite(k, v) => if k == key then Some(v) else LastGauge(ws[..|ws| - 1], key)
      case IncrementWrite(_) => LastGauge(ws[..|ws| - 1], key)
  }

  /** One write to a live instance: an increment of `key` bumps it, and any other write leaves it. */
  lemma CounterStep<K>(h: Handle<K>, w: Write<K>, key: K)
    requires h.Some?
    ensures ApplyWrite(h, w).Some?
    ensures w == IncrementWrite(key) ==> Counter(ApplyWrite(h, w), key) == Some(Bumped(h.value, key))
    ensures w != IncrementWrite(key) ==> Counter(ApplyWrite(h, w), key) == Counter(h, key)
  {
  }

  /** An increment of a counter reading `k` (absent reads as 0) makes it read `k + 1`, short of wrapping. */
  lemma IncrementCounts<K>(h: Handle<K>, key: K, k: nat)
    requires h.Some? && k + 1 < TWO_64
    requires if key in h.value.counters then h.value.counters[key] == k else k == 0
    ensures Increment(h, key).0.Some?
    ensures Counter(Increment(h, key).0, key) == Some(k + 1)
  {
  }

  /** Adding one after reducing modulo 2^64 is adding one before. */
  lemma WrapThenBump(x: nat)
    ensures (x % TWO_64 + 1) % TWO_64 == (x + 1) % TWO_64
  {
  }

  /** A value below 2^64 is its own remainder. */
  lemma NoWrap(n: nat)
    requires n < TWO_64
    ensures n % TWO_64 == n
  {
  }

  /**
   * Whatever writes arrive and in whatever order, a counter of a live instance
   * reads its starting value plus the number of increments of that counter
   * (modulo 2^64), and a counter never incremented and absent at the start stays
   * absent.
   */
  lemma {:induction false} CounterCounts<K>(m: Snapshot<K>, ws: seq<Write<K>>, key: K)
    ensures ApplyWrites(Some(m), ws).Some?
    ensures Increments(ws, key) == 0 ==> Counter(ApplyWrites(Some(m), ws), key) == SnapshotCounter(m, key)
    ensures Increments(ws, key) > 0 ==>
      Counter(ApplyWrites(Some(m), ws), key) ==
        Some(((if key in m.counters then m.counters[key] else 0) + Increments(ws, key)) % TWO_64)
    decreases |ws|
  {
    if |ws| > 0 {
      var init, w := ws[..|ws| - 1], ws[|ws| - 1];
      CounterCounts(m, init, key);
      var before := ApplyWrites(Some(m), init);
      assert ApplyWrites(Some(m), ws) == ApplyWrite(before, w);
      assert Increments(ws, key) == Increments(init, key) + (if w == IncrementWrite(key) then 1 else 0);
      CounterStep(before, w, key);
      if w == IncrementWrite(key) {
        var base := if key in m.counters then m.counters[key] else 0;
        WrapThenBump(base + Increments(init, key));
      }
    }
  }

  /** A gauge of a live instance reads the value its last write set, or its starting value when none did. */
  lemma {:induction false} GaugeIsLastWrite<K>(m: Snapshot<K>, ws: seq<Write<K>>, key: K)
    ensures ApplyWrites(Some(m), ws).Some?
    ensures GaugeValue(ApplyWrites(Some(m), ws), key) ==
      if LastGauge(ws, key).Some? then LastGauge(ws, key) else SnapshotGauge(m, key)
    decreases |ws|
  {
    if |ws| > 0 {
      GaugeIsLastWrite(m, ws[..|ws| - 1], key);
    }
  }

  /** Once the instance is gone, every write fails and changes nothing, and every read is None. */
  lemma DroppedIsInert<K>(ws: seq<Write<K>>, key: K, value: uint64)
    ensures ApplyWrites(None, ws) == None
    ensures !Increment(None, key).1 && !Gauge(None, key, value).1
    ensures Counter(None, key).None? && GaugeValue(None, key).None? && !Valid<K>(None)
  {
    DroppedWrites(ws);
  }

  lemma {:induction false} DroppedWrites<K>(ws: seq<Write<K>>)
    ensures ApplyWrites(None, ws) == None
    decreases |ws|
  {
    if |ws| > 0 {
      DroppedWrites(ws[..|ws| - 1]);
    }
  }

  /** A snapshot taken before further writes keeps the values it copied. */
  lemma SnapshotUnaffected<K>(m: Snapshot<K>, ws: seq<Write<K>>, key: K)
    requires key in m.counters && Increments(ws, key) > 0 && m.counters[key] + Increments(ws, key) < TWO_64
    ensures SnapshotCounter(Snap(m), key) == Some(m.counters[key])
    ensures Counter(ApplyWrites(Some(m), ws), key) == Some(m.counters[key] + Increments(ws, key))
  {
    CounterCounts(m, ws, key);
    CountNoWrap(ApplyWrites(Some(m), ws), m.counters[key] + Increments(ws, key), key);
  }

  /** A counter reading a sum modulo 2^64 reads the sum itself when it is below 2^64. */
  lemma CountNoWrap<K>(h: Handle<K>, n: nat, key: K)
    requires n < TWO_64 && Counter(h, key) == Some(n % TWO_64)
    ensures Counter(h, key) == Some(n)
  {
    NoWrap(n);
  }

  /** A counter of a fresh instance reads None until it is incremented; a gauge set to 0 reads Some(0). */
  lemma FreshReads<K>(key: K)
    ensures Counter(Some(New<K>()), key).None?
    ensures Counter(Increment(Some(New<K>()), key).0, key) == Some(1)
    ensures GaugeValue(Gauge(Some(New<K>()), key, 0).0, key) == Some(0)
  {
  }
}
