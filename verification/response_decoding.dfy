/**
 * What the incremental decoder computes: it inverts the response encoder and reads
 * no further than the response it decodes.
 */
module ResponseDecoding {
  import opened Bytes
  import opened Values
  import opened Enumerations
  import opened Responses
  import opened ResponseDecoder
  import opened Layout

  /** A step to a further context leaves the outcome of feeding the same buffer unchanged. */
  lemma FeedNext(ctx: Context, buf: Bytes, next: Context)
    requires Step(ctx, buf) == Next(next)
    ensures Feed(ctx, buf) == Feed(next, buf)
  {
  }

  /** A step that concludes a response ends the feed and resets the context. */
  lemma FeedConcluded(ctx: Context, buf: Bytes, resp: Response)
    requires Step(ctx, buf) == Emit(Concluded(resp))
    ensures Feed(ctx, buf) == (New, Instr(Concluded(resp)))
  {
  }

  // One turn of each collection stage: first read off the buffer's bytes, then off a
  // buffer that holds the framed element.

  lemma ListItemRead(buf: Bytes, idx: nat, item: Bytes, done: seq<Bytes>, len: uint16)
    requires idx + 4 + |item| <= |buf|
    requires FromBE(buf[idx..idx + 4]) == |item| && buf[idx + 4..idx + 4 + |item|] == item
    ensures Step(Context(idx, ListStage(done, len)), buf) ==
      if |done| + 1 < len then Next(Context(idx + 4 + |item|, ListStage(done + [item], len)))
      else Emit(Concluded(ValueResponse(ListValue(done + [item]))))
  {
  }

  lemma ListItemStep(buf: Bytes, idx: nat, item: Bytes, done: seq<Bytes>, len: uint16)
    requires FitsU32(item) && HoldsAt(buf, idx, ItemBytes(item))
    ensures Step(Context(idx, ListStage(done, len)), buf) ==
      if |done| + 1 < len then Next(Context(idx + 4 + |item|, ListStage(done + [item], len)))
      else Emit(Concluded(ValueResponse(ListValue(done + [item]))))
  {
    var r := ItemBytes(item);
    HoldsAtPart(buf, idx, r, 0, 4);
    HoldsAtPart(buf, idx, r, 4, |r|);
    assert r[0..4] == r[..4] && r[4..|r|] == r[4..];
    ListItemRead(buf, idx, item, done, len);
  }

  lemma MapEntryRead(buf: Bytes, idx: nat, key: Bytes, val: Bytes, entries: map<Bytes, Bytes>, len: uint16)
    requires idx + 5 + |key| + |val| <= |buf| && buf[idx] == |key|
    requires buf[idx + 1..idx + 1 + |key|] == key
    requires FromBE(buf[idx + 1 + |key|..idx + 5 + |key|]) == |val|
    requires buf[idx + 5 + |key|..idx + 5 + |key| + |val|] == val
    ensures Step(Context(idx, MapStage(entries, len)), buf) ==
      if |entries[key := val]| < len then Next(Context(idx + 5 + |key| + |val|, MapStage(entries[key := val], len)))
      else Emit(Concluded(ValueResponse(MapValue(entries[key := val]))))
  {
  }

  /** The buffer holds one framed map entry, whose sizes fit its headers, at `idx`. */
  predicate EntryAt(buf: Bytes, idx: nat, key: Bytes, val: Bytes) {
    |key| < 256 && FitsU32(val) && HoldsAt(buf, idx, EntryBytes(key, val))
  }

  lemma MapEntryStep(buf: Bytes, idx: nat, key: Bytes, val: Bytes, entries: map<Bytes, Bytes>, len: uint16)
    requires EntryAt(buf, idx, key, val)
    ensures Step(Context(idx, MapStage(entries, len)), buf) ==
      if |entries[key := val]| < len then Next(Context(idx + 5 + |key| + |val|, MapStage(entries[key := val], len)))
      else Emit(Concluded(ValueResponse(MapValue(entries[key := val]))))
  {
    var r := EntryBytes(key, val);
    HoldsAtPart(buf, idx, r, 0, 1);
    assert buf[idx] == buf[idx..idx + 1][0];
    HoldsAtPart(buf, idx, r, 1, 1 + |key|);
    HoldsAtPart(buf, idx, r, 1 + |key|, 5 + |key|);
    HoldsAtPart(buf, idx, r, 5 + |key|, |r|);
    assert r[5 + |key|..|r|] == r[5 + |key|..];
    MapEntryRead(buf, idx, key, val, entries, len);
  }

  lemma SetElemRead(buf: Bytes, idx: nat, e: Bytes, elems: set<Bytes>, len: uint16)
    requires idx + 2 + |e| <= |buf|
    requires FromBE(buf[idx..idx + 2]) == |e| && buf[idx + 2..idx + 2 + |e|] == e
    ensures Step(Context(idx, SetStage(elems, len)), buf) ==
      if |elems + {e}| < len then Next(Context(idx + 2 + |e|, SetStage(elems + {e}, len)))
      else Emit(Concluded(ValueResponse(SetValue(elems + {e}))))
  {
  }

  lemma SetElemStep(buf: Bytes, idx: nat, e: Bytes, elems: set<Bytes>, len: uint16)
    requires |e| < 0x1_0000 && HoldsAt(buf, idx, ElemBytes(e))
    ensures Step(Context(idx, SetStage(elems, len)), buf) ==
      if |elems + {e}| < len then Next(Context(idx + 2 + |e|, SetStage(elems + {e}, len)))
      else Emit(Concluded(ValueResponse(SetValue(elems + {e}))))
  {
    var r := ElemBytes(e);
    HoldsAtPart(buf, idx, r, 0, 2);
    HoldsAtPart(buf, idx, r, 2, |r|);
    assert r[0..2] == r[..2] && r[2..|r|] == r[2..];
    SetElemRead(buf, idx, e, elems, len);
  }

  /**
   * A run of steps through the contexts `plan(k)`, `plan(k + 1)`, ... that ends by
   * concluding `resp` is what feeding the buffer from `plan(k)` does.
   */
  lemma {:induction false} FeedRun(buf: Bytes, plan: nat -> Context, count: nat, resp: Response, k: nat)
    requires k < count
    requires forall i :: k <= i < count - 1 ==> Step(plan(i), buf) == Next(plan(i + 1))
    requires Step(plan(count - 1), buf) == Emit(Concluded(resp))
    ensures Feed(plan(k), buf) == (New, Instr(Concluded(resp)))
    decreases count - k
  {
    var here := plan(k);
    if k < count - 1 {
      var next := plan(k + 1);
      assert Step(here, buf) == Next(next);
      FeedNext(here, buf, next);
      FeedRun(buf, plan, count, resp, k + 1);
    } else {
      assert k == count - 1;
      FeedConcluded(here, buf, resp);
    }
  }

  // Lists.

  /** The buffer holds the framed items of a list that fits its headers from `base` on. */
  predicate ListLaidOut(buf: Bytes, base: nat, items: seq<Bytes>) {
    ListFits(items) && HoldsAt(buf, base, ListItems(items))
  }

  /** The decoder's context after the first `i` items of a list have been read. */
  function ListAt(base: nat, items: seq<Bytes>, n: uint16, i: nat): Context {
    if i <= |items| then Context(base + |ListItems(items[..i])|, ListStage(items[..i], n)) else New
  }

  /** What reading the `i`-th item relies on: its place, its size limit and the items read so far. */
  predicate ListTurnReady(buf: Bytes, base: nat, items: seq<Bytes>, i: nat) {
    && i < |items| && FitsU32(items[i])
    && HoldsAt(buf, base + |ListItems(items[..i])|, ItemBytes(items[i]))
    && |ListItems(items[..i + 1])| == |ListItems(items[..i])| + 4 + |items[i]|
    && items[..i] + [items[i]] == items[..i + 1] && items[..|items|] == items
  }

  lemma ListTurnFacts(buf: Bytes, base: nat, items: seq<Bytes>, i: nat)
    requires ListLaidOut(buf, base, items) && i < |items|
    ensures ListTurnReady(buf, base, items, i)
  {
    assert FitsU32(items[i]);
    ListPosition(buf, base, items, i);
    PrefixGrows(items, i);
    PrefixWhole(items);
  }

  /** Reading the `i`-th item moves on to the next or concludes the whole list. */
  lemma ListTurn(buf: Bytes, base: nat, items: seq<Bytes>, n: uint16, i: nat)
    requires ListTurnReady(buf, base, items, i) && |items| == n
    ensures Step(ListAt(base, items, n, i), buf) ==
      if i + 1 < |items| then Next(ListAt(base, items, n, i + 1))
      else Emit(Concluded(ValueResponse(ListValue(items))))
  {
    ListItemStep(buf, base + |ListItems(items[..i])|, items[i], items[..i], n);
  }

  /** Reading item after item, each where the previous one ends, concludes the whole list. */
  lemma ListRun(buf: Bytes, base: nat, items: seq<Bytes>, n: uint16)
    requires |items| == n > 0 && forall i :: 0 <= i < |items| ==> ListTurnReady(buf, base, items, i)
    ensures Feed(ListAt(base, items, n, 0), buf) == (New, Instr(Concluded(ValueResponse(ListValue(items)))))
  {
    var plan := (i: nat) => ListAt(base, items, n, i);
    forall i | 0 <= i < |items| - 1 ensures Step(plan(i), buf) == Next(plan(i + 1)) {
      ListTurn(buf, base, items, n, i);
    }
    ListTurn(buf, base, items, n, |items| - 1);
    FeedRun(buf, plan, |items|, ValueResponse(ListValue(items)), 0);
  }

  /** A non-empty list response is read item by item from its first item on. */
  lemma ListDecodes(buf: Bytes, base: nat, items: seq<Bytes>, n: uint16)
    requires ListLaidOut(buf, base, items) && |items| == n > 0
    ensures Feed(Context(base, ListStage([], n)), buf) == (New, Instr(Concluded(ValueResponse(ListValue(items)))))
  {
    forall i | 0 <= i < |items| ensures ListTurnReady(buf, base, items, i) {
      ListTurnFacts(buf, base, items, i);
    }
    ListRun(buf, base, items, n);
    assert items[..0] == [];
  }

  // Maps.

  /** The entries of `m` whose keys are the first `k` of `order`, inserted in that order. */
  function Collected(m: map<Bytes, Bytes>, order: seq<Bytes>, k: nat): map<Bytes, Bytes>
    requires k <= |order|
  {
    if k == 0 then map[]
    else if order[k - 1] in m then Collected(m, order, k - 1)[order[k - 1] := m[order[k - 1]]]
    else Collected(m, order, k - 1)
  }

  lemma NotInFront(order: seq<Bytes>, k: nat)
    requires k < |order| && Distinct(order)
    ensures order[k] !in order[..k]
  {
    var front := order[..k];
    forall i | 0 <= i < |front| ensures front[i] != order[k] {
      assert front[i] == order[i];
    }
  }

  lemma FrontGrows(order: seq<Bytes>, k: nat)
    requires k < |order|
    ensures forall x :: x in order[..k + 1] <==> x in order[..k] || x == order[k]
  {
    assert order[..k + 1] == order[..k] + [order[k]];
  }

  /** The collected entries are those of `m` under the first `k` keys of `order`. */
  lemma {:induction false} CollectedHas(m: map<Bytes, Bytes>, order: seq<Bytes>, k: nat)
    requires k <= |order|
    ensures forall key :: key in Collected(m, order, k) <==> key in m && key in order[..k]
    ensures forall key :: key in Collected(m, order, k) ==> Collected(m, order, k)[key] == m[key]
  {
    if k > 0 {
      CollectedHas(m, order, k - 1);
      FrontGrows(order, k - 1);
    }
  }

  lemma {:induction false} CollectedSize(m: map<Bytes, Bytes>, order: seq<Bytes>, k: nat)
    requires k <= |order| && IsEnumeration(order, m.Keys)
    ensures |Collected(m, order, k)| == k
  {
    if k > 0 {
      CollectedSize(m, order, k - 1);
      CollectedHas(m, order, k - 1);
      NotInFront(order, k - 1);
      assert order[k - 1] in m;
    }
  }

  /** Once every key of the enumeration is collected, the collected entries are the whole map. */
  lemma CollectedAll(m: map<Bytes, Bytes>, order: seq<Bytes>)
    requires IsEnumeration(order, m.Keys)
    ensures Collected(m, order, |order|) == m
  {
    var c := Collected(m, order, |order|);
    CollectedHas(m, order, |order|);
    assert order[..|order|] == order;
    assert c.Keys == m.Keys;
  }

  lemma CollectedGrow(m: map<Bytes, Bytes>, order: seq<Bytes>, k: nat)
    requires k < |order| && order[k] in m
    ensures Collected(m, order, k)[order[k] := m[order[k]]] == Collected(m, order, k + 1)
  {
  }

  /** Collecting one more key grows the collected entries by one, up to the whole map. */
  lemma CollectedStep(m: map<Bytes, Bytes>, order: seq<Bytes>, k: nat)
    requires IsEnumeration(order, m.Keys) && k < |order|
    ensures order[k] in m
    ensures Collected(m, order, k)[order[k] := m[order[k]]] == Collected(m, order, k + 1)
    ensures |Collected(m, order, k + 1)| == k + 1
    ensures k + 1 == |order| ==> Collected(m, order, k + 1) == m
  {
    assert order[k] in m;
    CollectedGrow(m, order, k);
    CollectedSize(m, order, k + 1);
    if k + 1 == |order| {
      CollectedAll(m, order);
    }
  }

  lemma {:induction false} MapEntriesAppend(m: map<Bytes, Bytes>, a: seq<Bytes>, b: seq<Bytes>)
    ensures MapEntries(m, a + b) == MapEntries(m, a) + MapEntries(m, b)
    decreases |a|
  {
    if |a| == 0 {
      assert a + b == b;
    } else {
      assert (a + b)[0] == a[0] && (a + b)[1..] == a[1..] + b;
      MapEntriesAppend(m, a[1..], b);
    }
  }

  lemma MapEntriesOne(m: map<Bytes, Bytes>, key: Bytes)
    requires key in m
    ensures MapEntries(m, [key]) == EntryBytes(key, m[key])
  {
    var one := [key];
    assert one[1..] == [];
  }

  /** The framing of a map splits around the entry of its `i`-th key. */
  lemma MapEntriesAt(m: map<Bytes, Bytes>, order: seq<Bytes>, i: nat)
    requires i < |order| && order[i] in m
    ensures MapEntries(m, order) ==
      MapEntries(m, order[..i]) + EntryBytes(order[i], m[order[i]]) + MapEntries(m, order[i + 1..])
    ensures MapEntries(m, order[..i + 1]) == MapEntries(m, order[..i]) + EntryBytes(order[i], m[order[i]])
  {
    MapEntriesSplit(m, order, i);
    MapEntriesGrow(m, order, i);
  }

  lemma MapEntriesSplit(m: map<Bytes, Bytes>, order: seq<Bytes>, i: nat)
    requires i < |order| && order[i] in m
    ensures MapEntries(m, order) ==
      MapEntries(m, order[..i]) + EntryBytes(order[i], m[order[i]]) + MapEntries(m, order[i + 1..])
  {
    SplitAround(order, i);
    MapEntriesAppend(m, order[..i], [order[i]] + order[i + 1..]);
    MapEntriesAppend(m, [order[i]], order[i + 1..]);
    MapEntriesOne(m, order[i]);
    AppendAssoc(MapEntries(m, order[..i]), EntryBytes(order[i], m[order[i]]), MapEntries(m, order[i + 1..]));
  }

  lemma MapEntriesGrow(m: map<Bytes, Bytes>, order: seq<Bytes>, i: nat)
    requires i < |order| && order[i] in m
    ensures MapEntries(m, order[..i + 1]) == MapEntries(m, order[..i]) + EntryBytes(order[i], m[order[i]])
  {
    assert order[..i + 1] == order[..i] + [order[i]];
    MapEntriesAppend(m, order[..i], [order[i]]);
    MapEntriesOne(m, order[i]);
  }

  /** The buffer holds the entries of a map that fits its headers, framed in the order `order`, from `base` on. */
  predicate MapLaidOut(buf: Bytes, base: nat, m: map<Bytes, Bytes>, order: seq<Bytes>) {
    MapFits(m) && IsEnumeration(order, m.Keys) && HoldsAt(buf, base, MapEntries(m, order))
  }

  /** The decoder's context after the first `i` entries of a map have been read. */
  function MapAt(base: nat, m: map<Bytes, Bytes>, order: seq<Bytes>, i: nat): Context {
    if i <= |order| then Context(base + |MapEntries(m, order[..i])|, MapStage(Collected(m, order, i), AsU16(|m|)))
    else New
  }

  /** Where the `i`-th entry lies, and where the next one starts. */
  lemma MapPosition(buf: Bytes, base: nat, m: map<Bytes, Bytes>, order: seq<Bytes>, i: nat)
    requires HoldsAt(buf, base, MapEntries(m, order)) && i < |order| && order[i] in m
    ensures HoldsAt(buf, base + |MapEntries(m, order[..i])|, EntryBytes(order[i], m[order[i]]))
    ensures |MapEntries(m, order[..i + 1])| == |MapEntries(m, order[..i])| + 5 + |order[i]| + |m[order[i]]|
  {
    MapEntriesAt(m, order, i);
    HoldsAtMiddle(buf, base, MapEntries(m, order[..i]), EntryBytes(order[i], m[order[i]]), MapEntries(m, order[i + 1..]));
  }

  /** What reading the `i`-th entry relies on: its place, its size limits and the entries collected so far. */
  predicate MapTurnReady(buf: Bytes, base: nat, m: map<Bytes, Bytes>, order: seq<Bytes>, i: nat) {
    && i < |order| && order[i] in m && AsU16(|m|) == |m| == |order|
    && EntryAt(buf, base + |MapEntries(m, order[..i])|, order[i], m[order[i]])
    && |MapEntries(m, order[..i + 1])| == |MapEntries(m, order[..i])| + 5 + |order[i]| + |m[order[i]]|
    && Collected(m, order, i)[order[i] := m[order[i]]] == Collected(m, order, i + 1)
    && |Collected(m, order, i + 1)| == i + 1
    && (i + 1 == |order| ==> Collected(m, order, i + 1) == m)
  }

  lemma MapTurnFacts(buf: Bytes, base: nat, m: map<Bytes, Bytes>, order: seq<Bytes>, i: nat)
    requires MapLaidOut(buf, base, m, order) && i < |order|
    ensures MapTurnReady(buf, base, m, order, i)
  {
    assert order[i] in m;
    MapPosition(buf, base, m, order, i);
    CollectedStep(m, order, i);
    EnumerationLength(order, m.Keys);
  }

  /** Reading the `i`-th entry moves on to the next or concludes the whole map. */
  lemma MapTurn(buf: Bytes, base: nat, m: map<Bytes, Bytes>, order: seq<Bytes>, i: nat)
    requires MapTurnReady(buf, base, m, order, i)
    ensures Step(MapAt(base, m, order, i), buf) ==
      if i + 1 < |order| then Next(MapAt(base, m, order, i + 1))
      else Emit(Concluded(ValueResponse(MapValue(m))))
  {
    MapEntryStep(buf, base + |MapEntries(m, order[..i])|, order[i], m[order[i]], Collected(m, order, i), AsU16(|m|));
  }

  /** Reading entry after entry, each where the previous one ends, concludes the whole map. */
  lemma MapRun(buf: Bytes, base: nat, m: map<Bytes, Bytes>, order: seq<Bytes>)
    requires |order| > 0 && forall i :: 0 <= i < |order| ==> MapTurnReady(buf, base, m, order, i)
    ensures Feed(MapAt(base, m, order, 0), buf) == (New, Instr(Concluded(ValueResponse(MapValue(m)))))
  {
    var plan := (i: nat) => MapAt(base, m, order, i);
    forall i | 0 <= i < |order| - 1 ensures Step(plan(i), buf) == Next(plan(i + 1)) {
      MapTurn(buf, base, m, order, i);
    }
    MapTurn(buf, base, m, order, |order| - 1);
    FeedRun(buf, plan, |order|, ValueResponse(MapValue(m)), 0);
  }

  /** A non-empty map response is read entry by entry in the order it was written. */
  lemma MapDecodes(buf: Bytes, base: nat, m: map<Bytes, Bytes>, order: seq<Bytes>)
    requires MapLaidOut(buf, base, m, order) && |order| > 0
    ensures Feed(Context(base, MapStage(map[], |m|)), buf) == (New, Instr(Concluded(ValueResponse(MapValue(m)))))
  {
    forall i | 0 <= i < |order| ensures MapTurnReady(buf, base, m, order, i) {
      MapTurnFacts(buf, base, m, order, i);
    }
    MapRun(buf, base, m, order);
    MapAtStart(base, m, order);
  }

  lemma MapAtStart(base: nat, m: map<Bytes, Bytes>, order: seq<Bytes>)
    requires |m| < 0x1_0000
    ensures MapAt(base, m, order, 0) == Context(base, MapStage(map[], |m|))
  {
    assert order[..0] == [];
  }

  // Sets.

  /** The elements of the first `k` of `order`, inserted in that order. */
  function CollectedSet(order: seq<Bytes>, k: nat): set<Bytes>
    requires k <= |order|
  {
    if k == 0 then {} else CollectedSet(order, k - 1) + {order[k - 1]}
  }

  lemma {:induction false} CollectedSetHas(order: seq<Bytes>, k: nat)
    requires k <= |order|
    ensures forall e :: e in CollectedSet(order, k) <==> e in order[..k]
  {
    if k > 0 {
      CollectedSetHas(order, k - 1);
      FrontGrows(order, k - 1);
    }
  }

  lemma {:induction false} CollectedSetSize(order: seq<Bytes>, k: nat)
    requires k <= |order| && Distinct(order)
    ensures |CollectedSet(order, k)| == k
  {
    if k > 0 {
      CollectedSetSize(order, k - 1);
      CollectedSetHas(order, k - 1);
      NotInFront(order, k - 1);
    }
  }

  /** Once every element of the enumeration is collected, the collected set is the whole set. */
  lemma CollectedSetAll(s: set<Bytes>, order: seq<Bytes>)
    requires IsEnumeration(order, s)
    ensures CollectedSet(order, |order|) == s
  {
    CollectedSetHas(order, |order|);
    assert order[..|order|] == order;
  }

  /** Collecting one more element grows the collected set by one, up to the whole set. */
  lemma CollectedSetStep(s: set<Bytes>, order: seq<Bytes>, k: nat)
    requires IsEnumeration(order, s) && k < |order|
    ensures |CollectedSet(order, k + 1)| == k + 1
    ensures k + 1 == |order| ==> CollectedSet(order, k + 1) == s
  {
    CollectedSetSize(order, k + 1);
    if k + 1 == |order| {
      CollectedSetAll(s, order);
    }
  }

  lemma {:induction false} SetElemsAppend(a: seq<Bytes>, b: seq<Bytes>)
    ensures SetElems(a + b) == SetElems(a) + SetElems(b)
    decreases |a|
  {
    if |a| == 0 {
      assert a + b == b;
    } else {
      assert (a + b)[0] == a[0] && (a + b)[1..] == a[1..] + b;
      SetElemsAppend(a[1..], b);
    }
  }

  lemma SetElemsOne(x: Bytes)
    ensures SetElems([x]) == ElemBytes(x)
  {
    var one := [x];
    assert one[1..] == [];
  }

  /** The framing of a set splits around its `i`-th element. */
  lemma SetElemsAt(order: seq<Bytes>, i: nat)
    requires i < |order|
    ensures SetElems(order) == SetElems(order[..i]) + ElemBytes(order[i]) + SetElems(order[i + 1..])
    ensures SetElems(order[..i + 1]) == SetElems(order[..i]) + ElemBytes(order[i])
  {
    SetElemsSplit(order, i);
    SetElemsGrow(order, i);
  }

  lemma SetElemsSplit(order: seq<Bytes>, i: nat)
    requires i < |order|
    ensures SetElems(order) == SetElems(order[..i]) + ElemBytes(order[i]) + SetElems(order[i + 1..])
  {
    SplitAround(order, i);
    SetElemsAppend(order[..i], [order[i]] + order[i + 1..]);
    SetElemsAppend([order[i]], order[i + 1..]);
    SetElemsOne(order[i]);
    AppendAssoc(SetElems(order[..i]), ElemBytes(order[i]), SetElems(order[i + 1..]));
  }

  lemma SetElemsGrow(order: seq<Bytes>, i: nat)
    requires i < |order|
    ensures SetElems(order[..i + 1]) == SetElems(order[..i]) + ElemBytes(order[i])
  {
    assert order[..i + 1] == order[..i] + [order[i]];
    SetElemsAppend(order[..i], [order[i]]);
    SetElemsOne(order[i]);
  }

  /** The buffer holds the elements of a set that fits its headers, framed in the order `order`, from `base` on. */
  predicate SetLaidOut(buf: Bytes, base: nat, s: set<Bytes>, order: seq<Bytes>) {
    SetFits(s) && IsEnumeration(order, s) && HoldsAt(buf, base, SetElems(order))
  }

  /** The decoder's context after the first `i` elements of a set have been read. */
  function SetAt(base: nat, s: set<Bytes>, order: seq<Bytes>, i: nat): Context {
    if i <= |order| then Context(base + |SetElems(order[..i])|, SetStage(CollectedSet(order, i), AsU16(|s|)))
    else New
  }

  /** Where the `i`-th element lies, and where the next one starts. */
  lemma SetPosition(buf: Bytes, base: nat, order: seq<Bytes>, i: nat)
    requires HoldsAt(buf, base, SetElems(order)) && i < |order|
    ensures HoldsAt(buf, base + |SetElems(order[..i])|, ElemBytes(order[i]))
    ensures |SetElems(order[..i + 1])| == |SetElems(order[..i])| + 2 + |order[i]|
  {
    SetElemsAt(order, i);
    HoldsAtMiddle(buf, base, SetElems(order[..i]), ElemBytes(order[i]), SetElems(order[i + 1..]));
  }

  /** What reading the `i`-th element relies on: its place, its size limit and the elements collected so far. */
  predicate SetTurnReady(buf: Bytes, base: nat, s: set<Bytes>, order: seq<Bytes>, i: nat) {
    && i < |order| && |order[i]| < 0x1_0000 && AsU16(|s|) == |s| == |order|
    && HoldsAt(buf, base + |SetElems(order[..i])|, ElemBytes(order[i]))
    && |SetElems(order[..i + 1])| == |SetElems(order[..i])| + 2 + |order[i]|
    && |CollectedSet(order, i + 1)| == i + 1
    && (i + 1 == |order| ==> CollectedSet(order, i + 1) == s)
  }

  lemma SetTurnFacts(buf: Bytes, base: nat, s: set<Bytes>, order: seq<Bytes>, i: nat)
    requires SetLaidOut(buf, base, s, order) && i < |order|
    ensures SetTurnReady(buf, base, s, order, i)
  {
    assert order[i] in s;
    SetPosition(buf, base, order, i);
    CollectedSetStep(s, order, i);
    EnumerationLength(order, s);
  }

  /** Reading the `i`-th element moves on to the next or concludes the whole set. */
  lemma SetTurn(buf: Bytes, base: nat, s: set<Bytes>, order: seq<Bytes>, i: nat)
    requires SetTurnReady(buf, base, s, order, i)
    ensures Step(SetAt(base, s, order, i), buf) ==
      if i + 1 < |order| then Next(SetAt(base, s, order, i + 1))
      else Emit(Concluded(ValueResponse(SetValue(s))))
  {
    SetElemStep(buf, base + |SetElems(order[..i])|, order[i], CollectedSet(order, i), AsU16(|s|));
  }

  /** Reading element after element, each where the previous one ends, concludes the whole set. */
  lemma SetRun(buf: Bytes, base: nat, s: set<Bytes>, order: seq<Bytes>)
    requires |order| > 0 && forall i :: 0 <= i < |order| ==> SetTurnReady(buf, base, s, order, i)
    ensures Feed(SetAt(base, s, order, 0), buf) == (New, Instr(Concluded(ValueResponse(SetValue(s)))))
  {
    var plan := (i: nat) => SetAt(base, s, order, i);
    forall i | 0 <= i < |order| - 1 ensures Step(plan(i), buf) == Next(plan(i + 1)) {
      SetTurn(buf, base, s, order, i);
    }
    SetTurn(buf, base, s, order, |order| - 1);
    FeedRun(buf, plan, |order|, ValueResponse(SetValue(s)), 0);
  }

  /** A non-empty set response is read element by element in the order it was written. */
  lemma SetDecodes(buf: Bytes, base: nat, s: set<Bytes>, order: seq<Bytes>)
    requires SetLaidOut(buf, base, s, order) && |order| > 0
    ensures Feed(Context(base, SetStage({}, |s|)), buf) == (New, Instr(Concluded(ValueResponse(SetValue(s)))))
  {
    forall i | 0 <= i < |order| ensures SetTurnReady(buf, base, s, order, i) {
      SetTurnFacts(buf, base, s, order, i);
    }
    SetRun(buf, base, s, order);
    SetAtStart(base, s, order);
  }

  lemma SetAtStart(base: nat, s: set<Bytes>, order: seq<Bytes>)
    requires |s| < 0x1_0000
    ensures SetAt(base, s, order, 0) == Context(base, SetStage({}, |s|))
  {
    assert order[..0] == [];
  }
}
