/**
 * The buffer pool of the earlier crate: a stack of reusable items and the
 * constructor that makes a fresh one when the stack is empty. The constructor
 * is a pure closure (`Vec::new` wherever the pool is used), so it is modelled
 * by the item it makes.
 */
module Pools {

  datatype Pool<T> = Pool(init: T, items: seq<T>)

  /** `Pool::new`: `n` fresh items. */
  function New<T>(n: nat, init: T): (r: Pool<T>)
    ensures |r.items| == n && r.init == init
    ensures forall i :: 0 <= i < n ==> r.items[i] == init
  {
    Pool(init, seq(n, _ => init))
  }

  /** `Pool::pull`: the most recently pushed item, or a fresh one when the pool is empty. */
  function Pull<T>(p: Pool<T>): (r: (Pool<T>, T))
    ensures |p.items| == 0 ==> r == (p, p.init)
    ensures |p.items| > 0 ==> r.1 == p.items[|p.items| - 1] && r.0.items == p.items[..|p.items| - 1]
    ensures r.0.init == p.init
  {
    if |p.items| == 0 then (p, p.init)
    else (p.(items := p.items[..|p.items| - 1]), p.items[|p.items| - 1])
  }

  /** `Pool::push`: the item goes on top. */
  function Push<T>(p: Pool<T>, item: T): (r: Pool<T>)
    ensures |r.items| == |p.items| + 1 && r.items[|p.items|] == item
    ensures r.items[..|p.items|] == p.items && r.init == p.init
  {
    p.(items := p.items + [item])
  }

  /** Pushing and then pulling gives back the item pushed and the pool as it was. */
  lemma PushThenPull<T>(p: Pool<T>, item: T)
    ensures Pull(Push(p, item)) == (p, item)
  {
    assert Push(p, item).items[..|p.items|] == p.items;
  }

  /** Pulling from a non-empty pool and pushing the item back restores the pool. */
  lemma PullThenPush<T>(p: Pool<T>)
    requires |p.items| > 0
    ensures Push(Pull(p).0, Pull(p).1) == p
  {
    assert p.items[..|p.items| - 1] + [p.items[|p.items| - 1]] == p.items;
  }
}
