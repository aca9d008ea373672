/** Where a part lies inside a buffer, and the small sequence facts framing proofs use. */
module Layout {
  import opened Bytes

  /**
   * `buf` holds `part` starting at `at`. Stated byte by byte so that the solver unfolds it
   * only as far as a proof asks; HoldsAtMeans gives the slice form.
   */
  predicate HoldsAt(buf: Bytes, at: nat, part: Bytes)
    decreases |part|
  {
    if |part| == 0 then at <= |buf|
    else at < |buf| && buf[at] == part[0] && HoldsAt(buf, at + 1, part[1..])
  }

  lemma {:induction false} HoldsAtMeans(buf: Bytes, at: nat, part: Bytes)
    ensures HoldsAt(buf, at, part) <==> at + |part| <= |buf| && buf[at..at + |part|] == part
    decreases |part|
  {
    if |part| > 0 {
      HoldsAtMeans(buf, at + 1, part[1..]);
      if at + |part| <= |buf| {
        assert buf[at..at + |part|] == [buf[at]] + buf[at + 1..at + 1 + |part[1..]|];
        assert part == [part[0]] + part[1..];
      }
    }
  }

  lemma HoldsAtSlice(buf: Bytes, at: nat, part: Bytes, i: nat, j: nat)
    requires HoldsAt(buf, at, part) && i <= j <= |part|
    ensures HoldsAt(buf, at + i, part[i..j])
  {
    HoldsAtMeans(buf, at, part);
    HoldsAtMeans(buf, at + i, part[i..j]);
    assert buf[at + i..at + j] == part[i..j] by {
      forall k | 0 <= k < j - i ensures buf[at + i..at + j][k] == part[i..j][k] {
        assert buf[at + i + k] == buf[at..at + |part|][i + k];
      }
    }
  }

  lemma HoldsAtSplit(buf: Bytes, at: nat, a: Bytes, b: Bytes)
    requires HoldsAt(buf, at, a + b)
    ensures HoldsAt(buf, at, a) && HoldsAt(buf, at + |a|, b)
  {
    HoldsAtSlice(buf, at, a + b, 0, |a|);
    assert (a + b)[0..|a|] == a;
    HoldsAtSlice(buf, at, a + b, |a|, |a + b|);
    assert (a + b)[|a|..|a + b|] == b;
  }

  /** A byte range of a held part is the same byte range of the buffer. */
  lemma HoldsAtPart(buf: Bytes, at: nat, part: Bytes, i: nat, j: nat)
    requires HoldsAt(buf, at, part) && i <= j <= |part|
    ensures at + j <= |buf| && buf[at + i..at + j] == part[i..j]
  {
    HoldsAtSlice(buf, at, part, i, j);
    HoldsAtMeans(buf, at + i, part[i..j]);
  }

  lemma SplitAround<T>(s: seq<T>, i: nat)
    requires i < |s|
    ensures s == s[..i] + ([s[i]] + s[i + 1..])
  {
    assert s[i..] == [s[i]] + s[i + 1..];
    assert s == s[..i] + s[i..];
  }

  lemma PrefixGrows<T>(s: seq<T>, i: nat)
    requires i < |s|
    ensures s[..i] + [s[i]] == s[..i + 1]
  {
  }

  lemma PrefixWhole<T>(s: seq<T>)
    ensures s[..|s|] == s
  {
  }

  lemma AppendAssoc(a: Bytes, b: Bytes, c: Bytes)
    ensures a + (b + c) == a + b + c
  {
  }

  /** A part held between two others lies where the first one ends. */
  lemma HoldsAtMiddle(buf: Bytes, at: nat, a: Bytes, b: Bytes, c: Bytes)
    requires HoldsAt(buf, at, a + b + c)
    ensures HoldsAt(buf, at + |a|, b)
  {
    HoldsAtSplit(buf, at, a + b, c);
    HoldsAtSplit(buf, at, a, b);
  }

  /** A part placed after a head lies where the head ends. */
  lemma HoldsAfter(buf: Bytes, head: Bytes, part: Bytes, rest: Bytes)
    requires buf == head + (part + rest)
    ensures HoldsAt(buf, |head|, part)
  {
    assert buf[|head|..|head| + |part + rest|] == part + rest;
    HoldsAtMeans(buf, |head|, part + rest);
    HoldsAtSplit(buf, |head|, part, rest);
  }

  /** The slice form of HoldsAtSplit: two parts held together are each held where they lie. */
  lemma SliceSplit(buf: Bytes, at: nat, a: Bytes, b: Bytes)
    requires at + |a| + |b| <= |buf| && buf[at..at + |a| + |b|] == a + b
    ensures buf[at..at + |a|] == a && buf[at + |a|..at + |a| + |b|] == b
  {
    assert buf[at..at + |a|] == (a + b)[..|a|];
    assert buf[at + |a|..at + |a| + |b|] == (a + b)[|a|..];
  }

  /** The middle part of three joined, sliced back out. */
  lemma SliceMiddle(h: Bytes, m: Bytes, r: Bytes)
    ensures (h + m + r)[|h|..|h| + |m|] == m
  {
  }

  lemma AppendEmpty(b: Bytes)
    ensures [] + b == b
  {
  }
}
