/**
 * Feeding a request in rounds: the context `feed` leaves behind when it waits for
 * more bytes picks up where it stopped, and the intended parser never panics on
 * a context it produced itself.
 */
module RequestStreaming {
  import opened Bytes
  import opened Wrappers
  import opened Values
  import opened CommandIds
  import opened Requests
  import opened RequestParser

  /** Bytes received later only extend what was received before. */
  lemma ExtendedBytes(buf: Bytes, more: Bytes, lo: nat, hi: nat)
    requires lo <= hi <= |buf|
    ensures (buf + more)[lo..hi] == buf[lo..hi]
    ensures forall i :: lo <= i < hi ==> (buf + more)[i] == buf[i]
  {
  }

  /** A step that moves on or finishes reads only bytes already received, so more bytes do not change it. */
  lemma StepExtends(ctx: Context, buf: Bytes, more: Bytes)
    requires Step(ctx, buf).Next? || Step(ctx, buf).Finished?
    ensures Step(ctx, buf + more) == Step(ctx, buf)
  {
    match ctx.stage
    case Init =>
      ExtendedBytes(buf, more, 0, if buf[0] >= 128 then 2 else 1);
    case KindStage(_, _) =>
      ExtendedBytes(buf, more, ctx.idx, ctx.idx + 1);
    case ArgumentStage(_, _, _) =>
      ExtendedBytes(buf, more, ctx.idx, ctx.idx + 4);
  }

  /**
   * After `feed` waits, feeding the context it kept the bytes received so far and
   * more yields what feeding the original context those bytes yields.
   */
  lemma {:induction false} FeedResumes(ctx: Context, buf: Bytes, more: Bytes)
    requires Feed(ctx, buf).1 == Waiting
    ensures Feed(Feed(ctx, buf).0, buf + more) == Feed(ctx, buf + more)
    decreases Unread(ctx, buf), Rank(ctx.stage)
  {
    if ctx.idx <= |buf| {
      match Step(ctx, buf)
      case Next(c) =>
        StepExtends(ctx, buf, more);
        FeedResumes(c, buf, more);
      case Finished(_, _, _) =>
      case Incomplete =>
      case Fail(_) =>
      case Panic =>
    }
  }

  /** A request split anywhere and fed in two rounds is read as if fed at once. */
  lemma FeedTwoRounds(buf: Bytes, more: Bytes)
    requires Feed(New, buf).1 == Waiting
    ensures Feed(Feed(New, buf).0, buf + more) == Feed(New, buf + more)
  {
    FeedResumes(New, buf, more);
  }

  /**
   * The intended parser's contexts: a count is read with no positions recorded, and
   * argument parsing has recorded fewer positions than its count.
   */
  predicate Sound(ctx: Context) {
    match ctx.stage
    case Init => true
    case KindStage(_, _) => ctx.positions == []
    case ArgumentStage(count, _, _) => |ctx.positions| < count
  }

  /** A step from a sound context never panics and moves on only to a sound context. */
  lemma StepSound(ctx: Context, buf: Bytes)
    requires Sound(ctx)
    ensures Step(ctx, buf) != Panic
    ensures Step(ctx, buf).Next? ==> Sound(Step(ctx, buf).next)
  {
  }

  /** Feeding a sound context never panics and leaves a sound context behind. */
  lemma {:induction false} FeedSound(ctx: Context, buf: Bytes)
    requires Sound(ctx)
    ensures Feed(ctx, buf).1 != Panicked
    ensures Sound(Feed(ctx, buf).0)
    decreases Unread(ctx, buf), Rank(ctx.stage)
  {
    if ctx.idx <= |buf| {
      StepSound(ctx, buf);
      match Step(ctx, buf)
      case Next(c) => FeedSound(c, buf);
      case Finished(_, _, _) =>
      case Incomplete =>
      case Fail(_) =>
      case Panic =>
    }
  }

  /** Whatever bytes arrive, in whatever rounds, a fresh context never panics. */
  lemma NeverPanics(buf: Bytes)
    ensures Feed(New, buf).1 != Panicked
    ensures Sound(Feed(New, buf).0)
  {
    FeedSound(New, buf);
  }
}
