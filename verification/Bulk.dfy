/** Runs of text bytes: what the bulk skips of http_parser_execute jump over in one go. */
module Bulk {
  import opened ParserTypes
  import opened Machine
  import opened Stream
  import opened Cursor
  import opened Count

  lemma CutFirst(d: string, k: nat)
    requires 0 < k <= |d|
    ensures d[..k] == [d[0]] + d[1..][..k - 1] && d[1..][k - 1..] == d[k..]
  {
  }

  /** Text bytes that leave the parser as it is. */
  lemma {:induction false} SteadyRun(c: Core, d: string, k: nat, h: Hook, skip: Skip)
    requires k <= |d|
    requires forall i :: 0 <= i < k ==> Dispatch(c.p, d[i]) == Act(c.p, Field(h), Quiet, Eat)
    ensures Feed(c, d, skip) == Feed(Core(c.p, Appended(c.seen, h, d[..k])), d[k..], skip)
    decreases k
  {
    hide Dispatch;
    if k > 0 {
      var c' := Core(c.p, Push(c.seen, Text(h, [d[0]])));
      assert Apply(c, d[0], skip) == c';
      SteadyRun(c', d[1..], k - 1, h, skip);
      CutFirst(d, k);
      AppendedMore(c.seen, h, d[1..][..k - 1], d[0]);
    } else {
      assert d[0..] == d;
    }
  }

  predicate CountsBody(p: Parser) {
    p.state == Body(Identity) || p.state == Chunk(ChunkData)
  }

  /** A body byte that is not the last one. */
  lemma CountedStep(c: Core, ch: char, skip: Skip)
    requires CountsBody(c.p) && 1 < c.p.contentLength
    ensures var q := c.p.(contentLength := c.p.contentLength - 1);
            && Dispatch(c.p, ch) == Act(q, Field(OnBody), Quiet, Eat)
            && Apply(c, ch, skip) == Core(q, Push(c.seen, Text(OnBody, [ch])))
  {
    hide LeadByte, ResponseByte, MethodByte, UrlByte, RequestByte, NameByte, DiscardByte, ValueByte, EndByte;
  }

  /** Body bytes short of the announced length. */
  lemma {:induction false} CountedRun(c: Core, d: string, k: nat, skip: Skip)
    requires CountsBody(c.p) && k <= |d| && k < c.p.contentLength
    ensures Feed(c, d, skip) ==
            Feed(Core(c.p.(contentLength := c.p.contentLength - k), Appended(c.seen, OnBody, d[..k])), d[k..], skip)
    decreases k
  {
    hide Dispatch, Apply;
    if k > 0 {
      var c' := Core(c.p.(contentLength := c.p.contentLength - 1), Push(c.seen, Text(OnBody, [d[0]])));
      CountedStep(c, d[0], skip);
      CountedRun(c', d[1..], k - 1, skip);
      CutFirst(d, k);
      AppendedMore(c.seen, OnBody, d[1..][..k - 1], d[0]);
    } else {
      assert d[0..] == d;
    }
  }

  /** Body bytes are not counted. */
  lemma {:induction false} CountedCounts(n: nat, c: Core, d: string, k: nat, skip: Skip)
    requires CountsBody(c.p) && k <= |d| && k < c.p.contentLength && n <= HTTP_MAX_HEADER_SIZE
    ensures Counts(n, false, c, d, skip) ==
            Counts(n, false, Core(c.p.(contentLength := c.p.contentLength - k), Appended(c.seen, OnBody, d[..k])),
                   d[k..], skip)
    decreases k
  {
    hide Dispatch, Apply;
    if k > 0 {
      var c' := Core(c.p.(contentLength := c.p.contentLength - 1), Push(c.seen, Text(OnBody, [d[0]])));
      CountedStep(c, d[0], skip);
      CountedCounts(n, c', d[1..], k - 1, skip);
      CutFirst(d, k);
      AppendedMore(c.seen, OnBody, d[1..][..k - 1], d[0]);
    } else {
      assert d[0..] == d;
    }
  }

  lemma {:induction false} EofCounts(n: nat, c: Core, d: string, k: nat, skip: Skip)
    requires c.p.state == Body(IdentityEof) && k <= |d| && n <= HTTP_MAX_HEADER_SIZE
    ensures Counts(n, false, c, d, skip) == Counts(n, false, Core(c.p, Appended(c.seen, OnBody, d[..k])), d[k..], skip)
    decreases k
  {
    hide Dispatch, Apply;
    if k > 0 {
      var c' := Core(c.p, Push(c.seen, Text(OnBody, [d[0]])));
      EofStep(c, d[0], skip);
      EofCounts(n, c', d[1..], k - 1, skip);
      CutFirst(d, k);
      AppendedMore(c.seen, OnBody, d[1..][..k - 1], d[0]);
    } else {
      assert d[0..] == d;
    }
  }

  /** A byte that is not counted. */
  lemma PeakStep(n: nat, c: Core, d: string, skip: Skip)
    requires !ParsingHeader(c.p.state) && !ResetsCount(c.p.state) && d != [] && Dispatch(c.p, d[0]).next.Eat?
    ensures Peak(n, c, d, skip) == Peak(n, Apply(c, d[0], skip), d[1..], skip)
  {
    hide Dispatch, Apply, Peak;
    AtLeast(n, Apply(c, d[0], skip), d[1..], skip);
    assert PeakByte(n, c, d, skip) == Peak(n, Apply(c, d[0], skip), d[1..], skip);
    assert Peak(n, c, d, skip) == Max(n, PeakByte(n, c, d, skip)) by { PeakFirst(n, c, d, skip); }
  }

  lemma LapStep(c: Core, d: string, skip: Skip)
    requires !ResetsCount(c.p.state) && d != [] && Dispatch(c.p, d[0]).next.Eat?
    ensures Laps(c, d, skip) == Laps(Apply(c, d[0], skip), d[1..], skip)
    ensures LaterPeak(c, d, skip) == LaterPeak(Apply(c, d[0], skip), d[1..], skip)
  {
    hide Dispatch, Apply, Peak, PeakByte;
  }

  lemma PeakFirst(n: nat, c: Core, d: string, skip: Skip)
    requires !ParsingHeader(c.p.state) && d != []
    ensures Peak(n, c, d, skip) == Max(n, PeakByte(n, c, d, skip))
  {
    hide PeakByte;
  }

  lemma {:induction false} CountedPeak(n: nat, c: Core, d: string, k: nat, skip: Skip)
    requires CountsBody(c.p) && k <= |d| && k < c.p.contentLength
    ensures Peak(n, c, d, skip) ==
            Peak(n, Core(c.p.(contentLength := c.p.contentLength - k), Appended(c.seen, OnBody, d[..k])), d[k..], skip)
    decreases k
  {
    hide Dispatch, Apply, Peak;
    if k > 0 {
      CountedStep(c, d[0], skip);
      PeakStep(n, c, d, skip);
      CountedPeak(n, Apply(c, d[0], skip), d[1..], k - 1, skip);
      CutFirst(d, k);
      AppendedMore(c.seen, OnBody, d[1..][..k - 1], d[0]);
    } else {
      assert d[0..] == d;
    }
  }

  /** Nor do they set the count back. */
  lemma {:induction false} CountedLaps(c: Core, d: string, k: nat, skip: Skip)
    requires CountsBody(c.p) && k <= |d| && k < c.p.contentLength
    ensures var c' := Core(c.p.(contentLength := c.p.contentLength - k), Appended(c.seen, OnBody, d[..k]));
            Laps(c, d, skip) == Laps(c', d[k..], skip) && LaterPeak(c, d, skip) == LaterPeak(c', d[k..], skip)
    decreases k
  {
    hide Dispatch, Apply, Laps, LaterPeak;
    if k > 0 {
      var c' := Core(c.p.(contentLength := c.p.contentLength - 1), Push(c.seen, Text(OnBody, [d[0]])));
      CountedStep(c, d[0], skip);
      LapStep(c, d, skip);
      CountedLaps(c', d[1..], k - 1, skip);
      CutFirst(d, k);
      AppendedMore(c.seen, OnBody, d[1..][..k - 1], d[0]);
    } else {
      assert d[0..] == d;
    }
  }

  lemma EofStep(c: Core, ch: char, skip: Skip)
    requires c.p.state == Body(IdentityEof)
    ensures Dispatch(c.p, ch) == Act(c.p, Field(OnBody), Quiet, Eat)
    ensures Apply(c, ch, skip) == Core(c.p, Push(c.seen, Text(OnBody, [ch])))
  {
  }

  lemma {:induction false} EofPeak(n: nat, c: Core, d: string, k: nat, skip: Skip)
    requires c.p.state == Body(IdentityEof) && k <= |d|
    ensures var c' := Core(c.p, Appended(c.seen, OnBody, d[..k]));
            && Peak(n, c, d, skip) == Peak(n, c', d[k..], skip)
            && Laps(c, d, skip) == Laps(c', d[k..], skip) && LaterPeak(c, d, skip) == LaterPeak(c', d[k..], skip)
    decreases k
  {
    hide Dispatch, Apply, Peak, Laps, LaterPeak;
    if k > 0 {
      EofStep(c, d[0], skip);
      PeakStep(n, c, d, skip);
      LapStep(c, d, skip);
      EofPeak(n, Apply(c, d[0], skip), d[1..], k - 1, skip);
      CutFirst(d, k);
      AppendedMore(c.seen, OnBody, d[1..][..k - 1], d[0]);
    } else {
      assert d[0..] == d;
    }
  }

  lemma PendingMore(t: History, m: Mark, data: string, p: nat, q: nat, h: Hook)
    requires p < q <= |data| && (m.Mark? ==> m.from <= p && m.hook == h)
    ensures Appended(Pending(t, m, data, p), h, data[p..][..q - p]) == Pending(t, MarkAt(m, h, p), data, q)
  {
    assert data[p..][..q - p] == data[p..q];
    if m.Mark? {
      PushText(t, h, data[m.from..p], data[p..q]);
      assert data[m.from..p] + data[p..q] == data[m.from..q];
    }
  }
}
