/** Channel arithmetic of the radio HAL (new_hal): FMR_seek with its look-ahead, and the STEP command.
    Frequencies are 32-bit unsigned kHz and so is the arithmetic, except for the loop index, a C int. */
module HalSeek {
  import opened Common
  import opened Reading
  import opened SeekSpec

  /** Conversion of a number to a C int. */
  function AsInt(x: int): (i: int)
    ensures IsInt(i) && i % TWO32 == x % TWO32
    ensures 0 <= x < TWO31 ==> i == x
    ensures TWO31 <= x < TWO32 ==> i == x - TWO32
  {
    var y := x % TWO32;
    if y >= TWO31 then y - TWO32 else y
  }

  datatype Config = Config(lower: int, upper: int, spacing: int, kind: int) {

    predicate InBand(ch: int) { lower <= ch <= upper }

    /** The fields are 32 bits wide and the limits in order. */
    predicate Ordered() { 0 <= lower <= upper < TWO32 && 0 <= spacing < TWO32 }

    /** Moreover there is a spacing to divide by. */
    predicate Sane() { Ordered() && spacing > 0 }

    /** The look-ahead takes its step as an 8-bit number. */
    function Step(): int { spacing % 256 }

    /** The last channel of the grid. */
    function Top(): int
      requires spacing > 0
    {
      lower + spacing * ((upper - lower) / spacing)
    }

    /** The look-ahead upward does not wrap round to below the band, from the last channel. */
    predicate UpSafe()
      requires spacing > 0
    {
      && (Top() + Step() >= TWO32 ==> Top() + Step() - TWO32 >= lower)
      && (Top() + Step() <= upper && Top() + 2 * Step() >= TWO32 ==> Top() + 2 * Step() - TWO32 >= lower)
    }

    /** The look-ahead downward does not wrap round to above the band, from the first channel. */
    predicate DownSafe() { lower >= Step() || lower - Step() + TWO32 <= upper }

    /** What keeps every seek in the band: a single channel, or no such wrap. */
    predicate Contained()
      requires spacing > 0
    {
      lower + spacing > upper || (UpSafe() && DownSafe())
    }
  }

  /** What the hardware answers during one command: whether a tune succeeds, and for probe t of a seek
      the reading and the stop flag. `elsewhere` stands for the channel that a seek with settings
      outside the modelled range would produce. */
  datatype Hardware = Hardware(tuneOk: bool, elsewhere: int, fakes: seq<FakeChannel>,
                               read: (nat, int) -> Reading, stop: nat -> bool) {

    /** The fake-channel table is in units of 100 kHz. */
    predicate Accepts(t: nat, ch: int) { Acceptable(fakes, ch / 100, read(t, ch)) }
  }

  // ---- STEP

  /** The channel CMD_STEP tunes to. */
  function StepTo(c: Config, ch: int, up: bool): int {
    var f := (if up then ch + c.spacing else ch - c.spacing) % TWO32;
    var g := if f > c.upper then c.lower else f;
    if g < c.lower then c.upper else g
  }

  /** Whatever the start and whatever wraps around in 32 bits, a step lands in the band; and from inside it,
      it moves one spacing or goes round, where a step under zero or over the top of 32 bits counts as a
      step to the other end of the numbers. */
  lemma StepInBand(c: Config, ch: int, up: bool)
    requires c.Ordered() && 0 <= ch < TWO32
    ensures c.InBand(StepTo(c, ch, up))
    ensures c.InBand(ch) && up && ch + c.spacing < TWO32 ==>
              StepTo(c, ch, up) == if ch + c.spacing <= c.upper then ch + c.spacing else c.lower
    ensures c.InBand(ch) && !up && ch >= c.spacing ==>
              StepTo(c, ch, up) == if ch - c.spacing >= c.lower then ch - c.spacing else c.upper
    ensures c.InBand(ch) && !up && ch < c.spacing ==>
              StepTo(c, ch, up) == var f := ch - c.spacing + TWO32; if f > c.upper then c.lower else f
  {
    ModOnce(if up then ch + c.spacing else ch - c.spacing, TWO32);
  }

  // ---- SEEK

  datatype Result = Result(ok: bool, ch: int)

  /** A call of FMR_seek after its range check of the start. */
  datatype HalCall = HalCall(cfg: Config, start: int, up: bool, hw: Hardware) {

    predicate Valid() { cfg.Sane() && cfg.InBand(start) }

    /** The same call in the terms of SeekSpec. */
    function Tour(): (t: SeekCall)
      requires Valid()
      ensures t.Valid() && t.Inside()
    {
      SeekCall(start, cfg.lower, cfg.upper, cfg.spacing, up, hw.fakes, true, hw.read, hw.stop)
    }

    function N(): nat
      requires Valid()
    {
      (cfg.upper - cfg.lower) / cfg.spacing + 1
    }

    function S(): nat
      requires Valid()
    {
      (start - cfg.lower) / cfg.spacing
    }

    /** Number of iterations of the loop beyond the start, then of the one round the band's end. None are made
        if the number of channels is zero in 32 bits. */
    function Len1(): nat
      requires Valid()
    {
      var len := if N() == TWO32 then 0 else if up then AsInt(N()) - AsInt(S() + 1) else AsInt(S() - 1) + 1;
      if len > 0 then len else 0
    }

    function Len2(): nat
      requires Valid()
    {
      var len := if N() == TWO32 then 0 else if up then AsInt(S()) else AsInt(N() - 1) - AsInt(S());
      if len > 0 then len else 0
    }

    /** The loop index at visit k. */
    function At(k: nat): int
      requires Valid()
    {
      if k < Len1() then (if up then AsInt(S() + 1) + k else AsInt(S() - 1) - k)
      else if up then k - Len1() else AsInt(N() - 1) - (k - Len1())
    }

    /** The channel of loop index i, in unsigned arithmetic. */
    function Freq(i: int): int { (cfg.lower + cfg.spacing * (i % TWO32)) % TWO32 }

    /** The look-ahead's next channel, and whether its check lets it pass. */
    function Next(cur: int): int { (if up then cur + cfg.Step() else cur - cfg.Step()) % TWO32 }

    predicate Passes(next: int) { if up then next <= cfg.upper else next >= cfg.lower }

    /** FMR_Seek_More with i of 2 steps done, the last at `cur`; (ch, rssi) is the best so far. */
    function More(t: nat, cur: int, ch: int, rssi: int, i: nat): Result
      decreases 2 - i
    {
      if i >= 2 || !Passes(Next(cur)) then Result(true, ch)
      else
        var next := Next(cur);
        if hw.stop(t) then Result(false, start)
        else if hw.Accepts(t, next) && hw.read(t, next).rssi > rssi
        then More(t + 1, next, next, hw.read(t, next).rssi, i + 1)
        else More(t + 1, next, ch, rssi, i + 1)
    }

    /** The loop indices in the order of the visits. */
    function Order(): (s: seq<int>)
      requires Valid()
      ensures |s| == Len1() + Len2() && forall k :: 0 <= k < |s| ==> s[k] == At(k)
    {
      seq(Len1() + Len2(), k requires 0 <= k => At(k))
    }

    /** The sweep over such indices from visit k on; the channel of a failed seek is the start. */
    function Sweep(order: seq<int>, k: nat): Result
      requires k <= |order|
      decreases |order| - k
    {
      if k == |order| || hw.stop(k) then Result(false, start)
      else
        var f := Freq(order[k]);
        if hw.Accepts(k, f) then More(k + 1, f, f, hw.read(k, f).rssi, 0) else Sweep(order, k + 1)
    }

    /** The outcome of the seek. */
    function Sought(): Result
      requires Valid()
    {
      Sweep(Order(), 0)
    }
  }

  /** Where FMR_seek starts: an out-of-band channel is replaced by the lower limit. */
  function StartOf(c: Config, ch: int): int { if c.InBand(ch) then ch else c.lower }

  /** The program channel after FMR_seek. */
  function SeekTo(c: Config, ch: int, up: bool, hw: Hardware): int
    requires c.Sane()
  {
    HalCall(c, StartOf(c, ch), up, hw).Sought().ch
  }

  // ---- The loops

  /** FMR_Seek_More. */
  method SeekMore(h: HalCall, t: nat, freq0: int, rssi0: int) returns (r: Result)
    ensures r == h.More(t, freq0, freq0, rssi0, 0)
  {
    var cur, ch, rssi := freq0, freq0, rssi0;
    var i: nat := 0;
    while i < 2
      invariant i <= 2 && h.More(t + i, cur, ch, rssi, i) == h.More(t, freq0, freq0, rssi0, 0)
    {
      var next := (if h.up then cur + h.cfg.Step() else cur - h.cfg.Step()) % TWO32;
      if (if h.up then next > h.cfg.upper else next < h.cfg.lower) {
        return Result(true, ch);
      }
      cur := next;
      if h.hw.stop(t + i) {
        return Result(false, h.start);
      }
      if h.hw.Accepts(t + i, cur) && h.hw.read(t + i, cur).rssi > rssi {
        ch, rssi := cur, h.hw.read(t + i, cur).rssi;
      }
      i := i + 1;
    }
    r := Result(true, ch);
  }

  /** The body shared by the four loops, for visit k at loop index i. */
  method TryIndex(h: HalCall, ghost order: seq<int>, k: nat, i: int) returns (done: bool, r: Result)
    requires k < |order| && order[k] == i
    ensures if done then r == h.Sweep(order, k) else h.Sweep(order, k) == h.Sweep(order, k + 1)
  {
    done, r := true, Result(false, h.start);
    var freq := (h.cfg.lower + h.cfg.spacing * (i % TWO32)) % TWO32;
    if h.hw.stop(k) {
      return;
    }
    if !h.hw.Accepts(k, freq) {
      done := false;
      return;
    }
    r := SeekMore(h, k + 1, freq, h.hw.read(k, freq).rssi);
  }

  /** An ascending loop from..to-1, at visits k0 and following. */
  method LoopUp(h: HalCall, ghost order: seq<int>, from: int, to: int, k0: nat, ghost k1: nat)
    returns (done: bool, r: Result)
    requires k0 <= k1 <= |order|
    requires k1 - k0 == if to > from then to - from else 0
    requires forall k :: k0 <= k < k1 ==> order[k] == from + (k - k0)
    ensures if done then r == h.Sweep(order, k0) else h.Sweep(order, k0) == h.Sweep(order, k1)
  {
    done, r := false, Result(false, h.start);
    var i := from;
    while i < to
      invariant from <= i && (from < to ==> i <= to) && (to <= from ==> i == from)
      invariant h.Sweep(order, k0) == h.Sweep(order, k0 + (i - from))
    {
      done, r := TryIndex(h, order, k0 + (i - from), i);
      if done {
        return;
      }
      i := i + 1;
    }
  }

  /** A descending loop from..to+1, at visits k0 and following. */
  method LoopDown(h: HalCall, ghost order: seq<int>, from: int, to: int, k0: nat, ghost k1: nat)
    returns (done: bool, r: Result)
    requires k0 <= k1 <= |order|
    requires k1 - k0 == if from > to then from - to else 0
    requires forall k :: k0 <= k < k1 ==> order[k] == from - (k - k0)
    ensures if done then r == h.Sweep(order, k0) else h.Sweep(order, k0) == h.Sweep(order, k1)
  {
    done, r := false, Result(false, h.start);
    var i := from;
    while i > to
      invariant i <= from && (to < from ==> to <= i) && (from <= to ==> i == from)
      invariant h.Sweep(order, k0) == h.Sweep(order, k0 + (from - i))
    {
      done, r := TryIndex(h, order, k0 + (from - i), i);
      if done {
        return;
      }
      i := i - 1;
    }
  }

  /** The two loops of an upward seek, with the conversions of their bounds to int. */
  method SeekUpward(h: HalCall, index: nat, channels: nat) returns (r: Result)
    requires h.Valid() && h.up && index == h.S() && channels == h.N() != TWO32
    ensures r == h.Sought()
  {
    ghost var order := h.Order();
    var first := h.Len1();
    var done;
    done, r := LoopUp(h, order, AsInt(index + 1), AsInt(channels), 0, first);
    if !done {
      done, r := LoopUp(h, order, 0, AsInt(index), first, |order|);
    }
    if !done {
      r := Result(false, h.start);
    }
  }

  /** The two loops of a downward seek. */
  method SeekDownward(h: HalCall, index: nat, channels: nat) returns (r: Result)
    requires h.Valid() && !h.up && index == h.S() && channels == h.N() != TWO32
    ensures r == h.Sought()
  {
    ghost var order := h.Order();
    var first := h.Len1();
    var done;
    done, r := LoopDown(h, order, AsInt(index - 1), -1, 0, first);
    if !done {
      done, r := LoopDown(h, order, AsInt(channels - 1), AsInt(index), first, |order|);
    }
    if !done {
      r := Result(false, h.start);
    }
  }

  /** FMR_seek: the checks of start and channel count, and the loops of the direction. */
  method FmrSeek(c: Config, ch: int, up: bool, hw: Hardware) returns (r: Result)
    requires c.Sane()
    ensures r == HalCall(c, StartOf(c, ch), up, hw).Sought() && r.ch == SeekTo(c, ch, up, hw)
  {
    var start := ch;
    if start < c.lower || start > c.upper {
      start := c.lower;
    }
    var h := HalCall(c, start, up, hw);
    CountInWord(h);
    var channels, index := ((c.upper - c.lower) / c.spacing + 1) % TWO32, (start - c.lower) / c.spacing;
    assert channels == h.N() % TWO32 && index == h.S();
    if channels == 0 {
      r := Result(false, start);
    } else if up {
      r := SeekUpward(h, index, channels);
    } else {
      r := SeekDownward(h, index, channels);
    }
  }

  // ---- The order of visits

  lemma DivAtMost(m: int, d: int)
    requires m >= 0 && d > 0
    ensures 0 <= m / d <= m
  {
    var q := m / d;
    assert q * d <= m;
    assert q >= 1 ==> q * d >= q;
  }

  lemma CountFits(h: HalCall)
    requires h.Valid()
    ensures h.S() < h.N() <= TWO32
  {
    DivAtMost(h.cfg.upper - h.cfg.lower, h.cfg.spacing);
    DivMono(h.start - h.cfg.lower, h.cfg.upper - h.cfg.lower, h.cfg.spacing);
  }

  /** The channel count in 32 bits; where that is zero, nothing is visited. */
  lemma CountInWord(h: HalCall)
    requires h.Valid()
    ensures h.N() % TWO32 == if h.N() == TWO32 then 0 else h.N()
    ensures h.N() == TWO32 ==> h.Sought() == Result(false, h.start)
  {
    CountFits(h);
    assert h.N() == TWO32 ==> h.Order() == [];
  }

  /** Every visited index is one of the grid. */
  lemma VisitOnGrid(h: HalCall, k: nat)
    requires h.Valid() && k < h.Len1() + h.Len2()
    ensures 0 <= h.At(k) % TWO32 < h.N()
  {
    CountFits(h);
    var i := h.At(k);
    assert 0 <= i < TWO31 ==> i % TWO32 == i;
    assert -TWO31 <= i < 0 ==> i % TWO32 == i + TWO32;
  }

  lemma FreqOnGrid(h: HalCall, i: int)
    requires h.Valid() && 0 <= i % TWO32 < h.N()
    ensures h.cfg.InBand(h.Freq(i)) && h.Freq(i) == h.cfg.lower + h.cfg.spacing * (i % TWO32)
  {
    GridIndex(h.cfg.lower, h.cfg.upper, h.cfg.spacing, i % TWO32);
  }

  lemma VisitInBand(h: HalCall, k: nat)
    requires h.Valid() && k < h.Len1() + h.Len2()
    ensures h.cfg.InBand(h.Freq(h.At(k)))
    ensures h.Freq(h.At(k)) == h.cfg.lower + h.cfg.spacing * (h.At(k) % TWO32)
  {
    VisitOnGrid(h, k);
    FreqOnGrid(h, h.At(k));
  }

  /** With fewer than 2^31 channels the loops make the tour of SeekSpec. */
  lemma LoopsMakeTheTour(h: HalCall)
    requires h.Valid() && h.N() < TWO31
    ensures h.Len1() + h.Len2() == h.N() - 1
    ensures h.Tour().Visits() == h.N() - 1 && h.Tour().N() == h.N()
    ensures forall k: nat :: k < h.N() - 1 ==> h.At(k) == h.Tour().Visit(k)
  {
    CountFits(h);
    InsideIndex(h.Tour());
    assert h.S() == 0 ==> AsInt(h.S() - 1) == -1;
  }

  /** Every seek visits all channels but its start exactly when there are fewer than 2^31: beyond that the
      converted bound is negative and an upward seek from the bottom visits nothing. */
  lemma AllVisitedExactly(c: Config, hw: Hardware)
    requires c.Sane()
    ensures (forall start, up :: HalCall(c, start, up, hw).Valid() ==>
               var h := HalCall(c, start, up, hw); h.Len1() + h.Len2() == h.N() - 1)
            <==> HalCall(c, c.lower, true, hw).N() < TWO31
  {
    var bottom := HalCall(c, c.lower, true, hw);
    if bottom.N() < TWO31 {
      forall start, up | HalCall(c, start, up, hw).Valid()
        ensures var h := HalCall(c, start, up, hw); h.Len1() + h.Len2() == h.N() - 1
      {
        LoopsMakeTheTour(HalCall(c, start, up, hw));
      }
    } else {
      CountFits(bottom);
      assert bottom.Valid() && bottom.S() == 0;
    }
  }

  // ---- Endings

  /** The look-ahead of this copy is that of SeekSpec while its step is the spacing and it cannot wrap. */
  predicate Plain(h: HalCall) {
    h.Valid() && h.N() < TWO31 && h.cfg.spacing < 256
    && if h.up then h.cfg.upper + h.cfg.spacing < TWO32 else h.cfg.lower >= h.cfg.spacing
  }

  /** What an ending means for the program channel. Unlike the HIDL copy, finding nothing is an error. */
  function Outcome(h: HalCall, e: Ending): Result
    requires h.Valid()
  {
    if e.Found? then Result(true, h.Tour().Ahead(e.k, e.w)) else Result(false, h.start)
  }

  /** One step of the look-ahead: unwrapped, by the spacing. */
  lemma NextPlain(h: HalCall, cur: int)
    requires Plain(h) && h.cfg.InBand(cur)
    ensures h.Next(cur) == if h.up then cur + h.cfg.spacing else cur - h.cfg.spacing
  {
    ModOnce(if h.up then cur + h.cfg.spacing else cur - h.cfg.spacing, TWO32);
  }

  /** The same in both terms. */
  lemma NextIsAhead(h: HalCall, k: nat, i: nat)
    requires Plain(h) && k < h.Tour().Visits() && i < 2 && i <= h.Tour().Reach(k)
    ensures h.Passes(h.Next(h.Tour().Ahead(k, i))) <==> i < h.Tour().Reach(k)
    ensures i < h.Tour().Reach(k) ==> h.Next(h.Tour().Ahead(k, i)) == h.Tour().Ahead(k, i + 1)
  {
    var c := h.Tour();
    AheadInside(c, k, i);
    c.AheadStep(k, i);
    NextPlain(h, c.Ahead(k, i));
    assert h.Passes(c.Ahead(k, i + 1)) <==> c.Passes(c.Ahead(k, i + 1));
  }

  /** The result of the look-ahead from visit k with candidate w winning after i steps. */
  function MoreAt(h: HalCall, k: nat, i: nat, w: nat): Result
    requires h.Valid()
  {
    h.More(k + 1 + i, h.Tour().Ahead(k, i), h.Tour().Ahead(k, w), h.Tour().Strength(k, w), i)
  }

  lemma MoreStep(h: HalCall, k: nat, i: nat, w: nat)
    requires Plain(h) && k < h.Tour().Visits() && i < 2 && i < h.Tour().Reach(k) && !h.hw.stop(k + 1 + i)
    ensures MoreAt(h, k, i, w) == MoreAt(h, k, i + 1, h.Tour().Winner(k, i, w))
  {
    NextIsAhead(h, k, i);
  }

  lemma MoreLast(h: HalCall, k: nat, i: nat, w: nat)
    requires Plain(h) && k < h.Tour().Visits() && i <= h.Tour().Reach(k)
    ensures i == h.Tour().Reach(k) ==> MoreAt(h, k, i, w) == Result(true, h.Tour().Ahead(k, w))
    ensures i < h.Tour().Reach(k) && h.hw.stop(k + 1 + i) ==> MoreAt(h, k, i, w) == Result(false, h.start)
  {
    if i < 2 {
      NextIsAhead(h, k, i);
    }
  }

  lemma {:induction false} MoreEnds(h: HalCall, k: nat, i: nat, w: nat) returns (e: Ending)
    requires Plain(h) && Struck(h.Tour(), k) && h.Tour().Looked(k, i, w)
    ensures Ends(h.Tour(), e) && MoreAt(h, k, i, w) == Outcome(h, e)
    decreases 2 - i
  {
    var c := h.Tour();
    LookEnds(c, k, i, w);
    MoreLast(h, k, i, w);
    if i == c.Reach(k) {
      e := Found(k, w);
    } else if h.hw.stop(k + 1 + i) {
      e := StoppedAhead(k, i);
    } else {
      c.LookStep(k, i, w);
      MoreStep(h, k, i, w);
      e := MoreEnds(h, k, i + 1, c.Winner(k, i, w));
    }
  }

  /** One visit in both terms. */
  lemma VisitIsTour(h: HalCall, k: nat)
    requires Plain(h) && k < h.Tour().Visits()
    ensures k < |h.Order()| == h.Tour().Visits()
    ensures h.Freq(h.At(k)) == h.Tour().Ahead(k, 0)
    ensures h.Tour().Hit(k) <==> h.hw.Accepts(k, h.Freq(h.At(k)))
  {
    LoopsMakeTheTour(h);
    var c, i := h.Tour(), h.Tour().Visit(k);
    InsideIndex(c);
    assert h.At(k) == i && 0 <= i < h.N() && i % TWO32 == i;
  }

  /** One visit that is not stopped: the seek goes on with its look-ahead, or with the next visit. */
  lemma SweepStep(h: HalCall, k: nat)
    requires Plain(h) && k < h.Tour().Visits() == |h.Order()| && !h.hw.stop(k)
    ensures h.Sweep(h.Order(), k) == if h.Tour().Hit(k) then MoreAt(h, k, 0, 0) else h.Sweep(h.Order(), k + 1)
  {
    VisitIsTour(h, k);
    assert h.Order()[k] == h.At(k);
  }

  lemma {:induction false} SweepEnds(h: HalCall, k: nat) returns (e: Ending)
    requires Plain(h) && k <= h.Tour().Visits() == |h.Order()| && h.Tour().InVain(k)
    ensures Ends(h.Tour(), e) && h.Sweep(h.Order(), k) == Outcome(h, e)
    decreases |h.Order()| - k
  {
    var c := h.Tour();
    if k == c.Visits() {
      e := NothingFound;
    } else if h.hw.stop(k) {
      e := StoppedAt(k);
    } else {
      SweepStep(h, k);
      if c.Hit(k) {
        assert c.Looked(k, 0, 0);
        e := MoreEnds(h, k, 0, 0);
      } else {
        e := SweepEnds(h, k + 1);
      }
    }
  }

  /** A plain seek of this copy ends as the readings and the stop flag determine: the first acceptable
      channel of the tour and the strongest of its look-ahead, or the start. */
  lemma SeekEnds(h: HalCall)
    requires Plain(h)
    ensures h.Sought() == Outcome(h, EndingOf(h.Tour()))
  {
    LoopsMakeTheTour(h);
    var e := SweepEnds(h, 0);
    EndingUnique(h.Tour(), e, EndingOf(h.Tour()));
  }

  // ---- Staying in the band

  /** The look-ahead leads to one of three channels. */
  lemma MoreWithin(h: HalCall, t: nat, f: int, rssi: int)
    requires h.cfg.InBand(f) && h.cfg.InBand(h.start)
    requires h.Passes(h.Next(f)) ==> h.cfg.InBand(h.Next(f))
    requires h.Passes(h.Next(f)) && h.Passes(h.Next(h.Next(f))) ==> h.cfg.InBand(h.Next(h.Next(f)))
    ensures h.cfg.InBand(h.More(t, f, f, rssi, 0).ch)
  {
    var one, two := h.Next(f), h.Next(h.Next(f));
    assert forall u, ch, r :: h.More(u, two, ch, r, 2) == Result(true, ch);
    assert forall u, ch, r :: h.cfg.InBand(ch) && h.Passes(one) ==> h.cfg.InBand(h.More(u, one, ch, r, 1).ch);
  }

  /** Two short steps are less than a spacing that does not fit in 8 bits. */
  lemma StepShort(c: Config)
    requires c.Sane()
    ensures 0 <= c.Step() <= c.spacing && (c.spacing >= 256 ==> 2 * c.Step() < c.spacing)
    ensures c.spacing < 256 ==> c.Step() == c.spacing
  {
  }

  /** A channel of the grid is the last one, or one spacing below it, or lower; likewise from the first. */
  predicate OnGrid(c: Config, f: int)
    requires c.spacing > 0
  {
    && c.lower <= f <= c.Top() <= c.upper < c.Top() + c.spacing
    && (f == c.Top() || f == c.Top() - c.spacing || f <= c.Top() - 2 * c.spacing)
    && (f == c.lower || f == c.lower + c.spacing || f >= c.lower + 2 * c.spacing)
  }

  lemma StepsApart(d: int, a: int, b: int)
    requires d > 0 && a <= b
    ensures d * a == d * b || d * a == d * b - d || d * a <= d * b - 2 * d
  {
    ScaleMono(d, 0, b - a);
    if b - a >= 2 {
      ScaleMono(d, 2, b - a);
    }
    assert d * b == d * a + d * (b - a);
  }

  lemma GridEnds(c: Config, i: nat)
    requires c.Sane() && i <= (c.upper - c.lower) / c.spacing
    ensures OnGrid(c, c.lower + c.spacing * i)
  {
    var n := (c.upper - c.lower) / c.spacing;
    assert c.Top() <= c.upper < c.Top() + c.spacing by {
      TruncDivMeans(c.upper - c.lower, c.spacing);
    }
    StepsApart(c.spacing, i, n);
    StepsApart(c.spacing, 0, i);
  }

  /** The same for any numbers: two steps of st in 32 bits, from f up to top, where st is the spacing or less
      than half of it. */
  lemma TwoStepsUp(lower: int, upper: int, top: int, spacing: int, st: int, f: int)
    requires 0 <= lower <= f <= top <= upper < TWO32 && upper < top + spacing
    requires 0 <= st <= 255 && (st == spacing || 2 * st < spacing)
    requires f == top || f == top - spacing || f <= top - 2 * spacing
    requires top + st >= TWO32 ==> top + st - TWO32 >= lower
    requires top + st <= upper && top + 2 * st >= TWO32 ==> top + 2 * st - TWO32 >= lower
    ensures var one := (f + st) % TWO32; var two := (one + st) % TWO32;
            one <= upper ==> lower <= one && (two <= upper ==> lower <= two)
  {
    ModOnce(f + st, TWO32);
    var one := (f + st) % TWO32;
    ModOnce(one + st, TWO32);
  }

  /** Where safety holds, the look-ahead of a channel on the grid stays in the band. */
  lemma StepsUpInBand(h: HalCall, f: int)
    requires h.Valid() && OnGrid(h.cfg, f) && h.up && h.cfg.UpSafe()
    ensures h.Passes(h.Next(f)) ==> h.cfg.InBand(h.Next(f))
    ensures h.Passes(h.Next(f)) && h.Passes(h.Next(h.Next(f))) ==> h.cfg.InBand(h.Next(h.Next(f)))
  {
    StepShort(h.cfg);
    TwoStepsUp(h.cfg.lower, h.cfg.upper, h.cfg.Top(), h.cfg.spacing, h.cfg.Step(), f);
  }

  lemma StepsDownInBand(h: HalCall, f: int)
    requires h.Valid() && OnGrid(h.cfg, f) && !h.up && h.cfg.DownSafe()
    ensures h.Passes(h.Next(f)) ==> h.cfg.InBand(h.Next(f))
    ensures h.Passes(h.Next(f)) && h.Passes(h.Next(h.Next(f))) ==> h.cfg.InBand(h.Next(h.Next(f)))
  {
    StepShort(h.cfg);
    ModOnce(f - h.cfg.Step(), TWO32);
    ModOnce(h.Next(f) - h.cfg.Step(), TWO32);
  }

  lemma {:induction false} SweepInBand(h: HalCall, k: nat)
    requires h.Valid() && k <= |h.Order()| && (if h.up then h.cfg.UpSafe() else h.cfg.DownSafe())
    ensures h.cfg.InBand(h.Sweep(h.Order(), k).ch)
    decreases |h.Order()| - k
  {
    if k < |h.Order()| {
      VisitInBand(h, k);
      VisitOnGrid(h, k);
      var f := h.Freq(h.At(k));
      GridEnds(h.cfg, h.At(k) % TWO32);
      if h.up {
        StepsUpInBand(h, f);
      } else {
        StepsDownInBand(h, f);
      }
      MoreWithin(h, k + 1, f, h.hw.read(k, f).rssi);
      SweepInBand(h, k + 1);
    }
  }

  /** With a single channel nothing is visited. */
  lemma SingleStays(h: HalCall)
    requires h.Valid() && h.cfg.lower + h.cfg.spacing > h.cfg.upper
    ensures h.Sought() == Result(false, h.start)
  {
    GridIndex(h.cfg.lower, h.cfg.upper, h.cfg.spacing, 1);
    CountFits(h);
    assert h.N() == 1 && h.S() == 0;
  }

  /** In or out of it, the channel has 32 bits. */
  lemma SeekInWord(c: Config, ch: int, up: bool, hw: Hardware)
    requires c.Sane()
    ensures 0 <= SeekTo(c, ch, up, hw) < TWO32
  {
    var h := HalCall(c, StartOf(c, ch), up, hw);
    SweepInWord(h, h.Order(), 0);
  }

  lemma {:induction false} SweepInWord(h: HalCall, order: seq<int>, k: nat)
    requires 0 <= h.start < TWO32 && k <= |order|
    ensures 0 <= h.Sweep(order, k).ch < TWO32
    decreases |order| - k
  {
    if k < |order| {
      var f := h.Freq(order[k]);
      MoreInWord(h, k + 1, f, f, h.hw.read(k, f).rssi, 0);
      SweepInWord(h, order, k + 1);
    }
  }

  lemma {:induction false} MoreInWord(h: HalCall, t: nat, cur: int, ch: int, rssi: int, i: nat)
    requires 0 <= h.start < TWO32 && 0 <= ch < TWO32
    ensures 0 <= h.More(t, cur, ch, rssi, i).ch < TWO32
    decreases 2 - i
  {
    if i < 2 && h.Passes(h.Next(cur)) {
      var next := h.Next(cur);
      MoreInWord(h, t + 1, next, next, h.hw.read(t, next).rssi, i + 1);
      MoreInWord(h, t + 1, next, ch, rssi, i + 1);
    }
  }

  // ---- Leaving it

  /** Hardware for which only probes k and k + b find a station, the second stronger. */
  function TwoProbes(k: nat, b: nat): Hardware { Hardware(true, 0, [], Pair(k, b, 0), Unstopped()) }

  lemma TwoProbesAccept(k: nat, b: nat, t: nat, f: int)
    ensures TwoProbes(k, b).Accepts(t, f) <==> t == k || t == k + b
  {
  }

  /** The sweep passes over the visits before k. */
  lemma {:induction false} SweepTo(h: HalCall, order: seq<int>, k: nat, b: nat, j: nat)
    requires h.hw == TwoProbes(k, b) && j <= k < |order|
    ensures h.Sweep(order, j) == h.More(k + 1, h.Freq(order[k]), h.Freq(order[k]), k, 0)
    decreases k - j
  {
    TwoProbesAccept(k, b, j, h.Freq(order[j]));
    if j < k {
      SweepTo(h, order, k, b, j + 1);
    }
  }

  /** And the look-ahead comes to the b-th channel ahead if all up to it pass. */
  lemma MoreTo(h: HalCall, k: nat, b: nat, f: int)
    requires h.hw == TwoProbes(k, b) && (b == 1 || b == 2) && h.Passes(h.Next(f))
    requires b == 2 ==> h.Passes(h.Next(h.Next(f)))
    ensures h.More(k + 1, f, f, k, 0).ch == if b == 1 then h.Next(f) else h.Next(h.Next(f))
  {
    var one, two := h.Next(f), h.Next(h.Next(f));
    TwoProbesAccept(k, b, k + 1, one);
    TwoProbesAccept(k, b, k + 2, two);
    if b == 1 {
      assert h.More(k + 3, two, one, k + 1, 2).ch == one;
      assert h.More(k + 2, one, one, k + 1, 1).ch == one;
    } else {
      assert h.More(k + 3, two, two, k + 2, 2).ch == two;
      assert h.More(k + 2, one, f, k, 1).ch == two;
    }
  }

  /** Both together: the seek ends on channel g. */
  lemma PairSought(h: HalCall, k: nat, b: nat, f: int, g: int)
    requires h.Valid() && h.hw == TwoProbes(k, b) && (b == 1 || b == 2)
    requires k < |h.Order()| && h.Freq(h.Order()[k]) == f && h.Passes(h.Next(f)) && h.Passes(g)
    requires g == if b == 1 then h.Next(f) else h.Next(h.Next(f))
    ensures h.Sought().ch == g
  {
    SweepTo(h, h.Order(), k, b, 0);
    MoreTo(h, k, b, f);
  }

  /** The one band whose channel count is zero in 32 bits is safe. */
  lemma FullCount(h: HalCall)
    requires h.Valid()
    ensures h.N() == TWO32 ==> h.cfg.UpSafe() && h.cfg.DownSafe()
  {
    var n := (h.cfg.upper - h.cfg.lower) / h.cfg.spacing;
    TruncDivMeans(h.cfg.upper - h.cfg.lower, h.cfg.spacing);
    if h.cfg.spacing >= 2 {
      ScaleMono(n, 2, h.cfg.spacing);
    }
  }

  /** Looking ahead downward from the first channel. */
  lemma DownLeaves(c: Config)
    requires c.Sane() && !c.DownSafe() && c.lower + c.spacing <= c.upper
    ensures !c.InBand(SeekTo(c, c.lower + c.spacing, false, TwoProbes(0, 1)))
  {
    var h := HalCall(c, c.lower + c.spacing, false, TwoProbes(0, 1));
    CountFits(h);
    FullCount(h);
    assert h.S() == 1;
    assert h.Len1() == 1 && h.At(0) == 0 && h.Freq(0) == c.lower;
    ModOnce(c.lower - c.Step(), TWO32);
    PairSought(h, 0, 1, c.lower, c.lower - c.Step() + TWO32);
  }

  /** The last two channels and their indices. */
  lemma LastChannels(c: Config)
    requires c.Sane() && c.lower + c.spacing <= c.upper
    ensures var n := (c.upper - c.lower) / c.spacing;
            && n >= 1 && c.lower <= c.Top() - c.spacing && c.Top() <= c.upper < c.Top() + c.spacing
            && c.Top() - c.spacing == c.lower + c.spacing * (n - 1)
            && (c.Top() - c.spacing - c.lower) / c.spacing == n - 1 && (c.Top() - c.lower) / c.spacing == n
  {
    var n := (c.upper - c.lower) / c.spacing;
    TruncDivMeans(c.upper - c.lower, c.spacing);
    GridIndex(c.lower, c.upper, c.spacing, 1);
    assert c.spacing * (n - 1) == c.spacing * n - c.spacing;
    ScaleMono(c.spacing, 0, n - 1);
    ExactQuotient(c.spacing * n, c.spacing, n);
    ExactQuotient(c.spacing * (n - 1), c.spacing, n - 1);
  }

  /** From the channel before the last, an upward seek comes to the last one first, unless the conversion of
      the channel count to int falls between them. */
  lemma TopIndex(h: HalCall)
    requires h.Valid() && h.up && h.S() == h.N() - 2 && h.N() != TWO31 && h.N() != TWO32
    ensures h.Len1() == 1 && h.At(0) % TWO32 == h.N() - 1
  {
    CountFits(h);
  }

  lemma TopFirst(c: Config, hw: Hardware)
    requires c.Sane() && c.lower + c.spacing <= c.upper && !c.UpSafe()
    requires (c.upper - c.lower) / c.spacing + 1 != TWO31
    ensures var h := HalCall(c, c.Top() - c.spacing, true, hw);
            h.Valid() && |h.Order()| >= 1 && h.Freq(h.Order()[0]) == c.Top() && c.InBand(c.Top())
  {
    LastChannels(c);
    var h := HalCall(c, c.Top() - c.spacing, true, hw);
    FullCount(h);
    assert h.S() == h.N() - 2;
    TopIndex(h);
    FreqOnGrid(h, h.At(0));
  }

  /** Then it comes to the channel before the last at last, from the last one. */
  lemma TopLast(h: HalCall)
    requires h.Valid() && h.up && h.cfg.lower + h.cfg.spacing <= h.cfg.upper
    requires h.start == h.cfg.Top() && h.N() == TWO31
    ensures |h.Order()| == TWO31 - 1 && h.Freq(h.Order()[TWO31 - 2]) == h.cfg.Top() - h.cfg.spacing
  {
    LastChannels(h.cfg);
    assert h.Len1() == 0 && h.Len2() == TWO31 - 1;
    VisitInBand(h, TWO31 - 2);
  }

  /** Looking ahead upward from one of the last two channels: at 2^31 channels from the one before the last. */
  lemma UpLeavesFull(c: Config)
    requires c.Sane() && !c.UpSafe() && (c.upper - c.lower) / c.spacing + 1 == TWO31
    ensures !c.InBand(SeekTo(c, c.Top(), true, TwoProbes(TWO31 - 2, 2)))
  {
    GridIndex(c.lower, c.upper, c.spacing, 1);
    LastChannels(c);
    FewChannels(c);
    StepShort(c);
    var top, st, h := c.Top(), c.Step(), HalCall(c, c.Top(), true, TwoProbes(TWO31 - 2, 2));
    TopLast(h);
    assert h.Next(top - c.spacing) == top;
    ModOnce(top + st, TWO32);
    PairSought(h, TWO31 - 2, 2, top - c.spacing, top + st - TWO32);
  }

  lemma WrapsUp(lower: int, upper: int, top: int, st: int)
    requires 0 <= lower <= top <= upper < TWO32 && 0 <= st <= 255
    requires if top + st >= TWO32 then top + st - TWO32 < lower
             else top + st <= upper && top + 2 * st >= TWO32 && top + 2 * st - TWO32 < lower
    ensures var one := (top + st) % TWO32;
            if top + st >= TWO32 then one < lower else one <= upper && (one + st) % TWO32 < lower
  {
    ModOnce(top + st, TWO32);
    ModOnce(top + 2 * st, TWO32);
  }

  /** A seek that comes to a channel `top` first and leaves the band from there. */
  lemma LeavesFrom(h: HalCall, top: int, st: int, b: nat)
    requires h.Valid() && h.up && h.hw == TwoProbes(0, b) && h.cfg.InBand(top) && h.cfg.Step() == st
    requires |h.Order()| >= 1 && h.Freq(h.Order()[0]) == top
    requires if top + st >= TWO32 then b == 1 && top + st - TWO32 < h.cfg.lower
             else b == 2 && top + st <= h.cfg.upper && top + 2 * st >= TWO32 && top + 2 * st - TWO32 < h.cfg.lower
    ensures h.Sought().ch < h.cfg.lower
  {
    WrapsUp(h.cfg.lower, h.cfg.upper, top, st);
    PairSought(h, 0, b, top, if b == 1 then h.Next(top) else h.Next(h.Next(top)));
  }

  /** Otherwise from the last one. */
  lemma UpLeavesTop(c: Config, b: nat)
    requires c.Sane() && c.lower + c.spacing <= c.upper && (c.upper - c.lower) / c.spacing + 1 != TWO31
    requires !c.UpSafe() && b == if c.Top() + c.Step() >= TWO32 then 1 else 2
    ensures !c.InBand(SeekTo(c, c.Top() - c.spacing, true, TwoProbes(0, b)))
  {
    var h := HalCall(c, c.Top() - c.spacing, true, TwoProbes(0, b));
    TopFirst(c, h.hw);
    LeavesFrom(h, c.Top(), c.Step(), b);
  }

  /** So many channels leave room for a small spacing only. */
  lemma FewChannels(c: Config)
    requires c.Sane() && (c.upper - c.lower) / c.spacing + 1 == TWO31
    ensures c.spacing < 256
  {
    TruncDivMeans(c.upper - c.lower, c.spacing);
    if c.spacing >= 256 {
      ScaleMono(TWO31 - 1, 256, c.spacing);
    }
  }

  /** A seek leaves the program channel in the band for every start, direction and hardware behaviour exactly
      when the band has a single channel, or neither the look-ahead upward from its last channel nor the one
      downward from its first wraps round to the outside. */
  lemma SeekInBandExactly(c: Config)
    requires c.Sane()
    ensures (forall ch, up, hw :: c.InBand(SeekTo(c, ch, up, hw))) <==> c.Contained()
  {
    if c.Contained() {
      forall ch, up, hw ensures c.InBand(SeekTo(c, ch, up, hw)) {
        SeekInBand(c, ch, up, hw);
      }
    } else if !c.UpSafe() {
      if (c.upper - c.lower) / c.spacing + 1 == TWO31 {
        UpLeavesFull(c);
      } else {
        UpLeavesTop(c, if c.Top() + c.Step() >= TWO32 then 1 else 2);
      }
    } else {
      DownLeaves(c);
    }
  }

  lemma SeekInBand(c: Config, ch: int, up: bool, hw: Hardware)
    requires c.Sane() && c.Contained()
    ensures c.InBand(SeekTo(c, ch, up, hw))
  {
    var h := HalCall(c, StartOf(c, ch), up, hw);
    if c.lower + c.spacing > c.upper {
      SingleStays(h);
    } else {
      SweepInBand(h, 0);
    }
  }
}
