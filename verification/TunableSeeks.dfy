/** FMR_seek computes its own limits, FMR_tune checks the reported ones: when is a frequency that a seek
    found one that a tune accepts? */
module TunableSeeks {
  import opened Bands
  import opened Common
  import opened Reading
  import opened SeekSpec

  /** The air during one seek, and the stop flag. */
  datatype Air = Air(read: (nat, int) -> Reading, stop: nat -> bool)

  /** FMR_tune's range check, which FMR_seek makes of its start. */
  predicate Tunable(cfg: Cfg, f: int) { cfg.Boundary().0 <= f <= cfg.Boundary().1 }

  /** The call FMR_seek makes. */
  function CallOf(cfg: Cfg, fakes: seq<FakeChannel>, up: bool, start: int, air: Air): (c: SeekCall)
    requires cfg.SeekSpacing() > 0
    ensures c.Valid()
  {
    SeekCall(start, cfg.SeekLimits().0, cfg.SeekLimits().1, cfg.SeekSpacing(), up, fakes, false, air.read, air.stop)
  }

  /** FMR_seek as its caller sees it. */
  ghost function SeekReply(cfg: Cfg, fakes: seq<FakeChannel>, up: bool, start: int, air: Air): Reply
    requires cfg.SeekSpacing() > 0
  {
    if Tunable(cfg, start) then ReplyOf(CallOf(cfg, fakes, up, start, air)) else Failed
  }

  predicate Accepted(cfg: Cfg, r: Reply) { r.Got? ==> Tunable(cfg, r.freq) }

  /** A call without its air. */
  function Route(cfg: Cfg, fakes: seq<FakeChannel>, up: bool, start: int): (c: SeekCall)
    requires cfg.SeekSpacing() > 0
    ensures c.Valid()
  {
    CallOf(cfg, fakes, up, start, Air((t: nat, f: int) => Reading(false, false, 0, false), Unstopped()))
  }

  lemma RouteOn(cfg: Cfg, fakes: seq<FakeChannel>, up: bool, start: int, air: Air)
    requires cfg.SeekSpacing() > 0
    ensures CallOf(cfg, fakes, up, start, air) == On(Route(cfg, fakes, up, start), air.read, air.stop)
  {
  }

  lemma ReplyReachable(cfg: Cfg, fakes: seq<FakeChannel>, up: bool, start: int, air: Air)
    requires cfg.SeekSpacing() > 0 && SeekReply(cfg, fakes, up, start, air).Got?
    ensures Reachable(Route(cfg, fakes, up, start), SeekReply(cfg, fakes, up, start, air).freq)
  {
    RouteOn(cfg, fakes, up, start, air);
    AnswerReachable(Route(cfg, fakes, up, start), air.read, air.stop, SeekReply(cfg, fakes, up, start, air).freq);
  }

  lemma ReachableReplied(cfg: Cfg, fakes: seq<FakeChannel>, up: bool, start: int, f: int) returns (air: Air)
    requires cfg.SeekSpacing() > 0 && Tunable(cfg, start) && Reachable(Route(cfg, fakes, up, start), f)
    ensures SeekReply(cfg, fakes, up, start, air) == Got(f)
  {
    var read, stop := ReachableAnswered(Route(cfg, fakes, up, start), f);
    air := Air(read, stop);
    RouteOn(cfg, fakes, up, start, air);
  }

  /** For one start and direction: all answers are tunable, on any air, exactly if all reachable frequencies
      are. */
  lemma AcceptedExactly(cfg: Cfg, fakes: seq<FakeChannel>, up: bool, start: int)
    requires cfg.SeekSpacing() > 0 && Tunable(cfg, start)
    ensures (forall air :: Accepted(cfg, SeekReply(cfg, fakes, up, start, air)))
            <==> (forall f :: Reachable(Route(cfg, fakes, up, start), f) ==> Tunable(cfg, f))
  {
    if forall air :: Accepted(cfg, SeekReply(cfg, fakes, up, start, air)) {
      forall f | Reachable(Route(cfg, fakes, up, start), f) ensures Tunable(cfg, f) {
        var air := ReachableReplied(cfg, fakes, up, start, f);
        assert Accepted(cfg, SeekReply(cfg, fakes, up, start, air));
      }
    }
    if forall f :: Reachable(Route(cfg, fakes, up, start), f) ==> Tunable(cfg, f) {
      forall air ensures Accepted(cfg, SeekReply(cfg, fakes, up, start, air)) {
        if SeekReply(cfg, fakes, up, start, air).Got? {
          ReplyReachable(cfg, fakes, up, start, air);
        }
      }
    }
  }

  // ---- Starts within both limits

  /** The last channel of the grid. */
  function Top(c: SeekCall): int
    requires c.Valid()
  {
    c.min + c.space * (c.N() - 1)
  }

  lemma TwoChannels(c: SeekCall)
    requires c.Valid() && c.Inside()
    ensures c.N() >= 2 <==> c.min + c.space <= c.max
  {
    InsideIndex(c);
    GridIndex(c.min, c.max, c.space, 1);
  }

  lemma LastOfGrid(min: int, max: int, space: int)
    requires space > 0 && min <= max
    ensures var top := min + space * ((max - min) / space); min <= top <= max < top + space
  {
    TruncDivMeans(max - min, space);
  }

  lemma TopFacts(c: SeekCall)
    requires c.Valid() && c.Inside()
    ensures c.Freq(c.N() - 1) == Top(c) && c.InBand(Top(c)) && Top(c) + c.space > c.max
    ensures c.N() >= 2 ==> c.Freq(c.N() - 2) == Top(c) - c.space
    ensures c.S() == c.N() - 1 ==> c.start >= Top(c)
  {
    InsideIndex(c);
    LastOfGrid(c.min, c.max, c.space);
    LastOfGrid(c.min, c.start, c.space);
    FreqInside(c, c.N() - 1);
    if c.N() >= 2 {
      FreqInside(c, c.N() - 2);
      assert c.space * (c.N() - 2) == c.space * (c.N() - 1) - c.space;
    }
  }

  /** Other answers than the start lie on the grid. */
  lemma ReachableInside(c: SeekCall, f: int)
    requires c.Valid() && c.Inside() && Reachable(c, f) && f != c.start
    ensures c.N() >= 2 && c.min <= f <= Top(c)
  {
    var k: nat, b: nat :| LeadsTo(c, k, b) && f == c.Ahead(k, b);
    InsideIndex(c);
    AheadInside(c, k, b);
    var i := if c.up then c.Visit(k) + b else c.Visit(k) - b;
    FreqInside(c, i);
    ScaleMono(c.space, i, c.N() - 1);
  }

  /** The bottom of the grid can always be reached: upward round the end, or from its own index downward by
      the look-ahead from the next one. */
  lemma BottomReachable(c: SeekCall)
    requires c.Valid() && c.Inside() && c.N() >= 2 && (c.up <==> c.S() != 0)
    ensures Reachable(c, c.min)
  {
    InsideIndex(c);
    VisitsAreATour(c);
    var i, b: nat := if c.up then 0 else 1, if c.up then 0 else 1;
    assert Visited(c, i);
    var k: nat := TurnTo(c, i);
    FreqInside(c, i);
    assert c.Visit(k) == i && c.Ahead(k, b) == c.min;
    assert c.start < c.min + 2 * c.space || c.up by {
      TruncDivMeans(c.start - c.min, c.space);
    }
    assert LeadsTo(c, k, b);
  }

  /** So can the top, downward, or from its own index upward. */
  lemma TopReachable(c: SeekCall)
    requires c.Valid() && c.Inside() && c.N() >= 2 && (c.up <==> c.S() == c.N() - 1)
    ensures Reachable(c, Top(c))
  {
    InsideIndex(c);
    VisitsAreATour(c);
    TopFacts(c);
    var i, b: nat := if c.up then c.N() - 2 else c.N() - 1, if c.up then 1 else 0;
    assert Visited(c, i);
    var k: nat := TurnTo(c, i);
    assert c.Visit(k) == i && c.Ahead(k, b) == Top(c);
    assert LeadsTo(c, k, b);
  }

  predicate InBoth(cfg: Cfg, start: int) {
    Tunable(cfg, start) && cfg.SeekLimits().0 <= start <= cfg.SeekLimits().1
  }

  /** Some start is within both limits. */
  predicate Overlap(cfg: Cfg) {
    InBoth(cfg, cfg.SeekLimits().0) || InBoth(cfg, cfg.Boundary().0)
  }

  /** The last channel that FMR_seek searches. */
  function LastChannel(cfg: Cfg): int
    requires cfg.SeekSpacing() > 0
  {
    var (lo, hi) := cfg.SeekLimits();
    lo + cfg.SeekSpacing() * TruncDiv(hi - lo, cfg.SeekSpacing())
  }

  /** What a caller can check: no start comes into question, or there is only one channel, or the grid lies
      within the reported limits. */
  predicate Contained(cfg: Cfg)
    requires cfg.SeekSpacing() > 0
  {
    || !Overlap(cfg)
    || cfg.SeekLimits().0 + cfg.SeekSpacing() > cfg.SeekLimits().1
    || (cfg.Boundary().0 <= cfg.SeekLimits().0 && LastChannel(cfg) <= cfg.Boundary().1)
  }

  lemma TopIsLast(cfg: Cfg, fakes: seq<FakeChannel>, up: bool, start: int)
    requires cfg.SeekSpacing() > 0
    ensures Top(Route(cfg, fakes, up, start)) == LastChannel(cfg)
  {
  }

  lemma ContainedSuffices(cfg: Cfg, fakes: seq<FakeChannel>, up: bool, start: int, air: Air)
    requires cfg.SeekSpacing() > 0 && Contained(cfg) && InBoth(cfg, start)
    ensures Accepted(cfg, SeekReply(cfg, fakes, up, start, air))
  {
    var r := SeekReply(cfg, fakes, up, start, air);
    if r.Got? && r.freq != start {
      var c := Route(cfg, fakes, up, start);
      ReplyReachable(cfg, fakes, up, start, air);
      ReachableInside(c, r.freq);
      TwoChannels(c);
      TopIsLast(cfg, fakes, up, start);
    }
  }

  /** Where it does not hold, the grid's bottom or top is found and refused. */
  lemma UncontainedRefused(cfg: Cfg, fakes: seq<FakeChannel>, start: int) returns (up: bool, air: Air)
    requires cfg.SeekSpacing() > 0 && !Contained(cfg) && InBoth(cfg, start)
    ensures !Accepted(cfg, SeekReply(cfg, fakes, up, start, air))
  {
    var c := Route(cfg, fakes, true, start);
    TwoChannels(c);
    if cfg.SeekLimits().0 < cfg.Boundary().0 {
      up := c.S() != 0;
      BottomReachable(Route(cfg, fakes, up, start));
      air := ReachableReplied(cfg, fakes, up, start, c.min);
    } else {
      up := c.S() == c.N() - 1;
      TopReachable(Route(cfg, fakes, up, start));
      TopIsLast(cfg, fakes, up, start);
      air := ReachableReplied(cfg, fakes, up, start, LastChannel(cfg));
    }
  }

  /** All starts within both limits get only tunable answers, on all air, exactly if that holds. */
  lemma ContainedExactly(cfg: Cfg, fakes: seq<FakeChannel>)
    requires cfg.SeekSpacing() > 0
    ensures (forall start, up, air :: InBoth(cfg, start) ==> Accepted(cfg, SeekReply(cfg, fakes, up, start, air)))
            <==> Contained(cfg)
  {
    if Contained(cfg) {
      forall start, up, air | InBoth(cfg, start) ensures Accepted(cfg, SeekReply(cfg, fakes, up, start, air)) {
        ContainedSuffices(cfg, fakes, up, start, air);
      }
    } else {
      var start := if InBoth(cfg, cfg.SeekLimits().0) then cfg.SeekLimits().0 else cfg.Boundary().0;
      var up, air := UncontainedRefused(cfg, fakes, start);
    }
  }

  // ---- All starts that FMR_seek accepts

  /** The index of a frequency, by truncating division. */
  function IndexOf(c: SeekCall, x: int): int
    requires c.Valid()
  {
    TruncDiv(x - c.min, c.space)
  }

  lemma TruncDivMono(a: int, b: int, d: int)
    requires a <= b && d > 0
    ensures TruncDiv(a, d) <= TruncDiv(b, d)
  {
    if a >= 0 {
      DivMono(a, b, d);
    } else if b < 0 {
      DivMono(-b, -a, d);
    } else {
      TruncDivMeans(a, d);
      TruncDivMeans(b, d);
    }
  }

  /** Indices that seeks starting at a to z visit: those above a's and those below z's. */
  predicate Swept(c: SeekCall, a: int, z: int, i: int)
    requires c.Valid()
  {
    IndexOf(c, a) < i < c.N() || 0 <= i < IndexOf(c, z)
  }

  /** All of them have frequencies from a to z. */
  ghost predicate SweptIn(c: SeekCall, a: int, z: int)
    requires c.Valid()
  {
    forall i :: Swept(c, a, z, i) ==> a <= c.Freq(i) <= z
  }

  lemma VisitSwept(c: SeekCall, a: int, z: int, k: nat)
    requires c.Valid() && a <= c.start <= z && k < c.Visits()
    ensures Swept(c, a, z, c.Visit(k)) && IndexOf(c, a) <= c.S() <= IndexOf(c, z)
  {
    TruncDivMono(a - c.min, c.start - c.min, c.space);
    TruncDivMono(c.start - c.min, z - c.min, c.space);
    VisitsAreATour(c);
  }

  lemma WrapStep(c: SeekCall, x: int, d: nat)
    requires c.Wrap(x) + d < c.Values()
    ensures c.Wrap(x + d) == c.Wrap(x) + d
  {
  }

  /** Where the last index lies, whichever way the limits are. */
  lemma LastBetween(min: int, max: int, space: int)
    requires space > 0
    ensures var last := min + space * TruncDiv(max - min, space);
            (min <= last <= max || max <= last <= min) && last + space > max
  {
    TruncDivMeans(max - min, space);
  }

  lemma LastIndex(c: SeekCall)
    requires c.Valid()
    ensures var last := c.min + c.space * (c.N() - 1); 0 <= last < c.Values() && last + c.space > c.max
  {
    LastBetween(c.min, c.max, c.space);
  }

  /** A step of the look-ahead that stays below the upper limit leads to the next index. */
  lemma NextIndex(c: SeekCall, i: int)
    requires c.Valid() && i < c.N() && c.Freq(i) + c.space <= c.max
    ensures i + 1 < c.N() && c.Freq(i + 1) == c.Freq(i) + c.space
  {
    LastIndex(c);
    assert c.space * (i + 1) == c.space * i + c.space;
    WrapStep(c, c.min + c.space * i, c.space);
  }

  lemma NextIndices(c: SeekCall, i: int, b: nat)
    requires c.Valid() && b <= 2 && i < c.N() && c.Freq(i) + c.space * b <= c.max
    ensures i + b < c.N() && c.Freq(i + b) == c.Freq(i) + c.space * b
  {
    if b > 0 {
      NextIndex(c, i);
      if b > 1 {
        NextIndex(c, i + 1);
      }
    }
  }

  /** The first two indices. */
  lemma FirstIndices(c: SeekCall)
    requires c.Valid()
    ensures c.Freq(0) == c.min && (c.N() >= 2 ==> c.Freq(1) == c.min + c.space)
  {
    TruncDivMeans(c.max - c.min, c.space);
    assert c.N() >= 2 ==> c.space * (c.N() - 1) >= c.space;
  }

  lemma IndexZero(c: SeekCall, z: int)
    requires c.Valid() && c.min <= z && IndexOf(c, z) <= 0
    ensures z < c.min + c.space
  {
    TruncDivMeans(z - c.min, c.space);
  }

  /** If the lower limit of the search is below a and visits are made, some of them are not within a to z. */
  lemma LowerSwept(c: SeekCall, a: int, z: int)
    requires c.Valid() && a <= c.start <= z && c.Visits() > 0 && c.min < a
    ensures !SweptIn(c, a, z)
  {
    VisitSwept(c, a, z, 0);
    FirstIndices(c);
    if IndexOf(c, z) > 0 {
      assert Swept(c, a, z, 0);
    } else {
      IndexZero(c, z);
      assert IndexOf(c, a) <= 0 && c.S() <= 0;
      assert c.S() == 0 by {
        TruncDivMeans(c.start - c.min, c.space);
      }
      assert Swept(c, a, z, 1);
    }
  }

  /** The look-ahead upward stays within z. */
  lemma UpwardIn(c: SeekCall, a: int, z: int, k: nat, b: nat)
    requires c.Valid() && SweptIn(c, a, z) && a <= c.start <= z && c.up && LeadsTo(c, k, b) && z < c.max
    ensures c.Ahead(k, b) <= z
  {
    var i := c.Visit(k);
    VisitSwept(c, a, z, k);
    VisitsAreATour(c);
    if i < c.S() {
      BelowStart(c, z, i);
    }
    NextIndices(c, i, b);
    if !Swept(c, a, z, i + b) {
      assert 0 <= i + b <= IndexOf(c, z);
      AtIndex(c, z, i + b);
    }
  }

  lemma UpToIndex(min: int, z: int, space: int, i: int)
    requires space > 0 && min <= z && 0 <= i <= TruncDiv(z - min, space)
    ensures min <= min + space * i <= z
  {
    TruncDivMeans(z - min, space);
    ScaleMono(space, 0, i);
    ScaleMono(space, i, TruncDiv(z - min, space));
  }

  /** An index up to that of z, seen from the lower limit on, has its frequency up to z. */
  lemma AtIndex(c: SeekCall, z: int, i: int)
    requires c.Valid() && 0 <= i <= IndexOf(c, z) && c.min <= z
    ensures c.Freq(i) <= z
  {
    UpToIndex(c.min, z, c.space, i);
    WrapShrinks(c, c.min + c.space * i);
  }

  lemma WrapShrinks(c: SeekCall, x: int)
    requires x >= 0
    ensures c.Wrap(x) <= x
  {
  }

  lemma BelowStart(c: SeekCall, z: int, i: int)
    requires c.Valid() && c.start <= z < c.max && 0 <= i < c.S()
    ensures i < c.N() && c.min <= z
  {
    TruncDivMeans(c.start - c.min, c.space);
    ScaleMono(c.space, i, c.S());
    GridIndex(c.min, c.max, c.space, i);
  }

  /** A look-ahead lies between its visit and the limit ahead. */
  lemma AheadRange(c: SeekCall, k: nat, b: nat)
    requires c.Valid() && b <= c.Reach(k)
    ensures var f := c.Freq(c.Visit(k));
            f == c.Ahead(k, b) || (if c.up then f < c.Ahead(k, b) <= c.max else c.min <= c.Ahead(k, b) < f)
  {
    assert b == 0 || b == 1 || b == 2;
  }

  /** Seeks from a to z answer within a to z if what they visit lies there. */
  lemma SweptSuffices(c: SeekCall, a: int, z: int, f: int)
    requires c.Valid() && SweptIn(c, a, z) && a <= c.start <= z && Reachable(c, f)
    ensures a <= f <= z
  {
    if f != c.start {
      var k: nat, b: nat :| LeadsTo(c, k, b) && f == c.Ahead(k, b);
      VisitSwept(c, a, z, k);
      AheadRange(c, k, b);
      assert a <= c.Freq(c.Visit(k)) <= z;
      if c.up {
        if z < c.max {
          UpwardIn(c, a, z, k, b);
        }
      } else if c.min < a {
        LowerSwept(c, a, z);
      }
    }
  }

  /** What is visited from a or z is answered in one of the directions. */
  lemma SweptReached(c: SeekCall, a: int, z: int, i: int) returns (start: int, up: bool)
    requires c.Valid() && a <= z && Swept(c, a, z, i)
    ensures (start == a || start == z) && Reachable(c.(start := start, up := up), c.Freq(i))
  {
    start := if IndexOf(c, a) < i < c.N() then a else z;
    up := start != c.Freq(i) - c.space;
    var d := c.(start := start, up := up);
    assert d.Valid() && d.S() == IndexOf(c, start) && d.N() == c.N();
    VisitsAreATour(d);
    assert Visited(d, i);
    var k: nat := TurnTo(d, i);
    assert d.Visit(k) == i && d.Ahead(k, 0) == d.Freq(i) == c.Freq(i);
    assert LeadsTo(d, k, 0);
  }

  /** All starts that FMR_seek accepts get only tunable answers, on all air, exactly if no start is accepted
      or all indices visited from the reported limits have tunable frequencies. */
  lemma TunableExactly(cfg: Cfg, fakes: seq<FakeChannel>)
    requires cfg.SeekSpacing() > 0
    ensures (forall start, up, air :: Accepted(cfg, SeekReply(cfg, fakes, up, start, air)))
            <==> cfg.Boundary().0 > cfg.Boundary().1
                 || SweptIn(Route(cfg, fakes, true, 0), cfg.Boundary().0, cfg.Boundary().1)
  {
    var (a, z) := cfg.Boundary();
    var c := Route(cfg, fakes, true, 0);
    if a <= z && !SweptIn(c, a, z) {
      var i :| Swept(c, a, z, i) && !(a <= c.Freq(i) <= z);
      var start, up := SweptReached(c, a, z, i);
      var air := ReachableReplied(cfg, fakes, up, start, c.Freq(i));
      assert !Accepted(cfg, SeekReply(cfg, fakes, up, start, air));
    } else {
      forall start, up, air ensures Accepted(cfg, SeekReply(cfg, fakes, up, start, air)) {
        if SeekReply(cfg, fakes, up, start, air).Got? {
          AllWithin(cfg, fakes, up, start, air);
        }
      }
    }
  }

  lemma AllWithin(cfg: Cfg, fakes: seq<FakeChannel>, up: bool, start: int, air: Air)
    requires cfg.SeekSpacing() > 0 && SeekReply(cfg, fakes, up, start, air).Got?
    requires SweptIn(Route(cfg, fakes, true, 0), cfg.Boundary().0, cfg.Boundary().1)
    ensures Accepted(cfg, SeekReply(cfg, fakes, up, start, air))
  {
    var (a, z) := cfg.Boundary();
    var c, d := Route(cfg, fakes, true, 0), Route(cfg, fakes, up, start);
    forall i | Swept(d, a, z, i) ensures a <= d.Freq(i) <= z {
      assert Swept(c, a, z, i) && d.Freq(i) == c.Freq(i);
    }
    ReplyReachable(cfg, fakes, up, start, air);
    SweptSuffices(d, a, z, SeekReply(cfg, fakes, up, start, air).freq);
  }

  // ---- Settings that calls lead to

  /** Equal limits suffice. */
  lemma EqualLimitsTunable(cfg: Cfg, fakes: seq<FakeChannel>, up: bool, start: int, air: Air)
    requires cfg.SeekSpacing() > 0 && cfg.SeekLimits() == cfg.Boundary()
    ensures Accepted(cfg, SeekReply(cfg, fakes, up, start, air))
  {
  }

  /** Europe's grid, which the limits of wide Japan contain and those of Japan do not. */
  predicate EuropeGrid(c: SeekCall) {
    !c.hal && c.min == 8750 && c.max == 10800 && (c.space == 5 || c.space == 10 || c.space == 20)
  }

  lemma EuropeFromWideJapan(c: SeekCall)
    requires EuropeGrid(c)
    ensures SweptIn(c, 7600, 10800)
  {
    forall i | Swept(c, 7600, 10800, i) ensures 7600 <= c.Freq(i) <= 10800 {
      assert c.Freq(i) == 8750 + c.space * i;
    }
  }

  lemma EuropeFromJapan(c: SeekCall)
    requires EuropeGrid(c)
    ensures !SweptIn(c, 7600, 9600)
  {
    var n := c.N() - 1;
    assert Swept(c, 7600, 9600, n) && c.Freq(n) >= 10790;
  }

  /** After any calls that end outside the custom region, all answers are tunable exactly if the region is a
      fixed one, or an unknown one was selected while Japan was not the last fixed one. */
  lemma FixedTunableExactly(seekSpace: int, calls: seq<Call>, fakes: seq<FakeChannel>)
    requires Run(Initial(seekSpace), calls).band != FM_BAND_SPECIAL
    ensures var cfg := Run(Initial(seekSpace), calls);
            && cfg.SeekSpacing() > 0
            && ((forall start, up, air :: Accepted(cfg, SeekReply(cfg, fakes, up, start, air)))
                <==> FM_BAND_UE <= cfg.band <= FM_BAND_JAPANW || LastFixed(calls) != FM_BAND_JAPAN)
  {
    var cfg := Run(Initial(seekSpace), calls);
    StoredLimits(seekSpace, calls);
    if cfg.SeekLimits() == cfg.Boundary() {
      forall start, up, air ensures Accepted(cfg, SeekReply(cfg, fakes, up, start, air)) {
        EqualLimitsTunable(cfg, fakes, up, start, air);
      }
    } else {
      EuropeFromWideJapan(Route(cfg, fakes, true, 0));
      EuropeFromJapan(Route(cfg, fakes, true, 0));
      TunableExactly(cfg, fakes);
    }
  }

  /** With a custom lower limit beyond 16 bits, every other frequency than the start that a seek answers is
      refused, and from every start it can answer one. */
  lemma WideLimitsRefused(cfg: Cfg, fakes: seq<FakeChannel>, up: bool, start: int)
    requires cfg.band == FM_BAND_SPECIAL && cfg.SeekSpacing() > 0 && cfg.lowCust >= TWO16 && Tunable(cfg, start)
    ensures forall air :: SeekReply(cfg, fakes, up, start, air).Got? ==>
              var f := SeekReply(cfg, fakes, up, start, air).freq; Tunable(cfg, f) <==> f == start
    ensures exists air :: !Accepted(cfg, SeekReply(cfg, fakes, up, start, air))
  {
    var c := Route(cfg, fakes, up, start);
    forall air | SeekReply(cfg, fakes, up, start, air).Got?
      ensures var f := SeekReply(cfg, fakes, up, start, air).freq; Tunable(cfg, f) <==> f == start
    {
      var f := SeekReply(cfg, fakes, up, start, air).freq;
      ReplyReachable(cfg, fakes, up, start, air);
      if f != start {
        var k: nat, b: nat :| LeadsTo(c, k, b) && f == c.Ahead(k, b);
        AheadRange(c, k, b);
      }
    }
    LowestVisited(c);
    var air := ReachableReplied(cfg, fakes, up, start, c.min);
    assert !Accepted(cfg, SeekReply(cfg, fakes, up, start, air));
  }

  /** From far above, index 0 is visited. */
  lemma LowestVisited(c: SeekCall)
    requires c.Valid() && c.start > c.min + c.space + 5
    ensures Reachable(c, c.min)
  {
    TruncDivMeans(c.start - c.min, c.space);
    VisitsAreATour(c);
    FirstIndices(c);
    assert Visited(c, 0);
    var k: nat := TurnTo(c, 0);
    assert c.Visit(k) == 0 && c.Ahead(k, 0) == c.min;
    assert LeadsTo(c, k, 0);
  }

  /** An unknown region after Japan: from 90 MHz a seek can come to the last channel of Europe, which FMR_tune
      refuses. */
  lemma UnknownAfterJapanRefused(seekSpace: int, fakes: seq<FakeChannel>) returns (air: Air)
    ensures var cfg := Run(Initial(seekSpace), [SetRegion(FM_BAND_JAPAN), SetRegion(0)]);
            && cfg.SeekSpacing() > 0 && Tunable(cfg, 9000)
            && SeekReply(cfg, fakes, false, 9000, air) == Got(LastChannel(cfg)) && LastChannel(cfg) >= 10790
            && !Accepted(cfg, SeekReply(cfg, fakes, false, 9000, air))
  {
    LimitsDisagree(seekSpace);
    var cfg := Run(Initial(seekSpace), [SetRegion(FM_BAND_JAPAN), SetRegion(0)]);
    var c := Route(cfg, fakes, false, 9000);
    TopReachable(c);
    TopIsLast(cfg, fakes, false, 9000);
    air := ReachableReplied(cfg, fakes, false, 9000, LastChannel(cfg));
  }
}
