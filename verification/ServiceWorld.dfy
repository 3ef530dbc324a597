/** The search command on top of the seek: what the HIDL service's settings, seeks and scan loop promise
    together. */
module ServiceWorld {
  import opened Bands
  import opened Common
  import opened Reading
  import opened SeekSpec
  import opened TunableSeeks
  import SearchLoop
  import SearchCoverage

  // ---- Settings

  /** What the service makes of its clients' calls: one of the four known regions, limits cast to int as they
      come, and one of three spacings. */
  predicate ServiceCalls(calls: seq<Bands.Call>) {
    forall k :: 0 <= k < |calls| ==>
      match calls[k]
      case SetRegion(r) => FM_BAND_UE <= r <= FM_BAND_SPECIAL
      case SetBand(lo, hi) => IsInt(lo) && IsInt(hi)
      case SetSpace(sp) => sp == 5 || sp == 10 || sp == 20
  }

  /** What only the clients can see to: limits within 16 bits. */
  predicate ShortLimits(calls: seq<Bands.Call>) {
    forall k :: 0 <= k < |calls| && calls[k].SetBand? ==> 0 <= calls[k].lo < TWO16 && 0 <= calls[k].hi < TWO16
  }

  predicate SpacingGiven(calls: seq<Bands.Call>) { exists k :: 0 <= k < |calls| && calls[k].SetSpace? }

  lemma {:induction false} CustomSpacing(seekSpace: int, calls: seq<Bands.Call>)
    requires ServiceCalls(calls)
    ensures var sp := Run(Initial(seekSpace), calls).spaceCust;
            if SpacingGiven(calls) then sp == 5 || sp == 10 || sp == 20 else sp == 0
  {
    if calls != [] {
      var n := |calls| - 1;
      var front := calls[..n];
      CustomSpacing(seekSpace, front);
      assert calls[n].SetSpace? ==> SpacingGiven(calls);
      if SpacingGiven(front) {
        var k :| 0 <= k < |front| && front[k].SetSpace?;
        assert calls[k].SetSpace?;
      } else {
        assert forall k :: 0 <= k < n ==> !front[k].SetSpace? && calls[k] == front[k];
      }
    }
  }

  /** FMR_seek divides by the spacing, which the service leaves at zero exactly if it selects the custom
      region before any client gave a spacing. */
  lemma SpacingExactly(seekSpace: int, calls: seq<Bands.Call>)
    requires ServiceCalls(calls)
    ensures var cfg := Run(Initial(seekSpace), calls);
            cfg.SeekSpacing() > 0 <==> cfg.band != FM_BAND_SPECIAL || SpacingGiven(calls)
  {
    CustomSpacing(seekSpace, calls);
  }

  /** After any calls of the service whose clients kept to 16-bit limits, a frequency found by a seek passes
      FMR_tune's range check; TunableExactly tells what happens with other limits. */
  lemma FoundIsTunable(seekSpace: int, calls: seq<Bands.Call>, fakes: seq<FakeChannel>, up: bool, start: int, air: Air)
    requires ServiceCalls(calls) && ShortLimits(calls) && Run(Initial(seekSpace), calls).SeekSpacing() > 0
    ensures var cfg := Run(Initial(seekSpace), calls); Accepted(cfg, SeekReply(cfg, fakes, up, start, air))
  {
    ServiceLimitsAgree(seekSpace, calls);
    EqualLimitsTunable(Run(Initial(seekSpace), calls), fakes, up, start, air);
  }

  // ---- The search

  /** A search whose seeks are those of the tuner core under settings cfg, on the air of each iteration, and
      whose tunes pass FMR_tune's range check before the driver sees them. */
  ghost predicate RunsOn(w: SearchLoop.World, cfg: Cfg, fakes: seq<FakeChannel>, airs: nat -> Air)
    requires cfg.SeekSpacing() > 0
  {
    && (w.lo, w.hi) == cfg.Boundary() && IsInt(w.lo) && IsInt(w.hi) && IsInt(w.orig) && IsInt(w.junk)
    && (forall t, s :: w.seek(t, s) == SeekReply(cfg, fakes, w.up, s, airs(t)))
    && (forall t, f :: w.tuneOk(t, f) || w.backOk(t, f) ==> Tunable(cfg, f))
    && (forall t :: w.cancelled(t) ==> w.cancelledAtEnd(t) || !w.enabled(t))
  }

  lemma ReplyIsInt(cfg: Cfg, fakes: seq<FakeChannel>, up: bool, start: int, air: Air)
    requires cfg.SeekSpacing() > 0 && SeekReply(cfg, fakes, up, start, air).Got? && IsInt(start)
    ensures IsInt(SeekReply(cfg, fakes, up, start, air).freq)
  {
    var c, f := Route(cfg, fakes, up, start), SeekReply(cfg, fakes, up, start, air).freq;
    ReplyReachable(cfg, fakes, up, start, air);
    if f != start {
      var k: nat, b: nat :| LeadsTo(c, k, b) && f == c.Ahead(k, b);
      AheadRange(c, k, b);
    }
  }

  /** The core's seeks are all the scan loop asks for, under any settings with a spacing. */
  lemma CoreSeeksSuffice(w: SearchLoop.World, cfg: Cfg, fakes: seq<FakeChannel>, airs: nat -> Air)
    requires cfg.SeekSpacing() > 0 && RunsOn(w, cfg, fakes, airs)
    ensures w.Valid() && w.Steady()
  {
    forall t, s | w.seek(t, s).Got? ensures w.InBand(s) && IsInt(w.seek(t, s).freq) {
      assert w.seek(t, s) == SeekReply(cfg, fakes, w.up, s, airs(t));
      ReplyIsInt(cfg, fakes, w.up, s, airs(t));
    }
  }

  /** Settings, seek and loop together: a scan command ends, tunes only frequencies that FMR_tune accepts, and
      tunes none twice before its last one, on any air, unless it began above the band. */
  lemma ScanCommand(w: SearchLoop.World, cfg: Cfg, fakes: seq<FakeChannel>, airs: nat -> Air, tuned: bool, muted: bool)
    requires cfg.SeekSpacing() > 0 && RunsOn(w, cfg, fakes, airs) && w.isScan && !SearchLoop.BeganAbove(w)
    ensures w.Valid()
    ensures var r := SearchLoop.Run(w, SearchLoop.Begin(w, tuned, muted));
            && SearchLoop.Fresh(SearchLoop.Settled(r.stations), w.orig)
            && forall x :: x in r.stations ==> Tunable(cfg, x)
  {
    CoreSeeksSuffice(w, cfg, fakes, airs);
    SearchLoop.NoStationTwice(w, tuned, muted);
    SearchLoop.EndsSafely(w, SearchLoop.Begin(w, tuned, muted));
  }

  // ---- Repeats on the core's own seeks

  /** Air with one station at each end of the grid, equally strong. */
  function BothEnds(lo: int, top: int, loud: int): Air {
    Air((t: nat, f: int) => Reading(true, f == lo || f == top, loud, false), Unstopped())
  }

  ghost predicate OnBothEnds(c: SeekCall) {
    c.Valid() && c.Inside() && c.up && !c.hal && c.N() >= 2 && (c.N() == 2 ==> c.space != 5)
    && c.read == BothEnds(c.min, Top(c), Loud(c.fakes)).read && c.stop == Unstopped()
  }

  lemma EndsAccepted(c: SeekCall, t: nat, f: int)
    requires OnBothEnds(c)
    ensures c.Accepts(t, f) <==> f == c.min || f == Top(c)
  {
    LoudPasses(c.fakes, f, Loud(c.fakes));
  }

  /** Between the ends there is nothing. */
  lemma BetweenEnds(c: SeekCall, i: int)
    requires OnBothEnds(c) && 0 < i < c.N() - 1
    ensures c.min < c.Freq(i) < Top(c)
  {
    InsideIndex(c);
    FreqInside(c, i);
    ScaleMono(c.space, 1, i);
    ScaleMono(c.space, i + 1, c.N() - 1);
    assert c.space * (i + 1) == c.space * i + c.space;
  }

  lemma FromBottom(c: SeekCall)
    requires OnBothEnds(c) && c.start == c.min
    ensures ReplyOf(c) == Got(Top(c))
  {
    InsideIndex(c);
    TopFacts(c);
    var last: nat := c.N() - 2;
    assert c.S() == 0 && c.Above() == c.N() - 1;
    forall k: nat | k < last ensures !c.Hit(k) {
      BetweenEnds(c, c.Visit(k));
      EndsAccepted(c, k, c.Freq(c.Visit(k)));
    }
    EndsAccepted(c, last, Top(c));
    assert c.Visit(last) == c.N() - 1 && c.Ahead(last, 0) == Top(c) && c.Reach(last) == 0;
    assert !c.SameStation(Top(c)) by {
      ScaleMono(c.space, 2, if c.N() > 2 then c.N() - 1 else 2);
    }
    assert Struck(c, last) && c.Wins(last, 0, 0);
    EndingUnique(c, EndingOf(c), Found(last, 0));
  }

  lemma FromTop(c: SeekCall)
    requires OnBothEnds(c) && c.start == Top(c)
    ensures ReplyOf(c) == Got(c.min)
  {
    InsideIndex(c);
    ExactQuotient(c.start - c.min, c.space, c.N() - 1);
    FirstIndices(c);
    assert c.S() == c.N() - 1 && c.Above() == 0 && c.Visit(0) == 0 && c.Ahead(0, 0) == c.min;
    EndsAccepted(c, 0, c.min);
    assert Struck(c, 0) && c.Wins(0, c.Reach(0), 0);
    EndingUnique(c, EndingOf(c), Found(0, 0));
  }

  /** A band of nonzero frequencies with two channels that do not count as one. */
  predicate TwoApart(cfg: Cfg) {
    var (lo, hi), sp := cfg.SeekLimits(), cfg.SeekSpacing();
    sp > 0 && lo > 0 && lo + sp <= hi && (sp == 5 ==> lo + 10 <= hi)
  }

  /** Seeks to and fro between the ends of the grid. */
  lemma EndsReply(cfg: Cfg, fakes: seq<FakeChannel>, start: int)
    requires TwoApart(cfg) && cfg.SeekLimits() == cfg.Boundary()
    requires start == cfg.SeekLimits().0 || start == LastChannel(cfg)
    ensures var air := BothEnds(cfg.SeekLimits().0, LastChannel(cfg), Loud(fakes));
            var other := if start == cfg.SeekLimits().0 then LastChannel(cfg) else cfg.SeekLimits().0;
            && cfg.SeekLimits().0 < LastChannel(cfg) <= cfg.SeekLimits().1
            && SeekReply(cfg, fakes, true, start, air) == Got(other)
  {
    var (lo, hi) := cfg.SeekLimits();
    var air := BothEnds(lo, LastChannel(cfg), Loud(fakes));
    LastBetween(lo, hi, cfg.SeekSpacing());
    var c := CallOf(cfg, fakes, true, start, air);
    assert Top(c) == LastChannel(cfg);
    TwoChannels(c);
    TopFacts(c);
    assert Tunable(cfg, start) && OnBothEnds(c);
    if start == lo {
      FromBottom(c);
    } else {
      FromTop(c);
    }
  }

  /** The condition of ScanCommand is needed on the core's seeks as well: with two stations on the air, an
      upward scan begun above the band tunes both twice, under any such settings. */
  lemma ScanCommandRepeats(cfg: Cfg, fakes: seq<FakeChannel>, orig: int, tuned: bool, muted: bool)
    returns (w: SearchLoop.World, airs: nat -> Air)
    requires TwoApart(cfg) && cfg.SeekLimits() == cfg.Boundary() && cfg.Boundary().1 < orig && IsInt(orig)
    ensures RunsOn(w, cfg, fakes, airs) && w.isScan && w.orig == orig && w.Valid()
    ensures SearchLoop.Run(w, SearchLoop.Begin(w, tuned, muted)).stations
         == [LastChannel(cfg), cfg.Boundary().0, LastChannel(cfg), cfg.Boundary().0]
  {
    var (lo, hi) := cfg.Boundary();
    var air := BothEnds(lo, LastChannel(cfg), Loud(fakes));
    airs := t => air;
    w := SearchLoop.World(true, true, lo, hi, orig, 0, (t: nat, s: int) => SeekReply(cfg, fakes, true, s, air),
                          (t: nat, f: int) => lo <= f <= hi, (t: nat, f: int) => lo <= f <= hi,
                          t => false, t => false, t => true, t => None);
    EndsReply(cfg, fakes, lo);
    EndsReply(cfg, fakes, LastChannel(cfg));
    CoreSeeksSuffice(w, cfg, fakes, airs);
    SearchLoop.ToAndFroRepeats(w, lo, LastChannel(cfg), tuned, muted);
  }

  // ---- Coverage on the core's own seeks

  /** Air with stations of equal strength at the frequencies of l. */
  function StationsAt(l: seq<int>, loud: int): Air {
    Air((t: nat, f: int) => Reading(true, f in l, loud, false), Unstopped())
  }

  /** x is a frequency of the grid. */
  predicate OnGrid(c: SeekCall, x: int)
    requires c.Valid()
  {
    c.InBand(x) && (x - c.min) % c.space == 0
  }

  /** Different frequencies are at least three steps apart, so that neither the look-ahead nor the 50 kHz rule
      passes one over. */
  predicate Apart(space: int, x: int, y: int) { x == y || x <= y - 3 * space || y <= x - 3 * space }

  /** A seek from a frequency of the grid on such air. */
  ghost predicate OnStations(c: SeekCall, l: seq<int>) {
    && c.Valid() && c.Inside() && !c.hal && OnGrid(c, c.start)
    && c.read == StationsAt(l, Loud(c.fakes)).read && c.stop == Unstopped()
    && (forall x :: x in l ==> OnGrid(c, x) && Apart(c.space, x, c.start))
    && (forall x, y :: x in l && y in l ==> Apart(c.space, x, y))
  }

  lemma GridFreq(c: SeekCall, x: int) returns (i: nat)
    requires c.Valid() && c.Inside() && OnGrid(c, x)
    ensures i < c.N() && c.Freq(i) == x && i == (x - c.min) / c.space
  {
    i := (x - c.min) / c.space;
    InsideIndex(c);
    assert x - c.min == c.space * i;
    GridIndex(c.min, c.max, c.space, i);
    FreqInside(c, i);
  }

  lemma FreqOrder(c: SeekCall, i: int, j: int)
    requires c.Valid() && c.Inside() && 0 <= i < c.N() && 0 <= j < c.N()
    ensures i < j <==> c.Freq(i) < c.Freq(j)
  {
    FreqInside(c, i);
    FreqInside(c, j);
    if i < j {
      ScaleMono(c.space, i + 1, j);
      assert c.space * (i + 1) == c.space * i + c.space;
    } else {
      ScaleMono(c.space, j, i);
    }
  }

  lemma StationHeard(c: SeekCall, l: seq<int>, t: nat, f: int)
    requires OnStations(c, l)
    ensures c.Accepts(t, f) <==> f in l
  {
    LoudPasses(c.fakes, f, Loud(c.fakes));
  }

  lemma StationHit(c: SeekCall, l: seq<int>, k: nat)
    requires OnStations(c, l)
    ensures c.Hit(k) <==> c.Freq(c.Visit(k)) in l
  {
    StationHeard(c, l, k, c.Freq(c.Visit(k)));
  }

  /** A station other than the start is not passed by in vain. */
  lemma NotInVain(c: SeekCall, l: seq<int>, k: nat, x: int, i: nat)
    requires OnStations(c, l) && k <= c.Visits() && c.InVain(k) && x in l && i < c.N() && c.Freq(i) == x && i != c.S()
    ensures TurnTo(c, i) >= k
  {
    InsideIndex(c);
    VisitsAreATour(c);
    assert Visited(c, i);
    var j: nat := TurnTo(c, i);
    StationHit(c, l, j);
  }

  /** A visit that hits is the next station. */
  lemma HitIsNext(c: SeekCall, l: seq<int>, k: nat)
    requires OnStations(c, l) && k < c.Visits() && c.InVain(k) && c.Hit(k)
    ensures SearchCoverage.NextStation(c.up, l, c.start, c.Freq(c.Visit(k)))
  {
    InsideIndex(c);
    StationHit(c, l, k);
    var v, f := c.Visit(k), c.Freq(c.Visit(k));
    var s := GridFreq(c, c.start);
    assert s == c.S();
    FreqOrder(c, v, s);
    FreqOrder(c, s, v);
    forall x | x in l
      ensures if c.up then (if c.start < f then c.start < x ==> f <= x else f <= x <= c.start)
              else if f < c.start then x < c.start ==> x <= f else c.start <= x <= f
    {
      var i := GridFreq(c, x);
      FreqOrder(c, i, v);
      FreqOrder(c, v, i);
      FreqOrder(c, i, s);
      FreqOrder(c, s, i);
      if i != s {
        NotInVain(c, l, k, x, i);
      }
    }
  }

  /** Nothing near it is stronger. */
  lemma NoRival(c: SeekCall, l: seq<int>, k: nat, w: nat)
    requires OnStations(c, l) && k < c.Visits() && c.Hit(k) && c.Wins(k, c.Reach(k), w)
    ensures w == 0
  {
    StationHit(c, l, k);
    StationHeard(c, l, k + w, c.Ahead(k, w));
    var f := c.Freq(c.Visit(k));
    assert w > 0 ==> c.Ahead(k, w) in l && Apart(c.space, f, c.Ahead(k, w));
  }

  /** On such air a seek goes from station to station. */
  lemma SeekToNext(c: SeekCall, l: seq<int>)
    requires OnStations(c, l) && l != []
    ensures ReplyOf(c).Got? && SearchCoverage.NextStation(c.up, l, c.start, ReplyOf(c).freq)
  {
    var e := EndingOf(c);
    if e.Found? {
      NoRival(c, l, e.k, e.w);
      HitIsNext(c, l, e.k);
    } else {
      assert e.NothingFound?;
      forall x | x in l ensures x == c.start {
        InsideIndex(c);
        var i := GridFreq(c, x);
        var s := GridFreq(c, c.start);
        if i != c.S() {
          NotInVain(c, l, c.Visits(), x, i);
          VisitsAreATour(c);
          assert Visited(c, i);
        }
      }
      assert l[0] in l;
    }
  }

  /** A frequency of the grid that FMR_seek searches. */
  predicate Channel(cfg: Cfg, x: int)
    requires cfg.SeekSpacing() > 0
  {
    cfg.SeekLimits().0 <= x <= cfg.SeekLimits().1 && (x - cfg.SeekLimits().0) % cfg.SeekSpacing() == 0
  }

  /** Stations on nonzero channels at least three steps apart, from each other and from s. */
  ghost predicate Spread(cfg: Cfg, l: seq<int>, s: int)
    requires cfg.SeekSpacing() > 0
  {
    && (forall x :: x in l ==> x != 0 && Channel(cfg, x) && Apart(cfg.SeekSpacing(), x, s))
    && (forall x, y :: x in l && y in l ==> Apart(cfg.SeekSpacing(), x, y))
  }

  /** The core's seek from channel s. */
  lemma CoreGoesToNext(cfg: Cfg, fakes: seq<FakeChannel>, up: bool, l: seq<int>, s: int)
    requires cfg.SeekSpacing() > 0 && cfg.SeekLimits() == cfg.Boundary()
    requires l != [] && Channel(cfg, s) && Spread(cfg, l, s)
    ensures var reply := SeekReply(cfg, fakes, up, s, StationsAt(l, Loud(fakes)));
            reply.Got? && SearchCoverage.NextStation(up, l, s, reply.freq)
  {
    var c := CallOf(cfg, fakes, up, s, StationsAt(l, Loud(fakes)));
    assert forall x :: x in l ==> OnGrid(c, x) && Apart(c.space, x, c.start);
    assert forall x, y :: x in l && y in l ==> Apart(c.space, x, y);
    SeekToNext(c, l);
  }

  /** Settings, seek and loop together: an undisturbed scan of stations at least three steps apart, from a
      channel of the grid, tunes every one of them but the original frequency, exactly when it does not go
      downward from above the band or there is at most one. */
  lemma ScanCommandCovers(w: SearchLoop.World, cfg: Cfg, fakes: seq<FakeChannel>, l: seq<int>, tuned: bool, muted: bool)
    requires cfg.SeekSpacing() > 0 && cfg.SeekLimits() == cfg.Boundary()
    requires RunsOn(w, cfg, fakes, t => StationsAt(l, Loud(fakes))) && w.isScan && SearchLoop.Undisturbed(w)
    requires l == [] || (Channel(cfg, SearchCoverage.Origin(w)) && Spread(cfg, l, SearchCoverage.Origin(w)))
    ensures w.Valid()
    ensures SearchCoverage.Covered(w, l, SearchLoop.Run(w, SearchLoop.Begin(w, tuned, muted)).stations)
            <==> w.up || w.orig <= w.hi || SearchCoverage.Single(l)
  {
    var air := StationsAt(l, Loud(fakes));
    CoreSeeksSuffice(w, cfg, fakes, t => air);
    forall t, s | l != [] && (s == SearchCoverage.Origin(w) || s in l)
      ensures w.seek(t, s).Got? && SearchCoverage.NextStation(w.up, l, s, w.seek(t, s).freq)
    {
      assert w.seek(t, s) == SeekReply(cfg, fakes, w.up, s, air);
      CoreGoesToNext(cfg, fakes, w.up, l, s);
    }
    SearchCoverage.CoverageExactly(w, l, tuned, muted);
  }
}
