/** The SEEK/SCAN command of the HIDL service thread (fm_hidl_service.cpp): repeated seeks round the
    band until the scan has come full circle. */
module SearchLoop {
  import opened Common

  /** One search command and the world it meets: the limits FMR_get_band_boundary gave it and the original
      frequency. Per iteration t: seek answers, whether FMR_tune accepts the found and then the last
      frequency, the cancel flag as read after the dwell and again at the loop end, and whether the service
      is still enabled. `junk` is the uninitialised local that receives the seek result, and foreign(t) a
      frequency that another client wrote into the service since the last iteration tuned. */
  datatype World = World(isScan: bool, up: bool, lo: int, hi: int, orig: int, junk: int,
                         seek: (nat, int) -> Reply, tuneOk: (nat, int) -> bool, backOk: (nat, int) -> bool,
                         cancelled: nat -> bool, cancelledAtEnd: nat -> bool, enabled: nat -> bool,
                         foreign: nat -> Option<int>) {

    predicate InBand(f: int) { lo <= f <= hi }

    /** Frequencies are ints, and a cancel flag that was seen stays up until the search ends, unless the
        service was disabled. */
    ghost predicate Valid() {
      && IsInt(lo) && IsInt(hi) && IsInt(orig) && IsInt(junk)
      && (forall t, s :: seek(t, s).Got? ==> IsInt(seek(t, s).freq))
      && (forall t :: cancelled(t) ==> cancelledAtEnd(t) || !enabled(t))
    }

    /** The limits stay as they were: FMR_seek rejects starts outside them, though it may answer outside, and
        FMR_tune rejects what lies outside. */
    ghost predicate Steady() {
      && (forall t, s :: seek(t, s).Got? ==> InBand(s))
      && (forall t, f :: tuneOk(t, f) || backOk(t, f) ==> InBand(f))
    }

    /** Frequencies ordered in the direction of the search. */
    function Key(f: int): int { if up then f else -f }
  }

  /** The variables of the loop: start frequency, wraps so far, last seek result, and the service's
      tuned frequency, tuned flag, mute state and the stations tuned so far. */
  datatype Loop = Loop(t: nat, start: int, round: int, scan: int,
                       tune: int, tuned: bool, muted: bool, stations: seq<int>)

  function Begin(w: World, tuned: bool, muted: bool): Loop {
    Loop(0, if w.InBand(w.orig) then w.orig else w.lo, 0, w.junk, w.orig, tuned, muted, [])
  }

  /** The frequency in the service when iteration t would tune back to it. */
  function Current(w: World, t: nat, tune: int): int {
    if w.foreign(t).Some? then w.foreign(t).value else tune
  }

  /** Seek and tune of one iteration. */
  function SeekAndTune(w: World, s: Loop): (r: Loop)
    ensures r.start == s.start && r.round == s.round && r.t == s.t
  {
    var a := w.seek(s.t, s.start);
    var f := if a.Got? then a.freq else s.scan;
    if a.Got? && w.tuneOk(s.t, f) then
      s.(scan := f, tune := f, tuned := true, muted := false, stations := s.stations + [f])
    else
      var last := Current(w, s.t, s.tune);
      var back := w.backOk(s.t, last);
      s.(scan := f, tune := last, tuned := s.tuned && back, muted := !back)
  }

  /** The wrap counter after a seek from `start` came to `scan`. */
  function Wraps(w: World, start: int, round: int, scan: int): int {
    if w.Key(scan) < w.Key(start) then round + 1 else round
  }

  /** The scan is complete: past the original frequency after one wrap, back on it, or wrapped twice. */
  predicate Circled(w: World, start: int, round: int, scan: int) {
    || (Wraps(w, start, round, scan) == 1 && w.Key(scan) > w.Key(w.orig))
    || scan == w.orig || Wraps(w, start, round, scan) == 2
  }

  /** The scan bookkeeping of one iteration: where it goes on, the wraps, and whether it is done. */
  function Count(w: World, t: nat, start: int, round: int, scan: int): (int, int, bool) {
    var counted := w.isScan && !w.cancelled(t);
    (if counted then scan else start,
     if counted then Wraps(w, start, round, scan) else round,
     (w.isScan && (scan == 0 || scan == start)) || (counted && Circled(w, start, round, scan)))
  }

  predicate GoesOn(w: World, t: nat, done: bool) {
    w.isScan && !w.cancelledAtEnd(t) && !done && w.enabled(t)
  }

  /** One iteration; the flag says whether the loop ends with it. */
  function Iterate(w: World, s: Loop): (r: (Loop, bool))
    ensures r.0.t == s.t + 1
  {
    var m := SeekAndTune(w, s);
    var (start, round, done) := Count(w, s.t, s.start, s.round, m.scan);
    (m.(t := s.t + 1, start := start, round := round), !GoesOn(w, s.t, done))
  }

  /** A loop state between two iterations. */
  predicate Between(w: World, s: Loop) {
    0 <= s.round <= 1 && IsInt(s.start) && IsInt(s.scan) && (s.t > 0 ==> s.scan == s.start)
  }

  /** Room left ahead of the start. */
  function Ahead(w: World, s: Loop): nat
    requires Between(w, s)
  {
    if w.up then TWO31 - s.start else s.start + TWO31
  }

  /** What an iteration after which the scan goes on has done: come to another frequency than its start
      and the original one, without completing the circle, and perhaps tuned that one as a station. */
  lemma StepFacts(w: World, s: Loop)
    requires w.Valid() && Between(w, s) && !Iterate(w, s).1
    ensures var r := Iterate(w, s).0;
            && r.scan == r.start && r.start != s.start && r.start != w.orig && r.start != 0
            && r.round == Wraps(w, s.start, s.round, r.start) <= 1
            && (r.round == 1 ==> w.Key(r.start) < w.Key(w.orig))
            && IsInt(r.start)
            && (r.stations == s.stations || r.stations == s.stations + [r.start])
  {
    var a := w.seek(s.t, s.start);
    assert a.Got? ==> IsInt(a.freq);
  }

  /** While the limits stay, the scan goes on from outside them at most once, and its stations lie inside. */
  lemma StepInBand(w: World, s: Loop)
    requires w.Valid() && w.Steady() && Between(w, s) && !Iterate(w, s).1
    ensures var r := Iterate(w, s).0;
            && (s.t == 0 || w.InBand(s.start))
            && (r.stations != s.stations ==> w.InBand(s.start) && w.InBand(r.start))
  {
    var a := w.seek(s.t, s.start);
    assert a.Got? ==> w.InBand(s.start) && (w.tuneOk(s.t, a.freq) ==> w.InBand(a.freq));
  }

  /** The scan goes on only if it moves ahead or uses up one of its two wraps. */
  lemma IterateAdvances(w: World, s: Loop)
    requires w.Valid() && Between(w, s) && !Iterate(w, s).1
    ensures var r := Iterate(w, s).0;
            Between(w, r) && (r.round > s.round || (r.round == s.round && Ahead(w, r) < Ahead(w, s)))
  {
    StepFacts(w, s);
  }

  /** The whole loop from state s: it terminates, by the wraps left and the distance left. */
  ghost function Run(w: World, s: Loop): Loop
    requires w.Valid() && Between(w, s)
    decreases 2 - s.round, Ahead(w, s)
  {
    var r := Iterate(w, s);
    if r.1 then r.0 else IterateAdvances(w, s); Run(w, r.0)
  }

  // ---- The tour

  /** No frequency of s occurs twice or equals orig. */
  ghost predicate Fresh(s: seq<int>, orig: int) {
    (forall i, j :: 0 <= i < j < |s| ==> s[i] != s[j]) && orig !in s
  }

  /** All stations but the last. */
  function Settled(s: seq<int>): seq<int> { if s == [] then [] else s[..|s| - 1] }

  lemma FreshSnoc(s: seq<int>, f: int, orig: int)
    requires Fresh(s, orig) && f !in s && f != orig
    ensures Fresh(s + [f], orig)
  {
  }

  /** Stations of the first round lie between the original frequency and the start. */
  ghost predicate FirstRound(w: World, start: int, stations: seq<int>) {
    w.Key(w.orig) <= w.Key(start)
    && forall x :: x in stations ==> w.Key(w.orig) < w.Key(x) <= w.Key(start)
  }

  /** After a wrap the new ones lie up to the start, short of the original frequency. */
  ghost predicate SecondRound(w: World, start: int, stations: seq<int>) {
    w.Key(start) < w.Key(w.orig)
    && forall x :: x in stations ==> w.Key(w.orig) < w.Key(x) || w.Key(x) <= w.Key(start)
  }

  /** A downward scan begun below the band wraps before its first station. */
  ghost predicate FromBelow(w: World, start: int, round: int, stations: seq<int>) {
    if round == 0 then stations == [] && start <= w.lo
    else forall x :: x in stations ==> start <= x && w.lo <= x
  }

  /** Scans of an empty band, or upward from above it. */
  predicate Idle(w: World) { w.lo > w.hi || (w.up && w.orig > w.hi) }

  /** At most one station, of a nonzero frequency, which the scan has not left for another one. */
  predicate AtMostOne(w: World, start: int, stations: seq<int>) {
    stations == [] || (|stations| == 1 && stations[0] != 0 && w.InBand(stations[0])
                       && (start == stations[0] || !w.InBand(start)))
  }

  predicate BeganBelow(w: World) { !w.up && w.orig < w.lo }

  /** Where the stations tuned so far can be. */
  ghost predicate OnTour(w: World, s: Loop) {
    && Fresh(s.stations, w.orig)
    && if Idle(w) then AtMostOne(w, s.start, s.stations) && (s.stations != [] ==> s.t > 0)
       else if BeganBelow(w) then FromBelow(w, s.start, s.round, s.stations)
       else if s.round == 0 then FirstRound(w, s.start, s.stations)
       else SecondRound(w, s.start, s.stations)
  }

  /** Two different frequencies other than 0 lie between the limits. */
  predicate TwoFit(lo: int, hi: int) { lo < hi && (lo, hi) != (0, 1) && (lo, hi) != (-1, 0) }

  /** The command repeats no station unless an upward scan of a band with room for two began above it. */
  predicate BeganAbove(w: World) { w.up && w.orig > w.hi && TwoFit(w.lo, w.hi) }

  /** A band without room for two lets the scan come to one. */
  lemma NextIdle(w: World, start: int, stations: seq<int>, f: int)
    requires Idle(w) && !BeganAbove(w) && AtMostOne(w, start, stations) && (stations != [] ==> w.InBand(start))
    requires f != start && f != 0
    ensures AtMostOne(w, f, stations)
    ensures w.InBand(start) && w.InBand(f) ==> f !in stations && AtMostOne(w, f, stations + [f])
  {
  }

  /** The next frequency f of a scan in its first round is new, and is placed by the wrap it takes. */
  lemma NextInFirst(w: World, start: int, stations: seq<int>, f: int)
    requires FirstRound(w, start, stations) && f != start && f != w.orig
    requires w.Key(f) < w.Key(start) ==> w.Key(f) < w.Key(w.orig)
    ensures f !in stations
    ensures w.Key(f) > w.Key(start) ==> FirstRound(w, f, stations) && FirstRound(w, f, stations + [f])
    ensures w.Key(f) < w.Key(start) ==> SecondRound(w, f, stations) && SecondRound(w, f, stations + [f])
  {
  }

  lemma NextInSecond(w: World, start: int, stations: seq<int>, f: int)
    requires SecondRound(w, start, stations) && w.Key(start) < w.Key(f) < w.Key(w.orig)
    ensures f !in stations && SecondRound(w, f, stations) && SecondRound(w, f, stations + [f])
  {
  }

  /** Begun below the band, f is a station only after the wrap, and then below all earlier ones. */
  lemma NextFromBelow(w: World, start: int, round: int, stations: seq<int>, f: int)
    requires BeganBelow(w) && FromBelow(w, start, round, stations) && f != start
    requires round == 0 || f < start
    ensures f !in stations && FromBelow(w, f, if f > start then round + 1 else round, stations)
    ensures w.InBand(start) && w.InBand(f) ==>
              FromBelow(w, f, if f > start then round + 1 else round, stations + [f])
  {
  }

  lemma IterateOnTour(w: World, s: Loop)
    requires w.Valid() && w.Steady() && Between(w, s) && OnTour(w, s) && w.isScan && !BeganAbove(w) && !Iterate(w, s).1
    ensures OnTour(w, Iterate(w, s).0)
  {
    StepFacts(w, s);
    StepInBand(w, s);
    var r := Iterate(w, s).0;
    var f := r.start;
    if Idle(w) {
      NextIdle(w, s.start, s.stations, f);
    } else if BeganBelow(w) {
      NextFromBelow(w, s.start, s.round, s.stations, f);
    } else if s.round == 0 {
      NextInFirst(w, s.start, s.stations, f);
    } else {
      NextInSecond(w, s.start, s.stations, f);
    }
    if r.stations != s.stations {
      FreshSnoc(s.stations, f, w.orig);
    }
  }

  /** An iteration adds at most one station. */
  lemma IterateSettles(w: World, s: Loop)
    requires Fresh(s.stations, w.orig)
    ensures Fresh(Settled(Iterate(w, s).0.stations), w.orig)
  {
    var m := SeekAndTune(w, s).stations;
    assert m == s.stations || Settled(m) == s.stations;
  }

  lemma {:induction false} RunOnTour(w: World, s: Loop)
    requires w.Valid() && w.Steady() && Between(w, s) && OnTour(w, s) && w.isScan && !BeganAbove(w)
    ensures Fresh(Settled(Run(w, s).stations), w.orig)
    decreases 2 - s.round, Ahead(w, s)
  {
    IterateSettles(w, s);
    if !Iterate(w, s).1 {
      IterateOnTour(w, s);
      IterateAdvances(w, s);
      RunOnTour(w, Iterate(w, s).0);
    }
  }

  /** A scan command never tunes a station twice, nor its original frequency, before its last one. */
  lemma NoStationTwice(w: World, tuned: bool, muted: bool)
    requires w.Valid() && w.Steady() && w.isScan && !BeganAbove(w)
    ensures Fresh(Settled(Run(w, Begin(w, tuned, muted)).stations), w.orig)
  {
    RunOnTour(w, Begin(w, tuned, muted));
  }

  /** Nobody cancels or disables the search, and the driver accepts its tunes. */
  ghost predicate Undisturbed(w: World) {
    && (forall t, f :: w.InBand(f) ==> w.tuneOk(t, f))
    && (forall t :: w.enabled(t) && !w.cancelled(t) && !w.cancelledAtEnd(t))
  }

  /** Seeks that go from the lower limit to y, and to and fro between x and y. */
  ghost predicate GoesToAndFro(w: World, x: int, y: int) {
    && w.lo <= x < y <= w.hi && x != 0 && y != 0
    && forall t :: w.seek(t, w.lo) == Got(y) && w.seek(t, x) == Got(y) && w.seek(t, y) == Got(x)
  }

  /** One iteration of such a scan begun above the band. */
  lemma ToOrFro(w: World, x: int, y: int, s: Loop)
    requires w.isScan && w.up && w.orig > w.hi && Undisturbed(w) && GoesToAndFro(w, x, y)
    requires 0 <= s.round <= 1 && (s.start == w.lo || s.start == x || s.start == y)
    ensures var f := if s.start == y then x else y;
            var round := if f == x then s.round + 1 else s.round;
            Iterate(w, s) == (Loop(s.t + 1, f, round, f, f, true, false, s.stations + [f]), round == 2)
  {
    var f := if s.start == y then x else y;
    assert w.seek(s.t, s.start) == Got(f) && w.tuneOk(s.t, f) && w.enabled(s.t);
  }

  /** Begun above the band, it tunes both stations twice. */
  lemma ToAndFroRepeats(w: World, x: int, y: int, tuned: bool, muted: bool)
    requires w.Valid() && w.isScan && w.up && w.orig > w.hi && Undisturbed(w) && GoesToAndFro(w, x, y)
    ensures Run(w, Begin(w, tuned, muted)).stations == [y, x, y, x]
    ensures !Fresh(Settled(Run(w, Begin(w, tuned, muted)).stations), w.orig)
  {
    var s0 := Begin(w, tuned, muted);
    var s1 := Loop(1, y, 0, y, y, true, false, [y]);
    var s2 := Loop(2, x, 1, x, x, true, false, [y, x]);
    var s3 := Loop(3, y, 1, y, y, true, false, [y, x, y]);
    var s4 := Loop(4, x, 2, x, x, true, false, [y, x, y, x]);
    assert s0.stations + [y] == s1.stations && s1.stations + [x] == s2.stations;
    assert s2.stations + [y] == s3.stations && s3.stations + [x] == s4.stations;
    ToOrFro(w, x, y, s0);
    ToOrFro(w, x, y, s1);
    ToOrFro(w, x, y, s2);
    ToOrFro(w, x, y, s3);
    assert Run(w, s3) == s4;
    assert Run(w, s2) == s4;
    assert Run(w, s1) == s4;
    assert Run(w, s0) == s4;
    assert Settled(s4.stations) == [y, x, y];
    assert [y, x, y][0] == [y, x, y][2];
  }

  /** A band with two stations. */
  function TwoStations(lo: int, hi: int, orig: int, x: int, y: int): World {
    World(true, true, lo, hi, orig, 0,
          (t: nat, s: int) => if s < lo || s > hi then Failed else if s == y then Got(x) else Got(y),
          (t: nat, f: int) => lo <= f <= hi, (t: nat, f: int) => lo <= f <= hi,
          t => false, t => false, t => true, t => None)
  }

  /** The condition is needed: with room for two stations, begun above the band, the upward scan of some
      world tunes both twice. */
  lemma ScanFromAboveRepeats(lo: int, hi: int, orig: int, tuned: bool, muted: bool) returns (w: World)
    requires TwoFit(lo, hi) && hi < orig && IsInt(lo) && IsInt(orig)
    ensures w.Valid() && w.Steady() && w.isScan && w.up && w.lo == lo && w.hi == hi && w.orig == orig && BeganAbove(w)
    ensures !Fresh(Settled(Run(w, Begin(w, tuned, muted)).stations), orig)
  {
    var x, y := if lo == 0 then 1 else lo, if hi == 0 then -1 else hi;
    w := TwoStations(lo, hi, orig, x, y);
    ToAndFroRepeats(w, x, y, tuned, muted);
  }

  /** So scans never repeat themselves, in any world, exactly when they are not upward scans begun above a
      band with room for two stations. */
  lemma RepeatConditionExact(up: bool, lo: int, hi: int, orig: int)
    requires IsInt(lo) && IsInt(hi) && IsInt(orig)
    ensures (forall w: World, tuned, muted ::
               w.Valid() && w.Steady() && w.isScan && w.up == up && w.lo == lo && w.hi == hi && w.orig == orig
               ==> Fresh(Settled(Run(w, Begin(w, tuned, muted)).stations), orig))
            <==> !(up && orig > hi && TwoFit(lo, hi))
  {
    if up && orig > hi && TwoFit(lo, hi) {
      var w := ScanFromAboveRepeats(lo, hi, orig, false, false);
    } else {
      forall w: World, tuned, muted |
        w.Valid() && w.Steady() && w.isScan && w.up == up && w.lo == lo && w.hi == hi && w.orig == orig
        ensures Fresh(Settled(Run(w, Begin(w, tuned, muted)).stations), orig)
      {
        NoStationTwice(w, tuned, muted);
      }
    }
  }

  // ---- What the service is left with

  /** Left to itself, the search leaves the last station tuned, or the original frequency if there was
      none. */
  lemma {:induction false} TunedToLast(w: World, s: Loop)
    requires w.Valid() && Between(w, s) && forall t :: w.foreign(t).None?
    requires s.tune == if s.stations == [] then w.orig else s.stations[|s.stations| - 1]
    ensures var r := Run(w, s);
            r.tune == if r.stations == [] then w.orig else r.stations[|r.stations| - 1]
    decreases 2 - s.round, Ahead(w, s)
  {
    if !Iterate(w, s).1 {
      IterateAdvances(w, s);
      TunedToLast(w, Iterate(w, s).0);
    }
  }

  /** Whatever other clients do, the search ends muted only if it could neither tune a station nor tune back;
      and while the limits stay, every station is in the band. */
  lemma {:induction false} EndsSafely(w: World, s: Loop)
    requires w.Valid() && Between(w, s)
    ensures var r := Run(w, s);
            && (r.muted ==> !r.tuned)
            && (w.Steady() ==> forall x :: x in r.stations ==> x in s.stations || w.InBand(x))
    decreases 2 - s.round, Ahead(w, s)
  {
    if !Iterate(w, s).1 {
      IterateAdvances(w, s);
      EndsSafely(w, Iterate(w, s).0);
    }
  }

  /** The service's fields that the search writes. */
  class Service {
    var tuneFreq: int
    var fmTuned: bool
    var muted: bool
    var stations: seq<int>

    ghost function State(t: nat, start: int, round: int, scan: int): Loop
      reads this
    {
      Loop(t, start, round, scan, tuneFreq, fmTuned, muted, stations)
    }

    /** Seek from `start` and tune to what was found, or back: mute, unmute, record. */
    method SeekOnce(w: World, t: nat, start: int, ghost round: int, scan0: int) returns (scan: int)
      modifies this
      ensures State(t, start, round, scan) == SeekAndTune(w, old(State(t, start, round, scan0)))
    {
      scan := scan0;
      muted := true;
      var answer := w.seek(t, start);
      var ok := false;
      if answer.Got? {
        scan := answer.freq;
        ok := w.tuneOk(t, scan);
      }
      if !ok {
        // Another client may have written the frequency meanwhile.
        tuneFreq := Current(w, t, tuneFreq);
        if w.backOk(t, tuneFreq) {
          muted := false;
        } else {
          fmTuned := false;
        }
      } else {
        fmTuned := true;
        tuneFreq := scan;
        stations := stations + [scan];
        muted := false;
      }
    }

    /** The SEEK/SCAN case of fm_hidl_thread. */
    method Search(w: World)
      requires w.Valid() && w.orig == tuneFreq
      modifies this
      ensures var r := Run(w, Begin(w, old(fmTuned), old(muted)));
              tuneFreq == r.tune && fmTuned == r.tuned && muted == r.muted && stations == r.stations
    {
      var t: nat, round, scanDone := 0, 0, false;
      var start, scan := tuneFreq, w.junk;
      stations := [];
      if start < w.lo || start > w.hi {
        start := w.lo;
      }
      ghost var s := Begin(w, fmTuned, muted);
      while true
        invariant s == State(t, start, round, scan)
        invariant Between(w, s)
        invariant Run(w, s) == Run(w, Begin(w, old(fmTuned), old(muted)))
        decreases 2 - s.round, Ahead(w, s)
      {
        scan := SeekOnce(w, t, start, round, scan);
        ghost var m := State(t, start, round, scan);
        start, round, scanDone := CountWraps(w, t, start, round, scan);
        assert Iterate(w, s) == (m.(t := t + 1, start := start, round := round), !GoesOn(w, t, scanDone));
        if !GoesOn(w, t, scanDone) {
          break;
        }
        IterateAdvances(w, s);
        s := Iterate(w, s).0;
        t := t + 1;
      }
    }
  }

  /** The same as the source computes it. */
  method CountWraps(w: World, t: nat, start: int, round: int, scan: int)
    returns (start': int, round': int, scanDone: bool)
    ensures (start', round', scanDone) == Count(w, t, start, round, scan)
  {
    start', round', scanDone := start, round, false;
    if w.isScan {
      if scan == 0 || scan == start {
        scanDone := true;
      }
      if !w.cancelled(t) {
        if (w.up && scan < start) || (!w.up && scan > start) {
          round' := round + 1;
        }
        if (round' == 1 && ((w.up && scan > w.orig) || (!w.up && scan < w.orig))) || scan == w.orig || round' == 2 {
          scanDone := true;
        }
        start' := scan;
      }
    }
  }
}
