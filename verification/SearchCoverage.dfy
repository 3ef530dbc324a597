/** What the SEEK/SCAN loop reaches: a scan whose seeks go from station to station gets round the band. */
module SearchCoverage {
  import opened Common
  import opened SearchLoop

  /** f is the next station of l from s on, upward or downward, or else the first from the other end. */
  ghost predicate NextStation(up: bool, l: seq<int>, s: int, f: int) {
    && f in l
    && if up then
         if exists x :: x in l && s < x then s < f && forall x :: x in l && s < x ==> f <= x
         else forall x :: x in l ==> f <= x
       else
         if exists x :: x in l && x < s then f < s && forall x :: x in l && x < s ==> x <= f
         else forall x :: x in l ==> x <= f
  }

  /** Where the scan begins. */
  function Origin(w: World): int { if w.InBand(w.orig) then w.orig else w.lo }

  /** An undisturbed scan of a band whose stations are those of l: its seeks go from one to the next. */
  ghost predicate Touring(w: World, l: seq<int>) {
    && w.Valid() && w.isScan && Undisturbed(w)
    && (forall x :: x in l ==> w.InBand(x) && x != 0)
    && (l != [] ==> forall t, s :: s == Origin(w) || s in l ==>
          w.seek(t, s).Got? && NextStation(w.up, l, s, w.seek(t, s).freq))
  }

  /** The same in terms of keys. */
  lemma NextByKey(w: World, l: seq<int>, s: int, f: int)
    requires NextStation(w.up, l, s, f)
    ensures f in l
    ensures w.Key(s) < w.Key(f) ==> forall x :: x in l && w.Key(s) < w.Key(x) ==> w.Key(f) <= w.Key(x)
    ensures w.Key(f) <= w.Key(s) ==> forall x :: x in l ==> w.Key(f) <= w.Key(x) <= w.Key(s)
  {
    if w.up {
      assert forall x :: x in l && s < x ==> w.Key(s) < w.Key(x);
    } else {
      assert forall x :: x in l && x < s ==> w.Key(s) < w.Key(x);
    }
  }

  /** Before the first wrap, every station from the beginning up to here has been tuned. */
  ghost predicate Outward(w: World, l: seq<int>, s: Loop) {
    && s.round == 0 && w.Key(Origin(w)) <= w.Key(s.start)
    && forall x :: x in l && w.Key(Origin(w)) < w.Key(x) <= w.Key(s.start) ==> x in s.stations
  }

  /** After it, every station beyond the original frequency, and from the end up to here. */
  ghost predicate Homeward(w: World, l: seq<int>, s: Loop) {
    && s.round == 1 && w.Key(s.start) < w.Key(w.orig)
    && forall x :: x in l && (w.Key(x) <= w.Key(s.start) || w.Key(w.orig) < w.Key(x)) ==> x in s.stations
  }

  ghost predicate Covered(w: World, l: seq<int>, stations: seq<int>) {
    forall x :: x in l && x != w.orig ==> x in stations
  }

  ghost predicate OnTheWay(w: World, l: seq<int>, s: Loop) {
    && Between(w, s) && w.InBand(s.start) && (s.start == Origin(w) || s.start in l)
    && (Outward(w, l, s) || Homeward(w, l, s))
  }

  /** One iteration goes to the next station, tunes it, and ends the scan exactly if that is the start again,
      or the original frequency, or one beyond it after a wrap, or the second wrap. */
  lemma OneStation(w: World, l: seq<int>, s: Loop)
    requires Touring(w, l) && l != [] && 0 <= s.round <= 1 && (s.start == Origin(w) || s.start in l)
    ensures var (r, ends) := Iterate(w, s);
            && NextStation(w.up, l, s.start, r.start) && w.InBand(r.start) && r.scan == r.start
            && r.stations == s.stations + [r.start]
            && r.round == (if w.Key(r.start) < w.Key(s.start) then s.round + 1 else s.round)
            && (ends <==> r.start == s.start || r.start == w.orig || r.round == 2
                          || (r.round == 1 && w.Key(w.orig) < w.Key(r.start)))
  {
    var a := w.seek(s.t, s.start);
    assert a.Got? && NextStation(w.up, l, s.start, a.freq) && w.tuneOk(s.t, a.freq) && w.enabled(s.t);
  }

  /** Going on outward: the next station lies ahead. */
  lemma OutwardAhead(w: World, l: seq<int>, s: Loop)
    requires Touring(w, l) && l != [] && OnTheWay(w, l, s) && Outward(w, l, s)
    requires w.Key(s.start) < w.Key(Iterate(w, s).0.start)
    ensures !Iterate(w, s).1 && OnTheWay(w, l, Iterate(w, s).0)
  {
    OneStation(w, l, s);
    var r := Iterate(w, s).0;
    NextByKey(w, l, s.start, r.start);
    forall x | x in l && w.Key(Origin(w)) < w.Key(x) <= w.Key(r.start) ensures x in r.stations {
      assert x in s.stations || x == r.start;
    }
    assert Outward(w, l, r);
  }

  /** Turning round: all stations ahead of the beginning have been tuned. */
  lemma OutwardTurns(w: World, l: seq<int>, s: Loop)
    requires Touring(w, l) && l != [] && (w.up || w.orig <= w.hi) && OnTheWay(w, l, s) && Outward(w, l, s)
    requires w.Key(Iterate(w, s).0.start) <= w.Key(s.start)
    ensures var (r, ends) := Iterate(w, s); if ends then Covered(w, l, r.stations) else OnTheWay(w, l, r)
  {
    OneStation(w, l, s);
    var (r, ends) := Iterate(w, s);
    NextByKey(w, l, s.start, r.start);
    assert r.start in r.stations;
    forall x | x in l && w.Key(Origin(w)) < w.Key(x) ensures x in r.stations {
      assert x in s.stations;
    }
    if !ends {
      assert Homeward(w, l, r);
    }
  }

  lemma HomewardGoes(w: World, l: seq<int>, s: Loop)
    requires Touring(w, l) && l != [] && OnTheWay(w, l, s) && Homeward(w, l, s)
    ensures var (r, ends) := Iterate(w, s); if ends then Covered(w, l, r.stations) else OnTheWay(w, l, r)
  {
    OneStation(w, l, s);
    var (r, ends) := Iterate(w, s);
    NextByKey(w, l, s.start, r.start);
    assert r.start in r.stations;
    forall x | x in l && (w.Key(x) <= w.Key(s.start) || w.Key(w.orig) < w.Key(x)) ensures x in r.stations {
      assert x in s.stations;
    }
  }

  lemma {:induction false} RunCovers(w: World, l: seq<int>, s: Loop)
    requires Touring(w, l) && l != [] && (w.up || w.orig <= w.hi) && OnTheWay(w, l, s)
    ensures Covered(w, l, Run(w, s).stations)
    decreases 2 - s.round, Ahead(w, s)
  {
    if Outward(w, l, s) {
      if w.Key(s.start) < w.Key(Iterate(w, s).0.start) {
        OutwardAhead(w, l, s);
      } else {
        OutwardTurns(w, l, s);
      }
    } else {
      HomewardGoes(w, l, s);
    }
    if !Iterate(w, s).1 {
      IterateAdvances(w, s);
      RunCovers(w, l, Iterate(w, s).0);
    }
  }

  /** A downward scan begun above the band takes its first station, the topmost, for the end of the circle. */
  lemma DownFromAbove(w: World, l: seq<int>, m: int, tuned: bool, muted: bool)
    requires Touring(w, l) && !w.up && w.orig > w.hi && m in l && forall x :: x in l ==> x <= m
    ensures Run(w, Begin(w, tuned, muted)).stations == [m]
  {
    var s := Begin(w, tuned, muted);
    assert w.InBand(m) && w.InBand(s.start);
    OneStation(w, l, s);
    NextByKey(w, l, s.start, Iterate(w, s).0.start);
  }

  lemma {:induction false} Topmost(l: seq<int>) returns (m: int)
    requires l != []
    ensures m in l && forall x :: x in l ==> x <= m
  {
    m := l[0];
    if |l| > 1 {
      var z := Topmost(l[1..]);
      m := if z > m then z else m;
      assert forall x :: x in l ==> x == l[0] || x in l[1..];
    }
  }

  /** There is at most one station. */
  ghost predicate Single(l: seq<int>) { forall x, y :: x in l && y in l ==> x == y }

  /** An undisturbed scan tunes every station of the band other than the original frequency exactly when it
      does not go downward from above the band, or there is at most one station. */
  lemma CoverageExactly(w: World, l: seq<int>, tuned: bool, muted: bool)
    requires Touring(w, l)
    ensures Covered(w, l, Run(w, Begin(w, tuned, muted)).stations) <==> w.up || w.orig <= w.hi || Single(l)
  {
    var s := Begin(w, tuned, muted);
    if l != [] {
      var m := Topmost(l);
      assert w.InBand(m) && w.InBand(s.start) && l[0] in l;
      if w.up || w.orig <= w.hi {
        assert Outward(w, l, s);
        RunCovers(w, l, s);
      } else {
        DownFromAbove(w, l, m, tuned, muted);
        assert m != w.orig;
      }
    }
  }

  // ---- When it ends, and in which state

  /** An iteration that came to f is the last one exactly if the command is a seek, it was cancelled or the
      service disabled, f is zero or the start again, or, unless cancelled during the dwell, f is the original
      frequency, lies past it after one wrap, or makes the second wrap. */
  lemma LastIteration(w: World, s: Loop)
    ensures var f := if w.seek(s.t, s.start).Got? then w.seek(s.t, s.start).freq else s.scan;
            var wraps := s.round + if (if w.up then f < s.start else f > s.start) then 1 else 0;
            var past := if w.up then f > w.orig else f < w.orig;
            Iterate(w, s).1 <==>
              || !w.isScan || w.cancelledAtEnd(s.t) || !w.enabled(s.t) || f == 0 || f == s.start
              || (!w.cancelled(s.t) && (f == w.orig || (wraps == 1 && past) || wraps == 2))
  {
  }

  /** A seek command makes one seek: it ends on what that found if FMR_tune takes it, else back on the current
      frequency if FMR_tune takes that, else muted and untuned. */
  lemma SeekCommand(w: World, tuned: bool, muted: bool)
    requires w.Valid() && !w.isScan
    ensures var r, a := Run(w, Begin(w, tuned, muted)), w.seek(0, Origin(w));
            var last := if w.foreign(0).Some? then w.foreign(0).value else w.orig;
            if a.Got? && w.tuneOk(0, a.freq) then r.stations == [a.freq] && r.tune == a.freq && r.tuned && !r.muted
            else r.stations == [] && r.tune == last
                 && if w.backOk(0, last) then r.tuned == tuned && !r.muted else !r.tuned && r.muted
  {
  }

  /** If tuning back always works, a search ends unmuted, and tuned if it was or found a station. */
  lemma {:induction false} EndsAudible(w: World, s: Loop)
    requires w.Valid() && Between(w, s) && forall t, f :: w.backOk(t, f)
    ensures var r := Run(w, s); !r.muted && (s.tuned || r.stations != s.stations ==> r.tuned)
    decreases 2 - s.round, Ahead(w, s)
  {
    assert w.backOk(s.t, Current(w, s.t, s.tune));
    if !Iterate(w, s).1 {
      IterateAdvances(w, s);
      EndsAudible(w, Iterate(w, s).0);
    }
  }
}
