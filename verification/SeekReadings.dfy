/** The endings of a seek in terms of single readings: which probe ends the sweep, and which channel of the
    look-ahead is taken. */
module SeekReadings {
  import opened Common
  import opened Reading
  import opened SeekSpec

  /** Probe t heard a station at f: it succeeded and found it valid, not desensed, and strong enough for the
      fake-channel table, which the HAL keeps in units of 100. */
  predicate Heard(c: SeekCall, t: nat, f: int) {
    var r := c.read(t, f);
    r.ok && r.valid && !r.desense && !Severe(c.fakes, if c.hal then f / 100 else f, r.rssi)
  }

  /** At 50 kHz spacing the HIDL copy passes over the channel next to the start. */
  predicate NextDoor(c: SeekCall, f: int) {
    !c.hal && c.space == 5 && f == if c.up then c.start + 5 else c.start - 5
  }

  /** The frequency of visit k, and those one and two steps ahead. */
  function At(c: SeekCall, k: nat, b: int): int
    requires c.Valid()
  {
    c.Freq(c.Visit(k)) + if c.up then c.space * b else -c.space * b
  }

  /** A station that can end the sweep. */
  predicate Stops(c: SeekCall, k: nat)
    requires c.Valid()
  {
    Heard(c, k, At(c, k, 0)) && !NextDoor(c, At(c, k, 0))
  }

  /** Visits before k that went by. */
  ghost predicate WentBy(c: SeekCall, k: nat)
    requires c.Valid()
  {
    forall j: nat :: j < k ==> !c.stop(j) && !Stops(c, j)
  }

  lemma StopsIsHit(c: SeekCall, k: nat)
    requires c.Valid()
    ensures Stops(c, k) <==> c.Hit(k)
  {
    assert At(c, k, 0) == c.Freq(c.Visit(k));
  }

  lemma WentByInVain(c: SeekCall, k: nat)
    requires c.Valid()
    ensures WentBy(c, k) <==> c.InVain(k)
  {
    forall j: nat | j < k ensures Stops(c, j) <==> c.Hit(j) {
      StopsIsHit(c, j);
    }
  }

  /** Which visit ends the sweep: the first station heard that is not next door to the start, if no stop was
      seen up to it; a stop before that; or none. */
  lemma SweepExactly(c: SeekCall, e: Ending)
    requires c.Valid() && Ends(c, e)
    ensures forall k: nat :: k < c.Visits() && WentBy(c, k) && !c.stop(k) && Stops(c, k)
                             <==> (e.Found? || e.StoppedAhead?) && k == e.k
    ensures forall k: nat :: k < c.Visits() && WentBy(c, k) && c.stop(k) <==> e == StoppedAt(k)
    ensures WentBy(c, c.Visits()) <==> e == NothingFound
  {
    forall k: nat ensures (WentBy(c, k) <==> c.InVain(k)) && (Stops(c, k) <==> c.Hit(k)) {
      WentByInVain(c, k);
      StopsIsHit(c, k);
    }
    var v := Vain(c, e);
    assert c.InVain(v) && (v < c.Visits() ==> c.stop(v) || c.Hit(v));
  }

  /** A channel b steps ahead of visit k is within the limit on that side, and a station is heard there. */
  predicate Rival(c: SeekCall, k: nat, b: nat)
    requires c.Valid()
  {
    Near(c, k, b) && Heard(c, k + b, At(c, k, b))
  }

  predicate Near(c: SeekCall, k: nat, b: nat)
    requires c.Valid()
  {
    if c.up then At(c, k, b) <= c.max else At(c, k, b) >= c.min
  }

  function Level(c: SeekCall, k: nat, b: nat): int
    requires c.Valid()
  {
    c.read(k + b, At(c, k, b)).rssi
  }

  lemma AheadAt(c: SeekCall, k: nat, b: nat)
    requires c.Valid()
    ensures c.Ahead(k, b) == At(c, k, b)
    ensures b > 0 ==> (Rival(c, k, b) <==> c.Passes(c.Ahead(k, b)) && c.Candidate(k, b))
    ensures c.Strength(k, b) == Level(c, k, b)
  {
  }

  /** Which channel is taken: the one found, or one of the next two if a station is heard there that is
      stronger than all before it; and none of them is stronger than the one taken. */
  lemma ChoiceExactly(c: SeekCall, e: Ending)
    requires c.Valid() && Ends(c, e) && e.Found?
    ensures Answer(c, e) == At(c, e.k, e.w)
    ensures e.w == 0 <==> !(Rival(c, e.k, 1) && Level(c, e.k, 1) > Level(c, e.k, 0))
                          && !(Rival(c, e.k, 2) && Level(c, e.k, 2) > Level(c, e.k, 0))
    ensures e.w == 1 <==> Rival(c, e.k, 1) && Level(c, e.k, 1) > Level(c, e.k, 0)
                          && !(Rival(c, e.k, 2) && Level(c, e.k, 2) > Level(c, e.k, 1))
    ensures e.w <= 2 && forall b: nat :: 1 <= b <= 2 && Near(c, e.k, b) ==> !c.stop(e.k + b)
  {
    AheadAt(c, e.k, 0);
    AheadAt(c, e.k, 1);
    AheadAt(c, e.k, 2);
    assert c.Passes(c.Ahead(e.k, 2)) ==> c.Passes(c.Ahead(e.k, 1));
    assert c.Candidate(e.k, 0);
    assert c.Reach(e.k) >= 1 ==> !c.stop(e.k + 1);
    assert c.Reach(e.k) == 2 ==> !c.stop(e.k + 2);
  }

  /** A look-ahead that is stopped had a channel within the limit to go to. */
  lemma StoppedAheadMeans(c: SeekCall, e: Ending)
    requires c.Valid() && Ends(c, e) && e.StoppedAhead?
    ensures e.a < 2 && Near(c, e.k, e.a + 1) && c.stop(e.k + e.a + 1) && (e.a == 1 ==> !c.stop(e.k + 1))
  {
    AheadAt(c, e.k, e.a + 1);
    assert e.a == 1 ==> !c.stop(e.k + 1);
  }
}
