/** What a seek of fmr_core.cpp does: the order of its visits, which for a start within the limits is one
    cyclic tour of the grid, and how it ends. */
module SeekSpec {
  import opened Common
  import opened Reading

  lemma DivMono(a: int, b: int, d: int)
    requires 0 <= a <= b && d > 0
    ensures 0 <= a / d <= b / d
  {
    var p, q := a / d, b / d;
    assert q < p ==> (q + 1) * d <= p * d;
  }

  lemma ScaleMono(d: int, a: int, b: int)
    requires d >= 0 && a <= b
    ensures d * a <= d * b
  {
    assert d * b == d * a + d * (b - a);
  }

  lemma ExactQuotient(x: int, d: int, n: int)
    requires d > 0 && x == d * n
    ensures x / d == n
  {
    var e := x / d - n;
    assert d * e == -(x % d);
    assert e >= 1 ==> d * e >= d;
    assert e <= -1 ==> d * e <= -d;
  }

  /** The grid indices of a band are exactly those whose frequency lies in it. */
  lemma GridIndex(min: int, max: int, space: int, i: int)
    requires space > 0 && min <= max
    ensures 0 <= i < (max - min) / space + 1 <==> min <= min + space * i <= max
  {
    var q := (max - min) / space;
    assert space * q <= max - min < space * q + space;
    assert i <= q ==> space * i <= space * q;
    assert i > q ==> space * i >= space * (q + 1);
    assert i < 0 ==> space * i <= -space;
    assert i >= 0 ==> space * i >= 0;
  }

  /** A command sent to the device. */
  datatype Effect = Probe(freq: int) | Tune(freq: int) | RestoreSearch

  /** One call of FMR_seek_Channel and the world it meets: `read(t, f)` is what probe number t of
      this call reports if it is made at frequency f, `stop(t)` the stop flag read before it. `hal` tells
      the two copies of the code apart. */
  datatype SeekCall = SeekCall(start: int, min: int, max: int, space: int, up: bool, fakes: seq<FakeChannel>,
                               hal: bool, read: (nat, int) -> Reading, stop: nat -> bool) {

    predicate Valid() {
      0 < space && 0 <= min < Values() && 0 <= max < Values()
    }

    /** The start is within the limits of the search. */
    predicate Inside() { min <= start <= max }

    /** How many values a frequency can have: 16 bits in one copy, 32 in the other. */
    function Values(): int { if hal then TWO32 else TWO16 }

    /** Number of channels, and the start's index; both divisions truncate. */
    function N(): int
      requires Valid()
    {
      TruncDiv(max - min, space) + 1
    }

    function S(): int
      requires Valid()
    {
      TruncDiv(start - min, space)
    }

    /** Indices on either side of the start: above it up to the last one, below it down to 0. */
    function Above(): nat
      requires Valid()
    {
      if S() < N() - 1 then N() - 1 - S() else 0
    }

    function Below(): nat
      requires Valid()
    {
      if S() > 0 then S() else 0
    }

    function Visits(): nat
      requires Valid()
    {
      Above() + Below()
    }

    /** The k-th index visited: first those ahead of the start, then those from the other end. */
    function Visit(k: nat): int
      requires Valid()
    {
      if up then (if k < Above() then S() + 1 + k else k - Above())
      else (if k < Below() then S() - 1 - k else N() - 1 - (k - Below()))
    }

    /** A number stored as a frequency, and the frequency of an index. */
    function Wrap(x: int): (f: int)
      ensures 0 <= f < Values() && (0 <= x < Values() ==> f == x)
    {
      if hal then x % TWO32 else x % TWO16
    }

    function Freq(i: int): int { Wrap(min + space * i) }

    /** Channel as judged by probe number t; the HAL's fake-channel table is in units of 100. */
    predicate Accepts(t: nat, freq: int) {
      Acceptable(fakes, if hal then freq / 100 else freq, read(t, freq))
    }

    /** At 50 kHz spacing the channel next to the start counts as the same station, except in the HAL. */
    predicate SameStation(freq: int) {
      !hal && space == 5 && start == if up then freq - space else freq + space
    }

    predicate Hit(k: nat)
      requires Valid()
    {
      Accepts(k, Freq(Visit(k))) && !SameStation(Freq(Visit(k)))
    }

    /** The look-ahead channel b steps beyond the one found at visit k. */
    function Ahead(k: nat, b: int): int
      requires Valid()
    {
      if up then Freq(Visit(k)) + space * b else Freq(Visit(k)) - space * b
    }

    predicate InBand(freq: int) { min <= freq <= max }

    /** The look-ahead compares with the limit ahead only. */
    predicate Passes(freq: int) { if up then freq <= max else freq >= min }

    /** How far the look-ahead from visit k goes. */
    function Reach(k: nat): (m: nat)
      requires Valid()
      ensures m <= 2 && (m > 0 <==> Passes(Ahead(k, 1)))
      ensures m == 2 <==> Passes(Ahead(k, 1)) && Passes(Ahead(k, 2))
    {
      if !Passes(Ahead(k, 1)) then 0 else if !Passes(Ahead(k, 2)) then 1 else 2
    }

    /** Candidate b competes for the result: the found channel itself or an acceptable one ahead. */
    predicate Candidate(k: nat, b: nat)
      requires Valid()
    {
      b == 0 || Accepts(k + b, Ahead(k, b))
    }

    function Strength(k: nat, b: nat): int
      requires Valid()
    {
      read(k + b, Ahead(k, b)).rssi
    }

    /** Candidate w is the strongest of the first m+1, the earliest of the strongest. */
    ghost predicate Wins(k: nat, m: nat, w: nat)
      requires Valid()
    {
      && w <= m && Candidate(k, w)
      && forall b: nat :: b <= m && Candidate(k, b) ==>
           Strength(k, b) <= Strength(k, w) && (b < w ==> Strength(k, b) < Strength(k, w))
    }

    /** The look-ahead from visit k has made i probes, unstopped, and w is winning. */
    ghost predicate Looked(k: nat, i: nat, w: nat)
      requires Valid()
    {
      i <= Reach(k) && Running(k + 1, i) && Wins(k, i, w)
    }

    /** The winner after one more probe. */
    function Winner(k: nat, i: nat, w: nat): nat
      requires Valid()
    {
      if Accepts(k + 1 + i, Ahead(k, i + 1)) && Strength(k, i + 1) > Strength(k, w) then i + 1 else w
    }

    lemma WinsStep(k: nat, m: nat, w: nat)
      requires Valid() && Wins(k, m, w)
      ensures Wins(k, m + 1, Winner(k, m, w))
    {
      var v := Winner(k, m, w);
      assert Candidate(k, v) && Strength(k, w) <= Strength(k, v);
      forall b: nat | b <= m + 1 && Candidate(k, b)
        ensures Strength(k, b) <= Strength(k, v) && (b < v ==> Strength(k, b) < Strength(k, v))
      {
        if b <= m {
          assert Strength(k, b) <= Strength(k, w);
        }
      }
    }

    lemma AheadStep(k: nat, b: nat)
      requires Valid()
      ensures Ahead(k, b + 1) == if up then Ahead(k, b) + space else Ahead(k, b) - space
    {
      assert space * (b + 1) == space * b + space;
    }

    /** One step of the look-ahead: the band's end is its reach; otherwise, unstopped, it goes on. */
    lemma LookStep(k: nat, i: nat, w: nat)
      requires Valid() && Looked(k, i, w) && i < 2
      ensures Ahead(k, i + 1) == if up then Ahead(k, i) + space else Ahead(k, i) - space
      ensures i == Reach(k) <==> if up then Ahead(k, i) + space > max else Ahead(k, i) - space < min
      ensures i < Reach(k) && !stop(k + 1 + i) ==> Looked(k, i + 1, Winner(k, i, w))
    {
      AheadStep(k, i);
      WinsStep(k, i, w);
    }

    lemma AheadTrailStep(k: nat, b: nat, log0: seq<Effect>)
      requires Valid()
      ensures log0 + AheadTrail(k, b) + [Probe(Ahead(k, b + 1))] == log0 + AheadTrail(k, b + 1)
    {
      assert AheadTrail(k, b + 1) == AheadTrail(k, b) + [Probe(Ahead(k, b + 1))];
    }

    lemma TrailStep(k: nat, log0: seq<Effect>)
      requires Valid()
      ensures log0 + Trail(k) + [Probe(Freq(Visit(k)))] == log0 + Trail(k + 1)
      ensures forall a: nat :: log0 + Trail(k + 1) + AheadTrail(k, a) == log0 + (Trail(k + 1) + AheadTrail(k, a))
    {
      assert Trail(k + 1) == Trail(k) + [Probe(Freq(Visit(k)))];
    }

    function Trail(k: nat): seq<Effect>
      requires Valid()
    {
      seq(k, j requires 0 <= j => Probe(Freq(Visit(j))))
    }

    function AheadTrail(k: nat, a: nat): seq<Effect>
      requires Valid()
    {
      seq(a, b => Probe(Ahead(k, b + 1)))
    }

    /** The stop flag is down for probes from .. from+m-1. */
    ghost predicate Running(from: nat, m: nat) {
      forall t: nat :: from <= t < from + m ==> !stop(t)
    }

    /** `k` visits were made in vain: no stop was seen and nothing was hit. */
    ghost predicate InVain(k: nat)
      requires Valid()
    {
      forall j: nat :: j < k ==> !stop(j) && !Hit(j)
    }
  }

  /** How a seek ended. */
  datatype Ending =
    | NothingFound                          // every other grid channel was visited in vain
    | StoppedAt(k: nat)                     // stop seen before visit k
    | StoppedAhead(k: nat, a: nat)          // visit k hit, stop seen after a look-ahead probes
    | Found(k: nat, w: nat)                 // visit k hit, candidate w won

  /** The ending the readings and the stop flag determine. */
  ghost predicate Ends(c: SeekCall, e: Ending)
    requires c.Valid()
  {
    match e
    case NothingFound => c.InVain(c.Visits())
    case StoppedAt(k) => k < c.Visits() && c.InVain(k) && c.stop(k)
    case StoppedAhead(k, a) =>
      && Struck(c, k)
      && a < c.Reach(k) && c.Running(k + 1, a) && c.stop(k + 1 + a)
    case Found(k, w) =>
      && Struck(c, k)
      && c.Running(k + 1, c.Reach(k)) && c.Wins(k, c.Reach(k), w)
  }

  /** The hit at visit k lies behind a look-ahead; what is left is its own ending. */
  ghost predicate Struck(c: SeekCall, k: nat)
    requires c.Valid()
  {
    k < c.Visits() && c.InVain(k) && !c.stop(k) && c.Hit(k)
  }

  /** A look-ahead ends at its reach, or where it is stopped. */
  lemma LookEnds(c: SeekCall, k: nat, i: nat, w: nat)
    requires c.Valid() && Struck(c, k) && c.Looked(k, i, w)
    ensures i == c.Reach(k) ==> Ends(c, Found(k, w))
    ensures i < c.Reach(k) && c.stop(k + 1 + i) ==> Ends(c, StoppedAhead(k, i))
  {
  }

  /** The probes made up to an ending, in order. */
  function ProbesOf(c: SeekCall, e: Ending): seq<Effect>
    requires c.Valid()
  {
    match e
    case NothingFound => c.Trail(c.Visits())
    case StoppedAt(k) => c.Trail(k)
    case StoppedAhead(k, a) => c.Trail(k + 1) + c.AheadTrail(k, a)
    case Found(k, w) => c.Trail(k + 1) + c.AheadTrail(k, c.Reach(k))
  }

  /** Visits made in vain before the decisive one. */
  function Vain(c: SeekCall, e: Ending): nat
    requires c.Valid()
  {
    if e.NothingFound? then c.Visits() else e.k
  }

  lemma VainUnique(c: SeekCall, d: Ending, e: Ending)
    requires c.Valid() && Ends(c, d) && Ends(c, e)
    ensures Vain(c, d) <= Vain(c, e)
  {
    var k := Vain(c, e);
    assert c.InVain(Vain(c, d));
    assert k < c.Visits() ==> c.stop(k) || c.Hit(k);
  }

  /** The world determines the ending: a seek has at most one. */
  lemma EndingUnique(c: SeekCall, d: Ending, e: Ending)
    requires c.Valid() && Ends(c, d) && Ends(c, e)
    ensures d == e
  {
    VainUnique(c, d, e);
    VainUnique(c, e, d);
  }

  /** No seek makes more than two probes beyond its visits; from within the limits of N channels, N+1. */
  lemma ProbeBound(c: SeekCall, e: Ending)
    requires c.Valid() && Ends(c, e)
    ensures |ProbesOf(c, e)| <= c.Visits() + 2
    ensures c.Inside() ==> |ProbesOf(c, e)| <= c.N() + 1
  {
    if c.Inside() {
      InsideIndex(c);
    }
  }

  /** A start within the limits has an index on the grid, and all other indices are visited. */
  lemma InsideIndex(c: SeekCall)
    requires c.Valid() && c.Inside()
    ensures 0 <= c.S() < c.N() == c.Visits() + 1
    ensures c.N() == (c.max - c.min) / c.space + 1 && c.S() == (c.start - c.min) / c.space
  {
    DivMono(c.start - c.min, c.max - c.min, c.space);
  }

  /** Within the limits, the visits go round the grid from the index next to the start. */
  lemma CyclicTour(c: SeekCall, k: nat)
    requires c.Valid() && c.Inside() && k < c.Visits()
    ensures c.N() > 0 && c.Visit(k) == if c.up then (c.S() + 1 + k) % c.N() else (c.S() - 1 - k) % c.N()
  {
    InsideIndex(c);
    if c.up {
      ModOnce(c.S() + 1 + k, c.N());
    } else {
      ModOnce(c.S() - 1 - k, c.N());
    }
  }

  lemma ModOnce(x: int, n: int)
    requires n > 0 && -n <= x < 2 * n
    ensures x % n == if x < 0 then x + n else if x < n then x else x - n
  {
    var y := if x < 0 then x + n else if x < n then x else x - n;
    var q := if x < 0 then -1 else if x < n then 0 else 1;
    assert x == n * q + y;
    DivModUnique(x, n, q, y);
  }

  lemma DivModUnique(x: int, n: int, q: int, y: int)
    requires n > 0 && 0 <= y < n && x == n * q + y
    ensures x % n == y
  {
    var d := x / n - q;
    assert n * d == y - x % n;
    assert d >= 1 ==> n * d >= n;
    assert d <= -1 ==> n * d <= -n;
  }

  /** An index between the start and either end. */
  predicate Visited(c: SeekCall, i: int)
    requires c.Valid()
  {
    0 <= i < c.S() || c.S() < i < c.N()
  }

  /** The visit at which the tour comes to index i. */
  function TurnTo(c: SeekCall, i: int): int
    requires c.Valid()
  {
    if c.up then (if i > c.S() then i - c.S() - 1 else c.Above() + i)
    else (if i < c.S() then c.S() - 1 - i else c.Below() + (c.N() - 1 - i))
  }

  /** The sweep is a tour: it visits exactly the indices between the start and either end, each once. From
      a start within the limits these are all indices but its own. */
  lemma VisitsAreATour(c: SeekCall)
    requires c.Valid()
    ensures forall k: nat :: k < c.Visits() ==> Visited(c, c.Visit(k)) && TurnTo(c, c.Visit(k)) == k
    ensures forall i :: Visited(c, i) ==> 0 <= TurnTo(c, i) < c.Visits() && c.Visit(TurnTo(c, i)) == i
    ensures c.Inside() ==> forall i :: Visited(c, i) <==> 0 <= i < c.N() && i != c.S()
  {
    if c.Inside() {
      InsideIndex(c);
    }
  }

  /** The frequencies of the grid are in the band. */
  lemma FreqInside(c: SeekCall, i: int)
    requires c.Valid() && c.Inside() && 0 <= i < c.N()
    ensures c.Freq(i) == c.min + c.space * i && c.InBand(c.Freq(i))
  {
    InsideIndex(c);
    GridIndex(c.min, c.max, c.space, i);
  }

  /** A successful seek reports a channel of the band's grid, or the start when nothing was found. */
  function Answer(c: SeekCall, e: Ending): (f: int)
    requires c.Valid() && (e.NothingFound? || e.Found?)
  {
    match e
    case NothingFound => c.start
    case Found(k, w) => c.Ahead(k, w)
  }

  /** The look-ahead passes the limit ahead of it, and does not come near the other one. */
  lemma AheadPasses(c: SeekCall, k: nat, b: nat)
    requires c.Valid() && b <= c.Reach(k) && c.InBand(c.Freq(c.Visit(k)))
    ensures c.InBand(c.Ahead(k, b))
  {
    assert b == 0 || b == 1 || b == 2;
  }

  /** Steps along the grid that end in the band end on the grid. */
  lemma GridSteps(min: int, max: int, space: int, v: int, b: int)
    requires space > 0 && min <= max && min <= min + space * v + space * b <= max
    ensures 0 <= v + b < (max - min) / space + 1 && min + space * v + space * b == min + space * (v + b)
  {
    assert space * (v + b) == space * v + space * b;
    GridIndex(min, max, space, v + b);
  }

  /** Within the limits, a look-ahead stays on the grid. */
  lemma AheadInside(c: SeekCall, k: nat, b: nat)
    requires c.Valid() && c.Inside() && k < c.Visits() && b <= c.Reach(k)
    ensures var i := if c.up then c.Visit(k) + b else c.Visit(k) - b;
            0 <= i < c.N() && c.Ahead(k, b) == c.Freq(i) && c.InBand(c.Ahead(k, b))
  {
    InsideIndex(c);
    var v := c.Visit(k);
    FreqInside(c, v);
    AheadPasses(c, k, b);
    var d: int := if c.up then b else 0 - b;
    assert c.Ahead(k, b) == c.min + c.space * v + c.space * d;
    GridSteps(c.min, c.max, c.space, v, d);
    FreqInside(c, v + d);
  }

  lemma AnswerOnGrid(c: SeekCall, e: Ending)
    requires c.Valid() && Ends(c, e) && (e.NothingFound? || e.Found?)
    ensures e.Found? ==> c.Accepts(e.k + e.w, Answer(c, e))
    ensures c.Inside() ==> c.InBand(Answer(c, e))
    ensures c.Inside() && e.Found? ==> exists i: nat :: i < c.N() && Answer(c, e) == c.Freq(i)
  {
    if e.Found? {
      assert c.Ahead(e.k, 0) == c.Freq(c.Visit(e.k));
      if c.Inside() {
        AheadInside(c, e.k, e.w);
      }
    }
  }

  // ---- The ending of a call

  lemma {:induction false} LookFrom(c: SeekCall, k: nat, i: nat, w: nat) returns (e: Ending)
    requires c.Valid() && Struck(c, k) && c.Looked(k, i, w)
    ensures Ends(c, e)
    decreases 2 - i
  {
    LookEnds(c, k, i, w);
    if i == c.Reach(k) {
      e := Found(k, w);
    } else if c.stop(k + 1 + i) {
      e := StoppedAhead(k, i);
    } else {
      c.LookStep(k, i, w);
      e := LookFrom(c, k, i + 1, c.Winner(k, i, w));
    }
  }

  lemma {:induction false} EndingFrom(c: SeekCall, k: nat) returns (e: Ending)
    requires c.Valid() && k <= c.Visits() && c.InVain(k)
    ensures Ends(c, e)
    decreases c.Visits() - k
  {
    if k == c.Visits() {
      e := NothingFound;
    } else if c.stop(k) {
      e := StoppedAt(k);
    } else if c.Hit(k) {
      assert c.Looked(k, 0, 0);
      e := LookFrom(c, k, 0, 0);
    } else {
      e := EndingFrom(c, k + 1);
    }
  }

  /** Every call has an ending, by EndingUnique just one. */
  lemma EndingExists(c: SeekCall)
    requires c.Valid()
    ensures exists e :: Ends(c, e)
  {
    var e := EndingFrom(c, 0);
  }

  ghost function EndingOf(c: SeekCall): (e: Ending)
    requires c.Valid()
    ensures Ends(c, e)
  {
    EndingExists(c);
    var e :| Ends(c, e);
    e
  }

  /** What the caller gets. */
  ghost function ReplyOf(c: SeekCall): (r: Reply)
    requires c.Valid()
    ensures c.Inside() && r.Got? ==> c.InBand(r.freq)
  {
    var e := EndingOf(c);
    if e.NothingFound? || e.Found? then AnswerOnGrid(c, e); Got(Answer(c, e)) else Failed
  }

  // ---- The answers a call can get

  /** Visit k can end the search, and its look-ahead comes b steps further. */
  predicate LeadsTo(c: SeekCall, k: nat, b: nat)
    requires c.Valid()
  {
    k < c.Visits() && b <= c.Reach(k) && !c.SameStation(c.Freq(c.Visit(k)))
  }

  /** The start, or where some visit leads: a matter of the settings and the start, not of the air. */
  ghost predicate Reachable(c: SeekCall, f: int)
    requires c.Valid()
  {
    f == c.start || exists k: nat, b: nat :: LeadsTo(c, k, b) && f == c.Ahead(k, b)
  }

  /** A strength that no entry of the fake-channel table questions. */
  function Loud(fakes: seq<FakeChannel>): int {
    if fakes == [] then 0
    else if fakes[0].threshold > Loud(fakes[1..]) then fakes[0].threshold
    else Loud(fakes[1..])
  }

  lemma {:induction false} LoudEnough(fakes: seq<FakeChannel>, k: nat)
    requires k < |fakes|
    ensures fakes[k].threshold <= Loud(fakes)
  {
    if k > 0 {
      LoudEnough(fakes[1..], k - 1);
    }
  }

  lemma LoudPasses(fakes: seq<FakeChannel>, freq: int, rssi: int)
    requires rssi >= Loud(fakes)
    ensures !Severe(fakes, freq, rssi)
  {
    forall k | 0 <= k < |fakes| ensures rssi >= fakes[k].threshold {
      LoudEnough(fakes, k);
    }
  }

  /** Air in which just two probes find a station, or one if b is 0; later ones are stronger. */
  function Pair(k: nat, b: nat, loud: int): (nat, int) -> Reading {
    (t: nat, f: int) => Reading(true, t == k || t == k + b, loud + t, false)
  }

  function Unstopped(): nat -> bool { t => false }

  lemma PairAccepts(c: SeekCall, k: nat, b: nat, t: nat, f: int)
    requires c.read == Pair(k, b, Loud(c.fakes))
    ensures c.Accepts(t, f) <==> t == k || t == k + b
  {
    LoudPasses(c.fakes, if c.hal then f / 100 else f, Loud(c.fakes) + t);
  }

  lemma PairWins(c: SeekCall, k: nat, b: nat)
    requires c.Valid() && c.read == Pair(k, b, Loud(c.fakes)) && b <= c.Reach(k)
    ensures c.Wins(k, c.Reach(k), b)
  {
    PairAccepts(c, k, b, k + b, c.Ahead(k, b));
    forall j: nat | j <= c.Reach(k) && c.Candidate(k, j)
      ensures c.Strength(k, j) <= c.Strength(k, b) && (j < b ==> c.Strength(k, j) < c.Strength(k, b))
    {
      PairAccepts(c, k, b, k + j, c.Ahead(k, j));
    }
  }

  /** On such air the seek ends where that visit leads. */
  lemma PairFound(c: SeekCall, k: nat, b: nat)
    requires c.Valid() && LeadsTo(c, k, b) && c.read == Pair(k, b, Loud(c.fakes)) && c.stop == Unstopped()
    ensures ReplyOf(c) == Got(c.Ahead(k, b))
  {
    forall j: nat | j <= k ensures c.Hit(j) <==> j == k {
      PairAccepts(c, k, b, j, c.Freq(c.Visit(j)));
    }
    PairWins(c, k, b);
    assert Ends(c, Found(k, b));
    EndingUnique(c, EndingOf(c), Found(k, b));
  }

  lemma NothingToFind(c: SeekCall)
    requires c.Valid() && c.read == ((t: nat, f: int) => Reading(true, false, 0, false)) && c.stop == Unstopped()
    ensures ReplyOf(c) == Got(c.start)
  {
    assert Ends(c, NothingFound);
    EndingUnique(c, EndingOf(c), NothingFound);
  }

  /** The same call on other air. */
  function On(c: SeekCall, read: (nat, int) -> Reading, stop: nat -> bool): SeekCall {
    c.(read := read, stop := stop)
  }

  /** The air has no part in where visits lead. */
  lemma RouteFixed(c: SeekCall, read: (nat, int) -> Reading, stop: nat -> bool, k: nat, b: nat)
    requires c.Valid()
    ensures On(c, read, stop).Valid() && On(c, read, stop).Ahead(k, b) == c.Ahead(k, b)
    ensures LeadsTo(On(c, read, stop), k, b) <==> LeadsTo(c, k, b)
  {
    var d := On(c, read, stop);
    assert d.N() == c.N() && d.S() == c.S() && d.Visit(k) == c.Visit(k);
    assert d.Freq(d.Visit(k)) == c.Freq(c.Visit(k));
    assert d.Reach(k) == c.Reach(k);
  }

  lemma AnswerReachable(c: SeekCall, read: (nat, int) -> Reading, stop: nat -> bool, f: int)
    requires c.Valid() && ReplyOf(On(c, read, stop)) == Got(f)
    ensures Reachable(c, f)
  {
    var e := EndingOf(On(c, read, stop));
    if e.Found? {
      RouteFixed(c, read, stop, e.k, e.w);
      assert LeadsTo(c, e.k, e.w) && f == c.Ahead(e.k, e.w);
    }
  }

  lemma ReachableAnswered(c: SeekCall, f: int) returns (read: (nat, int) -> Reading, stop: nat -> bool)
    requires c.Valid() && Reachable(c, f)
    ensures ReplyOf(On(c, read, stop)) == Got(f)
  {
    stop := Unstopped();
    if f == c.start {
      read := (t: nat, f: int) => Reading(true, false, 0, false);
      NothingToFind(On(c, read, stop));
    } else {
      var k: nat, b: nat :| LeadsTo(c, k, b) && f == c.Ahead(k, b);
      read := Pair(k, b, Loud(c.fakes));
      RouteFixed(c, read, stop, k, b);
      PairFound(On(c, read, stop), k, b);
    }
  }

  /** Over all air and stop flags, a call can answer exactly the reachable frequencies. */
  lemma AnswersExactly(c: SeekCall, f: int)
    requires c.Valid()
    ensures (exists read, stop :: ReplyOf(On(c, read, stop)) == Got(f)) <==> Reachable(c, f)
  {
    if read, stop :| ReplyOf(On(c, read, stop)) == Got(f) {
      AnswerReachable(c, read, stop, f);
    }
    if Reachable(c, f) {
      var read, stop := ReachableAnswered(c, f);
    }
  }
}
