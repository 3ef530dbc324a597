/** Alternative-frequency switching (common.cpp, COM_active_af and COM_get_af_pi). */
module AfSwitch {

  const LOW_BOUND := 8      // PAMD below which the current station counts as weak
  const HIGH_BOUND := 12    // PAMD an alternative has to exceed
  const AF_MAX := 25
  const ERR_RDS_NO_DATA := 1013

  datatype Effect = Mute(on: bool) | TuneTo(freq: int) | SoftMuteTune(freq: int)

  type Byte = x: int | 0 <= x < 0x100

  /** One read of the RDS log: whether the ioctl worked, its length and the bytes holding the PI twice. */
  datatype RdsLog = RdsLog(ok: bool, len: int, b4: Byte, b5: Byte, b16: Byte, b17: Byte)

  /** The PI of an RDS log: the two copies, little endian, when they agree. */
  function PiOf(r: RdsLog): (int, bool) {
    var one, two := r.b4 + 256 * r.b5, r.b16 + 256 * r.b17;
    if r.ok && r.len != 0 && one == two then (one, true) else (0, false)
  }

  /** The request and what the hardware answers: PAMD reads of the current station, validity of the
      listed entries, PAMD and RDS logs of the surviving ones. */
  datatype World = World(afOn: bool, origPi: int, cur: int, low: int, high: int, num: int, list: seq<int>,
                         pamd: nat -> nat, valid: nat -> bool, level: nat -> nat, rds: (nat, nat) -> RdsLog) {

    predicate Valid() { |list| == AF_MAX && 0 <= cur < 0x1_0000 }

    /** Listed frequencies are 16-bit signed in the list and unsigned in use. */
    function Listed(p: nat): int
      requires p < |list|
    {
      list[p] % 0x1_0000
    }

    function Count(): int { if num > AF_MAX then AF_MAX else num }

    /** All four reads of the current station are weak. */
    predicate Weak() { forall i :: 0 <= i < 4 ==> pamd(i) < LOW_BOUND }

    /** Listed entry p is a candidate: in the band and valid when soft-mute tuned. */
    predicate Candidate(p: nat)
      requires Valid() && p < AF_MAX
    {
      p < Count() && low <= Listed(p) <= high && valid(p)
    }

    /** Positions of the candidates among the first n entries, in list order. */
    function Candidates(n: nat): (s: seq<nat>)
      requires Valid() && n <= AF_MAX
      ensures |s| <= n
      ensures forall k :: 0 <= k < |s| ==> s[k] < n
    {
      if n == 0 then []
      else if Candidate(n - 1) then Candidates(n - 1) + [n - 1]
      else Candidates(n - 1)
    }

    function All(): seq<nat>
      requires Valid()
    {
      Candidates(|list|)
    }

    function FreqOf(k: nat): int
      requires Valid() && k < |All()|
    {
      Listed(All()[k])
    }

    /** The soft-mute tunes that checking the first n entries takes: one for each in the band. */
    function SoftTunes(n: nat): seq<Effect>
      requires Valid() && n <= AF_MAX
    {
      if n == 0 then []
      else SoftTunes(n - 1)
           + if n - 1 < Count() && low <= Listed(n - 1) <= high then [SoftMuteTune(Listed(n - 1))] else []
    }

    /** The commands that trying the first n candidates takes: a mute and a tune for each other frequency. */
    function Tries(n: nat): seq<Effect>
      requires Valid() && n <= |All()|
    {
      if n == 0 then [] else Tries(n - 1) + if FreqOf(n - 1) != cur then [Mute(true), TuneTo(FreqOf(n - 1))] else []
    }

    /** n candidates are tried: up to the first better one, or all. */
    ghost predicate Tried(n: nat)
      requires Valid() && n <= |All()|
    {
      if n > 0 && Better(n - 1) then NoneBefore(n - 1) else n == |All()| && NoneBefore(n)
    }

    /** The PI heard on candidate k: the first of five attempts that succeeds, else 0. */
    function Heard(k: nat, j: nat): int
      decreases 5 - j
    {
      if j >= 5 then 0 else if PiOf(rds(k, j)).1 then PiOf(rds(k, j)).0 else Heard(k, j + 1)
    }

    /** Candidate k is worth switching to. */
    predicate Better(k: nat)
      requires Valid() && k < |All()|
    {
      FreqOf(k) != cur && level(k) > HIGH_BOUND && Heard(k, 0) == origPi
    }

    /** The first k candidates are not. */
    ghost predicate NoneBefore(k: nat)
      requires Valid() && k <= |All()|
    {
      forall j: nat :: j < k ==> !Better(j)
    }

    /** f is where a weak station leads: the first better candidate, or the original frequency. A better
        candidate at frequency 0 counts as none. */
    ghost predicate Leads(f: int)
      requires Valid()
    {
      || (f == cur && NoneBefore(|All()|))
      || exists k :: 0 <= k < |All()| && Better(k) && NoneBefore(k) && f == if FreqOf(k) != 0 then FreqOf(k) else cur
    }
  }

  /** Mute state after a sequence of commands. */
  function MutedAfter(log: seq<Effect>, m: bool): bool {
    if log == [] then m
    else
      var e := log[|log| - 1];
      if e.Mute? then e.on else MutedAfter(log[..|log| - 1], m)
  }

  /** The candidate list is complete, contains nothing else and is in list order. */
  lemma {:induction false} CandidatesExact(w: World, n: nat)
    requires w.Valid() && n <= AF_MAX
    ensures forall p: nat :: p in w.Candidates(n) <==> p < n && w.Candidate(p)
    ensures forall j, k :: 0 <= j < k < |w.Candidates(n)| ==> w.Candidates(n)[j] < w.Candidates(n)[k]
  {
    if n > 0 {
      CandidatesExact(w, n - 1);
    }
  }

  /** COM_get_af_pi, up to five times. */
  method QueryPi(w: World, k: nat) returns (pi: int)
    ensures pi == w.Heard(k, 0)
  {
    pi := 0;
    var j: nat := 0;
    while j < 5
      invariant j <= 5 && pi == 0 && w.Heard(k, j) == w.Heard(k, 0)
    {
      var (got, ok) := PiOf(w.rds(k, j));
      pi := got;
      if ok {
        return;
      }
      j := j + 1;
    }
  }

  /** The pre-check loop: the candidates' frequencies, in list order. */
  method Precheck(w: World) returns (afs: seq<int>, log: seq<Effect>)
    requires w.Valid()
    ensures |afs| == |w.All()| && forall k :: 0 <= k < |afs| ==> afs[k] == w.FreqOf(k)
    ensures log == w.SoftTunes(|w.list|) && forall k :: 0 <= k < |log| ==> log[k].SoftMuteTune?
  {
    afs, log := [], [];
    var n := w.Count();
    ghost var picked: seq<nat> := [];
    var i: nat := 0;
    while i < n
      invariant i <= AF_MAX && (i == 0 || i <= n)
      invariant picked == w.Candidates(i) && |afs| == |picked|
      invariant forall k :: 0 <= k < |afs| ==> picked[k] < AF_MAX && afs[k] == w.Listed(picked[k])
      invariant log == w.SoftTunes(i) && forall k :: 0 <= k < |log| ==> log[k].SoftMuteTune?
      decreases n - i
    {
      var f := w.Listed(i);
      if w.low <= f <= w.high {
        log := log + [SoftMuteTune(f)];
        if w.valid(i) {
          afs := afs + [f];
          picked := picked + [i];
        }
      }
      assert picked == w.Candidates(i + 1);
      i := i + 1;
    }
    PastCount(w, i, |w.list|);
  }

  /** Entries beyond the count are no candidates. */
  lemma {:induction false} PastCount(w: World, i: nat, n: nat)
    requires w.Valid() && i <= n <= AF_MAX && w.Count() <= i
    ensures w.Candidates(n) == w.Candidates(i) && w.SoftTunes(n) == w.SoftTunes(i)
  {
    if i < n {
      PastCount(w, i, n - 1);
    }
  }

  /** Every tune is preceded by a mute. */
  ghost predicate MutedTunes(log: seq<Effect>) {
    forall k :: 0 <= k < |log| && log[k].TuneTo? ==> k > 0 && log[k - 1] == Mute(true)
  }

  lemma MutedTune(log: seq<Effect>, f: int)
    requires MutedTunes(log)
    ensures MutedTunes(log + [Mute(true), TuneTo(f)])
  {
  }

  lemma MutedBehind(l1: seq<Effect>, l2: seq<Effect>)
    requires (forall k :: 0 <= k < |l1| ==> l1[k].SoftMuteTune?) && MutedTunes(l2)
    ensures MutedTunes(l1 + l2)
  {
    var log := l1 + l2;
    forall k | 0 <= k < |log| && log[k].TuneTo? ensures k > 0 && log[k - 1] == Mute(true) {
      assert log[k] == l2[k - |l1|];
    }
  }

  /** One candidate: skipped if it is the current station, else tuned to under mute and judged. */
  method TryCandidate(w: World, k: nat, f: int, log: seq<Effect>) returns (better: bool, log': seq<Effect>)
    requires w.Valid() && k < |w.All()| && f == w.FreqOf(k) && MutedTunes(log)
    ensures better == w.Better(k) && (better ==> w.level(k) > HIGH_BOUND)
    ensures MutedTunes(log') && log' == if f == w.cur then log else log + [Mute(true), TuneTo(f)]
  {
    better, log' := false, log;
    if f != w.cur {
      MutedTune(log, f);
      log' := log + [Mute(true), TuneTo(f)];
      if w.level(k) >= HIGH_BOUND {
        var pi := QueryPi(w, k);
        better := w.origPi == pi && w.level(k) > HIGH_BOUND;
      }
    }
  }

  /** The switch loop: stops at the first better candidate; mutes before it tunes to any. */
  method TryCandidates(w: World, afs: seq<int>, pamd: nat) returns (sw: int, value: nat, log: seq<Effect>)
    requires pamd < LOW_BOUND && w.Valid() && |afs| == |w.All()| && forall k :: 0 <= k < |afs| ==> afs[k] == w.FreqOf(k)
    ensures value > HIGH_BOUND ==> exists k :: 0 <= k < |afs| && w.Better(k) && w.NoneBefore(k) && sw == w.FreqOf(k)
    ensures value <= HIGH_BOUND ==> w.NoneBefore(|w.All()|) && sw == w.cur
    ensures MutedTunes(log) && exists n: nat :: n <= |afs| && w.Tried(n) && log == w.Tries(n)
  {
    sw, value, log := w.cur, pamd, [];
    for i := 0 to |afs|
      invariant w.NoneBefore(i)
      invariant MutedTunes(log) && log == w.Tries(i)
    {
      var better;
      better, log := TryCandidate(w, i, afs[i], log);
      if better {
        assert 0 <= i < |afs| && w.Better(i) && w.NoneBefore(i) && afs[i] == w.FreqOf(i);
        assert w.Tried(i + 1) && log == w.Tries(i + 1);
        return afs[i], w.level(i), log;
      }
      assert w.NoneBefore(i + 1);
    }
    assert w.Tried(|afs|);
  }

  /** COM_active_af. */
  method ActiveAf(w: World) returns (ret: int, freq: int, log: seq<Effect>)
    requires w.Valid()
    ensures !w.afOn ==> ret == -ERR_RDS_NO_DATA && freq == 0 && log == []
    ensures w.afOn && !w.Weak() ==> ret == 0 && freq == w.cur && log == []
    ensures w.afOn && w.Weak() ==>
              && ret == 0 && w.Leads(freq)
              && |log| >= 2 && log[|log| - 2..] == [TuneTo(freq), Mute(false)]
              && MutedTunes(log[..|log| - 2])
              && (exists n: nat :: n <= |w.All()| && w.Tried(n)
                                   && log == w.SoftTunes(|w.list|) + w.Tries(n) + [TuneTo(freq)] + [Mute(false)])
              && (forall m :: !MutedAfter(log, m))
  {
    if !w.afOn {
      return -ERR_RDS_NO_DATA, 0, [];
    }
    ret, freq, log := 0, w.cur, [];
    var pamd, i := w.pamd(0), 0;
    while i < 3 && pamd < LOW_BOUND
      invariant 0 <= i <= 3 && pamd == w.pamd(i)
      invariant forall j :: 0 <= j < i ==> w.pamd(j) < LOW_BOUND
    {
      i := i + 1;
      pamd := w.pamd(i);
    }
    if pamd < LOW_BOUND {
      assert i == 3;
      var afs, l1 := Precheck(w);
      var sw, value, l2 := TryCandidates(w, afs, pamd);
      freq := if value > HIGH_BOUND && sw != 0 then sw else w.cur;
      MutedBehind(l1, l2);
      log := l1 + l2 + [TuneTo(freq)] + [Mute(false)];
      assert log[..|log| - 2] == l1 + l2;
    }
  }

  /** So a switch happens only from a weak station, to a listed, in-band, valid, different frequency with
      PAMD above the bound, and when the original PI is nonzero that PI was really received there. */
  lemma SwitchMeans(w: World, f: int)
    requires w.Valid() && w.Leads(f) && f != w.cur
    ensures exists k: nat :: k < |w.All()| && f == w.FreqOf(k) && w.Candidate(w.All()[k]) && w.level(k) > HIGH_BOUND
              && w.NoneBefore(k)
              && (w.origPi != 0 ==> exists j :: 0 <= j < 5 && PiOf(w.rds(k, j)) == (w.origPi, true))
  {
    var k :| 0 <= k < |w.All()| && w.Better(k) && w.NoneBefore(k)
             && f == if w.FreqOf(k) != 0 then w.FreqOf(k) else w.cur;
    var p := w.All()[k];
    CandidatesExact(w, |w.list|);
    assert w.Candidate(p) && f == w.Listed(p);
    if w.origPi != 0 {
      var j := HeardFrom(w, k, 0);
    }
  }

  lemma {:induction false} HeardFrom(w: World, k: nat, j: nat) returns (i: nat)
    requires w.Heard(k, j) != 0
    ensures j <= i < 5 && PiOf(w.rds(k, i)) == (w.Heard(k, j), true)
    decreases 5 - j
  {
    if PiOf(w.rds(k, j)).1 {
      i := j;
    } else {
      i := HeardFrom(w, k, j + 1);
    }
  }

  /** The outcome is determined by the answers. */
  lemma LeadsUnique(w: World, f: int, g: int)
    requires w.Valid() && w.Leads(f) && w.Leads(g)
    ensures f == g
  {
  }

  // ---- The same from the answers alone

  /** RDS log j of candidate k was read and its two copies of the PI agree. */
  predicate PiRead(w: World, k: nat, j: nat) {
    var r := w.rds(k, j);
    r.ok && r.len != 0 && r.b4 == r.b16 && r.b5 == r.b17
  }

  /** The PI that candidate k is taken to have: of the first of five logs that gives one, or zero. */
  ghost predicate Announces(w: World, k: nat, pi: int) {
    || (pi == 0 && forall j: nat :: j < 5 ==> !PiRead(w, k, j))
    || exists j: nat :: j < 5 && PiRead(w, k, j) && pi == w.rds(k, j).b4 + 256 * w.rds(k, j).b5
                        && forall i: nat :: i < j ==> !PiRead(w, k, i)
  }

  lemma PiOfRead(w: World, k: nat, j: nat)
    ensures PiOf(w.rds(k, j)).1 <==> PiRead(w, k, j)
    ensures PiRead(w, k, j) ==> PiOf(w.rds(k, j)).0 == w.rds(k, j).b4 + 256 * w.rds(k, j).b5
  {
  }

  lemma {:induction false} HeardIs(w: World, k: nat, j: nat, n: nat)
    requires j <= n <= 5 && (forall i: nat :: j <= i < n ==> !PiRead(w, k, i)) && (n < 5 ==> PiRead(w, k, n))
    ensures w.Heard(k, j) == if n < 5 then w.rds(k, n).b4 + 256 * w.rds(k, n).b5 else 0
    decreases n - j
  {
    PiOfRead(w, k, j);
    if j < n {
      HeardIs(w, k, j + 1, n);
    }
  }

  lemma {:induction false} FirstRead(w: World, k: nat, j: nat) returns (n: nat)
    requires j <= 5
    ensures j <= n <= 5 && (forall i: nat :: j <= i < n ==> !PiRead(w, k, i)) && (n < 5 ==> PiRead(w, k, n))
    decreases 5 - j
  {
    n := j;
    if j < 5 && !PiRead(w, k, j) {
      n := FirstRead(w, k, j + 1);
    }
  }

  lemma AnnouncesExactly(w: World, k: nat, pi: int)
    ensures w.Heard(k, 0) == pi <==> Announces(w, k, pi)
  {
    var n := FirstRead(w, k, 0);
    HeardIs(w, k, 0, n);
    if n < 5 {
      assert forall j: nat :: j < 5 && PiRead(w, k, j) && (forall i: nat :: i < j ==> !PiRead(w, k, i)) ==> j == n;
    }
  }

  /** The candidates: positions below the count and below 25 whose entry, as an unsigned 16-bit number, is in
      the band and valid, in list order. */
  lemma ListExactly(w: World)
    requires w.Valid()
    ensures forall p: nat :: p in w.All() <==>
              p < 25 && p < w.num && w.low <= w.list[p] % 0x1_0000 <= w.high && w.valid(p)
    ensures forall j, k :: 0 <= j < k < |w.All()| ==> w.All()[j] < w.All()[k]
    ensures forall k: nat :: k < |w.All()| ==> w.FreqOf(k) == w.list[w.All()[k]] % 0x1_0000
  {
    CandidatesExact(w, |w.list|);
  }

  /** Candidate k is another frequency than the current one, has a PAMD above 12 and the PI asked for. */
  ghost predicate Suits(w: World, k: nat)
    requires w.Valid() && k < |w.All()|
  {
    w.FreqOf(k) != w.cur && w.level(k) > 12 && Announces(w, k, w.origPi)
  }

  lemma SuitsIsBetter(w: World, k: nat)
    requires w.Valid() && k < |w.All()|
    ensures Suits(w, k) <==> w.Better(k)
  {
    AnnouncesExactly(w, k, w.origPi);
  }

  /** The first candidate that suits, or none. */
  ghost predicate FirstSuits(w: World, k: nat)
    requires w.Valid() && k < |w.All()|
  {
    Suits(w, k) && forall j: nat :: j < k ==> !Suits(w, j)
  }

  lemma FirstIsFirst(w: World, k: nat)
    requires w.Valid() && k <= |w.All()|
    ensures w.NoneBefore(k) <==> forall j: nat :: j < k ==> !Suits(w, j)
    ensures k < |w.All()| ==> (FirstSuits(w, k) <==> w.Better(k) && w.NoneBefore(k))
  {
    forall j: nat | j < |w.All()| ensures Suits(w, j) <==> w.Better(j) {
      SuitsIsBetter(w, j);
    }
  }

  lemma WeakExactly(w: World)
    ensures w.Weak() <==> w.pamd(0) < 8 && w.pamd(1) < 8 && w.pamd(2) < 8 && w.pamd(3) < 8
  {
  }

  /** A weak station leads to the first candidate that suits, unless that is frequency 0, and to itself if
      none does. */
  lemma SwitchExactly(w: World, f: int)
    requires w.Valid()
    ensures w.Leads(f) <==>
            || (f == w.cur && forall k: nat :: k < |w.All()| ==> !Suits(w, k))
            || exists k: nat :: k < |w.All()| && FirstSuits(w, k)
                                && f == if w.FreqOf(k) != 0 then w.FreqOf(k) else w.cur
  {
    FirstIsFirst(w, |w.All()|);
    forall k: nat | k < |w.All()| ensures FirstSuits(w, k) <==> w.Better(k) && w.NoneBefore(k) {
      FirstIsFirst(w, k);
    }
    if k: nat :| k < |w.All()| && w.Better(k) && w.NoneBefore(k)
                 && f == if w.FreqOf(k) != 0 then w.FreqOf(k) else w.cur {
      assert FirstSuits(w, k);
    }
    if k: nat :| k < |w.All()| && FirstSuits(w, k) && f == if w.FreqOf(k) != 0 then w.FreqOf(k) else w.cur {
      assert w.Better(k) && w.NoneBefore(k);
    }
  }
}
