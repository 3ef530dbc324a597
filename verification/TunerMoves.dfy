/** Where the commands of the radio HAL's queue take the tuner: each executed STEP, SEEK and TUNE starts from
    the channel its predecessor left and goes in its own direction. */
module TunerMoves {
  import opened Common
  import opened HalSeek
  import opened Reading
  import opened SeekSpec
  import opened TunerThread

  /** Probe t heard a station at f; the fake-channel table is in units of 100 kHz. */
  predicate Heard(hw: Hardware, t: nat, f: int) {
    var r := hw.read(t, f);
    r.ok && r.valid && !r.desense && !Severe(hw.fakes, f / 100, r.rssi)
  }

  /** Where a seek from channel ch begins. */
  function From(c: Config, ch: int): int { if c.lower <= ch <= c.upper then ch else c.lower }

  /** n spacings from a channel, upward or downward. */
  function Along(c: Config, ch: int, up: bool, n: int): int {
    if up then ch + c.spacing * n else ch - c.spacing * n
  }

  /** The grid of fewer than 2^31 channels, with the channel on it. */
  predicate GridFrom(c: Config, ch: int) {
    c.Sane() && (c.upper - c.lower) / c.spacing + 1 < TWO31 && (From(c, ch) - c.lower) % c.spacing == 0
  }

  /** From channel ch the n-th channel in the direction is the first on which a station is heard, before the
      end of the band and unstopped; and the two further probes hear none that is stronger. */
  ghost predicate FirstStation(c: Config, ch: int, up: bool, hw: Hardware, n: nat) {
    var f := Along(c, From(c, ch), up, n);
    && n > 0 && c.InBand(f) && Heard(hw, n - 1, f)
    && (forall m: nat :: 0 < m < n ==> !Heard(hw, m - 1, Along(c, From(c, ch), up, m)))
    && (forall t: nat :: t < n + 2 ==> !hw.stop(t))
    && (forall t: nat, g :: n <= t < n + 2 && Heard(hw, t, g) ==> hw.read(t, g).rssi <= hw.read(n - 1, f).rssi)
  }

  // ---- The seek

  /** n spacings along from a channel of the grid is n indices along. */
  lemma AlongIndex(c: Config, ch: int, up: bool, n: nat)
    requires c.Sane() && c.InBand(ch) && (ch - c.lower) % c.spacing == 0 && c.InBand(Along(c, ch, up, n))
    ensures var s := (ch - c.lower) / c.spacing;
            var i := if up then s + n else s - n;
            Along(c, ch, up, n) == c.lower + c.spacing * i && 0 <= i < (c.upper - c.lower) / c.spacing + 1
  {
    var s := (ch - c.lower) / c.spacing;
    assert c.lower + c.spacing * s == ch;
    GridSteps(c.lower, c.upper, c.spacing, s, if up then n else 0 - n);
  }

  /** The n-th visit goes to the n-th index along. */
  lemma VisitIndex(h: HalCall, n: nat, i: nat)
    requires h.Valid() && h.N() < TWO31 && n > 0 && i < h.N() && i == if h.up then h.S() + n else h.S() - n
    ensures n <= |h.Order()| && h.Order()[n - 1] == i
  {
    CountFits(h);
  }

  lemma FreqPlain(h: HalCall, i: nat)
    requires h.Valid() && i < h.N() < TWO31
    ensures h.Freq(i) == h.cfg.lower + h.cfg.spacing * i
  {
    assert i % TWO32 == i;
    FreqOnGrid(h, i);
  }

  lemma VisitFreq(h: HalCall, n: nat, i: nat)
    requires h.Valid() && h.N() < TWO31 && n > 0 && i < h.N() && i == if h.up then h.S() + n else h.S() - n
    ensures n <= |h.Order()| && h.Freq(h.Order()[n - 1]) == h.cfg.lower + h.cfg.spacing * i
  {
    VisitIndex(h, n, i);
    FreqPlain(h, i);
  }

  /** The n-th visit of a seek is n spacings along, up to the end of the band. */
  lemma VisitAlong(h: HalCall, n: nat)
    requires h.Valid() && h.N() < TWO31 && (h.start - h.cfg.lower) % h.cfg.spacing == 0
    requires n > 0 && h.cfg.InBand(Along(h.cfg, h.start, h.up, n))
    ensures n <= |h.Order()| && h.Freq(h.Order()[n - 1]) == Along(h.cfg, h.start, h.up, n)
  {
    AlongIndex(h.cfg, h.start, h.up, n);
    VisitFreq(h, n, if h.up then h.S() + n else h.S() - n);
  }

  /** Earlier visits lie before it. */
  lemma AlongInside(c: Config, ch: int, up: bool, m: nat, n: nat)
    requires c.Sane() && c.InBand(ch) && m <= n && c.InBand(Along(c, ch, up, n))
    ensures c.InBand(Along(c, ch, up, m))
  {
    ScaleMono(c.spacing, 0, m);
    ScaleMono(c.spacing, m, n);
  }

  lemma {:induction false} MoreStays(h: HalCall, t: nat, cur: int, f: int, rssi: int, i: nat)
    requires forall u: nat :: t <= u < t + 2 - i ==> !h.hw.stop(u)
    requires forall u: nat, g :: t <= u < t + 2 - i && h.hw.Accepts(u, g) ==> h.hw.read(u, g).rssi <= rssi
    ensures h.More(t, cur, f, rssi, i) == Result(true, f)
    decreases 2 - i
  {
    if i < 2 && h.Passes(h.Next(cur)) {
      MoreStays(h, t + 1, h.Next(cur), f, rssi, i + 1);
    }
  }

  lemma {:induction false} SweepPasses(h: HalCall, order: seq<int>, j: nat, k: nat)
    requires j <= k <= |order|
    requires forall m: nat :: j <= m < k ==> !h.hw.stop(m) && !h.hw.Accepts(m, h.Freq(order[m]))
    ensures h.Sweep(order, j) == h.Sweep(order, k)
    decreases k - j
  {
    if j < k {
      SweepPasses(h, order, j + 1, k);
    }
  }

  lemma NotBefore(c: Config, ch: int, up: bool, hw: Hardware, n: nat, m: nat)
    requires GridFrom(c, ch) && FirstStation(c, ch, up, hw, n) && m + 1 < n
    ensures var h := HalCall(c, From(c, ch), up, hw);
            m < |h.Order()| && !hw.Accepts(m, h.Freq(h.Order()[m]))
  {
    var h := HalCall(c, From(c, ch), up, hw);
    AlongInside(c, h.start, up, m + 1, n);
    VisitAlong(h, m + 1);
    assert !Heard(hw, m + 1 - 1, Along(c, From(c, ch), up, m + 1));
  }

  /** A seek comes to the first station in its direction. */
  lemma SeekComesTo(c: Config, ch: int, up: bool, hw: Hardware, n: nat)
    requires GridFrom(c, ch) && FirstStation(c, ch, up, hw, n)
    ensures SeekTo(c, ch, up, hw) == Along(c, From(c, ch), up, n)
  {
    var h := HalCall(c, From(c, ch), up, hw);
    var order, f := h.Order(), Along(c, h.start, up, n);
    VisitAlong(h, n);
    forall m: nat | m < n - 1 ensures !hw.stop(m) && !hw.Accepts(m, h.Freq(order[m])) {
      NotBefore(c, ch, up, hw, n, m);
    }
    SweepPasses(h, order, 0, n - 1);
    assert forall t: nat, g :: hw.Accepts(t, g) <==> Heard(hw, t, g);
    MoreStays(h, n, f, f, hw.read(n - 1, f).rssi, 0);
  }

  /** Without any station, or stopped at once, it stays where it began. */
  lemma SeekStays(c: Config, ch: int, up: bool, hw: Hardware)
    requires c.Sane() && (hw.stop(0) || forall t, f :: !Heard(hw, t, f))
    ensures SeekTo(c, ch, up, hw) == From(c, ch)
  {
    var h := HalCall(c, From(c, ch), up, hw);
    var order := h.Order();
    if !hw.stop(0) {
      assert forall t: nat, g :: hw.Accepts(t, g) <==> Heard(hw, t, g);
      SilentSweep(h, order, 0);
    }
  }

  lemma {:induction false} SilentSweep(h: HalCall, order: seq<int>, k: nat)
    requires k <= |order| && forall t, f :: !h.hw.Accepts(t, f)
    ensures h.Sweep(order, k).ch == h.start
    decreases |order| - k
  {
    if k < |order| && !h.hw.stop(k) {
      SilentSweep(h, order, k + 1);
    }
  }

  // ---- Entries

  /** The step of a tuned STEP from a channel of the band, where no number wraps in 32 bits. */
  function Stepped(c: Config, ch: int, up: bool): int {
    if up then (if ch + c.spacing <= c.upper then ch + c.spacing else c.lower)
    else if ch - c.spacing >= c.lower then ch - c.spacing else c.upper
  }

  /** What an entry did to the channel. */
  ghost predicate Moved(e: Entry) {
    && (!e.executed ==> e.ch == e.was)
    && (e.executed ==> match e.item.cmd
        case Tune(ch) => e.ch == ch && e.tuned == e.hw.tuneOk
        case Step(up) =>
          && e.tuned == e.hw.tuneOk && (!e.tuned ==> e.ch == e.was)
          && (e.tuned && e.under.Ordered() && e.under.InBand(e.was)
              && (if up then e.was + e.under.spacing < TWO32 else e.was >= e.under.spacing)
              ==> e.ch == Stepped(e.under, e.was, up))
        case Seek(up) =>
          && e.tuned == e.hw.tuneOk
          && (forall n: nat :: GridFrom(e.under, e.was) && FirstStation(e.under, e.was, up, e.hw, n) ==>
                e.ch == Along(e.under, From(e.under, e.was), up, n))
          && (e.under.Sane() && (e.hw.stop(0) || forall t, f :: !Heard(e.hw, t, f)) ==>
                e.ch == From(e.under, e.was))
        case _ => e.ch == e.was)
  }

  lemma HandleMoves(s: State, cancel: bool, hw: Hardware)
    requires s.queue != []
    ensures var (next, _, e) := Handle(s, cancel, hw);
            Moved(e) && e.item == s.queue[0] && e.under == s.config && e.was == s.ch && e.ch == next.ch && e.hw == hw
  {
    var e := Handle(s, cancel, hw).2;
    if e.executed && e.item.cmd.Seek? {
      forall n: nat | GridFrom(s.config, s.ch) && FirstStation(s.config, s.ch, e.item.cmd.up, hw, n)
        ensures e.ch == Along(s.config, From(s.config, s.ch), e.item.cmd.up, n)
      {
        SeekComesTo(s.config, s.ch, e.item.cmd.up, hw, n);
      }
      if s.config.Sane() && (hw.stop(0) || forall t, f :: !Heard(hw, t, f)) {
        SeekStays(s.config, s.ch, e.item.cmd.up, hw);
      }
    } else if e.executed && e.item.cmd.Step? && s.config.Ordered() && s.config.InBand(s.ch) {
      StepInBand(s.config, s.ch, e.item.cmd.up);
    }
  }

  /** Every entry moved as its command says, from the channel the entry before it left. */
  ghost predicate Chained(log: seq<Entry>, first: int, last: int) {
    && (forall k :: 0 <= k < |log| ==> Moved(log[k]))
    && (log != [] ==> log[0].was == first)
    && (forall j, k :: 0 <= j && k == j + 1 < |log| ==> log[k].was == log[j].ch)
    && last == if log == [] then first else log[|log| - 1].ch
  }

  lemma ChainedConcat(p: seq<Entry>, q: seq<Entry>, first: int, mid: int, last: int)
    requires Chained(p, first, mid) && Chained(q, mid, last)
    ensures Chained(p + q, first, last)
  {
    var all := p + q;
    assert forall k :: 0 <= k < |all| ==> all[k] == if k < |p| then p[k] else q[k - |p|];
    forall j, k | 0 <= j && k == j + 1 < |all| ensures all[k].was == all[j].ch {
      if k < |p| {
        assert p[k].was == p[j].ch;
      } else if j >= |p| {
        assert q[k - |p|].was == q[j - |p|].ch;
      }
    }
  }

  lemma {:induction false} PassMoves(s: State, cancel: bool, hw: nat -> Hardware, t: nat)
    ensures Chained(Pass(s, cancel, hw, t).1, s.ch, Pass(s, cancel, hw, t).0.ch)
    decreases Weight(s.queue)
  {
    if s.queue != [] {
      var (next, cancel', e) := Handle(s, cancel, hw(t));
      HandleMoves(s, cancel, hw(t));
      HandleQueue(s, cancel, hw(t));
      if |s.queue| > 1 && !next.exited {
        PassMoves(next, cancel', hw, t + 1);
        ChainedConcat([e], Pass(next, cancel', hw, t + 1).1, s.ch, next.ch, Pass(next, cancel', hw, t + 1).0.ch);
      }
    }
  }

  /** Over every run: the channel moves only by executed commands, each from where the one before left it, in
      the direction and to the place its command says. */
  lemma {:induction false} RunMoves(s: State, acts: seq<Act>)
    ensures Chained(Run(s, acts).1, s.ch, Run(s, acts).0.ch)
  {
    if acts != [] {
      var front, a := acts[..|acts| - 1], acts[|acts| - 1];
      assert acts == front + [a];
      RunSnoc(s, front, a);
      var (m, log) := Run(s, front);
      RunMoves(s, front);
      if a.Work? && !m.exited {
        PassMoves(m, false, a.hw, 0);
      }
      ChainedConcat(log, Do(m, a).1, s.ch, m.ch, Do(m, a).0.ch);
    }
  }

  // ---- From call to effect

  /** The command a call stands for. */
  function CommandOf(a: Act): Cmd
    requires !a.Work? && !a.SetConfiguration?
  {
    match a
    case StepApi(up) => Step(up)
    case SeekApi(up) => Seek(up)
    case TuneApi(ch) => Cmd.Tune(ch)
    case CancelApi => Cancel
    case RdsReport => ShowRds
    case Close => Exit
  }

  /** A call and then a pass. */
  lemma CallThenPass(s: State, a: Act, hw: nat -> Hardware)
    requires !a.Work?
    ensures Run(s, [a, Work(hw)]) == Do(Api(s, a), Work(hw))
  {
    RunSnoc(s, [], a);
    RunSnoc(s, [a], Work(hw));
    assert [] + [a] == [a] && [a] + [Work(hw)] == [a, Work(hw)];
    var log := Do(Api(s, a), Work(hw)).1;
    assert [] + [] + log == log;
  }

  /** On an idle tuner, a call is the first thing the next pass executes, from the channel and under the
      configuration of the call, and a move queues a CHECK_RDS exactly if its tune succeeds; a TUNE out of
      band does nothing. */
  lemma CallTakesEffect(s: State, a: Act, hw: nat -> Hardware)
    requires s.queue == [] && !s.exited && !a.Work? && !a.SetConfiguration?
    ensures var (end, log) := Run(s, [a, Work(hw)]);
            if a.TuneApi? && !(s.config.lower <= a.ch <= s.config.upper) then log == [] && end == s
            else log != [] && log[0].item.cmd == CommandOf(a) && log[0].executed && log[0].under == s.config
                 && log[0].was == s.ch && log[0].hw == hw(0)
                 && (a.StepApi? || a.SeekApi? || a.TuneApi? ==>
                       end.queue == if hw(0).tuneOk then [Item(CheckRds, s.config)] else [])
  {
    CallThenPass(s, a, hw);
  }

  lemma {:induction false} PassExits(s: State, cancel: bool, hw: nat -> Hardware, t: nat)
    requires !NoExit(s.queue)
    ensures Pass(s, cancel, hw, t).0.exited
    decreases Weight(s.queue)
  {
    var (next, cancel', e) := Handle(s, cancel, hw(t));
    HandleQueue(s, cancel, hw(t));
    if !s.queue[0].cmd.Exit? {
      var k :| 0 <= k < |s.queue| && s.queue[k].cmd.Exit?;
      assert next.queue[k - 1] == s.queue[k];
      PassExits(next, cancel', hw, t + 1);
    }
  }

  /** Closing ends the thread in its next pass, whatever is in the queue. */
  lemma CloseTakesEffect(s: State, hw: nat -> Hardware)
    requires !s.exited
    ensures Run(s, [Close, Work(hw)]).0.exited
  {
    CallThenPass(s, Close, hw);
    var m := Api(s, Close);
    assert m.queue[|s.queue|].cmd.Exit?;
    PassExits(m, false, hw, 0);
  }

  /** The tuned flag is what the last executed move left, or as it was. */
  function TunedAfter(log: seq<Entry>, tuned: bool): bool {
    if log == [] then tuned
    else
      var e := log[|log| - 1];
      if e.executed && (e.item.cmd.Step? || e.item.cmd.Seek? || e.item.cmd.Tune?) then e.hw.tuneOk
      else TunedAfter(log[..|log| - 1], tuned)
  }

  lemma {:induction false} TunedConcat(p: seq<Entry>, q: seq<Entry>, tuned: bool)
    ensures TunedAfter(p + q, tuned) == TunedAfter(q, TunedAfter(p, tuned))
  {
    if q == [] {
      assert p + q == p;
    } else {
      TunedConcat(p, q[..|q| - 1], tuned);
      assert (p + q)[..|p + q| - 1] == p + q[..|q| - 1];
    }
  }

  lemma {:induction false} PassTunes(s: State, cancel: bool, hw: nat -> Hardware, t: nat)
    ensures Pass(s, cancel, hw, t).0.tuned == TunedAfter(Pass(s, cancel, hw, t).1, s.tuned)
    decreases Weight(s.queue)
  {
    if s.queue != [] {
      var (next, cancel', e) := Handle(s, cancel, hw(t));
      HandleQueue(s, cancel, hw(t));
      assert [e][..0] == [] && next.tuned == TunedAfter([e], s.tuned);
      if |s.queue| > 1 && !next.exited {
        PassTunes(next, cancel', hw, t + 1);
        TunedConcat([e], Pass(next, cancel', hw, t + 1).1, s.tuned);
      }
    }
  }

  /** So a tuner that was just opened is not tuned before a move was tuned. */
  lemma {:induction false} RunTunes(c: Config, acts: seq<Act>)
    ensures var (end, log) := Run(Opened(c), acts); end.tuned == TunedAfter(log, false)
  {
    if acts != [] {
      var front, a := acts[..|acts| - 1], acts[|acts| - 1];
      assert acts == front + [a];
      RunSnoc(Opened(c), front, a);
      var (m, log) := Run(Opened(c), front);
      RunTunes(c, front);
      if a.Work? && !m.exited {
        PassTunes(m, false, a.hw, 0);
      }
      TunedConcat(log, Do(m, a).1, false);
    }
  }

  /** A configuration call takes effect in the next pass, whatever it meets in the queue. */
  lemma ConfigurationTakesEffect(s: State, c: Config, hw: nat -> Hardware)
    requires NoExit(s.queue) && !s.exited && c.lower <= c.upper
    ensures Run(s, [Act.SetConfiguration(c), Work(hw)]).0.config == c
  {
    CallThenPass(s, Act.SetConfiguration(c), hw);
    var m := Api(s, Act.SetConfiguration(c));
    LastConfigSnoc(s.queue + [Item(Cancel, s.config)], Item(SetConfig(c), s.config), s.config);
    assert NoExit(m.queue);
    PassConfig(m, false, hw, 0);
  }
}
