/** The tuner core of fmr_core.cpp: the settings, the current frequency and the commands it sends to
    the device while seeking and scanning. */
module FmCore {
  import opened Bands
  import opened Common
  import opened Reading
  import opened ScanReport
  import opened ScanSort
  import opened ScanSpec
  import opened SeekSpec
  import opened TunableSeeks
  import Scan

  const ERR_INVALID_PARA := 1002

  /** What the tuner remembers between calls (struct fmr_ds), and the device commands so far. */
  class Core {
    var cfg: Cfg
    var fakes: seq<FakeChannel>
    var order: Order
    var curFreq: int
    var log: seq<Effect>

    constructor (seekSpace: int, fakes: seq<FakeChannel>, order: Order)
      ensures cfg == Initial(seekSpace) && this.fakes == fakes && this.order == order
      ensures curFreq == 0 && log == []
    {
      cfg := Initial(seekSpace);
      this.fakes, this.order := fakes, order;
      curFreq, log := 0, [];
    }

    /** FMR_set_region, FMR_set_customized_band_boundary and FMR_set_customized_space. */
    method Set(call: Call)
      modifies this`cfg
      ensures cfg == Apply(old(cfg), call)
    {
      match call {
        case SetBand(lo, hi) => cfg := cfg.(lowCust := lo, highCust := hi);
        case SetSpace(sp) => cfg := cfg.(spaceCust := sp);
        case SetRegion(r) =>
          cfg := cfg.(band := r);
          if r == FM_BAND_JAPAN {
            cfg := cfg.(low := 7600, high := 9600);
          } else if r == FM_BAND_JAPANW {
            cfg := cfg.(low := 7600, high := 10800);
          } else if r == FM_BAND_UE {
            cfg := cfg.(low := 8750, high := 10800);
          }
      }
    }

    /** FMR_tune; `driver` is the driver's answer. The frequency is remembered even if that fails. */
    method TuneTo(freq: int, driver: int) returns (ret: int)
      modifies this`curFreq, this`log
      ensures !Tunable(cfg, freq) ==> ret == -ERR_INVALID_PARA && curFreq == old(curFreq) && log == old(log)
      ensures Tunable(cfg, freq) ==> ret == driver && curFreq == freq % TWO16 && log == old(log) + [Tune(freq)]
    {
      var (low, high) := cfg.Boundary();
      if freq < low || freq > high {
        return -ERR_INVALID_PARA;
      }
      log := log + [Tune(freq)];
      curFreq := freq % TWO16;
      ret := driver;
    }

    /** What a stopped search sends: back to the current frequency, if that is in the band. */
    function Retune(): seq<Effect>
      reads this`cfg, this`curFreq
    {
      if Tunable(cfg, curFreq) then [Tune(curFreq)] else []
    }

    predicate Ready(c: SeekCall)
      reads this`fakes, this`curFreq
    {
      c.Valid() && !c.hal && c.fakes == fakes && 0 <= curFreq < TWO16
    }

    /** FMR_Seek_TuneCheck before probe t: false when the stop flag is up. */
    method TuneCheck(c: SeekCall, t: nat, freq: int) returns (go: bool, valid: bool, rssi: int)
      requires Ready(c)
      modifies this`curFreq, this`log
      ensures go == !c.stop(t) && curFreq == old(curFreq)
      ensures log == old(log) + if go then [Probe(freq)] else Retune()
      ensures go ==> valid == c.Accepts(t, freq) && (valid ==> rssi == c.read(t, freq).rssi)
    {
      go, valid, rssi := true, false, 0;
      if c.stop(t) {
        var _ := TuneTo(curFreq, 0);
        go := false;
        return;
      }
      log := log + [Probe(freq)];
      var answer := c.read(t, freq);
      if !answer.ok {
        return;
      }
      valid, rssi := answer.valid, answer.rssi;
      if valid {
        if answer.desense {
          valid := false;
          return;
        }
        var severe := SevereDesense(fakes, freq, rssi);
        if severe {
          valid := false;
          return;
        }
      }
    }

    /** One step of FMR_Seek_More before probe t: the better of the best so far and channel cur. */
    method LookAhead(c: SeekCall, t: nat, cur: int, freq0: int, rssi0: int)
      returns (go: bool, freq: int, rssi: int)
      requires Ready(c)
      modifies this`curFreq, this`log
      ensures go == !c.stop(t) && curFreq == old(curFreq)
      ensures log == old(log) + if go then [Probe(cur)] else Retune()
      ensures go && c.Accepts(t, cur) && c.read(t, cur).rssi > rssi0 ==> freq == cur && rssi == c.read(t, cur).rssi
      ensures go && !(c.Accepts(t, cur) && c.read(t, cur).rssi > rssi0) ==> freq == freq0 && rssi == rssi0
    {
      freq, rssi := freq0, rssi0;
      var valid, strength;
      go, valid, strength := TuneCheck(c, t, cur);
      if go && valid && strength > rssi {
        freq, rssi := cur, strength;
      }
    }

    /** FMR_Seek_More: up to two channels further on, keeping the strongest. */
    method SeekMore(c: SeekCall, k: nat, freq0: int, rssi0: int)
      returns (ret: int, freq: int, rssi: int, ghost e: Ending)
      requires Ready(c) && Struck(c, k)
      requires freq0 == c.Ahead(k, 0) && rssi0 == c.Strength(k, 0)
      modifies this`curFreq, this`log
      ensures curFreq == old(curFreq) && Ends(c, e)
      ensures ret == 0 ==> e.Found? && e.k == k && freq == c.Ahead(k, e.w) && rssi == c.Strength(k, e.w)
                           && log == old(log) + c.AheadTrail(k, c.Reach(k))
      ensures ret != 0 ==> ret == -1 && e.StoppedAhead? && e.k == k && log == old(log) + c.AheadTrail(k, e.a) + Retune()
    {
      var cur := freq0;
      freq, rssi := freq0, rssi0;
      ghost var w: nat := 0;
      var i: nat := 0;
      assert log == old(log) + c.AheadTrail(k, 0);
      while i < 2
        invariant c.Looked(k, i, w) && cur == c.Ahead(k, i)
        invariant curFreq == old(curFreq) && log == old(log) + c.AheadTrail(k, i)
        invariant freq == c.Ahead(k, w) && rssi == c.Strength(k, w)
      {
        c.LookStep(k, i, w);
        c.AheadTrailStep(k, i, old(log));
        LookEnds(c, k, i, w);
        if (if c.up then cur + c.space > c.max else cur - c.space < c.min) {
          return 0, freq, rssi, Found(k, w);
        }
        cur := if c.up then cur + c.space else cur - c.space;
        var go;
        go, freq, rssi := LookAhead(c, k + 1 + i, cur, freq, rssi);
        if !go {
          return -1, freq, rssi, StoppedAhead(k, i);
        }
        w := c.Winner(k, i, w);
        i := i + 1;
      }
      LookEnds(c, k, i, w);
      ret, e := 0, Found(k, w);
    }

    /** The body shared by the four loops of FMR_seek_Channel, for visit k at index i. */
    method TryChannel(c: SeekCall, k: nat, i: int, freq0: int, rssi0: int, ghost log0: seq<Effect>)
      returns (done: bool, ret: int, freq: int, rssi: int, ghost e: Ending)
      requires Ready(c) && k < c.Visits() && c.InVain(k) && c.Visit(k) == i
      requires log == log0 + c.Trail(k)
      modifies this`curFreq, this`log
      ensures curFreq == old(curFreq)
      ensures !done ==> c.InVain(k + 1) && log == log0 + c.Trail(k + 1)
      ensures done ==> Outcome(c, e, ret, freq, rssi, freq0, rssi0, log0)
    {
      done, ret, freq, rssi, e := true, -1, freq0, rssi0, StoppedAt(k);
      var cur := (c.min + c.space * i) % TWO16;
      c.TrailStep(k, log0);
      var go, valid, strength := TuneCheck(c, k, cur);
      if !go {
        return;
      }
      if !valid || c.SameStation(cur) {
        done := false;
        return;
      }
      var f, r;
      ret, f, r, e := SeekMore(c, k, cur, strength);
      if ret == 0 {
        freq, rssi := f, r;
      }
    }

    /** Everything a finished seek promises for ending e: result code, outputs and device commands. */
    ghost predicate Outcome(c: SeekCall, e: Ending, ret: int, freq: int, rssi: int,
                            freq0: int, rssi0: int, log0: seq<Effect>)
      requires c.Valid()
      reads this
    {
      && Ends(c, e)
      && match e
         case NothingFound => ret == 0 && freq == c.start && rssi == rssi0 && log == log0 + ProbesOf(c, e)
         case Found(k, w) =>
           ret == 0 && freq == c.Ahead(k, w) && rssi == c.Strength(k, w) && log == log0 + ProbesOf(c, e)
         case _ => ret == -1 && freq == freq0 && rssi == rssi0 && log == log0 + ProbesOf(c, e) + Retune()
    }

    /** An ascending index loop from..to-1 makes the visits k0 to k1-1. */
    method SweepUp(c: SeekCall, from: int, to: int, k0: nat, ghost k1: nat, freq0: int, rssi0: int,
                   ghost log0: seq<Effect>)
      returns (done: bool, ret: int, freq: int, rssi: int, ghost e: Ending)
      requires Ready(c) && k0 <= k1 <= c.Visits() && c.InVain(k0) && k1 - k0 == if from < to then to - from else 0
      requires forall k: nat :: k0 <= k < k1 ==> c.Visit(k) == from + (k - k0)
      requires log == log0 + c.Trail(k0)
      modifies this`curFreq, this`log
      ensures curFreq == old(curFreq)
      ensures !done ==> c.InVain(k1) && log == log0 + c.Trail(k1)
      ensures done ==> Outcome(c, e, ret, freq, rssi, freq0, rssi0, log0)
    {
      done, ret, freq, rssi, e := false, 0, freq0, rssi0, NothingFound;
      var i := from;
      while i < to
        invariant from <= i && k0 + (i - from) <= k1 && !done && (i < to <==> k0 + (i - from) < k1)
        invariant c.InVain(k0 + (i - from)) && curFreq == old(curFreq) && log == log0 + c.Trail(k0 + (i - from))
      {
        assert c.Visit(k0 + (i - from)) == i;
        done, ret, freq, rssi, e := TryChannel(c, k0 + (i - from), i, freq0, rssi0, log0);
        if done {
          return;
        }
        i := i + 1;
      }
    }

    /** A descending index loop from..to+1 makes the visits k0 to k1-1. */
    method SweepDown(c: SeekCall, from: int, to: int, k0: nat, ghost k1: nat, freq0: int, rssi0: int,
                     ghost log0: seq<Effect>)
      returns (done: bool, ret: int, freq: int, rssi: int, ghost e: Ending)
      requires Ready(c) && k0 <= k1 <= c.Visits() && c.InVain(k0) && k1 - k0 == if from > to then from - to else 0
      requires forall k: nat :: k0 <= k < k1 ==> c.Visit(k) == from - (k - k0)
      requires log == log0 + c.Trail(k0)
      modifies this`curFreq, this`log
      ensures curFreq == old(curFreq)
      ensures !done ==> c.InVain(k1) && log == log0 + c.Trail(k1)
      ensures done ==> Outcome(c, e, ret, freq, rssi, freq0, rssi0, log0)
    {
      done, ret, freq, rssi, e := false, 0, freq0, rssi0, NothingFound;
      var i := from;
      while i > to
        invariant i <= from && k0 + (from - i) <= k1 && !done && (i > to <==> k0 + (from - i) < k1)
        invariant c.InVain(k0 + (from - i)) && curFreq == old(curFreq) && log == log0 + c.Trail(k0 + (from - i))
      {
        assert c.Visit(k0 + (from - i)) == i;
        done, ret, freq, rssi, e := TryChannel(c, k0 + (from - i), i, freq0, rssi0, log0);
        if done {
          return;
        }
        i := i - 1;
      }
    }

    /** FMR_seek_Channel: two loops per direction, one beyond the start and one from the other end.
        freq0 and rssi0 are the outputs' values before the call. */
    method SeekChannel(c: SeekCall, channels: int, freq0: int, rssi0: int)
      returns (ret: int, freq: int, rssi: int, ghost e: Ending)
      requires Ready(c) && channels == c.N()
      modifies this`curFreq, this`log
      ensures curFreq == old(curFreq)
      ensures Outcome(c, e, ret, freq, rssi, freq0, rssi0, old(log))
    {
      var done: bool;
      var s := TruncDiv(c.start - c.min, c.space);
      ghost var log0, all := log, c.Visits();
      assert log == log0 + c.Trail(0);
      if c.up {
        done, ret, freq, rssi, e := SweepUp(c, s + 1, channels, 0, c.Above(), freq0, rssi0, log0);
        if done {
          return;
        }
        done, ret, freq, rssi, e := SweepUp(c, 0, s, c.Above(), all, freq0, rssi0, log0);
      } else {
        done, ret, freq, rssi, e := SweepDown(c, s - 1, -1, 0, c.Below(), freq0, rssi0, log0);
        if done {
          return;
        }
        done, ret, freq, rssi, e := SweepDown(c, channels - 1, s, c.Below(), all, freq0, rssi0, log0);
      }
      if done {
        return;
      }
      ret, freq, rssi, e := 0, c.start, rssi0, NothingFound;
    }

    /** FMR_seek, from any start that the reported limits let through: rejects other starts, or reaches the one
        ending its readings allow; a stop leaves output and state alone. With a custom spacing that is 0 in 8
        bits the source divides by zero. */
    method Seek(start: int, up: bool, air: Air, freq0: int) returns (ret: int, freq: int, ghost e: Ending)
      requires 0 <= curFreq < TWO16 && (Tunable(cfg, start) ==> cfg.SeekSpacing() > 0)
      modifies this`curFreq, this`log
      ensures curFreq == old(curFreq)
      ensures !Tunable(cfg, start) ==> ret == -ERR_INVALID_PARA && freq == freq0 && log == old(log)
      ensures Tunable(cfg, start) ==>
                var c := CallOf(cfg, fakes, up, start, air);
                && Ready(c) && e == EndingOf(c)
                && Outcome(c, e, ret, freq, StrengthOf(c, e), freq0, 0, old(log))
                && |log| <= |old(log)| + c.Visits() + 3
      ensures cfg.SeekSpacing() > 0 ==>
                (if ret == 0 then Got(freq) else Failed) == SeekReply(cfg, fakes, up, start, air)
    {
      var (low, high) := cfg.Boundary();
      if start < low || start > high {
        return -ERR_INVALID_PARA, freq0, NothingFound;
      }
      var c := CallOf(cfg, fakes, up, start, air);
      var rssi;
      ret, freq, rssi, e := SeekChannel(c, TruncDiv(c.max - c.min, c.space) + 1, freq0, 0);
      EndingUnique(c, e, EndingOf(c));
      ProbeBound(c, e);
    }

    /** The strength FMR_seek_Channel hands back, if it found a station. */
    function StrengthOf(c: SeekCall, e: Ending): int
      requires c.Valid()
    {
      if e.Found? then c.Strength(e.k, e.w) else 0
    }

    function Probes(trace: seq<int>): seq<Effect> {
      seq(|trace|, i requires 0 <= i < |trace| => Probe(trace[i]))
    }

    /** FMR_scan into the service's result table; stop[i] is the stop flag read before probe i. On a 50 kHz
        grid the source relies on the air to leave room in its tables. */
    method ScanBand(air: seq<Reading>, stop: seq<bool>, out: array<int>, cnt0: int)
      returns (ret: int, cnt: int, trace: seq<int>)
      requires |stop| == |air| == ChannelsOf(BandOf(cfg.band), cfg.seekSpace) && 0 <= curFreq < TWO16
      requires SweepOf(cfg, fakes, air).nf > 0 && Scan.Fits(SweepOf(cfg, fakes, air), out.Length)
      modifies this`curFreq, this`log, out
      ensures curFreq == old(curFreq)
      ensures var pr := SweepOf(cfg, fakes, air);
              && |trace| <= |air| && trace == pr.Grid(|trace|) && (forall i :: 0 <= i < |trace| ==> !stop[i])
              && (|trace| < |air| ==> stop[|trace|] && ret == -1 && cnt == cnt0 && out[..] == old(out[..]))
              && (|trace| == |air| && pr.Picks(|air|) == [] ==> ret == -1 && cnt == 0 && out[..] == old(out[..]))
              && (|trace| == |air| && pr.Picks(|air|) != [] ==>
                    ret == 0 && 0 <= cnt <= out.Length && Scan.ScanResult(pr, order, out[..cnt]))
              && log == old(log) + Probes(trace)
                        + (if |trace| < |air| then [RestoreSearch] + Retune()
                           else if pr.Picks(|air|) == [] then [RestoreSearch] else [])
    {
      var pr := SweepOf(cfg, fakes, air);
      ret, cnt, trace := Scan.ScanChannels(pr, order, stop, out, cnt0);
      log := log + Probes(trace);
      if |trace| < |air| {
        log := log + [RestoreSearch];
        var _ := TuneTo(curFreq, 0);
      } else if ret != 0 {
        log := log + [RestoreSearch];
      }
    }
  }
}
