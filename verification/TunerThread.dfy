/** The command queue of the radio HAL (new_hal/radio_hw_hal.c): API calls append under the lock, the
    callback thread works through the queue in passes during which it holds the lock. */
module TunerThread {
  import opened Common
  import opened HalSeek

  datatype Cmd = Exit | SetConfig(config: Config) | Step(up: bool) | Seek(up: bool) | Tune(ch: int)
               | Cancel | CheckRds | ShowRds {

    /** The commands that a CANCEL earlier in the pass drops. */
    predicate Droppable() { Step? || Seek? || Tune? || CheckRds? || ShowRds? }

    predicate Moves() { Step? || Seek? || Tune? }
  }

  /** A queued command with the configuration in force when it was queued, which for a TUNE is the one
      its channel was checked against. The second part is bookkeeping. */
  datatype Item = Item(cmd: Cmd, under: Config)

  datatype State = State(config: Config, ch: int, tuned: bool, queue: seq<Item>, exited: bool)

  /** What became of a command that left the queue, the configuration and channel it met, the channel and
      tuned flag it left behind, and what the hardware did for it. */
  datatype Entry = Entry(item: Item, executed: bool, under: Config, was: int, ch: int, tuned: bool, hw: Hardware)

  /** The configuration of a tuner that was just opened. */
  const ZERO := Config(0, 0, 0, 0)

  function Enqueue(s: State, cmd: Cmd): State { s.(queue := s.queue + [Item(cmd, s.config)]) }

  // ---- One command

  /** The channel a moving command leaves in the program information. */
  function Target(s: State, cmd: Cmd, hw: Hardware): int
    requires cmd.Moves()
  {
    match cmd
    case Step(up) => if hw.tuneOk then StepTo(s.config, s.ch, up) else s.ch
    case Seek(up) => if s.config.Sane() then SeekTo(s.config, s.ch, up, hw) else hw.elsewhere % TWO32
    case Tune(ch) => ch
  }

  /** Executing a command other than EXIT, already taken off the queue. */
  function Exec(s: State, cmd: Cmd, hw: Hardware): State {
    if cmd.SetConfig? then s.(config := cmd.config)
    else if cmd.Moves() then
      var m := s.(ch := Target(s, cmd, hw), tuned := hw.tuneOk);
      if m.tuned then Enqueue(m, CheckRds) else m
    else s
  }

  // ---- One pass

  function Weight(q: seq<Item>): nat {
    if q == [] then 0 else (if q[0].cmd.Moves() then 2 else 1) + Weight(q[1..])
  }

  lemma {:induction false} WeightConcat(p: seq<Item>, q: seq<Item>)
    ensures Weight(p + q) == Weight(p) + Weight(q)
  {
    if p == [] {
      assert p + q == q;
    } else {
      WeightConcat(p[1..], q);
      assert (p + q)[1..] == p[1..] + q;
    }
  }

  /** The head of the queue handled: what is left, whether a cancel is now in force, the log entry. */
  function Handle(s: State, cancel: bool, hw: Hardware): (r: (State, bool, Entry))
    requires s.queue != []
  {
    var item, rest := s.queue[0], s.(queue := s.queue[1..]);
    if cancel && item.cmd.Droppable() then (rest, cancel, Entry(item, false, s.config, s.ch, s.ch, s.tuned, hw))
    else if item.cmd.Exit? then
      (rest.(exited := true), cancel, Entry(item, true, s.config, s.ch, s.ch, s.tuned, hw))
    else
      var next := Exec(rest, item.cmd, hw);
      (next, cancel || item.cmd.Cancel?, Entry(item, true, s.config, s.ch, next.ch, next.tuned, hw))
  }

  /** CHECK_RDS appended by handling the head. */
  function Appended(s: State, cancel: bool, hw: Hardware): seq<Item>
    requires s.queue != []
  {
    var cmd := s.queue[0].cmd;
    if cmd.Moves() && !cancel && hw.tuneOk then [Item(CheckRds, s.config)] else []
  }

  lemma HandleQueue(s: State, cancel: bool, hw: Hardware)
    requires s.queue != []
    ensures Handle(s, cancel, hw).0.queue == s.queue[1..] + Appended(s, cancel, hw)
    ensures Weight(Handle(s, cancel, hw).0.queue) < Weight(s.queue)
  {
    WeightConcat(s.queue[1..], Appended(s, cancel, hw));
  }

  /** The rest of a pass: list_for_each_safe has fixed its successor before handling an element, so the
      pass ends after the element that was last when its turn came. hw(t) is what the hardware does for
      the t-th command. */
  function Pass(s: State, cancel: bool, hw: nat -> Hardware, t: nat): (r: (State, seq<Entry>))
    decreases Weight(s.queue)
  {
    if s.queue == [] then (s, [])
    else
      var (next, cancel', e) := Handle(s, cancel, hw(t));
      HandleQueue(s, cancel, hw(t));
      if |s.queue| == 1 || next.exited then (next, [e])
      else
        var (end, log) := Pass(next, cancel', hw, t + 1);
        (end, [e] + log)
  }

  /** Continuing from s after the entries in `log` gives `goal`. */
  ghost predicate Leads(s: State, cancel: bool, hw: nat -> Hardware, log: seq<Entry>, goal: (State, seq<Entry>)) {
    goal.0 == Pass(s, cancel, hw, |log|).0 && goal.1 == log + Pass(s, cancel, hw, |log|).1
  }

  lemma LeadsStep(s: State, cancel: bool, hw: nat -> Hardware, log: seq<Entry>, goal: (State, seq<Entry>))
    requires s.queue != [] && Leads(s, cancel, hw, log, goal)
    ensures var (next, cancel', e) := Handle(s, cancel, hw(|log|));
            && Weight(next.queue) < Weight(s.queue)
            && if |s.queue| == 1 || next.exited then goal == (next, log + [e])
               else next.queue != [] && Leads(next, cancel', hw, log + [e], goal)
  {
    var (next, cancel', e) := Handle(s, cancel, hw(|log|));
    HandleQueue(s, cancel, hw(|log|));
    if !(|s.queue| == 1 || next.exited) {
      var rest := Pass(next, cancel', hw, |log| + 1).1;
      assert log + ([e] + rest) == (log + [e]) + rest;
    }
  }

  function Items(log: seq<Entry>): seq<Item> { seq(|log|, i requires 0 <= i < |log| => log[i].item) }

  /** The CHECK_RDS commands appended on the way: one per executed moving command that was tuned. */
  function Echoes(log: seq<Entry>, hw: nat -> Hardware, t: nat): seq<Item> {
    if log == [] then []
    else
      (if log[0].executed && log[0].item.cmd.Moves() && hw(t).tuneOk then [Item(CheckRds, log[0].under)] else [])
      + Echoes(log[1..], hw, t + 1)
  }

  lemma EchoesStep(e: Entry, log: seq<Entry>, hw: nat -> Hardware, t: nat)
    ensures Items([e] + log) == [e.item] + Items(log)
    ensures Echoes([e] + log, hw, t) == Echoes([e], hw, t) + Echoes(log, hw, t + 1)
  {
    assert ([e] + log)[1..] == log && [e][1..] == [];
  }

  lemma HandleEcho(s: State, cancel: bool, hw: nat -> Hardware, t: nat)
    requires s.queue != []
    ensures Echoes([Handle(s, cancel, hw(t)).2], hw, t) == Appended(s, cancel, hw(t))
    ensures Handle(s, cancel, hw(t)).2.item == s.queue[0]
  {
  }

  lemma Regroup<T>(x: T, items: seq<T>, left: seq<T>, rest: seq<T>, a: seq<T>, b: seq<T>)
    requires items + left == (rest + a) + b
    ensures ([x] + items) + left == ([x] + rest) + (a + b)
  {
    assert ([x] + items) + left == [x] + (items + left);
    assert [x] + ((rest + a) + b) == ([x] + rest) + (a + b);
  }

  /** FIFO and conservation: what left the queue, followed by what is left in it, is the queue at the
      start followed by the appended CHECK_RDS commands. */
  lemma {:induction false} PassConserves(s: State, cancel: bool, hw: nat -> Hardware, t: nat)
    ensures var (end, log) := Pass(s, cancel, hw, t);
            Items(log) + end.queue == s.queue + Echoes(log, hw, t)
    decreases Weight(s.queue)
  {
    if s.queue != [] {
      var (next, cancel', e) := Handle(s, cancel, hw(t));
      var a := Appended(s, cancel, hw(t));
      HandleQueue(s, cancel, hw(t));
      HandleEcho(s, cancel, hw, t);
      assert s.queue == [e.item] + s.queue[1..];
      if |s.queue| == 1 || next.exited {
        assert Items([e]) == [e.item];
      } else {
        var (end, log) := Pass(next, cancel', hw, t + 1);
        PassConserves(next, cancel', hw, t + 1);
        EchoesStep(e, log, hw, t);
        Regroup(e.item, Items(log), end.queue, s.queue[1..], a, Echoes(log, hw, t + 1));
      }
    }
  }

  /** A CANCEL is among the first i entries. */
  ghost predicate CancelBefore(log: seq<Entry>, i: nat)
    requires i <= |log|
  {
    exists j :: 0 <= j < i && log[j].item.cmd == Cancel
  }

  lemma CancelBeforeStep(e: Entry, log: seq<Entry>, i: nat)
    requires i <= |log|
    ensures CancelBefore([e] + log, i + 1) <==> e.item.cmd == Cancel || CancelBefore(log, i)
  {
    var all := [e] + log;
    assert forall j :: 0 <= j < |log| ==> all[j + 1] == log[j];
    assert forall j :: 0 < j < |all| ==> all[j] == log[j - 1];
    assert all[0] == e;
  }

  /** A command is dropped exactly when it is droppable and a CANCEL came before it in the pass. */
  lemma {:induction false} PassDrops(s: State, cancel: bool, hw: nat -> Hardware, t: nat, i: nat)
    requires i < |Pass(s, cancel, hw, t).1|
    ensures var log := Pass(s, cancel, hw, t).1;
            var cmd := log[i].item.cmd;
            log[i].executed <==> cmd.SetConfig? || cmd.Cancel? || cmd.Exit? || !(cancel || CancelBefore(log, i))
    decreases Weight(s.queue)
  {
    var (next, cancel', e) := Handle(s, cancel, hw(t));
    HandleQueue(s, cancel, hw(t));
    if i > 0 {
      var rest := Pass(next, cancel', hw, t + 1).1;
      PassDrops(next, cancel', hw, t + 1, i - 1);
      CancelBeforeStep(e, rest, i - 1);
    }
  }

  /** A pass that does not meet EXIT leaves at most one command, a CHECK_RDS. */
  lemma {:induction false} PassLeaves(s: State, cancel: bool, hw: nat -> Hardware, t: nat)
    ensures var end := Pass(s, cancel, hw, t).0;
            !end.exited ==> end.queue == [] || (|end.queue| == 1 && end.queue[0].cmd == CheckRds)
    decreases Weight(s.queue)
  {
    if s.queue != [] {
      HandleQueue(s, cancel, hw(t));
      var (next, cancel', _) := Handle(s, cancel, hw(t));
      if |s.queue| > 1 && !next.exited {
        PassLeaves(next, cancel', hw, t + 1);
      }
    }
  }

  // ---- Draining and configuration reads

  predicate NoExit(q: seq<Item>) { forall k :: 0 <= k < |q| ==> !q[k].cmd.Exit? }

  /** The configuration of the last CONFIG in q, or c. */
  function LastConfig(q: seq<Item>, c: Config): Config {
    if q == [] then c else LastConfig(q[1..], if q[0].cmd.SetConfig? then q[0].cmd.config else c)
  }

  lemma {:induction false} LastConfigSnoc(q: seq<Item>, x: Item, c: Config)
    ensures LastConfig(q + [x], c) == if x.cmd.SetConfig? then x.cmd.config else LastConfig(q, c)
  {
    if q == [] {
      assert [] + [x] == [x];
    } else {
      assert (q + [x])[1..] == q[1..] + [x];
      LastConfigSnoc(q[1..], x, if q[0].cmd.SetConfig? then q[0].cmd.config else c);
    }
  }

  /** No CANCEL loses a CONFIG: without EXIT, a pass leaves the configuration last queued. */
  lemma {:induction false} PassConfig(s: State, cancel: bool, hw: nat -> Hardware, t: nat)
    requires NoExit(s.queue) && !s.exited
    ensures var end := Pass(s, cancel, hw, t).0;
            !end.exited && end.config == LastConfig(s.queue, s.config)
    decreases Weight(s.queue)
  {
    if s.queue != [] {
      var (next, cancel', _) := Handle(s, cancel, hw(t));
      HandleQueue(s, cancel, hw(t));
      if Appended(s, cancel, hw(t)) != [] {
        LastConfigSnoc(s.queue[1..], Item(CheckRds, s.config), s.config);
      }
      assert LastConfig(next.queue, next.config) == LastConfig(s.queue, s.config);
      if |s.queue| > 1 {
        PassConfig(next, cancel', hw, t + 1);
      }
    }
  }

  lemma {:induction false} PassShrinks(s: State, cancel: bool, hw: nat -> Hardware, t: nat)
    requires s.queue != []
    ensures Weight(Pass(s, cancel, hw, t).0.queue) < Weight(s.queue)
    decreases Weight(s.queue)
  {
    var (next, cancel', _) := Handle(s, cancel, hw(t));
    HandleQueue(s, cancel, hw(t));
    if |s.queue| > 1 && !next.exited {
      PassShrinks(next, cancel', hw, t + 1);
    }
  }

  /** Passes until the queue is empty or EXIT is met; hw(p) is the hardware during pass p. */
  function Drain(s: State, hw: nat -> nat -> Hardware, p: nat): State
    decreases Weight(s.queue)
  {
    if s.queue == [] || s.exited then s
    else PassShrinks(s, false, hw(p), 0); Drain(Pass(s, false, hw(p), 0).0, hw, p + 1)
  }

  /** Without EXIT, two passes always empty the queue, although executing commands appends to it. */
  lemma TwoPassesDrain(s: State, hw: nat -> nat -> Hardware)
    requires NoExit(s.queue) && !s.exited
    ensures var one := Pass(s, false, hw(0), 0).0;
            var two := Pass(one, false, hw(1), 0).0;
            two.queue == [] && Drain(s, hw, 0) == two && !two.exited
            && two.config == LastConfig(s.queue, s.config)
  {
    var one := Pass(s, false, hw(0), 0).0;
    PassConfig(s, false, hw(0), 0);
    PassLeaves(s, false, hw(0), 0);
    assert one.queue != [] ==> one.queue == [one.queue[0]];
    var two := Pass(one, false, hw(1), 0).0;
    assert two == one.(queue := []);
    assert Drain(two, hw, 2) == two;
    assert Drain(one, hw, 1) == two;
  }

  // ---- Runs

  /** Steps of the system: API calls, the RDS thread's report, closing, and passes of the thread. */
  datatype Act = SetConfiguration(c: Config) | StepApi(up: bool) | SeekApi(up: bool) | TuneApi(ch: int)
               | CancelApi | RdsReport | Close | Work(hw: nat -> Hardware)

  function Api(s: State, a: Act): (r: State)
    requires !a.Work?
    ensures |s.queue| <= |r.queue|
  {
    match a
    case SetConfiguration(c) => if c.lower > c.upper then s else Enqueue(Enqueue(s, Cancel), SetConfig(c))
    case StepApi(up) => Enqueue(s, Step(up))
    case SeekApi(up) => Enqueue(s, Seek(up))
    case TuneApi(ch) => if s.config.InBand(ch) then Enqueue(s, Tune(ch)) else s
    case CancelApi => Enqueue(s, Cancel)
    case RdsReport => Enqueue(s, ShowRds)
    case Close => Enqueue(s, Exit)
  }

  function Do(s: State, a: Act): (State, seq<Entry>) {
    if !a.Work? then (Api(s, a), []) else if s.exited then (s, []) else Pass(s, false, a.hw, 0)
  }

  function Run(s: State, acts: seq<Act>): (State, seq<Entry>) {
    if acts == [] then (s, [])
    else
      var (m, log) := Run(s, acts[..|acts| - 1]);
      var (end, more) := Do(m, acts[|acts| - 1]);
      (end, log + more)
  }

  /** What one step queues. */
  function NewItems(s: State, a: Act): seq<Item> {
    if !a.Work? then Api(s, a).queue[|s.queue|..] else if s.exited then [] else Echoes(Do(s, a).1, a.hw, 0)
  }

  /** Everything queued during a run, in order. */
  function Queued(s: State, acts: seq<Act>): seq<Item> {
    if acts == [] then []
    else Queued(s, acts[..|acts| - 1]) + NewItems(Run(s, acts[..|acts| - 1]).0, acts[|acts| - 1])
  }

  lemma ApiAppends(s: State, a: Act)
    requires !a.Work?
    ensures s.queue <= Api(s, a).queue && |s.queue| <= |Api(s, a).queue|
  {
  }

  lemma ItemsConcat(p: seq<Entry>, q: seq<Entry>)
    ensures Items(p + q) == Items(p) + Items(q)
  {
  }

  lemma DoConserves(s: State, a: Act)
    ensures Items(Do(s, a).1) + Do(s, a).0.queue == s.queue + NewItems(s, a)
  {
    if !a.Work? {
      ApiAppends(s, a);
    } else if !s.exited {
      PassConserves(s, false, a.hw, 0);
    }
  }

  lemma Chain<T>(log: seq<T>, more: seq<T>, mid: seq<T>, end: seq<T>, start: seq<T>, before: seq<T>, added: seq<T>)
    requires log + mid == start + before && more + end == mid + added
    ensures (log + more) + end == start + (before + added)
  {
    assert (log + more) + end == log + (more + end);
    assert log + (mid + added) == (log + mid) + added;
    assert (start + before) + added == start + (before + added);
  }

  /** Over whole runs: every command that was ever queued has left the queue exactly once or is still in
      it, in the order of queueing. */
  lemma {:induction false} RunConserves(s: State, acts: seq<Act>)
    ensures Items(Run(s, acts).1) + Run(s, acts).0.queue == s.queue + Queued(s, acts)
  {
    if acts != [] {
      var front, a := acts[..|acts| - 1], acts[|acts| - 1];
      var (m, log) := Run(s, front);
      var (end, more) := Do(m, a);
      RunConserves(s, front);
      DoConserves(m, a);
      ItemsConcat(log, more);
      Chain(Items(log), Items(more), m.queue, end.queue, s.queue, Queued(s, front), NewItems(m, a));
    }
  }

  /** Every CONFIG in q comes after a CANCEL, unless one is in force already. */
  predicate Guarded(q: seq<Item>, cancel: bool) {
    cancel || q == [] || (!q[0].cmd.SetConfig? && Guarded(q[1..], q[0].cmd.Cancel?))
  }

  predicate SameLimits(c: Config, d: Config) { c.lower == d.lower && c.upper == d.upper }

  /** Queued TUNEs were checked against the limits of c. */
  ghost predicate TunesUnder(q: seq<Item>, c: Config) {
    forall k :: 0 <= k < |q| && q[k].cmd.Tune? ==> SameLimits(q[k].under, c) && c.InBand(q[k].cmd.ch)
  }

  /** An executed TUNE ran under the band limits it was checked against. */
  predicate Honoured(e: Entry) {
    e.executed && e.item.cmd.Tune? ==> SameLimits(e.under, e.item.under) && e.under.InBand(e.item.cmd.ch)
  }

  ghost predicate AllHonoured(log: seq<Entry>) { forall k :: 0 <= k < |log| ==> Honoured(log[k]) }

  lemma {:induction false} GuardedSnoc(q: seq<Item>, x: Item, cancel: bool)
    requires Guarded(q, cancel) && !x.cmd.SetConfig?
    ensures Guarded(q + [x], cancel)
  {
    if q != [] && !cancel {
      assert (q + [x])[1..] == q[1..] + [x];
      GuardedSnoc(q[1..], x, q[0].cmd.Cancel?);
    }
  }

  lemma {:induction false} GuardedConfig(q: seq<Item>, x: Item, y: Item, cancel: bool)
    requires Guarded(q, cancel) && x.cmd.Cancel?
    ensures Guarded(q + [x] + [y], cancel)
  {
    if q != [] && !cancel {
      assert (q + [x] + [y])[1..] == q[1..] + [x] + [y];
      GuardedConfig(q[1..], x, y, q[0].cmd.Cancel?);
    } else if !cancel {
      assert (q + [x] + [y])[0] == x;
    }
  }

  ghost predicate Safe(s: State, cancel: bool) {
    Guarded(s.queue, cancel) && (!cancel ==> TunesUnder(s.queue, s.config))
  }

  lemma {:induction false} PassHonours(s: State, cancel: bool, hw: nat -> Hardware, t: nat)
    requires Safe(s, cancel)
    ensures AllHonoured(Pass(s, cancel, hw, t).1)
    decreases Weight(s.queue)
  {
    if s.queue != [] {
      var (next, cancel', e) := Handle(s, cancel, hw(t));
      HandleQueue(s, cancel, hw(t));
      if |s.queue| > 1 && !next.exited {
        if Appended(s, cancel, hw(t)) != [] {
          GuardedSnoc(s.queue[1..], Item(CheckRds, s.config), cancel');
        }
        PassHonours(next, cancel', hw, t + 1);
      }
    }
  }

  lemma LeftoverSafe(s: State, hw: nat -> Hardware)
    ensures var end := Pass(s, false, hw, 0).0; end.exited || Safe(end, false)
  {
    var end := Pass(s, false, hw, 0).0;
    PassLeaves(s, false, hw, 0);
    if !end.exited && end.queue != [] {
      assert end.queue[1..] == [] && Guarded(end.queue[1..], false);
      assert !end.queue[0].cmd.Cancel?;
    }
  }

  /** Every step keeps the queue safe and honours the TUNEs it executes. */
  lemma DoSafe(s: State, a: Act)
    requires s.exited || Safe(s, false)
    ensures Do(s, a).0.exited || Safe(Do(s, a).0, false)
    ensures AllHonoured(Do(s, a).1)
  {
    if a.Work? {
      if !s.exited {
        PassHonours(s, false, a.hw, 0);
        LeftoverSafe(s, a.hw);
      }
    } else if !s.exited {
      if a.SetConfiguration? {
        GuardedConfig(s.queue, Item(Cancel, s.config), Item(SetConfig(a.c), s.config), false);
      } else if Api(s, a) != s {
        GuardedSnoc(s.queue, Api(s, a).queue[|s.queue|], false);
      }
    }
  }

  lemma {:induction false} RunSafe(s: State, acts: seq<Act>)
    requires s.exited || Safe(s, false)
    ensures Run(s, acts).0.exited || Safe(Run(s, acts).0, false)
    ensures AllHonoured(Run(s, acts).1)
  {
    if acts != [] {
      RunSafe(s, acts[..|acts| - 1]);
      DoSafe(Run(s, acts[..|acts| - 1]).0, acts[|acts| - 1]);
    }
  }

  /** fmr_dev_open_tuner: a zeroed tuner with the opening CONFIG in its queue. */
  function Opened(c: Config): State { State(ZERO, 0, false, [Item(SetConfig(c), ZERO)], false) }

  /** Once a pass has applied the opening CONFIG, whatever was called before it, every TUNE that is
      executed in any continuation runs under the band limits it was checked against. */
  lemma TunesHonoured(c: Config, before: seq<Act>, hw: nat -> Hardware, after: seq<Act>)
    ensures var start := Do(Run(Opened(c), before).0, Work(hw)).0;
            AllHonoured(Run(start, after).1)
  {
    var m := Run(Opened(c), before).0;
    if !m.exited {
      LeftoverSafe(m, hw);
    }
    RunSafe(Do(m, Work(hw)).0, after);
  }

  // ---- Before the opening CONFIG is applied

  /** After this step no TUNE queued later takes effect in the first pass: that pass has begun, or a CANCEL or
      EXIT is ahead of it. */
  predicate Shields(a: Act) {
    a.Work? || a.CancelApi? || a.Close? || (a.SetConfiguration? && a.c.lower <= a.c.upper)
  }

  predicate TunesZero(a: Act) { a.TuneApi? && a.ch == 0 }

  predicate Unshielded(acts: seq<Act>, i: nat)
    requires i <= |acts|
  {
    forall j :: 0 <= j < i ==> !Shields(acts[j])
  }

  /** Some TUNE to channel 0 has nothing ahead of it to hold it off. */
  predicate Exposed(acts: seq<Act>) {
    exists i :: 0 <= i < |acts| && TunesZero(acts[i]) && Unshielded(acts, i)
  }

  /** It also meets a pass: what a client has to avoid. */
  predicate EarlyTune(acts: seq<Act>) {
    exists i, k :: 0 <= i < k < |acts| && TunesZero(acts[i]) && Unshielded(acts, i) && acts[k].Work?
  }

  /** The same seen in a queue. */
  predicate ExposedIn(q: seq<Item>) {
    q != [] && (q[0].cmd.Tune? || (!q[0].cmd.Cancel? && !q[0].cmd.Exit? && ExposedIn(q[1..])))
  }

  predicate Open(q: seq<Item>) { forall k :: 0 <= k < |q| ==> !q[k].cmd.Cancel? && !q[k].cmd.Exit? }

  lemma OpenSnoc(q: seq<Item>, x: Item)
    ensures Open(q + [x]) <==> Open(q) && !x.cmd.Cancel? && !x.cmd.Exit?
  {
    assert (q + [x])[|q|] == x;
    assert forall k :: 0 <= k < |q| ==> (q + [x])[k] == q[k];
  }

  lemma {:induction false} ExposedSnoc(q: seq<Item>, x: Item)
    ensures ExposedIn(q + [x]) <==> ExposedIn(q) || (x.cmd.Tune? && Open(q))
  {
    if q == [] {
      assert [] + [x] == [x] && [x][1..] == [];
    } else {
      ExposedSnoc(q[1..], x);
      assert (q + [x])[1..] == q[1..] + [x];
      assert Open(q) <==> !q[0].cmd.Cancel? && !q[0].cmd.Exit? && Open(q[1..]);
    }
  }

  lemma HonouredConcat(p: seq<Entry>, q: seq<Entry>)
    ensures AllHonoured(p + q) <==> AllHonoured(p) && AllHonoured(q)
  {
    var all := p + q;
    assert forall k :: 0 <= k < |p| ==> all[k] == p[k];
    assert forall k :: 0 <= k < |q| ==> all[|p| + k] == q[k];
    assert forall k :: |p| <= k < |all| ==> all[k] == q[k - |p|];
  }

  /** A pass under other limits than those the queued TUNEs were checked against honours them exactly if
      none of them is exposed. */
  lemma {:induction false} ForeignPass(s: State, hw: nat -> Hardware, t: nat, checked: Config)
    requires Guarded(s.queue, false) && TunesUnder(s.queue, checked) && !SameLimits(s.config, checked) && !s.exited
    ensures AllHonoured(Pass(s, false, hw, t).1) <==> !ExposedIn(s.queue)
    decreases Weight(s.queue)
  {
    if s.queue != [] {
      var (next, cancel, e) := Handle(s, false, hw(t));
      var log := Pass(s, false, hw, t).1;
      HandleQueue(s, false, hw(t));
      assert log[0] == e;
      if e.item.cmd.Tune? {
        assert !Honoured(e);
      } else if e.item.cmd.Cancel? {
        PassHonours(next, true, hw, t + 1);
        HonouredConcat([e], Pass(next, true, hw, t + 1).1);
      } else if !e.item.cmd.Exit? {
        if Appended(s, false, hw(t)) != [] {
          ExposedSnoc(s.queue[1..], Item(CheckRds, s.config));
          GuardedSnoc(s.queue[1..], Item(CheckRds, s.config), false);
        }
        if |s.queue| > 1 {
          ForeignPass(next, hw, t + 1, checked);
          HonouredConcat([e], Pass(next, false, hw, t + 1).1);
        }
      }
    }
  }

  lemma ExposedActs(acts: seq<Act>, a: Act)
    ensures Exposed(acts + [a]) <==> Exposed(acts) || (TunesZero(a) && Unshielded(acts, |acts|))
    ensures Unshielded(acts + [a], |acts| + 1) <==> Unshielded(acts, |acts|) && !Shields(a)
  {
    var all := acts + [a];
    assert forall i :: 0 <= i < |acts| ==> all[i] == acts[i];
    assert all[|acts|] == a;
    if i :| 0 <= i < |acts| && TunesZero(acts[i]) && Unshielded(acts, i) {
      assert TunesZero(all[i]) && Unshielded(all, i);
    }
    if i :| 0 <= i < |all| && TunesZero(all[i]) && Unshielded(all, i) {
      assert i < |acts| ==> TunesZero(acts[i]) && Unshielded(acts, i);
      assert i == |acts| ==> Unshielded(acts, i);
    }
    assert TunesZero(a) && Unshielded(acts, |acts|) ==> Unshielded(all, |acts|);
  }

  /** The state while only calls have been made: the opening CONFIG and the calls' commands behind it. */
  ghost predicate Waiting(s: State, c: Config, q: seq<Item>) {
    && s.config == ZERO && !s.exited && s.queue == [Item(SetConfig(c), ZERO)] + q
    && Guarded(q, false) && TunesUnder(q, ZERO)
  }

  /** What one or two commands more do to that queue. */
  lemma SnocWaits(q: seq<Item>, x: Item)
    requires Guarded(q, false) && TunesUnder(q, ZERO) && !x.cmd.SetConfig?
    requires x.cmd.Tune? ==> SameLimits(x.under, ZERO) && ZERO.InBand(x.cmd.ch)
    ensures Guarded(q + [x], false) && TunesUnder(q + [x], ZERO)
    ensures ExposedIn(q + [x]) <==> ExposedIn(q) || (x.cmd.Tune? && Open(q))
    ensures Open(q + [x]) <==> Open(q) && !x.cmd.Cancel? && !x.cmd.Exit?
  {
    GuardedSnoc(q, x, false);
    ExposedSnoc(q, x);
    OpenSnoc(q, x);
  }

  lemma ConfigWaits(q: seq<Item>, x: Item, y: Item)
    requires Guarded(q, false) && TunesUnder(q, ZERO) && x.cmd.Cancel? && y.cmd.SetConfig?
    ensures Guarded(q + [x] + [y], false) && TunesUnder(q + [x] + [y], ZERO)
    ensures (ExposedIn(q + [x] + [y]) <==> ExposedIn(q)) && !Open(q + [x] + [y])
  {
    SnocWaits(q, x);
    GuardedConfig(q, x, y, false);
    ExposedSnoc(q + [x], y);
    OpenSnoc(q + [x], y);
  }

  /** One call in that state. */
  lemma CallWaits(s: State, c: Config, q: seq<Item>, a: Act) returns (r: seq<Item>)
    requires Waiting(s, c, q) && !a.Work?
    ensures Waiting(Api(s, a), c, r)
    ensures ExposedIn(r) <==> ExposedIn(q) || (TunesZero(a) && Open(q))
    ensures Open(r) <==> Open(q) && !Shields(a)
  {
    var head := [Item(SetConfig(c), ZERO)];
    if Api(s, a) == s {
      r := q;
    } else if a.SetConfiguration? {
      var x, y := Item(Cancel, ZERO), Item(SetConfig(a.c), ZERO);
      ConfigWaits(q, x, y);
      r := q + [x] + [y];
      assert head + q + [x] + [y] == head + r;
    } else {
      var x := Api(s, a).queue[|s.queue|];
      SnocWaits(q, x);
      r := q + [x];
      assert head + q + [x] == head + r;
    }
  }

  lemma {:induction false} CallsWait(c: Config, acts: seq<Act>) returns (q: seq<Item>)
    requires forall k :: 0 <= k < |acts| ==> !acts[k].Work?
    ensures Waiting(Run(Opened(c), acts).0, c, q) && Run(Opened(c), acts).1 == []
    ensures ExposedIn(q) <==> Exposed(acts)
    ensures Open(q) <==> Unshielded(acts, |acts|)
  {
    if acts == [] {
      q := [];
    } else {
      var front, a := acts[..|acts| - 1], acts[|acts| - 1];
      assert acts == front + [a];
      var p := CallsWait(c, front);
      q := CallWaits(Run(Opened(c), front).0, c, p, a);
      ExposedActs(front, a);
    }
  }

  /** The first pass honours the TUNEs it executes exactly if the opening limits are zero or none is exposed. */
  lemma OpeningPass(s: State, c: Config, q: seq<Item>, hw: nat -> Hardware)
    requires Waiting(s, c, q)
    ensures AllHonoured(Pass(s, false, hw, 0).1) <==> SameLimits(c, ZERO) || !ExposedIn(q)
  {
    var (next, cancel, e) := Handle(s, false, hw(0));
    var log := Pass(s, false, hw, 0).1;
    assert next.queue == q && next.config == c && !cancel && Honoured(e);
    if q != [] {
      assert log == [e] + Pass(next, false, hw, 1).1;
      HonouredConcat([e], Pass(next, false, hw, 1).1);
      if SameLimits(c, ZERO) {
        PassHonours(next, false, hw, 1);
      } else {
        ForeignPass(next, hw, 1, ZERO);
      }
    }
  }

  lemma RunSnoc(s: State, acts: seq<Act>, a: Act)
    ensures var (m, log) := Run(s, acts); Run(s, acts + [a]) == (Do(m, a).0, log + Do(m, a).1)
  {
    assert (acts + [a])[..|acts|] == acts;
  }

  lemma ConcatStep(s: State, p: seq<Act>, q: seq<Act>, a: Act, m: State, l1: seq<Entry>, x: State, l2: seq<Entry>)
    requires Run(s, p + q) == (x, l1 + l2) && Run(m, q) == (x, l2)
    ensures var (y, l3) := Do(x, a);
            Run(s, p + q + [a]) == (y, l1 + (l2 + l3)) && Run(m, q + [a]) == (y, l2 + l3)
  {
    RunSnoc(s, p + q, a);
    RunSnoc(m, q, a);
    assert (l1 + l2) + Do(x, a).1 == l1 + (l2 + Do(x, a).1);
  }

  lemma {:induction false} RunConcat(s: State, p: seq<Act>, q: seq<Act>)
    ensures Run(s, p + q) == (Run(Run(s, p).0, q).0, Run(s, p).1 + Run(Run(s, p).0, q).1)
    decreases |q|
  {
    var (m, l1) := Run(s, p);
    if q == [] {
      assert p + q == p && l1 + [] == l1;
    } else {
      var front, a := q[..|q| - 1], q[|q| - 1];
      RunConcat(s, p, front);
      var (x, l2) := Run(m, front);
      ConcatStep(s, p, front, a, m, l1, x, l2);
      assert q == front + [a] && p + q == p + front + [a];
    }
  }

  /** A run that starts with calls and then makes its first pass. */
  lemma HonouredFromFirstPass(c: Config, front: seq<Act>, hw: nat -> Hardware, rest: seq<Act>)
    requires forall k :: 0 <= k < |front| ==> !front[k].Work?
    ensures AllHonoured(Run(Opened(c), front + [Work(hw)] + rest).1) <==> SameLimits(c, ZERO) || !Exposed(front)
  {
    var q := CallsWait(c, front);
    var m := Run(Opened(c), front).0;
    var (end, log) := Pass(m, false, hw, 0);
    assert front + [Work(hw)] + rest == front + ([Work(hw)] + rest);
    RunConcat(Opened(c), front, [Work(hw)] + rest);
    RunConcat(m, [Work(hw)], rest);
    assert [Work(hw)][..0] == [] && Run(m, []) == (m, []);
    assert Run(m, [Work(hw)]) == (end, [] + log);
    OpeningPass(m, c, q, hw);
    LeftoverSafe(m, hw);
    RunSafe(end, rest);
    HonouredConcat(log, Run(end, rest).1);
    assert [] + log == log && [] + (log + Run(end, rest).1) == log + Run(end, rest).1;
    assert Run(Opened(c), front + ([Work(hw)] + rest)).1 == [] + (log + Run(end, rest).1);
  }

  /** For runs from the very opening: all executed TUNEs run under the limits they were checked against
      exactly when the opening limits are both zero, or no TUNE to channel 0 comes before the
      first pass, cancel, accepted configuration or close and then meets a pass. */
  lemma HonouredExactly(c: Config, acts: seq<Act>)
    ensures AllHonoured(Run(Opened(c), acts).1) <==> SameLimits(c, ZERO) || !EarlyTune(acts)
  {
    if w :| 0 <= w < |acts| && acts[w].Work? && forall k :: 0 <= k < w ==> !acts[k].Work? {
      var front := acts[..w];
      assert acts == front + [Work(acts[w].hw)] + acts[w + 1..];
      HonouredFromFirstPass(c, front, acts[w].hw, acts[w + 1..]);
      EarlyIsExposed(acts, w);
    } else {
      NoPass(acts, |acts|);
      var q := CallsWait(c, acts);
    }
  }

  /** The shortest failing run: under any other opening limits, TUNE 0 and then the first pass. */
  lemma EarlyTuneFails(c: Config, hw: nat -> Hardware)
    requires !SameLimits(c, ZERO)
    ensures !AllHonoured(Run(Opened(c), [TuneApi(0), Work(hw)]).1)
  {
    var acts := [TuneApi(0), Work(hw)];
    HonouredExactly(c, acts);
    assert TunesZero(acts[0]) && Unshielded(acts, 0) && acts[1].Work?;
  }

  lemma EarlyIsExposed(acts: seq<Act>, w: nat)
    requires w < |acts| && acts[w].Work?
    ensures EarlyTune(acts) <==> Exposed(acts[..w])
  {
    var front := acts[..w];
    assert forall i :: 0 <= i < w ==> front[i] == acts[i];
    if i :| 0 <= i < w && TunesZero(front[i]) && Unshielded(front, i) {
      assert TunesZero(acts[i]) && Unshielded(acts, i) && acts[w].Work?;
    }
    if i, k :| 0 <= i < k < |acts| && TunesZero(acts[i]) && Unshielded(acts, i) && acts[k].Work? {
      assert Shields(acts[w]) && w != i;
      assert TunesZero(front[i]) && Unshielded(front, i);
    }
  }

  /** If no act is the first pass, no act is a pass. */
  lemma {:induction false} NoPass(acts: seq<Act>, n: nat)
    requires n <= |acts|
    requires forall w :: 0 <= w < |acts| && acts[w].Work? ==> exists k :: 0 <= k < w && acts[k].Work?
    ensures forall k :: 0 <= k < n ==> !acts[k].Work?
  {
    if n > 0 {
      NoPass(acts, n - 1);
    }
  }

  // ---- Channels stay in the band

  /** After every SEEK of a contained band, and every STEP whose tune succeeds, the channel is within the
      limits. */
  lemma MovesInBand(s: State, cmd: Cmd, hw: Hardware)
    requires s.config.Ordered() && 0 <= s.ch < TWO32
    requires (cmd.Step? && hw.tuneOk) || (cmd.Seek? && s.config.Sane() && s.config.Contained())
    ensures s.config.InBand(Exec(s, cmd, hw).ch)
  {
    if cmd.Step? {
      StepInBand(s.config, s.ch, cmd.up);
    } else {
      SeekInBand(s.config, s.ch, cmd.up, hw);
    }
  }

  /** Configurations of p are queued, and one of them is in force or next. Channels have 32 bits. */
  ghost predicate Ready(s: State, p: Config -> bool) {
    && s.config.Ordered() && 0 <= s.ch < TWO32
    && (p(s.config) || (s.queue != [] && s.queue[0].cmd.SetConfig?))
    && forall k :: 0 <= k < |s.queue| ==> ItemReady(s.queue[k], p)
  }

  predicate ItemReady(x: Item, p: Config -> bool) {
    && (x.cmd.SetConfig? ==> p(x.cmd.config) && x.cmd.config.Ordered())
    && (x.cmd.Tune? ==> 0 <= x.cmd.ch < TWO32)
  }

  /** What holds of an executed move: a configuration of p was in force, and the channel it left. */
  predicate Within(e: Entry, p: Config -> bool) {
    e.executed && e.item.cmd.Moves() ==>
      && p(e.under)
      && (e.item.cmd.Step? && e.tuned ==> e.under.InBand(e.ch))
      && (e.item.cmd.Seek? && e.under.Sane() && e.under.Contained() ==> e.under.InBand(e.ch))
      && (e.item.cmd.Tune? ==> e.ch == e.item.cmd.ch)
  }

  lemma ExecReady(s: State, cmd: Cmd, hw: Hardware)
    requires s.config.Ordered() && 0 <= s.ch < TWO32 && !cmd.SetConfig? && (cmd.Tune? ==> 0 <= cmd.ch < TWO32)
    ensures Exec(s, cmd, hw).config == s.config && 0 <= Exec(s, cmd, hw).ch < TWO32
  {
    if cmd.Step? {
      StepInBand(s.config, s.ch, cmd.up);
    } else if cmd.Seek? && s.config.Sane() {
      SeekInWord(s.config, s.ch, cmd.up, hw);
    }
  }

  lemma QueueReady(s: State, cancel: bool, hw: Hardware, p: Config -> bool)
    requires s.queue != [] && forall k :: 0 <= k < |s.queue| ==> ItemReady(s.queue[k], p)
    ensures var q := Handle(s, cancel, hw).0.queue; forall k :: 0 <= k < |q| ==> ItemReady(q[k], p)
  {
    HandleQueue(s, cancel, hw);
    var q := Handle(s, cancel, hw).0.queue;
    forall k | 0 <= k < |q| ensures ItemReady(q[k], p) {
      assert q[k] == if k < |s.queue| - 1 then s.queue[k + 1] else Item(CheckRds, s.config);
    }
  }

  lemma HandleReady(s: State, cancel: bool, hw: Hardware, p: Config -> bool)
    requires s.queue != [] && Ready(s, p)
    ensures Ready(Handle(s, cancel, hw).0, p) && Within(Handle(s, cancel, hw).2, p)
  {
    var item, rest := s.queue[0], s.(queue := s.queue[1..]);
    assert ItemReady(item, p);
    if !item.cmd.SetConfig? {
      ExecReady(rest, item.cmd, hw);
      if (item.cmd.Step? && hw.tuneOk) || (item.cmd.Seek? && s.config.Sane() && s.config.Contained()) {
        MovesInBand(rest, item.cmd, hw);
      }
    }
    QueueReady(s, cancel, hw, p);
  }

  lemma {:induction false} PassReady(s: State, cancel: bool, hw: nat -> Hardware, t: nat, p: Config -> bool)
    requires Ready(s, p)
    ensures Ready(Pass(s, cancel, hw, t).0, p)
    ensures forall k :: 0 <= k < |Pass(s, cancel, hw, t).1| ==> Within(Pass(s, cancel, hw, t).1[k], p)
    decreases Weight(s.queue)
  {
    if s.queue != [] {
      var (next, cancel', e) := Handle(s, cancel, hw(t));
      HandleReady(s, cancel, hw(t), p);
      HandleQueue(s, cancel, hw(t));
      if |s.queue| > 1 && !next.exited {
        PassReady(next, cancel', hw, t + 1, p);
      }
    }
  }

  /** The configurations that calls bring in, if they are accepted, are of p. */
  ghost predicate Brings(a: Act, p: Config -> bool) {
    a.SetConfiguration? && a.c.lower <= a.c.upper ==> p(a.c) && a.c.Ordered()
  }

  lemma DoReady(s: State, a: Act, p: Config -> bool)
    requires Ready(s, p) && Brings(a, p)
    ensures Ready(Do(s, a).0, p)
    ensures forall k :: 0 <= k < |Do(s, a).1| ==> Within(Do(s, a).1[k], p)
  {
    if a.Work? && !s.exited {
      PassReady(s, false, a.hw, 0, p);
    }
  }

  lemma {:induction false} RunReady(s: State, acts: seq<Act>, p: Config -> bool)
    requires Ready(s, p) && forall k :: 0 <= k < |acts| ==> Brings(acts[k], p)
    ensures Ready(Run(s, acts).0, p)
    ensures forall k :: 0 <= k < |Run(s, acts).1| ==> Within(Run(s, acts).1[k], p)
  {
    if acts != [] {
      RunReady(s, acts[..|acts| - 1], p);
      DoReady(Run(s, acts[..|acts| - 1]).0, acts[|acts| - 1], p);
    }
  }

  /** In every run from the opening, with 32-bit limits in order: after every STEP whose tune succeeds, and
      every SEEK of a contained band, the channel is within the limits in force. */
  lemma RunInBand(c: Config, acts: seq<Act>)
    requires c.Ordered() && forall k :: 0 <= k < |acts| ==> Brings(acts[k], (d: Config) => d.Ordered())
    ensures var log := Run(Opened(c), acts).1;
            forall k :: 0 <= k < |log| ==> Within(log[k], (d: Config) => d.Ordered())
  {
    RunReady(Opened(c), acts, (d: Config) => d.Ordered());
  }

  /** A configuration under which every seek stays in the band. */
  predicate Fit(c: Config) { c.Sane() && c.Contained() }

  /** So with such configurations only, and no TUNE too early, whatever STEP, SEEK or TUNE leaves the tuner
      tuned leaves it on a channel within the limits in force. */
  lemma TunedInBand(c: Config, acts: seq<Act>)
    requires Fit(c) && forall k :: 0 <= k < |acts| ==> Brings(acts[k], Fit)
    requires SameLimits(c, ZERO) || !EarlyTune(acts)
    ensures var log := Run(Opened(c), acts).1;
            forall k :: 0 <= k < |log| && log[k].executed && log[k].item.cmd.Moves() && log[k].tuned ==>
              log[k].under.InBand(log[k].ch)
  {
    var log := Run(Opened(c), acts).1;
    RunReady(Opened(c), acts, Fit);
    HonouredExactly(c, acts);
    assert forall k :: 0 <= k < |log| ==> Honoured(log[k]) && Within(log[k], Fit);
  }
}
