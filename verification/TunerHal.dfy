/** The fmradio_tuner object of new_hal/radio_hw_hal.c: its fields, the API calls that append to the
    command list and the callback thread's pass over it. */
module TunerHal {
  import opened Common
  import opened HalSeek
  import opened TunerThread

  class Tuner {
    var config: Config
    var ch: int
    var tuned: bool
    var queue: seq<Item>
    var exited: bool

    function State(): State
      reads this
    {
      TunerThread.State(config, ch, tuned, queue, exited)
    }

    /** fmr_dev_open_tuner. */
    constructor (c: Config)
      ensures State() == Opened(c)
    {
      config, ch, tuned, exited := ZERO, 0, false, false;
      queue := [Item(SetConfig(c), ZERO)];
    }

    /** send_command_l. */
    method SendCommand(cmd: Cmd)
      modifies this`queue
      ensures State() == Enqueue(old(State()), cmd)
    {
      queue := queue + [Item(cmd, config)];
    }

    /** tuner_set_configuration; both commands are queued in one critical section. */
    method SetConfiguration(c: Config) returns (status: int)
      modifies this`queue
      ensures State() == Api(old(State()), Act.SetConfiguration(c))
      ensures status == 0 <==> c.lower <= c.upper
    {
      if c.lower > c.upper {
        return -22;
      }
      SendCommand(Cancel);
      SendCommand(SetConfig(c));
      status := 0;
    }

    /** tuner_get_configuration: the last CONFIG in the queue hides the current one. So it returns what
        the tuner will hold once the queue is drained, CANCELs or not. */
    method GetConfiguration() returns (c: Config)
      ensures NoExit(queue) && !exited ==> forall hw :: Drain(State(), hw, 0).config == c
    {
      c := config;
      assert queue[..0] == [];
      for i := 0 to |queue|
        invariant c == LastConfig(queue[..i], config)
      {
        LastConfigSnoc(queue[..i], queue[i], config);
        assert queue[..i + 1] == queue[..i] + [queue[i]];
        if queue[i].cmd.SetConfig? {
          c := queue[i].cmd.config;
        }
      }
      assert queue[..|queue|] == queue;
      if NoExit(queue) && !exited {
        forall hw: nat -> nat -> Hardware ensures Drain(State(), hw, 0).config == c {
          TwoPassesDrain(State(), hw);
        }
      }
    }

    /** tuner_tune: the range check is against the configuration of the moment. */
    method TuneTo(channel: int) returns (status: int)
      modifies this`queue
      ensures State() == Api(old(State()), TuneApi(channel))
      ensures status == 0 <==> config.InBand(channel)
    {
      if channel < config.lower || channel > config.upper {
        return -22;
      }
      SendCommand(Tune(channel));
      status := 0;
    }

    /** tuner_step, tuner_seek, tuner_cancel, the RDS thread's report and fmr_dev_close_tuner. */
    method Request(a: Act)
      requires a.StepApi? || a.SeekApi? || a.CancelApi? || a.RdsReport? || a.Close?
      modifies this`queue
      ensures State() == Api(old(State()), a)
    {
      match a {
        case StepApi(up) => SendCommand(Step(up));
        case SeekApi(up) => SendCommand(Seek(up));
        case CancelApi => SendCommand(Cancel);
        case RdsReport => SendCommand(ShowRds);
        case Close => SendCommand(Exit);
      }
    }

    /** The switch of callback_thread_loop for a command other than EXIT and CANCEL. */
    method Perform(cmd: Cmd, hw: Hardware)
      requires !cmd.Exit?
      modifies this
      ensures State() == Exec(old(State()), cmd, hw)
    {
      if cmd.SetConfig? {
        config := cmd.config;
      } else if cmd.Moves() {
        match cmd {
          case Step(up) =>
            var freq := if up then (ch + config.spacing) % TWO32 else (ch - config.spacing) % TWO32;
            if freq > config.upper {
              freq := config.lower;
            }
            if freq < config.lower {
              freq := config.upper;
            }
            if hw.tuneOk {
              ch := freq;
            }
          case Seek(up) =>
            if config.Sane() {
              var r := FmrSeek(config, ch, up, hw);
              ch := r.ch;
            } else {
              ch := hw.elsewhere % TWO32;
            }
          case Tune(channel) =>
            ch := channel;
        }
        tuned := hw.tuneOk;
        if tuned {
          SendCommand(CheckRds);
        }
      }
    }

    /** The body of list_for_each_safe: take the head off the list and drop or execute it. */
    method HandleHead(gotCancel: bool, hw: Hardware) returns (gotCancel': bool, e: Entry)
      requires queue != []
      modifies this
      ensures (State(), gotCancel', e) == Handle(old(State()), gotCancel, hw)
    {
      var item, under, was := queue[0], config, ch;
      gotCancel' := gotCancel;
      queue := queue[1..];
      if gotCancel && item.cmd.Droppable() {
        e := Entry(item, false, under, was, ch, tuned, hw);
        return;
      }
      if item.cmd.Exit? {
        exited, e := true, Entry(item, true, under, was, ch, tuned, hw);
        return;
      }
      Perform(item.cmd, hw);
      e := Entry(item, true, under, was, ch, tuned, hw);
      gotCancel' := gotCancel || item.cmd.Cancel?;
    }

    /** One pass of callback_thread_loop over the command list, lock held throughout. */
    method Work(hw: nat -> Hardware) returns (log: seq<Entry>)
      requires !exited
      modifies this
      ensures (State(), log) == Do(old(State()), Act.Work(hw))
    {
      log := [];
      var gotCancel := false;
      var more := queue != [];
      ghost var goal := Pass(State(), false, hw, 0);
      while more
        invariant more ==> queue != [] && !exited
        invariant if more then Leads(State(), gotCancel, hw, log, goal) else goal == (State(), log)
        decreases more, Weight(queue)
      {
        var last := |queue| == 1;
        LeadsStep(State(), gotCancel, hw, log, goal);
        var e;
        gotCancel, e := HandleHead(gotCancel, hw(|log|));
        log := log + [e];
        more := !last && !exited;
      }
    }
  }
}
