/** The timing session and the simulator together: one client, one command at a
    time, every order of calls and of failures. */
module TimingJoint {
  import opened Basics
  import opened TimingClient
  import opened TimingServer

  /** `call` is the command whose reply the client awaits, `command` the one the
      server has not served yet, `elapsed` the nanoseconds of the steps started. */
  datatype World = World(
    session: Session, sim: Sim,
    call: Option<Command>, command: Option<Command>, reply: Option<Reply>, elapsed: int)

  datatype Action =
    | Start(interval: int, io: Sending)
    | Ask(io: Sending)
    | Shut(io: Sending)
    | Serve(runs: seq<Run>)
    | Receive
    | LoseReply

  ghost predicate Init(w: World)
  {
    && !w.sim.finished && w.sim.tick <= MAX_TICK
    && w == World(FRESH, w.sim, None, None, None, 0)
  }

  predicate Enabled(w: World, a: Action)
  {
    match a
    case Start(_, _) => true
    case Ask(_) => true
    case Shut(_) => !w.session.stopped
    case Serve(runs) =>
      && w.command.Some? && w.sim.tick <= MAX_TICK
      && (w.command.value.StepTicks? ==> StepReply(w.sim, w.command.value.n, runs).Some?)
    case Receive => w.reply.Some? && w.call.Some?
    case LoseReply => w.call.Some?
  }

  /** The client's own answer to the reply of the command it sent. */
  function Received(s: Session, call: Command, reply: Reply): (t: Session)
  {
    var read := s.(pending := false);
    match call
    case StepTicks(_) => Waited(s, reply).0
    case Status => Checked(s, reply).0
    case _ => if reply.Bye? then read.(stopped := true) else read.(failed := true)
  }

  function Served(w: World, runs: seq<Run>): (r: (Sim, Reply))
    requires Enabled(w, Serve(runs))
  {
    match w.command.value
    case StepTicks(n) => StepReply(w.sim, n, runs).value
    case Status => (w.sim, if w.sim.finished then Done(w.sim.tick) else Paused(w.sim.tick))
    case Quit => (w.sim, Bye)
    case _ => (w.sim, Unparsable)
  }

  function Apply(w: World, a: Action): (v: World)
    requires Enabled(w, a)
  {
    match a
    case Start(interval, io) =>
      var (s, r) := Started(w.session, interval, io);
      if r.Err? then w.(session := s)
      else
        var command := Some(StepTicks(r.value));
        w.(session := s, call := command, command := command, elapsed := w.elapsed + interval)
    case Ask(io) =>
      var (s, fault) := Sends(w.session, io, true);
      if fault.Some? then w.(session := s) else w.(session := s, call := Some(Status), command := Some(Status))
    case Shut(io) =>
      var (s, fault) := Sends(w.session, io, false);
      if fault.Some? then w.(session := s) else w.(session := s, call := Some(Quit), command := Some(Quit))
    case Serve(runs) =>
      var (sim, reply) := Served(w, runs);
      w.(sim := sim, command := None, reply := Some(reply))
    case Receive => w.(session := Received(w.session, w.call.value, w.reply.value), call := None, reply := None)
    case LoseReply => w.(session := Waited(w.session, Lost).0, call := None, reply := None)
  }

  ghost predicate Runs(w: World, actions: seq<Action>, v: World)
    decreases |actions|
  {
    if actions == [] then w == v
    else Enabled(w, actions[0]) && Runs(Apply(w, actions[0]), actions[1..], v)
  }

  // ----- One client and its simulator agree -----

  predicate IsStep(c: Option<Command>)
  {
    c.Some? && c.value.StepTicks?
  }

  /** A step has been answered and the answer is not read yet. */
  predicate StepAnswered(w: World)
  {
    IsStep(w.call) && w.reply.Some?
  }

  ghost predicate InTouch(w: World)
  {
    && (w.session.pending <==> w.call.Some?)
    && (w.command.Some? ==> w.call == w.command && w.reply.None?)
    && (w.call.Some? <==> w.command.Some? || w.reply.Some?)
  }

  ghost predicate Agrees(w: World)
  {
    var s, sim := w.session, w.sim;
    && (s.anchored && !s.finished && !StepAnswered(w) ==> s.last == sim.tick)
    && (IsStep(w.command) ==> w.command.value.n <= MAX_STEP_TICKS && !sim.finished && !s.finished)
    && (StepAnswered(w) && w.reply.value.Advanced? ==>
          var Advanced(start, end) := w.reply.value;
          !sim.finished && !s.finished && start <= end == sim.tick && (s.anchored ==> start == s.last))
    && (sim.finished ==> s.finished || (StepAnswered(w) && w.reply.value.Done?))
  }

  ghost predicate Inv(w: World)
  {
    && w.sim.tick <= MAX_TICK
    && w.session.target <= U64_MAX
    && (!w.session.failed ==> InTouch(w) && Agrees(w))
    && (w.session.failed ==> !w.session.pending)
  }

  lemma ClockNeverRunsBack(s: Sim, target: nat, runs: seq<Run>)
    ensures Advance(s, target, runs).Some? ==> Advance(s, target, runs).value.tick >= s.tick
    decreases |runs|
  {
    if s.tick >= target || s.finished || runs == [] || runs[0].event.MaxTick? {
    } else {
      ClockNeverRunsBack(AfterRun(s, runs[0]), target, runs[1..]);
    }
  }

  lemma InvStep(w: World, a: Action)
    requires Inv(w) && Enabled(w, a)
    ensures Inv(Apply(w, a))
  {
    match a
    case Serve(runs) =>
      if IsStep(w.command) {
        ClockNeverRunsBack(w.sim, w.sim.tick + w.command.value.n, runs);
      }
    case _ =>
  }

  lemma {:induction false} InvRuns(w: World, actions: seq<Action>, v: World)
    requires Inv(w) && Runs(w, actions, v)
    ensures Inv(v)
    decreases |actions|
  {
    if actions == [] {
    } else {
      InvStep(w, actions[0]);
      InvRuns(Apply(w, actions[0]), actions[1..], v);
    }
  }

  /** A sole client: in every run, whenever a session that is neither failed nor
      finished has no step outstanding, it knows the simulator's tick. So a reply
      never starts at an unexpected tick, no request is above the server's step
      limit, and no step follows the end of the simulation. */
  lemma SoleClient(w: World, actions: seq<Action>, v: World)
    requires Init(w) && Runs(w, actions, v)
    ensures v.session.anchored && !v.session.failed && !v.session.finished && !v.session.pending ==>
      v.session.last == v.sim.tick
    ensures !v.session.failed && IsStep(v.call) && v.reply.Some? ==>
      Waited(v.session, v.reply.value).1 != Some(OutsideSession)
    ensures !v.session.failed && IsStep(v.command) ==> v.command.value.n <= MAX_STEP_TICKS && !v.sim.finished
  {
    InvRuns(w, actions, v);
  }

  // ----- Bounded drift of the real simulator -----

  /** The caller keeps room for the simulator's error, and the simulator keeps to it. */
  predicate WithinBounds(w: World, a: Action, e: nat)
    requires Enabled(w, a)
  {
    && (a.Start? ==> 1000 * a.interval + e <= MAX_STEP_TICKS)
    && (a.Serve? && IsStep(w.command) ==> RunsWithin(w.sim, w.sim.tick + w.command.value.n, a.runs, e))
  }

  ghost predicate BoundedRuns(w: World, actions: seq<Action>, v: World, e: nat)
    decreases |actions|
  {
    if actions == [] then w == v
    else
      && Enabled(w, actions[0]) && WithinBounds(w, actions[0], e)
      && BoundedRuns(Apply(w, actions[0]), actions[1..], v, e)
  }

  /** The timeline, before, during and after a step. */
  ghost predicate OnTime(w: World, e: nat)
  {
    var s := w.session;
    && (s.anchored ==> s.target == s.first + 1000 * w.elapsed)
    && (!s.anchored ==> if IsStep(w.call) then s.nominal == 1000 * w.elapsed else w.elapsed == 0)
    && (s.anchored && !IsStep(w.call) ==> Abs(s.last - s.target) <= e)
    && (IsStep(w.command) ==>
          if s.anchored then
            && Abs(s.last - (s.target - s.nominal)) <= e
            && w.command.value.n == Max(0, s.target - s.last)
          else w.command.value.n == s.nominal)
    && (StepAnswered(w) && w.reply.value.Advanced? ==>
          var Advanced(start, end) := w.reply.value;
          if s.anchored then Abs(end - s.target) <= e else Abs(end - start - s.nominal) <= e)
  }

  lemma OnTimeServe(w: World, runs: seq<Run>, e: nat)
    requires Inv(w) && !w.session.failed && !w.session.finished && OnTime(w, e)
    requires Enabled(w, Serve(runs)) && WithinBounds(w, Serve(runs), e)
    ensures OnTime(Apply(w, Serve(runs)), e)
  {
    if IsStep(w.command) {
      StepIsWithinError(w.sim, w.command.value.n, runs, e);
    }
  }

  lemma OnTimeStart(w: World, interval: int, io: Sending, e: nat)
    requires Inv(w) && !w.session.failed && !w.session.finished && OnTime(w, e)
    requires WithinBounds(w, Start(interval, io), e)
    ensures var v := Apply(w, Start(interval, io)); !v.session.failed && !v.session.finished ==> OnTime(v, e)
  {
  }

  lemma OnTimeReceive(w: World, e: nat)
    requires Inv(w) && !w.session.failed && !w.session.finished && OnTime(w, e) && Enabled(w, Receive)
    ensures var v := Apply(w, Receive); !v.session.failed && !v.session.finished ==> OnTime(v, e)
  {
  }

  lemma OnTimeStep(w: World, a: Action, e: nat)
    requires Inv(w) && Enabled(w, a) && WithinBounds(w, a, e)
    requires !w.session.failed && !w.session.finished ==> OnTime(w, e)
    ensures var v := Apply(w, a); !v.session.failed && !v.session.finished ==> OnTime(v, e)
  {
    if !w.session.failed && !w.session.finished {
      match a
      case Serve(runs) => OnTimeServe(w, runs, e);
      case Start(interval, io) => OnTimeStart(w, interval, io, e);
      case Receive => OnTimeReceive(w, e);
      case _ =>
    }
  }

  lemma {:induction false} OnTimeRuns(w: World, actions: seq<Action>, v: World, e: nat)
    requires Inv(w) && BoundedRuns(w, actions, v, e)
    requires !w.session.failed && !w.session.finished ==> OnTime(w, e)
    ensures Inv(v)
    ensures !v.session.failed && !v.session.finished ==> OnTime(v, e)
    decreases |actions|
  {
    if actions == [] {
    } else {
      OnTimeStep(w, actions[0], e);
      InvStep(w, actions[0]);
      OnTimeRuns(Apply(w, actions[0]), actions[1..], v, e);
    }
  }

  /** Bounded drift, end to end. However many steps are taken, however many events
      interrupt each of them and wherever the simulator stops within e of a budget:
      whenever no step is outstanding, the simulator is within e ticks of the first
      tick plus a thousand times the nanoseconds asked for. */
  lemma SimulatorIsOnTime(w: World, actions: seq<Action>, v: World, e: nat)
    requires Init(w) && BoundedRuns(w, actions, v, e)
    ensures v.session.anchored && !v.session.failed && !v.session.finished && !v.session.pending ==>
      Abs(v.sim.tick - (v.session.first + 1000 * v.elapsed)) <= e
  {
    OnTimeRuns(w, actions, v, e);
  }
}
