/** The simulator's side of the timing socket: one step is as many simulator runs
    as events interrupt it, against a budget that shrinks. */
module TimingServer {
  import opened Basics
  import opened TimingClient

  const MAX_TICK: nat := U64_MAX

  datatype Event = MaxTick | Exit | WorkBegin | WorkEnd | Other

  /** What one `simulator.run()` did. */
  datatype Run = Run(advance: nat, event: Event)

  datatype Sim = Sim(tick: nat, finished: bool)

  datatype Command = StepTicks(n: nat) | StepNs(n: nat) | StepUs(n: nat) | Status | Quit | Unknown

  /** One run of the simulator: the end of the workload and every unexpected event finish it. */
  function AfterRun(s: Sim, r: Run): (t: Sim)
  {
    Sim(s.tick + r.advance, s.finished || r.event.WorkEnd? || r.event.Other?)
  }

  /** The loop of `run_for_ticks`; None while the simulator has not come to rest. */
  function Advance(s: Sim, target: nat, runs: seq<Run>): (r: Option<Sim>)
    decreases |runs|
  {
    if s.tick >= target || s.finished then Some(s)
    else if runs == [] then None
    else if runs[0].event.MaxTick? then Some(AfterRun(s, runs[0]))
    else Advance(AfterRun(s, runs[0]), target, runs[1..])
  }

  /** The reply to a step. An error is a line that the client cannot read as
      progress. The simulator's clock is a 64-bit word: a run past it does not end. */
  function StepReply(s: Sim, ticks: nat, runs: seq<Run>): (r: Option<(Sim, Reply)>)
    requires s.tick <= MAX_TICK
  {
    if s.finished then Some((s, Done(s.tick)))
    else if ticks > MAX_STEP_TICKS || s.tick + ticks >= MAX_TICK then Some((s, Unparsable))
    else
      match Advance(s, s.tick + ticks, runs)
      case None => None
      case Some(t) =>
        if t.tick > MAX_TICK then None
        else Some((t, if t.finished then Done(t.tick) else Advanced(s.tick, t.tick)))
  }

  /** The ticks that a step command asks for; only STEP_TICKS accepts zero. */
  function TicksOf(c: Command): (r: Option<nat>)
  {
    match c
    case StepTicks(n) => Some(n)
    case StepNs(n) => if n == 0 then None else Some(1000 * n)
    case StepUs(n) => if n == 0 then None else Some(1_000_000 * n)
    case _ => None
  }

  class SimulationServer {
    var tick: nat
    var finished: bool
    var exitRequested: bool

    function State(): (s: Sim)
      reads this
    {
      Sim(tick, finished)
    }

    constructor (start: nat)
      ensures State() == Sim(start, false) && !exitRequested
    {
      tick, finished, exitRequested := start, false, false;
    }

    /** `run_for_ticks`, with the runs of the simulator as they turn out. */
    method RunForTicks(ticks: nat, runs: seq<Run>) returns (r: Option<Reply>)
      requires tick <= MAX_TICK
      modifies this`tick, this`finished
      ensures var reply := StepReply(old(State()), ticks, runs);
        reply.Some? ==> r == Some(reply.value.1) && State() == reply.value.0
      ensures StepReply(old(State()), ticks, runs).None? ==> r == None
    {
      if finished {
        return Some(Done(tick));
      }
      var start := tick;
      var target := start + ticks;
      if ticks > MAX_STEP_TICKS || target >= MAX_TICK {
        return Some(Unparsable);
      }
      var i := 0;
      while tick < target && !finished
        invariant 0 <= i <= |runs|
        invariant Advance(old(State()), target, runs) == Advance(State(), target, runs[i..])
        decreases |runs| - i
      {
        if i == |runs| {
          return None;
        }
        var run := runs[i];
        assert runs[i..][0] == run && runs[i..][1..] == runs[i + 1..];
        tick := tick + run.advance;
        if run.event.WorkEnd? || run.event.Other? {
          finished := true;
        }
        i := i + 1;
        if run.event.MaxTick? {
          break;
        }
      }
      if tick > MAX_TICK {
        return None;
      }
      if finished {
        return Some(Done(tick));
      }
      return Some(Advanced(start, tick));
    }

    /** `handle_command`: a duration of nanoseconds or microseconds is scaled to
        ticks; whatever is not a command is answered with an error. */
    method HandleCommand(c: Command, runs: seq<Run>) returns (r: Option<Reply>)
      requires tick <= MAX_TICK
      modifies this
      ensures exitRequested == (old(exitRequested) || c.Quit?)
      ensures TicksOf(c).None? ==> State() == old(State()) && r == Some(
        if c.Status? then if finished then Done(tick) else Paused(tick) else if c.Quit? then Bye else Unparsable)
      ensures TicksOf(c).Some? && StepReply(old(State()), TicksOf(c).value, runs).Some? ==>
        var reply := StepReply(old(State()), TicksOf(c).value, runs).value;
        State() == reply.0 && r == Some(reply.1)
      ensures TicksOf(c).Some? && StepReply(old(State()), TicksOf(c).value, runs).None? ==> r == None
    {
      match c {
        case StepTicks(n) => r := RunForTicks(n, runs);
        case StepNs(n) =>
          if n == 0 {
            return Some(Unparsable);
          }
          r := RunForTicks(n * 1000, runs);
        case StepUs(n) =>
          if n == 0 {
            return Some(Unparsable);
          }
          r := RunForTicks(n * 1000000, runs);
        case Status => return Some(if finished then Done(tick) else Paused(tick));
        case Quit =>
          exitRequested := true;
          return Some(Bye);
        case Unknown => return Some(Unparsable);
      }
    }
  }

  /** One run misses its budget by at most e: it may overrun it by e, and a run
      that reports its limit is at most e short of it. */
  predicate RunWithin(budget: nat, r: Run, e: nat)
  {
    r.advance <= budget + e && (r.event.MaxTick? ==> r.advance + e >= budget)
  }

  /** Every run of a step is within e of the budget it is given. */
  predicate RunsWithin(s: Sim, target: nat, runs: seq<Run>, e: nat)
    decreases |runs|
  {
    s.tick < target && !s.finished && runs != [] ==>
      && RunWithin(target - s.tick, runs[0], e)
      && (!runs[0].event.MaxTick? ==> RunsWithin(AfterRun(s, runs[0]), target, runs[1..], e))
  }

  /** The error does not add up: however many events interrupt a step, a step
      that does not finish the simulation ends within e of its target. */
  lemma {:induction false} ErrorDoesNotAccumulate(s: Sim, target: nat, runs: seq<Run>, e: nat)
    requires s.tick <= target && !s.finished && RunsWithin(s, target, runs, e)
    ensures var r := Advance(s, target, runs);
      r.Some? && !r.value.finished ==> s.tick <= r.value.tick && Abs(r.value.tick - target) <= e
    decreases |runs|
  {
    if s.tick >= target || runs == [] || runs[0].event.MaxTick? {
    } else {
      var t := AfterRun(s, runs[0]);
      if t.tick < target && !t.finished {
        ErrorDoesNotAccumulate(t, target, runs[1..], e);
      }
    }
  }

  /** The hypothesis of the drift theorem, discharged: an answered step starts at
      the current tick, ends at the new one, and is within the error of one run;
      a request of zero ticks moves nothing. */
  lemma StepIsWithinError(s: Sim, ticks: nat, runs: seq<Run>, e: nat)
    requires s.tick <= MAX_TICK && RunsWithin(s, s.tick + ticks, runs, e)
    ensures var r := StepReply(s, ticks, runs);
      r.Some? && r.value.1.Advanced? ==>
        && !s.finished && !r.value.0.finished
        && r.value.1 == Advanced(s.tick, r.value.0.tick) && s.tick <= r.value.0.tick
        && WithinError(ticks, r.value.0.tick - s.tick, e)
  {
    if !s.finished {
      ErrorDoesNotAccumulate(s, s.tick + ticks, runs, e);
    }
  }
}
