/** The timing session of the host: each step asks for the ticks that are missing
    to an ideal, cumulative timeline. */
module TimingClient {
  import opened Basics
  import opened Wire
  import opened Codec

  const U64_MAX: nat := 0xffff_ffff_ffff_ffff
  const DAY: nat := 86_400
  const MAX_STEP_TICKS: nat := 3_600_000_000_000_000

  type Tick = n: nat | n <= U64_MAX

  datatype Reply =
    | Done(end: Tick)
    | Advanced(start: Tick, end: Tick)
    | Paused(at: Tick)
    | Bye
    | Unparsable
    | Lost

  /** What became of sending a command; `Unavailable`: nobody listens yet. */
  datatype Sending = Sent | Broken | BadPath | Unavailable

  datatype Fault =
    | AlreadyFinished | BadInterval | TargetOverflow
    | CommandPending | SessionOver | InvalidPath | SendFailed
    | NoCommand | NoReply | BadReply | FinishedEarly | OutsideSession | FirstTargetOverflow
    | NotReady | NotBye
    | NoServer | BadTimeout | Cancelled | TimedOut

  datatype Session = Session(
    nominal: nat, target: nat, last: nat, first: nat,
    anchored: bool, stopped: bool, failed: bool, finished: bool, pending: bool)

  const FRESH := Session(0, 0, 0, 0, false, false, false, false, false)

  // ----- The session, on mathematical integers -----

  /** The ticks that a step asks for: what the ideal timeline misses, never
      negative and at most one simulated hour. */
  function Request(s: Session, nominal: nat): (ticks: nat)
    ensures ticks <= MAX_STEP_TICKS
  {
    if s.anchored then Min(MAX_STEP_TICKS, Max(0, s.target + nominal - s.last)) else Min(MAX_STEP_TICKS, nominal)
  }

  /** `patient`: that nobody listens yet is not a failure. */
  function Sends(s: Session, io: Sending, patient: bool): (r: (Session, Option<Fault>))
  {
    if s.pending then (s, Some(CommandPending))
    else if s.stopped || s.failed then (s, Some(SessionOver))
    else
      match io
      case BadPath => (s, Some(InvalidPath))
      case Sent => (s.(pending := true), None)
      case Broken => (s.(failed := true), Some(SendFailed))
      case Unavailable => if patient then (s, Some(NoServer)) else (s.(failed := true), Some(SendFailed))
  }

  function Started(s: Session, interval: int, io: Sending): (r: (Session, Result<nat, Fault>))
  {
    if s.finished then (s, Err(AlreadyFinished))
    else if interval <= 0 || interval > HOUR then (s, Err(BadInterval))
    else if s.anchored && s.target + 1000 * interval > U64_MAX then (s, Err(TargetOverflow))
    else
      var (sent, fault) := Sends(s, io, false);
      if fault.Some? then (sent, Err(fault.value))
      else
        (sent.(nominal := 1000 * interval, target := if s.anchored then s.target + 1000 * interval else s.target),
         Ok(Request(s, 1000 * interval)))
  }

  function Waited(s: Session, reply: Reply): (r: (Session, Option<Fault>))
  {
    if !s.pending then (s, Some(NoCommand))
    else
      var read := s.(pending := false);
      var broken := read.(failed := true);
      match reply
      case Lost => (broken, Some(NoReply))
      case Done(_) => (read.(finished := true), Some(FinishedEarly))
      case Advanced(start, end) =>
        if end < start then (broken, Some(BadReply))
        else if s.anchored then
          if start != s.last then (broken, Some(OutsideSession)) else (read.(last := end), None)
        else if start + s.nominal > U64_MAX then (broken, Some(FirstTargetOverflow))
        else (read.(target := start + s.nominal, first := start, anchored := true, last := end), None)
      case _ => (broken, Some(BadReply))
  }

  function Quits(s: Session, io: Sending, answer: Reply): (r: (Session, Option<Fault>))
  {
    var (sent, broken) := Sends(s, io, false);
    if broken.Some? then (sent, broken)
    else if answer.Bye? then (sent.(pending := false, stopped := true), None)
    else (sent.(pending := false, failed := true), Some(if answer.Lost? then NoReply else NotBye))
  }

  function Shut(s: Session, step: Reply, io: Sending, answer: Reply): (r: (Session, Option<Fault>))
  {
    if s.stopped then (s, None)
    else
      var (idle, fault) := if s.pending then Waited(s, step) else (s, None);
      if fault.Some? then (idle, fault) else Quits(idle, io, answer)
  }

  /** One try to reach the simulator; after a vain one the caller may cancel, or time may be up. */
  datatype Attempt = Attempt(io: Sending, cancelled: bool, late: bool)

  /** `NotYet`: the attempts so far do not decide. */
  datatype Readiness = Ready | NotYet | Refused(fault: Fault)

  /** The answer to STATUS: a simulator that has not finished is paused. */
  function Checked(s: Session, reply: Reply): (r: (Session, Readiness))
  {
    var read := s.(pending := false);
    if reply.Paused? then (read, Ready)
    else (read.(failed := true), Refused(if reply.Lost? then NoReply else NotReady))
  }

  function Tries(s: Session, attempts: seq<Attempt>, reply: Reply): (r: (Session, Readiness))
  {
    if attempts == [] then (s, NotYet)
    else
      match Sends(s, attempts[0].io, true)
      case (sent, None) => Checked(sent, reply)
      case (sent, Some(fault)) =>
        if !fault.NoServer? then (sent, Refused(fault))
        else if attempts[0].cancelled then (sent, Refused(Cancelled))
        else if attempts[0].late then (sent, Refused(TimedOut))
        else Tries(sent, attempts[1..], reply)
  }

  // ----- The controller object, on 64-bit words -----

  class TimingController {
    var nominal: Tick
    var target: Tick
    var last: Tick
    var first: Tick
    var anchored: bool
    var stopped: bool
    var failed: bool
    var finished: bool
    /** A socket is open: a command awaits its reply. */
    var pending: bool

    function State(): (s: Session)
      reads this
    {
      Session(nominal, target, last, first, anchored, stopped, failed, finished, pending)
    }

    ghost predicate Valid()
      reads this
    {
      anchored ==> first <= last
    }

    constructor ()
      ensures Valid() && State() == FRESH
    {
      nominal, target, last, first := 0, 0, 0, 0;
      anchored, stopped, failed, finished, pending := false, false, false, false, false;
    }

    /** `request`. */
    method Send(io: Sending, patient: bool) returns (fault: Option<Fault>)
      requires Valid()
      modifies this
      ensures Valid()
      ensures (State(), fault) == Sends(old(State()), io, patient)
    {
      if pending {
        return Some(CommandPending);
      }
      if stopped || failed {
        return Some(SessionOver);
      }
      match io {
        case BadPath => return Some(InvalidPath);
        case Sent =>
          pending := true;
          return None;
        case Broken =>
          failed := true;
          return Some(SendFailed);
        case Unavailable =>
          if patient {
            return Some(NoServer);
          }
          failed := true;
          return Some(SendFailed);
      }
    }

    /** The arithmetic of `start`: the next point of the timeline, and what is missing to it. */
    method Plan(wanted: Tick) returns (goal: Tick, ticks: Tick)
      requires anchored ==> target + wanted <= U64_MAX
      ensures anchored ==> goal == target + wanted
      ensures ticks == Request(State(), wanted)
    {
      goal := if anchored then (target + wanted) % U64_LIMIT else 0;
      ticks := if anchored then if goal > last then (goal - last) % U64_LIMIT else 0 else wanted;
      if ticks > MAX_STEP_TICKS {
        ticks := MAX_STEP_TICKS;
      }
    }

    /** `start`, with the wrap-around of unsigned arithmetic written out: the
        specification has none, so none happens. */
    method Start(interval: int, io: Sending) returns (r: Result<nat, Fault>)
      requires Valid()
      modifies this
      ensures Valid()
      ensures (State(), r) == Started(old(State()), interval, io)
    {
      if finished {
        return Err(AlreadyFinished);
      }
      if interval <= 0 || interval > HOUR {
        return Err(BadInterval);
      }
      var wanted: Tick := interval * 1000 % U64_LIMIT;
      if anchored && wanted > (U64_MAX - target) % U64_LIMIT {
        return Err(TargetOverflow);
      }
      var goal, ticks := Plan(wanted);
      var fault := Send(io, false);
      if fault.Some? {
        return Err(fault.value);
      }
      nominal := wanted;
      if anchored {
        target := goal;
      }
      return Ok(ticks);
    }

    /** `wait`. */
    method Wait(reply: Reply) returns (fault: Option<Fault>)
      requires Valid()
      modifies this
      ensures Valid()
      ensures (State(), fault) == Waited(old(State()), reply)
    {
      if !pending {
        return Some(NoCommand);
      }
      pending := false;
      if reply.Lost? {
        failed := true;
        return Some(NoReply);
      }
      if reply.Done? {
        finished := true;
        return Some(FinishedEarly);
      }
      if !reply.Advanced? || reply.end < reply.start {
        failed := true;
        return Some(BadReply);
      }
      if anchored && reply.start != last {
        failed := true;
        return Some(OutsideSession);
      }
      if !anchored {
        if nominal > (U64_MAX - reply.start) % U64_LIMIT {
          failed := true;
          return Some(FirstTargetOverflow);
        }
        target := (reply.start + nominal) % U64_LIMIT;
        first := reply.start;
        anchored := true;
      }
      last := reply.end;
      return None;
    }

    /** `elapsed_ticks`: an unsigned difference, which never wraps around. */
    method ElapsedTicks() returns (ticks: Tick)
      requires Valid()
      ensures ticks == if anchored then last - first else 0
    {
      ticks := if anchored then (last - first) % U64_LIMIT else 0;
    }

    /** `wait_until_ready`, with the timeout in seconds. */
    method WaitUntilReady(timeout: int, attempts: seq<Attempt>, reply: Reply) returns (r: Readiness)
      requires Valid()
      modifies this
      ensures Valid()
      ensures !(0 < timeout <= DAY) ==> r == Refused(BadTimeout) && State() == old(State())
      ensures 0 < timeout <= DAY ==> (State(), r) == Tries(old(State()), attempts, reply)
    {
      if timeout <= 0 || timeout > DAY {
        return Refused(BadTimeout);
      }
      var i := 0;
      while true
        invariant Valid() && 0 <= i <= |attempts|
        invariant Tries(old(State()), attempts, reply) == Tries(State(), attempts[i..], reply)
        decreases |attempts| - i
      {
        if i == |attempts| {
          return NotYet;
        }
        var attempt := attempts[i];
        assert attempts[i..][0] == attempt && attempts[i..][1..] == attempts[i + 1..];
        i := i + 1;
        var fault := Send(attempt.io, true);
        if fault.None? {
          break;
        }
        if !fault.value.NoServer? {
          return Refused(fault.value);
        }
        if attempt.cancelled {
          return Refused(Cancelled);
        }
        if attempt.late {
          return Refused(TimedOut);
        }
      }
      pending := false;
      if !reply.Paused? {
        failed := true;
        return Refused(if reply.Lost? then NoReply else NotReady);
      }
      return Ready;
    }

    /** The last command: only its proper answer stops the session. */
    method Quit(io: Sending, answer: Reply) returns (fault: Option<Fault>)
      requires Valid()
      modifies this
      ensures Valid()
      ensures (State(), fault) == Quits(old(State()), io, answer)
    {
      fault := Send(io, false);
      if fault.Some? {
        return;
      }
      pending := false;
      if answer != Bye {
        failed := true;
        return Some(if answer == Lost then NoReply else NotBye);
      }
      stopped := true;
    }

    /** `shutdown`: a pending step is waited for, then QUIT must be answered. */
    method Shutdown(step: Reply, io: Sending, answer: Reply) returns (fault: Option<Fault>)
      requires Valid()
      modifies this
      ensures Valid()
      ensures (State(), fault) == Shut(old(State()), step, io, answer)
    {
      if stopped {
        return None;
      }
      ghost var s := State();
      if pending {
        fault := Wait(step);
        if fault.Some? {
          assert Shut(s, step, io, answer) == Waited(s, step);
          return;
        }
      }
      assert Shut(s, step, io, answer) == Quits(State(), io, answer);
      fault := Quit(io, answer);
    }
  }

  lemma QuitTells(s: Session, io: Sending, answer: Reply)
    requires !s.stopped
    ensures var (t, fault) := Quits(s, io, answer);
      && (fault == None <==> t.stopped)
      && (t.stopped <==> !s.pending && !s.failed && io.Sent? && answer.Bye?)
      && t.(stopped := false, failed := s.failed, pending := s.pending) == s
  {
  }

  /** A session ends only by a QUIT that was sent and answered, after the last
      step was; the timeline is not touched, except by the answer to a pending step. */
  lemma ShutdownTells(s: Session, step: Reply, io: Sending, answer: Reply)
    ensures var (t, fault) := Shut(s, step, io, answer);
      && (fault == None <==> t.stopped)
      && (t.stopped <==> s.stopped || (!s.failed && io.Sent? && answer.Bye? && (s.pending ==> Waited(s, step).1.None?)))
    ensures var t := Shut(s, step, io, answer).0;
      !s.pending ==> t.target == s.target && t.last == s.last && t.first == s.first && t.anchored == s.anchored
  {
    if !s.stopped {
      QuitTells(if s.pending then Waited(s, step).0 else s, io, answer);
    }
  }

  /** Ending a session twice is ending it once. */
  lemma ShutdownOnce(s: Session, step: Reply, io: Sending, answer: Reply)
    ensures var (t, fault) := Shut(s, step, io, answer);
      fault == None ==> Shut(t, step, io, answer) == (t, None)
  {
  }

  /** Nobody listens, and nothing keeps the caller from trying again. */
  predicate Vain(a: Attempt)
  {
    a.io.Unavailable? && !a.cancelled && !a.late
  }

  /** The n-th attempt is the first that reaches the simulator. */
  predicate Reaches(attempts: seq<Attempt>, n: nat)
  {
    && n < |attempts| && attempts[n].io.Sent?
    && forall i :: 0 <= i < n ==> Vain(attempts[i])
  }

  lemma ReachesStep(attempts: seq<Attempt>)
    requires attempts != []
    ensures (exists n :: Reaches(attempts, n)) <==>
      || attempts[0].io.Sent?
      || (Vain(attempts[0]) && exists n :: Reaches(attempts[1..], n))
  {
    if attempts[0].io.Sent? {
      assert Reaches(attempts, 0);
    }
    forall n: nat | Reaches(attempts, n) && n > 0
      ensures Reaches(attempts[1..], n - 1)
    {
    }
    forall n: nat | Reaches(attempts[1..], n) && Vain(attempts[0])
      ensures Reaches(attempts, n + 1)
    {
      assert forall i :: 0 < i <= n + 1 ==> attempts[i] == attempts[1..][i - 1];
    }
  }

  /** Waiting for the simulator leaves the timeline alone, and a session that never
      reached the simulator is as good as before. */
  lemma {:induction false} TriesKeep(s: Session, attempts: seq<Attempt>, reply: Reply)
    ensures var (t, r) := Tries(s, attempts, reply);
      t.(failed := s.failed, pending := s.pending) == s && (r.Ready? ==> t == s)
    ensures (forall i :: 0 <= i < |attempts| ==> attempts[i].io.Unavailable?) ==> Tries(s, attempts, reply).0 == s
    decreases |attempts|
  {
    if attempts == [] || Sends(s, attempts[0].io, true) != (s, Some(NoServer)) {
    } else {
      TriesKeep(s, attempts[1..], reply);
    }
  }

  /** It succeeds if and only if, after vain attempts that nothing cut short, one
      command was sent on a live session and answered by a paused simulator. */
  lemma {:induction false} TriesTell(s: Session, attempts: seq<Attempt>, reply: Reply)
    ensures Tries(s, attempts, reply).1.Ready? <==>
      !s.pending && !s.stopped && !s.failed && reply.Paused? && exists n :: Reaches(attempts, n)
    decreases |attempts|
  {
    if attempts == [] {
    } else {
      TriesTell(s, attempts[1..], reply);
      ReachesStep(attempts);
    }
  }

  // ----- Bounded drift -----

  /** Where the simulator stands, relative to the ideal timeline. */
  function Drift(s: Session): (d: int)
  {
    s.last - s.target
  }

  predicate Steady(s: Session)
  {
    && s.anchored && !s.stopped && !s.failed && !s.finished && !s.pending
    && s.first <= s.last <= U64_MAX && s.first <= s.target <= U64_MAX
  }

  /** A reply whose progress is within e ticks of the request; a request of zero moves nothing. */
  predicate WithinError(ticks: nat, progress: nat, e: nat)
  {
    Abs(progress - ticks) <= e && (ticks == 0 ==> progress == 0)
  }

  datatype Round = Round(interval: int, progress: nat)

  /** One start and one wait. The reply continues from the last tick; that of the
      first round begins wherever the simulator stands. */
  function Played(s: Session, begin: Tick, r: Round): (t: Session)
  {
    var from := if s.anchored then s.last else begin;
    if from + r.progress > U64_MAX then s
    else Waited(Started(s, r.interval, Sent).0, Advanced(from, from + r.progress)).0
  }

  /** A valid interval, within the tick range, and a reply within e of the request. */
  predicate Answered(s: Session, begin: Tick, r: Round, e: nat)
  {
    && 0 < r.interval <= HOUR
    && (if s.anchored then s.target else begin) + 1000 * r.interval <= U64_MAX
    && WithinError(Request(s, 1000 * r.interval), r.progress, e)
    && (if s.anchored then s.last else begin) + r.progress <= U64_MAX
  }

  /** The session after some rounds from its construction. */
  function AfterRounds(begin: Tick, rounds: seq<Round>): (s: Session)
  {
    if rounds == [] then FRESH
    else Played(AfterRounds(begin, rounds[..|rounds| - 1]), begin, rounds[|rounds| - 1])
  }

  /** Every round is answered, in the state that the earlier ones leave. */
  predicate AllAnswered(begin: Tick, rounds: seq<Round>, e: nat)
  {
    rounds != [] ==>
      var front := rounds[..|rounds| - 1];
      AllAnswered(begin, front, e) && Answered(AfterRounds(begin, front), begin, rounds[|rounds| - 1], e)
  }

  function Intervals(rounds: seq<Round>): (n: int)
  {
    if rounds == [] then 0 else Intervals(rounds[..|rounds| - 1]) + rounds[|rounds| - 1].interval
  }

  /** The first round anchors the timeline within the error of one reply; it is never clamped. */
  lemma FirstRoundAnchors(begin: Tick, r: Round, e: nat)
    requires Answered(FRESH, begin, r, e)
    ensures var t := Played(FRESH, begin, r);
      Steady(t) && t.first == begin && t.target == begin + 1000 * r.interval && Abs(Drift(t)) <= e
  {
  }

  /** Every round moves the target by its interval, whatever the reply. */
  lemma RoundMovesTarget(s: Session, begin: Tick, r: Round, e: nat)
    requires Steady(s) && Answered(s, begin, r, e)
    ensures var t := Played(s, begin, r);
      && Steady(t) && t.first == s.first && t.target == s.target + 1000 * r.interval
      && t.last == s.last + r.progress
  {
  }

  /** One round keeps the drift within the error of one reply, and is not clamped,
      if its interval leaves room for the error below the cap of a request. */
  lemma RoundKeepsDrift(s: Session, begin: Tick, r: Round, e: nat)
    requires Steady(s) && Abs(Drift(s)) <= e && Answered(s, begin, r, e)
    requires 1000 * r.interval + e <= MAX_STEP_TICKS
    ensures Abs(Drift(Played(s, begin, r))) <= e
    ensures Request(s, 1000 * r.interval) == Max(0, s.target + 1000 * r.interval - s.last)
  {
    RoundMovesTarget(s, begin, r, e);
  }

  /** What rounds from the construction always give, whatever their errors. */
  lemma {:induction false} RoundsAnchor(begin: Tick, rounds: seq<Round>, e: nat)
    requires rounds != [] && AllAnswered(begin, rounds, e)
    ensures var t := AfterRounds(begin, rounds);
      Steady(t) && t.first == begin && t.target == begin + 1000 * Intervals(rounds)
    decreases |rounds|
  {
    var front, last := rounds[..|rounds| - 1], rounds[|rounds| - 1];
    if front == [] {
      FirstRoundAnchors(begin, last, e);
    } else {
      RoundsAnchor(begin, front, e);
      RoundMovesTarget(AfterRounds(begin, front), begin, last, e);
    }
  }

  /** Bounded drift over any number of rounds: the target is the first tick plus
      the sum of the intervals, and the error never exceeds that of one reply. */
  lemma {:induction false} DriftIsBounded(begin: Tick, rounds: seq<Round>, e: nat)
    requires rounds != [] && AllAnswered(begin, rounds, e)
    requires forall i :: 0 <= i < |rounds| ==> 1000 * rounds[i].interval + e <= MAX_STEP_TICKS
    ensures var t := AfterRounds(begin, rounds);
      && Steady(t) && t.first == begin && t.target == begin + 1000 * Intervals(rounds)
      && Abs(Drift(t)) <= e
    decreases |rounds|
  {
    var front, last := rounds[..|rounds| - 1], rounds[|rounds| - 1];
    RoundsAnchor(begin, rounds, e);
    if front == [] {
      FirstRoundAnchors(begin, last, e);
    } else {
      DriftIsBounded(begin, front, e);
      RoundKeepsDrift(AfterRounds(begin, front), begin, last, e);
    }
  }

  // ----- When the bound is kept -----

  predicate Reaching(begin: Tick, rounds: seq<Round>, s: Session, e: nat)
  {
    rounds != [] && AllAnswered(begin, rounds, e) && AfterRounds(begin, rounds) == s
  }

  /** A session that some rounds with replies within e lead to. */
  ghost predicate Reached(s: Session, e: nat)
  {
    exists begin, rounds :: Reaching(begin, rounds, s, e)
  }

  /** One more round of the interval keeps the bound, in every session that is
      reached within it and for every reply within the error. */
  ghost predicate KeepsBound(interval: int, e: nat)
  {
    forall s, r: Round ::
      Reached(s, e) && Abs(Drift(s)) <= e && r.interval == interval && Answered(s, 0, r, e)
      ==> Abs(Drift(Played(s, 0, r))) <= e
  }

  /** The latest whole nanosecond of the tick range. */
  const LAST_NANOSECOND: nat := 1000 * (U64_MAX / 1000)

  /** The target of a session is whole nanoseconds after its first tick. */
  lemma ReachedKeeps(s: Session, e: nat) returns (n: int)
    requires Reached(s, e)
    ensures Steady(s) && s.target == s.first + 1000 * n
  {
    var begin, rounds :| Reaching(begin, rounds, s, e);
    RoundsAnchor(begin, rounds, e);
    n := Intervals(rounds);
  }

  /** A reply never overshoots the target by more than e. */
  lemma NeverAhead(s: Session, r: Round, e: nat)
    requires Steady(s) && Abs(Drift(s)) <= e && Answered(s, 0, r, e)
    ensures Drift(Played(s, 0, r)) <= e
  {
    RoundMovesTarget(s, 0, r, e);
  }

  lemma WholeNanoseconds(n: int)
    requires 1000 * n <= U64_MAX
    ensures 1000 * n <= LAST_NANOSECOND
  {
  }

  /** No target of the tick range is further ahead of the first tick, and so of the last. */
  lemma HugeErrorIsKept(s: Session, r: Round, e: nat)
    requires Reached(s, e) && Abs(Drift(s)) <= e && Answered(s, 0, r, e) && e >= LAST_NANOSECOND
    ensures Abs(Drift(Played(s, 0, r))) <= e
  {
    var n := ReachedKeeps(s, e);
    NeverAhead(s, r, e);
    RoundMovesTarget(s, 0, r, e);
    WholeNanoseconds(n + r.interval);
  }

  lemma ReachedNext(s: Session, r: Round, e: nat)
    requires Reached(s, e) && Answered(s, 0, r, e)
    ensures Reached(Played(s, 0, r), e)
  {
    var begin, rounds :| Reaching(begin, rounds, s, e);
    var longer := rounds + [r];
    var _ := ReachedKeeps(s, e);
    assert longer[..|longer| - 1] == rounds;
    assert Reaching(begin, longer, Played(s, 0, r), e);
  }

  lemma ReachedFirst(begin: Tick, r: Round, e: nat)
    requires Answered(FRESH, begin, r, e)
    ensures Reached(Played(FRESH, begin, r), e)
  {
    var rounds := [r];
    var front := rounds[..|rounds| - 1];
    assert front == [] && AfterRounds(begin, front) == FRESH;
    assert AfterRounds(begin, rounds) == Played(AfterRounds(begin, front), begin, r);
    assert Reaching(begin, rounds, Played(FRESH, begin, r), e);
  }

  /** A simulator that does not move at all, for n nanoseconds: no reply is off by more than the cap. */
  lemma {:induction false} StandsStill(n: nat, e: nat) returns (s: Session)
    requires 1 <= n && 1000 * n <= U64_MAX && e >= MAX_STEP_TICKS
    ensures Reached(s, e) && s.first == s.last == 0 && s.target == 1000 * n
    decreases n
  {
    if n <= HOUR {
      var r := Round(n, 0);
      ReachedFirst(0, r, e);
      FirstRoundAnchors(0, r, e);
      s := Played(FRESH, 0, r);
    } else {
      var before := StandsStill(n - HOUR, e);
      var r := Round(HOUR, 0);
      var _ := ReachedKeeps(before, e);
      ReachedNext(before, r, e);
      RoundMovesTarget(before, 0, r, e);
      s := Played(before, 0, r);
    }
  }

  /** A run of two rounds that breaks the bound: each reply falls short by e, and
      the second request is cut at the cap. */
  lemma CappedRunDrifts(interval: int, e: nat) returns (s: Session, r: Round)
    requires 0 < interval <= HOUR && e < MAX_STEP_TICKS < 1000 * interval + e
    ensures Reached(s, e) && Abs(Drift(s)) <= e && r.interval == interval && Answered(s, 0, r, e)
    ensures Abs(Drift(Played(s, 0, r))) > e
  {
    var first := Round(HOUR, MAX_STEP_TICKS - e);
    ReachedFirst(0, first, e);
    FirstRoundAnchors(0, first, e);
    s, r := Played(FRESH, 0, first), Round(interval, MAX_STEP_TICKS - e);
    RoundMovesTarget(s, 0, r, e);
  }

  /** When e is above the cap, a simulator that stands still breaks the bound. */
  lemma StillRunDrifts(interval: int, e: nat) returns (s: Session, r: Round)
    requires 0 < interval <= HOUR && MAX_STEP_TICKS <= e < LAST_NANOSECOND
    ensures Reached(s, e) && Abs(Drift(s)) <= e && r.interval == interval && Answered(s, 0, r, e)
    ensures Abs(Drift(Played(s, 0, r))) > e
  {
    var n := e / 1000 + 1 - interval;
    s := StandsStill(n, e);
    r := Round(interval, 0);
    var _ := ReachedKeeps(s, e);
    RoundMovesTarget(s, 0, r, e);
  }

  /** The bound is kept by a round of a given interval, in every session that is
      reached from a construction by rounds of any intervals, and for every reply,
      if and only if the interval leaves room for the error below the one-hour cap,
      or the error is as large as the tick range. */
  lemma DriftBoundIff(interval: int, e: nat)
    requires 0 < interval <= HOUR
    ensures KeepsBound(interval, e) <==> 1000 * interval + e <= MAX_STEP_TICKS || e >= LAST_NANOSECOND
  {
    if 1000 * interval + e <= MAX_STEP_TICKS || e >= LAST_NANOSECOND {
      forall s, r: Round |
        Reached(s, e) && Abs(Drift(s)) <= e && r.interval == interval && Answered(s, 0, r, e)
        ensures Abs(Drift(Played(s, 0, r))) <= e
      {
        if e >= LAST_NANOSECOND {
          HugeErrorIsKept(s, r, e);
        } else {
          var _ := ReachedKeeps(s, e);
          RoundKeepsDrift(s, 0, r, e);
        }
      }
    } else if e < MAX_STEP_TICKS {
      var s, r := CappedRunDrifts(interval, e);
      assert !KeepsBound(interval, e);
    } else {
      var s, r := StillRunDrifts(interval, e);
      assert !KeepsBound(interval, e);
    }
  }
}
