/** The job runner: configured jobs in a bounded number of containers, with
    interruption, cleanup and resumption from the recorded statuses. */
module Scheduler {
  import opened Basics

  /** Job names: all that matters is which are equal. */
  type Name(==, !new)

  datatype Status = Queued | Running | Completed | Failed | Interrupted

  type Records = map<Name, Status>

  /** Signal numbers are positive. */
  type Signal = n: nat | n > 0 witness 1

  /** What a poll of an active job finds; `saved`: the new status could be saved;
      `Stuck`: the job ended, but its container could not be removed. */
  datatype Poll = Alive | Exited(code: int, saved: bool) | Stuck

  /** How a launch goes: a failure before the record is written, before the process
      starts, of the process itself, or of saving its record once it runs. */
  datatype Launch = Launched | NotPrepared | NotLogged | NotStarted | NotSaved

  /** One turn of the main loop: a signal before it, the polls, for each launch a
      signal that may come first, and whether the progress could be reported. */
  datatype Turn = Turn(
    signal: Option<Signal>, polls: map<Name, Poll>, launches: seq<(Option<Signal>, Launch)>, reported: bool)

  /** How a run ends: with an exit code, with an exception, or not yet. */
  datatype End = Exit(code: nat) | Raised | Unfinished

  predicate Distinct(s: seq<Name>)
  {
    forall i, j :: 0 <= i < j < |s| ==> s[i] != s[j]
  }

  predicate Final(s: Status)
  {
    s.Completed? || s.Failed?
  }

  /** The jobs that a run has to do, in the order of the configuration. */
  function Waiting(jobs: seq<Name>, records: Records): (p: seq<Name>)
    requires forall j :: j in jobs ==> j in records
    ensures forall j :: j in p <==> j in jobs && !records[j].Completed?
    ensures |p| <= |jobs|
  {
    if jobs == [] then []
    else
      var rest := Waiting(jobs[1..], records);
      if records[jobs[0]].Completed? then rest else [jobs[0]] + rest
  }

  lemma {:induction false} WaitingDistinct(jobs: seq<Name>, records: Records)
    requires Distinct(jobs) && forall j :: j in jobs ==> j in records
    ensures Distinct(Waiting(jobs, records))
  {
    if jobs == [] {
    } else {
      WaitingDistinct(jobs[1..], records);
      assert forall j :: j in jobs[1..] ==> jobs[0] != j;
    }
  }

  lemma PrefixMembers(a: seq<Name>, b: seq<Name>)
    requires a <= b
    ensures forall j :: j in a ==> j in b
  {
    assert forall n :: 0 <= n < |a| ==> a[n] == b[n];
  }

  lemma CountLeft(all: set<Name>, some: set<Name>)
    requires some <= all
    ensures |some| <= |all|
  {
    if some == {} {
    } else {
      var x :| x in some;
      CountLeft(all - {x}, some - {x});
    }
  }

  // ----- Polling -----

  /** A job that no poll mentions is still running. */
  function PollOf(polls: map<Name, Poll>, j: Name): (p: Poll)
  {
    if j in polls then polls[j] else Alive
  }

  /** The jobs that left the active ones have the status of their exit code, and
      every other record is as before. */
  ghost predicate Settled(before: Records, active: set<Name>, polls: map<Name, Poll>, after: Records, still: set<Name>)
  {
    && after.Keys == before.Keys
    && (forall j :: j in before && j !in active - still ==> after[j] == before[j])
    && (forall j :: j in active - still ==>
          && PollOf(polls, j).Exited? && j in before
          && after[j] == if PollOf(polls, j).code == 0 then Completed else Failed)
  }

  /** Why the polling may raise. */
  predicate Troubled(p: Poll)
  {
    p.Stuck? || (p.Exited? && !p.saved)
  }

  /** The polling loop: every job that exited is settled; false, and an end to the
      polling, if a container could not be removed or the state not be saved. */
  method PollAll(records: Records, active: set<Name>, polls: map<Name, Poll>)
    returns (after: Records, still: set<Name>, ok: bool)
    requires active <= records.Keys
    ensures still <= active && Settled(records, active, polls, after, still)
    ensures ok ==> forall j :: j in still ==> PollOf(polls, j).Alive?
    ensures ok <==> forall j :: j in active ==> !Troubled(PollOf(polls, j))
  {
    after, still := records, active;
    var rest := active;
    while rest != {}
      invariant rest <= still <= active
      invariant Settled(records, active, polls, after, still)
      invariant forall j :: j in still - rest ==> PollOf(polls, j).Alive?
      invariant forall j :: j in active - rest ==> !Troubled(PollOf(polls, j))
      decreases rest
    {
      var name :| name in rest;
      rest := rest - {name};
      match PollOf(polls, name) {
        case Alive =>
        case Stuck => return after, still, false;
        case Exited(code, saved) =>
          after := after[name := if code == 0 then Completed else Failed];
          still := still - {name};
          if !saved {
            return after, still, false;
          }
      }
    }
    return after, still, true;
  }

  // ----- Cleanup -----

  /** After the cleanup the active jobs are recorded as interrupted, except the stuck ones. */
  ghost predicate Cleaned(records: Records, active: set<Name>, stuck: set<Name>, after: Records)
  {
    && after.Keys == records.Keys
    && (forall j :: j in records && (j !in active || j in stuck) ==> after[j] == records[j])
    && (forall j :: j in active && j !in stuck ==> j in records && after[j] == Interrupted)
  }

  /** The cleanup of `finally`: every job still active is stopped and recorded as
      interrupted; those whose cleanup fails keep their record. */
  method Cleanup(records: Records, active: set<Name>, stuck: set<Name>) returns (after: Records, clean: bool)
    requires active <= records.Keys
    ensures Cleaned(records, active, stuck, after)
    ensures clean <==> active !! stuck
  {
    after, clean := records, true;
    var rest := active;
    while rest != {}
      invariant rest <= active && after.Keys == records.Keys
      invariant forall j :: j in records && (j !in active - rest || j in stuck) ==> after[j] == records[j]
      invariant forall j :: j in active - rest && j !in stuck ==> after[j] == Interrupted
      invariant clean <==> (active - rest) !! stuck
      decreases rest
    {
      var name :| name in rest;
      rest := rest - {name};
      if name in stuck {
        clean := false;
      } else {
        after := after[name := Interrupted];
      }
    }
  }

  // ----- What a run keeps -----

  /** What one run, however it ends, does to the records: only jobs that were
      waiting are started, each once and in order; the others keep their record. */
  ghost predicate RunKeeps(jobs: seq<Name>, before: Records, after: Records, started: seq<Name>)
    requires forall j :: j in jobs ==> j in before
  {
    && after.Keys == before.Keys
    && Distinct(started) && started <= Waiting(jobs, before)
    && (forall j :: j in before && j !in started ==> after[j] == before[j])
  }

  /** A run under way. Beside the queues, the records and the signal of the program it
      remembers the records and the work at its start, the jobs started, the starts
      and settlements so far, and the most jobs that were ever active together. */
  datatype Books = Books(
    pending: seq<Name>, records: Records, active: set<Name>, interrupted: Option<Signal>,
    before: Records, todo: seq<Name>, started: seq<Name>, moves: nat, peak: nat)

  /** The jobs to do are those started and those pending, in order; active jobs
      were started and are recorded as running; other records are as before. */
  ghost predicate Kept(w: Books)
  {
    && w.before.Keys == w.records.Keys
    && w.started + w.pending == w.todo && Distinct(w.todo)
    && (forall j :: j in w.todo ==> j in w.before && !w.before[j].Completed?)
    && (forall j :: j in w.active ==> j in w.started && j in w.records && w.records[j].Running?)
    && (forall j :: j in w.before && j !in w.started ==> w.records[j] == w.before[j])
  }

  /** Never too many jobs at a time, and every move brings the end nearer. */
  predicate Bounded(w: Books, workers: nat)
  {
    |w.active| <= w.peak <= workers && w.moves + 2 * |w.pending| + |w.active| <= 2 * |w.todo|
  }

  /** Every job that was started and is not active has its final status. */
  ghost predicate AllFinal(w: Books)
  {
    forall j :: j in w.started && j !in w.active && j in w.records ==> Final(w.records[j])
  }

  /** The same run, further on. */
  predicate Follows(w: Books, t: Books)
  {
    && t.before == w.before && t.todo == w.todo
    && w.started <= t.started && w.peak <= t.peak && (w.interrupted.Some? ==> t.interrupted.Some?)
  }

  function Begin(jobs: seq<Name>, records: Records): (w: Books)
    requires forall j :: j in jobs ==> j in records
  {
    var waiting := Waiting(jobs, records);
    Books(waiting, records, {}, None, records, waiting, [], 0, 0)
  }

  lemma KeptAtBegin(jobs: seq<Name>, workers: nat, records: Records)
    requires Distinct(jobs) && forall j :: j in jobs ==> j in records
    ensures var w := Begin(jobs, records); Kept(w) && AllFinal(w) && Bounded(w, workers)
  {
    WaitingDistinct(jobs, records);
    assert [] + Waiting(jobs, records) == Waiting(jobs, records);
  }

  // ----- Polls -----

  function AfterPolls(w: Books, after: Records, still: set<Name>): (t: Books)
    requires |still| <= |w.active|
  {
    w.(records := after, active := still, moves := w.moves + (|w.active| - |still|))
  }

  lemma KeptByPolls(w: Books, polls: map<Name, Poll>, after: Records, still: set<Name>)
    requires Kept(w) && AllFinal(w)
    requires still <= w.active && Settled(w.records, w.active, polls, after, still)
    ensures |still| <= |w.active| && Kept(AfterPolls(w, after, still)) && AllFinal(AfterPolls(w, after, still))
  {
    CountLeft(w.active, still);
  }

  // ----- Launches -----

  /** One launch: how far it gets shows in the record, and in the active jobs. */
  function AfterLaunch(w: Books, how: Launch): (t: Books)
    requires w.pending != []
  {
    var name := w.pending[0];
    var taken := w.(started := w.started + [name], pending := w.pending[1..]);
    match how
    case NotPrepared => taken
    case NotLogged => taken.(records := w.records[name := Running])
    case NotStarted => taken.(records := w.records[name := Failed])
    case _ =>
      var now := w.active + {name};
      taken.(records := w.records[name := Running], active := now, moves := w.moves + 1, peak := Max(w.peak, |now|))
  }

  lemma KeptByTake(w: Books)
    requires Kept(w) && w.pending != []
    ensures Kept(w.(started := w.started + [w.pending[0]], pending := w.pending[1..]))
    ensures var name := w.pending[0];
      name !in w.started && name in w.before && w.records[name] == w.before[name] && !w.before[name].Completed?
  {
    var started, pending, todo := w.started, w.pending, w.todo;
    assert todo[|started|] == pending[0] && pending[0] in todo;
    assert forall i :: 0 <= i < |started| ==> started[i] == todo[i];
    assert started + [pending[0]] + pending[1..] == todo;
  }

  lemma KeptByRecord(w: Books, name: Name, s: Status)
    requires Kept(w) && name in w.started && name in w.before && name !in w.active
    ensures Kept(w.(records := w.records[name := s]))
    ensures s.Running? ==> Kept(w.(records := w.records[name := s], active := w.active + {name}))
  {
    assert w.records[name := s].Keys == w.records.Keys;
  }

  lemma KeptByLaunch(w: Books, workers: nat, how: Launch)
    requires Kept(w) && Bounded(w, workers) && w.pending != [] && |w.active| < workers
    ensures var t := AfterLaunch(w, how);
      Kept(t) && Bounded(t, workers) && Follows(w, t) && (how.Launched? ==> t.moves == w.moves + 1)
  {
    var name := w.pending[0];
    var taken := w.(started := w.started + [name], pending := w.pending[1..]);
    KeptByTake(w);
    KeptByRecord(taken, name, Running);
    KeptByRecord(taken, name, Failed);
  }

  /** Launches leave the records of the jobs started before alone and complete none. */
  ghost predicate Grown(was: Books, w: Books)
  {
    && was.started <= w.started && was.active <= w.active && w.records.Keys == was.records.Keys
    && (forall j :: j in was.started && j in was.records ==> w.records[j] == was.records[j])
    && (forall j :: j in w.started && j !in was.started ==> j in w.records && !w.records[j].Completed?)
  }

  /** All jobs launched since then are active. */
  ghost predicate Launching(was: Books, w: Books)
  {
    Grown(was, w) && forall j :: j in w.started && j !in was.started ==> j in w.active
  }

  lemma GrownByOne(was: Books, w: Books, how: Launch)
    requires Grown(was, w) && Kept(w) && w.pending != []
    ensures Grown(was, AfterLaunch(w, how))
  {
    var name := w.pending[0];
    KeptByTake(w);
    PrefixOfSum(w.started, [name]);
    PrefixTransitive(was.started, w.started, w.started + [name]);
    PrefixMembers(was.started, w.started);
  }

  lemma LaunchStep(was: Books, w: Books, how: Launch)
    requires Launching(was, w) && Kept(w) && w.pending != []
    ensures var t := AfterLaunch(w, how);
      Grown(was, t) && (how.Launched? ==> Launching(was, t) && (AllFinal(w) ==> AllFinal(t)))
  {
    GrownByOne(was, w, how);
    KeptByTake(w);
  }

  // ----- Why a job has its final status -----

  predicate Tells(p: Poll, success: bool)
  {
    p.Exited? && (p.code == 0) == success
  }

  /** Some turn's poll found that the job had exited, with success or without. */
  ghost predicate Reported(turns: seq<Turn>, j: Name, success: bool)
  {
    exists i :: 0 <= i < |turns| && Tells(PollOf(turns[i].polls, j), success)
  }

  /** Every started job with this final status exited accordingly. */
  ghost predicate Explained(turns: seq<Turn>, started: seq<Name>, records: Records, status: Status)
  {
    forall j :: j in started && j in records && records[j] == status ==> Reported(turns, j, status.Completed?)
  }

  lemma ExplainedByPolls(turns: seq<Turn>, n: nat, w: Books, after: Records, still: set<Name>, status: Status)
    requires n < |turns| && Explained(turns, w.started, w.records, status)
    requires Settled(w.records, w.active, turns[n].polls, after, still)
    ensures Explained(turns, w.started, after, status)
  {
    forall j | j in w.started && j in after && after[j] == status
      ensures Reported(turns, j, status.Completed?)
    {
      if j in w.active - still {
        assert Tells(PollOf(turns[n].polls, j), status.Completed?);
      }
    }
  }

  lemma ExplainedByLaunches(turns: seq<Turn>, was: Books, w: Books)
    requires Grown(was, w)
    requires Explained(turns, was.started, was.records, Completed) && Explained(turns, was.started, was.records, Failed)
    ensures Explained(turns, w.started, w.records, Completed)
    ensures Launching(was, w) && Kept(w) ==> Explained(turns, w.started, w.records, Failed)
  {
  }

  lemma ExplainedByCleanup(turns: seq<Turn>, w: Books, stuck: set<Name>, after: Records, status: Status)
    requires Explained(turns, w.started, w.records, status) && !status.Interrupted?
    requires Cleaned(w.records, w.active, stuck, after)
    ensures Explained(turns, w.started, after, status)
  {
  }

  // ----- How long a run takes -----

  /** A turn that finds no job running any more. */
  predicate Prompt(t: Turn, jobs: seq<Name>)
  {
    forall j :: j in jobs ==> !PollOf(t.polls, j).Alive?
  }

  /** How many of the first n turns are prompt. */
  function PromptTurns(turns: seq<Turn>, jobs: seq<Name>, n: nat): (k: nat)
    requires n <= |turns|
  {
    if n == 0 then 0 else PromptTurns(turns, jobs, n - 1) + (if Prompt(turns[n - 1], jobs) then 1 else 0)
  }

  /** Every turn knows the outcome of as many launches as there are jobs. */
  predicate Ample(turns: seq<Turn>, jobs: seq<Name>)
  {
    forall i :: 0 <= i < |turns| ==> |turns[i].launches| >= |jobs|
  }

  lemma NoneAlive(jobs: seq<Name>, w: Books, t: Turn)
    requires Kept(w) && (forall j :: j in w.todo ==> j in jobs) && Prompt(t, jobs)
    requires forall j :: j in w.active ==> PollOf(t.polls, j).Alive?
    ensures w.active == {}
  {
    PrefixOfSum(w.started, w.pending);
    PrefixMembers(w.started, w.todo);
  }

  // ----- The run -----

  /** The polling loop, in the books. */
  method PollActive(was: Books, polls: map<Name, Poll>) returns (w: Books, ok: bool)
    requires Kept(was) && AllFinal(was)
    ensures w.active <= was.active && Settled(was.records, was.active, polls, w.records, w.active)
    ensures |w.active| <= |was.active| && w == AfterPolls(was, w.records, w.active) && Kept(w) && AllFinal(w)
    ensures ok ==> forall j :: j in w.active ==> PollOf(polls, j).Alive?
    ensures ok <==> forall j :: j in was.active ==> !Troubled(PollOf(polls, j))
  {
    var after, still;
    after, still, ok := PollAll(was.records, was.active, polls);
    KeptByPolls(was, polls, after, still);
    w := AfterPolls(was, after, still);
  }

  /** One launch: the next pending job leaves the queue, whatever happens then. */
  method StartNext(was: Books, how: Launch) returns (w: Books)
    requires was.pending != []
    ensures w == AfterLaunch(was, how)
  {
    var name := was.pending[0];
    w := was.(pending := was.pending[1..], started := was.started + [name]);
    if how.NotPrepared? {
      return;
    }
    w := w.(records := w.records[name := Running]);
    if how.NotLogged? {
      return;
    }
    if how.NotStarted? {
      w := w.(records := was.records[name := Failed]);
      return;
    }
    var now := was.active + {name};
    w := w.(active := now, moves := was.moves + 1, peak := Max(was.peak, |now|));
  }

  /** The launching loop: as many jobs as there is room for, until a signal or a
      failure. None: the launches known so far do not end it. */
  method LaunchPending(was: Books, workers: nat, launches: seq<(Option<Signal>, Launch)>)
    returns (w: Books, r: Option<bool>)
    requires Kept(was) && Bounded(was, workers) && AllFinal(was) && workers >= 1
    ensures Kept(w) && Bounded(w, workers) && Follows(was, w) && Grown(was, w)
    ensures r == Some(true) ==> AllFinal(w) && (w.interrupted.Some? || w.pending == [] || |w.active| == workers)
    ensures r != Some(false) ==> Launching(was, w) && w.moves == was.moves + |w.started| - |was.started|
    ensures r.None? ==> |w.started| == |was.started| + |launches| && w.pending != []
  {
    w := was;
    var k := 0;
    while true
      invariant Kept(w) && Bounded(w, workers) && Follows(was, w) && AllFinal(w) && Launching(was, w)
      invariant 0 <= k <= |launches| && |w.started| == |was.started| + k && w.moves == was.moves + k
      decreases |launches| - k
    {
      if w.pending == [] || |w.active| >= workers {
        return w, Some(true);
      }
      if k == |launches| {
        return w, None;
      }
      var (signal, how) := launches[k];
      if signal.Some? {
        w := w.(interrupted := signal);
      }
      if w.interrupted.Some? {
        return w, Some(true);
      }
      KeptByLaunch(w, workers, how);
      LaunchStep(was, w, how);
      w := StartNext(w, how);
      if !how.Launched? {
        return w, Some(false);
      }
      k := k + 1;
    }
  }

  /** One turn; false: an exception ends the loop. A turn that finds every job
      ended makes a move, unless a signal stops it. */
  method TakeTurn(jobs: seq<Name>, workers: nat, was: Books, turns: seq<Turn>, n: nat)
    returns (w: Books, r: Option<bool>)
    requires Kept(was) && Bounded(was, workers) && AllFinal(was) && workers >= 1 && n < |turns|
    requires |was.todo| <= |jobs| && forall j :: j in was.todo ==> j in jobs
    requires was.pending != [] || was.active != {}
    requires Explained(turns, was.started, was.records, Completed) && Explained(turns, was.started, was.records, Failed)
    ensures Kept(w) && Bounded(w, workers) && Follows(was, w)
    ensures Explained(turns, w.started, w.records, Completed)
    ensures r == Some(true) ==> AllFinal(w) && Explained(turns, w.started, w.records, Failed) && w.moves >= was.moves
    ensures r == Some(true) && Prompt(turns[n], jobs) ==> w.moves > was.moves || w.interrupted.Some?
    ensures r.None? ==> |turns[n].launches| < |jobs|
  {
    var polled, ok := PollActive(was, turns[n].polls);
    ExplainedByPolls(turns, n, was, polled.records, polled.active, Completed);
    ExplainedByPolls(turns, n, was, polled.records, polled.active, Failed);
    if !ok {
      return polled, Some(false);
    }
    if Prompt(turns[n], jobs) {
      NoneAlive(jobs, polled, turns[n]);
    }
    w, r := LaunchPending(polled, workers, turns[n].launches);
    ExplainedByLaunches(turns, polled, w);
    if r == Some(true) && !turns[n].reported {
      r := Some(false);
    }
  }

  /** The main loop. None: the turns so far do not end it. */
  method Loop(jobs: seq<Name>, workers: nat, was: Books, turns: seq<Turn>) returns (w: Books, r: Option<bool>)
    requires Kept(was) && Bounded(was, workers) && AllFinal(was) && workers >= 1
    requires |was.todo| <= |jobs| && (forall j :: j in was.todo ==> j in jobs)
    requires was.started == [] && was.moves == 0
    ensures Kept(w) && Bounded(w, workers) && Follows(was, w)
    ensures Explained(turns, w.started, w.records, Completed)
    ensures r == Some(true) ==> AllFinal(w) && Explained(turns, w.started, w.records, Failed)
    ensures r == Some(true) && w.interrupted.None? ==> w.pending == [] && w.active == {}
    ensures r.None? && Ample(turns, jobs) ==> PromptTurns(turns, jobs, |turns|) < 2 * |w.todo|
  {
    w := was;
    var i := 0;
    while w.pending != [] || w.active != {}
      invariant Kept(w) && Bounded(w, workers) && AllFinal(w) && Follows(was, w) && 0 <= i <= |turns|
      invariant Explained(turns, w.started, w.records, Completed) && Explained(turns, w.started, w.records, Failed)
      invariant w.interrupted.None? ==> w.moves >= PromptTurns(turns, jobs, i)
      decreases |turns| - i
    {
      if w.interrupted.Some? {
        break;
      }
      if i == |turns| {
        return w, None;
      }
      if turns[i].signal.Some? {
        w := w.(interrupted := turns[i].signal);
        break;
      }
      w, r := TakeTurn(jobs, workers, w, turns, i);
      if r != Some(true) {
        return;
      }
      i := i + 1;
    }
    return w, Some(true);
  }

  /** What an exit code says: zero, that no signal came and every job is recorded
      as completed; one, that some job failed; more, which signal came. Without a
      signal every waiting job was started and has its final status; no started
      job is left running. */
  ghost predicate ExitTells(w: Books, code: nat)
  {
    && (forall j :: j in w.started && j in w.records ==> !w.records[j].Running?)
    && match w.interrupted
       case Some(signal) => code == 128 + signal
       case None =>
         && w.started == w.todo
         && (forall j :: j in w.started && j in w.records ==> Final(w.records[j]))
         && code == if forall j :: j in w.records ==> w.records[j].Completed? then 0 else 1
  }

  lemma KeepsSoFar(jobs: seq<Name>, w: Books)
    requires Kept(w) && (forall j :: j in jobs ==> j in w.before) && w.todo == Waiting(jobs, w.before)
    ensures RunKeeps(jobs, w.before, w.records, w.started)
  {
    assert w.started == w.todo[..|w.started|];
  }

  lemma KeepsByCleanup(jobs: seq<Name>, w: Books, stuck: set<Name>, after: Records)
    requires forall j :: j in jobs ==> j in w.before
    requires RunKeeps(jobs, w.before, w.records, w.started) && Cleaned(w.records, w.active, stuck, after)
    requires forall j :: j in w.active ==> j in w.started
    ensures RunKeeps(jobs, w.before, after, w.started)
  {
  }

  lemma NoneRunning(w: Books, stuck: set<Name>, after: Records)
    requires AllFinal(w) && Cleaned(w.records, w.active, stuck, after) && w.active !! stuck
    ensures forall j :: j in w.started && j in after ==> !after[j].Running?
    ensures w.active == {} ==> after == w.records
  {
  }

  /** What follows the main loop: a last chance for a signal, the cleanup, the last
      save and the exit code. */
  method Finish(was: Books, raised: bool, late: Option<Signal>, stuck: set<Name>, saved: bool)
    returns (w: Books, r: End)
    requires Kept(was)
    requires !raised ==> AllFinal(was) && (was.interrupted.None? ==> was.pending == [] && was.active == {})
    ensures Cleaned(was.records, was.active, stuck, w.records)
    ensures w == was.(records := w.records, interrupted := if late.Some? then late else was.interrupted)
    ensures r.Raised? <==> raised || !(was.active !! stuck) || !saved
    ensures !r.Raised? ==> r.Exit? && ExitTells(w, r.code)
  {
    var after, clean := Cleanup(was.records, was.active, stuck);
    w := was.(records := after, interrupted := if late.Some? then late else was.interrupted);
    if raised || !clean || !saved {
      return w, Raised;
    }
    NoneRunning(was, stuck, after);
    if w.interrupted.Some? {
      return w, Exit(128 + w.interrupted.value);
    }
    assert was.started + [] == was.started;
    if forall j :: j in after ==> after[j].Completed? {
      return w, Exit(0);
    }
    return w, Exit(1);
  }

  /** `run`, from the first save to the exit code; a fresh run has every job queued, a
      resumed one the records of the last. The run starts each waiting job at most
      once and in order, never more than `workers` at a time, in at most twice as many
      moves as there were jobs to do, and leaves every other record alone, however it
      ends. It records as completed only jobs whose process exited with zero; unless it
      raises, as failed only the others. And it ends, at the latest when twice as many
      turns as there were jobs to do have found no job running. */
  method Run(
      jobs: seq<Name>, workers: nat, records: Records, turns: seq<Turn>,
      firstSave: bool, late: Option<Signal>, stuck: set<Name>, lastSave: bool)
    returns (w: Books, r: End)
    requires Distinct(jobs) && workers >= 1 && forall j :: j in jobs ==> j in records
    ensures w.before == records && w.todo == Waiting(jobs, records) && RunKeeps(jobs, records, w.records, w.started)
    ensures w.peak <= workers && w.moves <= 2 * |w.todo|
    ensures r.Exit? ==> ExitTells(w, r.code)
    ensures Explained(turns, w.started, w.records, Completed)
    ensures r.Exit? ==> Explained(turns, w.started, w.records, Failed)
    ensures Ample(turns, jobs) && PromptTurns(turns, jobs, |turns|) >= 2 * |w.todo| ==> !r.Unfinished?
  {
    w := Begin(jobs, records);
    KeptAtBegin(jobs, workers, records);
    var ended := Some(false);
    if firstSave {
      w, ended := Loop(jobs, workers, w, turns);
    }
    KeepsSoFar(jobs, w);
    if ended.None? {
      return w, Unfinished;
    }
    ghost var looped := w;
    w, r := Finish(w, !ended.value, late, stuck, lastSave);
    KeepsByCleanup(jobs, looped, stuck, w.records);
    ExplainedByCleanup(turns, looped, stuck, w.records, Completed);
    if ended.value {
      ExplainedByCleanup(turns, looped, stuck, w.records, Failed);
    }
  }

  // ----- Chains of runs -----

  /** Over any chain of runs and resumptions, however each of them ended: a job
      recorded as completed stays so and is never started again. */
  lemma {:induction false} CompletedIsFinal(
      jobs: seq<Name>, records: seq<Records>, starts: seq<seq<Name>>, i: nat, k: nat, j: Name)
    requires |records| == |starts| + 1 && i <= k <= |starts|
    requires forall n :: 0 <= n < |records| ==> forall x :: x in jobs ==> x in records[n]
    requires forall n :: 0 <= n < |starts| ==> RunKeeps(jobs, records[n], records[n + 1], starts[n])
    requires j in records[i] && records[i][j].Completed?
    ensures j in records[k] && records[k][j].Completed?
    ensures k < |starts| ==> j !in starts[k]
    decreases k - i
  {
    if k == i {
    } else {
      CompletedIsFinal(jobs, records, starts, i, k - 1, j);
      assert RunKeeps(jobs, records[k - 1], records[k - 1 + 1], starts[k - 1]);
    }
    if k < |starts| {
      assert RunKeeps(jobs, records[k], records[k + 1], starts[k]);
      PrefixMembers(starts[k], Waiting(jobs, records[k]));
    }
  }
}
