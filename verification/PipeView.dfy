/** The pipeline viewer: the instructions of a trace, from the start of a region to
    its end, through the reorder window and the filter of the region. */
module PipeView {
  import opened Basics
  import opened StableSort
  import opened ReorderWindow

  /** The bounds of the region to print; zero means no bound. */
  datatype Region = Region(snStart: int, snStop: int, tickStart: int, tickStop: int, onlyCommitted: bool)

  predicate InBounds(r: Region, sn: int, fetch: int)
  {
    && !(r.snStart > 0 && sn < r.snStart)
    && !(r.snStop > 0 && sn > r.snStop)
    && !(r.tickStart > 0 && fetch < r.tickStart)
    && !(r.tickStop > 0 && fetch > r.tickStop)
  }

  predicate Shown(r: Region, i: Inst)
  {
    InBounds(r, i.sn, i.fetch) && !(r.onlyCommitted && i.retire == 0)
  }

  function Visible(r: Region, s: seq<Inst>): (v: seq<Inst>)
  {
    if s == [] then [] else if Shown(r, s[0]) then [s[0]] + Visible(r, s[1..]) else Visible(r, s[1..])
  }

  lemma VisibleCons(r: Region, x: Inst, s: seq<Inst>)
    ensures Visible(r, [x] + s) == if Shown(r, x) then [x] + Visible(r, s) else Visible(r, s)
  {
    assert ([x] + s)[0] == x && ([x] + s)[1..] == s;
  }

  lemma {:induction false} VisibleConcat(r: Region, a: seq<Inst>, b: seq<Inst>)
    ensures Visible(r, a + b) == Visible(r, a) + Visible(r, b)
  {
    if a == [] {
      assert a + b == b;
    } else {
      assert a == [a[0]] + a[1..];
      ConsParts(a[0], a[1..], b);
      VisibleConcat(r, a[1..], b);
      Reassociate([a[0]], Visible(r, a[1..]), Visible(r, b));
    }
  }

  lemma VisibleSnoc(r: Region, s: seq<Inst>, n: nat)
    requires n < |s|
    ensures Visible(r, s[..n + 1]) == Visible(r, s[..n]) + (if Shown(r, s[n]) then [s[n]] else [])
  {
    SplitAt(s, n);
    VisibleConcat(r, s[..n], [s[n]]);
    assert [s[n]][1..] == [];
  }

  // ----- Filtering and sorting commute -----

  lemma {:induction false} VisibleMembers(r: Region, s: seq<Inst>)
    ensures forall i :: 0 <= i < |Visible(r, s)| ==> Visible(r, s)[i] in s
  {
    if s == [] {
    } else {
      VisibleMembers(r, s[1..]);
    }
  }

  lemma InsertLater(x: Inst, y: Inst, s: seq<Inst>)
    requires x.sn > y.sn
    ensures Insert(x, [y] + s) == [y] + Insert(x, s)
  {
    assert ([y] + s)[0] == y && ([y] + s)[1..] == s;
  }

  lemma {:induction false} VisibleInsert(r: Region, x: Inst, s: seq<Inst>)
    requires Ordered(s)
    ensures Visible(r, Insert(x, s)) == if Shown(r, x) then Insert(x, Visible(r, s)) else Visible(r, s)
  {
    if s == [] || x.sn <= s[0].sn {
      VisibleCons(r, x, s);
      VisibleMembers(r, s);
      InsertFirst(x, Visible(r, s));
    } else {
      var y, tail := s[0], s[1..];
      assert s == [y] + tail;
      VisibleInsert(r, x, tail);
      VisibleCons(r, y, Insert(x, tail));
      VisibleCons(r, y, tail);
      if Shown(r, x) && Shown(r, y) {
        InsertLater(x, y, Visible(r, tail));
      }
    }
  }

  lemma SortCons(x: Inst, s: seq<Inst>)
    ensures Sort([x] + s) == Insert(x, Sort(s))
  {
    assert ([x] + s)[0] == x && ([x] + s)[1..] == s;
  }

  /** It does not matter whether a region is cut out before or after sorting. */
  lemma {:induction false} VisibleSort(r: Region, s: seq<Inst>)
    ensures Visible(r, Sort(s)) == Sort(Visible(r, s))
  {
    if s == [] {
    } else {
      var x, tail := s[0], s[1..];
      assert s == [x] + tail;
      VisibleSort(r, tail);
      SortIsStable(tail);
      VisibleInsert(r, x, Sort(tail));
      VisibleCons(r, x, tail);
      SortCons(x, Visible(r, tail));
    }
  }

  // ----- The lines of a trace -----

  /** `Stage`: any event between fetch and retire; `Noise`: a line of something else. */
  datatype Line = Fetch(tick: nat, sn: nat, disasm: string) | Stage(tick: nat) | Retire(tick: nat) | Noise

  /** What an event does to the instruction that is being read. */
  function Updated(c: Inst, l: Line): (d: Inst)
  {
    match l
    case Fetch(tick, sn, disasm) => c.(fetch := tick, sn := sn, disasm := disasm)
    case Retire(tick) => c.(retire := tick, disasm := if tick == 0 then "-----" + c.disasm else c.disasm)
    case _ => c
  }

  /** The instructions that retire, read from here on. */
  function Instructions(lines: seq<Line>, c: Inst): (r: seq<Inst>)
    decreases |lines|
  {
    if lines == [] then []
    else
      var d := Updated(c, lines[0]);
      var later := Instructions(lines[1..], d);
      if lines[0].Retire? then [d] + later else later
  }

  /** From the next fetch on. */
  function FromFetch(lines: seq<Line>): (r: seq<Line>)
    ensures r == [] || r[0].Fetch?
  {
    if lines == [] || lines[0].Fetch? then lines else FromFetch(lines[1..])
  }

  predicate Begins(r: Region, l: Line)
  {
    if r.tickStart != 0 then !l.Noise? && l.tick >= r.tickStart
    else r.snStart != 0 ==> l.Fetch? && l.sn >= r.snStart
  }

  /** From the first line of the region on. */
  function FromStart(r: Region, lines: seq<Line>): (s: seq<Line>)
  {
    if lines == [] || Begins(r, lines[0]) then lines else FromStart(r, lines[1..])
  }

  predicate Stops(r: Region, drift: nat, most: nat, l: Line)
  {
    && l.Fetch?
    && ((r.tickStop > 0 && l.tick > r.tickStop + drift) || (r.snStop > 0 && l.sn > r.snStop + most))
  }

  function UntilStop(r: Region, drift: nat, most: nat, lines: seq<Line>): (s: seq<Line>)
    ensures s <= lines
  {
    if lines == [] || Stops(r, drift, most, lines[0]) then []
    else
      var rest := UntilStop(r, drift, most, lines[1..]);
      assert lines == [lines[0]] + lines[1..];
      [lines[0]] + rest
  }

  const NOBODY := Inst(0, 0, 0, "")

  /** All instructions of a trace. */
  function All(lines: seq<Line>): (r: seq<Inst>)
  {
    Instructions(FromFetch(lines), NOBODY)
  }

  /** The lines that the main loop reads. */
  function Read(r: Region, drift: nat, most: nat, lines: seq<Line>): (s: seq<Line>)
  {
    UntilStop(r, drift, most, FromFetch(FromStart(r, lines)))
  }

  /** The lines that it does not reach. */
  function Unread(r: Region, drift: nat, most: nat, lines: seq<Line>): (s: seq<Line>)
  {
    FromFetch(FromStart(r, lines))[|Read(r, drift, most, lines)|..]
  }

  // ----- What the bounds of the loop leave out -----

  /** Every fetch lies outside the region. */
  predicate FetchesHidden(r: Region, lines: seq<Line>)
  {
    forall i :: 0 <= i < |lines| && lines[i].Fetch? ==> !InBounds(r, lines[i].sn, lines[i].tick)
  }

  lemma {:induction false} HiddenLines(r: Region, lines: seq<Line>, c: Inst)
    requires FetchesHidden(r, lines) && (!InBounds(r, c.sn, c.fetch) || (lines != [] && lines[0].Fetch?))
    ensures Visible(r, Instructions(lines, c)) == []
    decreases |lines|
  {
    if lines == [] {
    } else {
      var d := Updated(c, lines[0]);
      assert forall i :: 0 <= i < |lines[1..]| ==> lines[1..][i] == lines[i + 1];
      assert lines[0].Fetch? ==> !InBounds(r, lines[0].sn, lines[0].tick);
      HiddenLines(r, lines[1..], d);
      if lines[0].Retire? {
        VisibleCons(r, d, Instructions(lines[1..], d));
      }
    }
  }

  /** The instruction that is being read after some lines. */
  function Current(lines: seq<Line>, c: Inst): (d: Inst)
    decreases |lines|
  {
    if lines == [] then c else Current(lines[1..], Updated(c, lines[0]))
  }

  lemma {:induction false} InstructionsConcat(a: seq<Line>, b: seq<Line>, c: Inst)
    ensures Instructions(a + b, c) == Instructions(a, c) + Instructions(b, Current(a, c))
    decreases |a|
  {
    if a == [] {
      assert a + b == b;
    } else {
      var d := Updated(c, a[0]);
      Heads(a, b);
      InstructionsConcat(a[1..], b, d);
      Reassociate([d], Instructions(a[1..], d), Instructions(b, Current(a[1..], d)));
    }
  }

  /** What was read before a fetch does not matter after it. */
  lemma {:induction false} FetchForgets(lines: seq<Line>, c: Inst, d: Inst)
    requires lines == [] || lines[0].Fetch? || (c.sn == d.sn && c.fetch == d.fetch && c.disasm == d.disasm)
    ensures Instructions(lines, c) == Instructions(lines, d)
    decreases |lines|
  {
    if lines == [] {
    } else {
      FetchForgets(lines[1..], Updated(c, lines[0]), Updated(d, lines[0]));
    }
  }

  lemma {:induction false} SkippedToFetch(lines: seq<Line>) returns (before: seq<Line>)
    ensures lines == before + FromFetch(lines)
    ensures forall i :: 0 <= i < |before| ==> !before[i].Fetch?
    decreases |lines|
  {
    if lines == [] || lines[0].Fetch? {
      before := [];
    } else {
      before := SkippedToFetch(lines[1..]);
      HeadAndTail(lines);
      ConsParts(lines[0], before, FromFetch(lines));
      before := [lines[0]] + before;
    }
  }

  lemma HiddenCons(r: Region, l: Line, lines: seq<Line>)
    requires FetchesHidden(r, lines) && (l.Fetch? ==> !InBounds(r, l.sn, l.tick))
    ensures FetchesHidden(r, [l] + lines)
  {
  }

  lemma HiddenSuffix(r: Region, lines: seq<Line>, n: nat)
    requires FetchesHidden(r, lines) && n <= |lines|
    ensures FetchesHidden(r, lines[n..])
  {
  }

  /** The lines before the region: none of their fetches lies in it. */
  lemma {:induction false} Skipped(r: Region, lines: seq<Line>) returns (before: seq<Line>)
    ensures lines == before + FromFetch(FromStart(r, lines)) && FetchesHidden(r, before)
    decreases |lines|
  {
    if lines == [] {
      before := [];
    } else if !Begins(r, lines[0]) {
      before := Skipped(r, lines[1..]);
      HeadAndTail(lines);
      ConsParts(lines[0], before, FromFetch(FromStart(r, lines)));
      HiddenCons(r, lines[0], before);
      before := [lines[0]] + before;
    } else {
      before := SkippedToFetch(lines);
    }
  }

  lemma NoiseIsSkipped(before: seq<Line>, noise: seq<Line>, start: seq<Line>, all: seq<Line>)
    requires before + start == noise + all && (start == [] || start[0].Fetch?)
    requires forall i :: 0 <= i < |noise| ==> !noise[i].Fetch?
    ensures |noise| <= |before|
  {
    assert start != [] ==> (before + start)[|before|] == start[0];
    assert forall i :: 0 <= i < |noise| ==> (noise + all)[i] == noise[i];
  }

  /** Lines without a fetch in the region may be left out before a fetch. */
  lemma HiddenPrefix(r: Region, skipped: seq<Line>, start: seq<Line>)
    requires FetchesHidden(r, skipped) && (skipped == [] || skipped[0].Fetch?) && (start == [] || start[0].Fetch?)
    ensures Visible(r, Instructions(skipped + start, NOBODY)) == Visible(r, Instructions(start, NOBODY))
  {
    InstructionsConcat(skipped, start, NOBODY);
    FetchForgets(start, Current(skipped, NOBODY), NOBODY);
    VisibleConcat(r, Instructions(skipped, NOBODY), Instructions(start, NOBODY));
    if skipped != [] {
      HiddenLines(r, skipped, NOBODY);
    }
  }

  /** Starting late loses nothing: on every trace, what is skipped would not be shown. */
  lemma SkipLosesNothing(r: Region, lines: seq<Line>)
    ensures Visible(r, All(lines)) == Visible(r, Instructions(FromFetch(FromStart(r, lines)), NOBODY))
  {
    var start := FromFetch(FromStart(r, lines));
    var before := Skipped(r, lines);
    var noise := SkippedToFetch(lines);
    var all := FromFetch(lines);
    NoiseIsSkipped(before, noise, start, all);
    DropPrefix(before, start, noise, all);
    HiddenSuffix(r, before, |noise|);
    var skipped := before[|noise|..];
    assert skipped != [] ==> skipped[0] == all[0];
    HiddenPrefix(r, skipped, start);
  }

  /** The first line that the loop does not reach is the one that stops it. */
  lemma {:induction false} StopLine(r: Region, drift: nat, most: nat, lines: seq<Line>)
    ensures var rest := lines[|UntilStop(r, drift, most, lines)|..];
      lines == UntilStop(r, drift, most, lines) + rest && (rest == [] || Stops(r, drift, most, rest[0]))
  {
    if lines == [] || Stops(r, drift, most, lines[0]) {
    } else {
      StopLine(r, drift, most, lines[1..]);
      SplitTail(lines, UntilStop(r, drift, most, lines[1..]));
    }
  }

  /** Stopping early loses something if and only if some instruction that the loop
      does not reach would be shown. */
  lemma StopIsExact(r: Region, drift: nat, most: nat, lines: seq<Line>)
    ensures var handled := Instructions(Read(r, drift, most, lines), NOBODY);
      Visible(r, Sort(handled)) == Visible(r, Sort(All(lines)))
      <==> Visible(r, Instructions(Unread(r, drift, most, lines), NOBODY)) == []
  {
    var start := FromFetch(FromStart(r, lines));
    var read, unread := Read(r, drift, most, lines), Unread(r, drift, most, lines);
    var handled, rest := Instructions(read, NOBODY), Instructions(unread, NOBODY);
    StopLine(r, drift, most, start);
    InstructionsConcat(read, unread, NOBODY);
    FetchForgets(unread, Current(read, NOBODY), NOBODY);
    SkipLosesNothing(r, lines);
    VisibleConcat(r, handled, rest);
    VisibleSort(r, handled);
    VisibleSort(r, All(lines));
    Regroup(Visible(r, handled), []);
  }

  /** The current instruction retires before the next fetch, in a way that is shown. */
  predicate Commits(r: Region, lines: seq<Line>)
  {
    && lines != []
    && (|| (lines[0].Retire? && !(r.onlyCommitted && lines[0].tick == 0))
        || (!lines[0].Fetch? && Commits(r, lines[1..])))
  }

  /** The instruction fetched here lies in the region and retires so that it is shown. */
  predicate ShownFetch(r: Region, lines: seq<Line>, j: nat)
    requires j < |lines|
  {
    lines[j].Fetch? && InBounds(r, lines[j].sn, lines[j].tick) && Commits(r, lines[j + 1..])
  }

  predicate NoneShown(r: Region, lines: seq<Line>)
  {
    forall j :: 0 <= j < |lines| ==> !ShownFetch(r, lines, j)
  }

  lemma NoneShownStep(r: Region, lines: seq<Line>)
    requires lines != []
    ensures NoneShown(r, lines) <==> !ShownFetch(r, lines, 0) && NoneShown(r, lines[1..])
  {
    var tail := lines[1..];
    forall j | 0 <= j < |tail| ensures ShownFetch(r, tail, j) <==> ShownFetch(r, lines, j + 1) {
      assert lines[j + 1..][1..] == lines[j + 2..] && tail[j + 1..] == lines[j + 2..];
    }
    if NoneShown(r, lines) {
      forall j | 0 <= j < |tail| ensures !ShownFetch(r, tail, j) {
        assert !ShownFetch(r, lines, j + 1);
      }
    }
    if !ShownFetch(r, lines, 0) && NoneShown(r, tail) {
      forall j | 0 <= j < |lines| ensures !ShownFetch(r, lines, j) {
        if j > 0 {
          assert !ShownFetch(r, tail, j - 1);
        }
      }
    }
  }

  /** Nothing is shown of some lines if and only if no fetch of them is, nor the instruction before. */
  lemma {:induction false} NothingShownIff(r: Region, lines: seq<Line>, c: Inst)
    ensures Visible(r, Instructions(lines, c)) == [] <==>
      (InBounds(r, c.sn, c.fetch) ==> !Commits(r, lines)) && NoneShown(r, lines)
    decreases |lines|
  {
    if lines == [] {
    } else {
      var d := Updated(c, lines[0]);
      NoneShownStep(r, lines);
      NothingShownIff(r, lines[1..], d);
      if lines[0].Retire? {
        VisibleCons(r, d, Instructions(lines[1..], d));
      }
    }
  }

  /** The line that stops the loop, or the end. */
  function StopAt(r: Region, drift: nat, most: nat, lines: seq<Line>): (n: int)
  {
    |lines| - |Unread(r, drift, most, lines)|
  }

  lemma StopSplits(r: Region, drift: nat, most: nat, lines: seq<Line>)
    ensures var n := StopAt(r, drift, most, lines);
      && 0 <= n <= |lines| && Unread(r, drift, most, lines) == lines[n..]
      && (n < |lines| ==> Stops(r, drift, most, lines[n]))
  {
    var read, unread := Read(r, drift, most, lines), Unread(r, drift, most, lines);
    var before := Skipped(r, lines);
    StopLine(r, drift, most, FromFetch(FromStart(r, lines)));
    Suffix(before, read, unread);
    assert lines == before + (read + unread);
    if unread != [] {
      assert lines[|before| + |read|] == unread[0];
    }
  }

  lemma NoneShownFrom(r: Region, lines: seq<Line>, n: nat)
    requires n <= |lines|
    ensures NoneShown(r, lines[n..]) <==> forall j :: n <= j < |lines| ==> !ShownFetch(r, lines, j)
  {
    forall j | n <= j < |lines| ensures ShownFetch(r, lines[n..], j - n) <==> ShownFetch(r, lines, j) {
      assert lines[n..][j - n + 1..] == lines[j + 1..];
    }
    if NoneShown(r, lines[n..]) {
      forall j | n <= j < |lines| ensures !ShownFetch(r, lines, j) {
        assert !ShownFetch(r, lines[n..], j - n);
      }
    }
    if forall j :: n <= j < |lines| ==> !ShownFetch(r, lines, j) {
      forall k | 0 <= k < |lines[n..]| ensures !ShownFetch(r, lines[n..], k) {
        assert !ShownFetch(r, lines, n + k);
      }
    }
  }

  /** Stopping early loses nothing, so that the sorted output is the same, if and only if
      no fetch from the stop on is shown. */
  lemma StopLosesIff(r: Region, drift: nat, most: nat, lines: seq<Line>)
    ensures Visible(r, Instructions(Unread(r, drift, most, lines), NOBODY)) == [] <==>
      forall j :: 0 <= StopAt(r, drift, most, lines) <= j < |lines| ==> !ShownFetch(r, lines, j)
    ensures Visible(r, Sort(Instructions(Read(r, drift, most, lines), NOBODY))) == Visible(r, Sort(All(lines))) <==>
      forall j :: 0 <= StopAt(r, drift, most, lines) <= j < |lines| ==> !ShownFetch(r, lines, j)
  {
    StopIsExact(r, drift, most, lines);
    StopSplits(r, drift, most, lines);
    NothingShownIff(r, Unread(r, drift, most, lines), NOBODY);
    NoneShownFrom(r, lines, StopAt(r, drift, most, lines));
  }

  /** The instruction fetched here retires. */
  predicate Retires(lines: seq<Line>, j: nat)
    requires j < |lines|
  {
    lines[j].Fetch? && Commits(Region(0, 0, 0, 0, false), lines[j + 1..])
  }

  lemma {:induction false} CommitsMeansRetires(r: Region, lines: seq<Line>)
    ensures Commits(r, lines) ==> Commits(Region(0, 0, 0, 0, false), lines)
    ensures !r.onlyCommitted ==> (Commits(r, lines) <==> Commits(Region(0, 0, 0, 0, false), lines))
  {
    if lines == [] {
    } else {
      CommitsMeansRetires(r, lines[1..]);
    }
  }

  /** The documented assumption, where it matters: before an instruction that retires,
      no fetch is further ahead of its own than the drift in ticks and the upper
      threshold in numbers. A bound of zero means none, so that zero counts as one. */
  predicate FetchesInOrder(lines: seq<Line>, drift: nat, most: nat)
  {
    forall i, j :: 0 <= i < j < |lines| && lines[i].Fetch? && Retires(lines, j) ==>
      lines[i].tick <= Max(lines[j].tick, 1) + drift && lines[i].sn <= Max(lines[j].sn, 1) + most
  }

  /** Under it, stopping early loses nothing. */
  lemma StopIsSafe(r: Region, drift: nat, most: nat, lines: seq<Line>)
    requires FetchesInOrder(lines, drift, most)
    ensures Visible(r, Instructions(Unread(r, drift, most, lines), NOBODY)) == []
  {
    var n := StopAt(r, drift, most, lines);
    StopSplits(r, drift, most, lines);
    forall j | n <= j < |lines| ensures !ShownFetch(r, lines, j) {
      CommitsMeansRetires(r, lines[j + 1..]);
      assert ShownFetch(r, lines, j) ==> Retires(lines, j);
    }
    StopLosesIff(r, drift, most, lines);
  }

  lemma {:induction false} StopsBy(r: Region, drift: nat, most: nat, lines: seq<Line>, i: nat)
    requires i < |lines| && Stops(r, drift, most, lines[i])
    ensures |UntilStop(r, drift, most, lines)| <= i
  {
    if i == 0 {
    } else {
      StopsBy(r, drift, most, lines[1..], i - 1);
    }
  }

  /** A region without a start is stopped no later than at the first line that may stop it. */
  lemma StopsNoLater(r: Region, drift: nat, most: nat, lines: seq<Line>, i: nat)
    requires r.tickStart == 0 && r.snStart == 0 && i < |lines| && Stops(r, drift, most, lines[i])
    ensures StopAt(r, drift, most, lines) <= i
  {
    var before := SkippedToFetch(lines);
    var start := FromFetch(lines);
    assert FromStart(r, lines) == lines;
    assert |before| <= i && start[i - |before|] == lines[i];
    StopsBy(r, drift, most, start, i - |before|);
  }

  /** Otherwise some region loses an instruction. */
  lemma OutOfOrderLoses(drift: nat, most: nat, lines: seq<Line>, i: nat, j: nat) returns (r: Region)
    requires i < j < |lines| && lines[i].Fetch? && Retires(lines, j)
    requires lines[i].tick > Max(lines[j].tick, 1) + drift || lines[i].sn > Max(lines[j].sn, 1) + most
    ensures Visible(r, Instructions(Unread(r, drift, most, lines), NOBODY)) != []
  {
    r := if lines[i].tick > Max(lines[j].tick, 1) + drift then Region(0, 0, 0, Max(lines[j].tick, 1), false)
         else Region(0, Max(lines[j].sn, 1), 0, 0, false);
    StopsNoLater(r, drift, most, lines, i);
    StopSplits(r, drift, most, lines);
    CommitsMeansRetires(r, lines[j + 1..]);
    assert ShownFetch(r, lines, j);
    StopLosesIff(r, drift, most, lines);
  }

  /** So the assumption is exactly what makes stopping early lose nothing, for every region. */
  lemma StopIsSafeIff(drift: nat, most: nat, lines: seq<Line>)
    ensures (forall r :: Visible(r, Instructions(Unread(r, drift, most, lines), NOBODY)) == [])
      <==> FetchesInOrder(lines, drift, most)
  {
    if FetchesInOrder(lines, drift, most) {
      forall r ensures Visible(r, Instructions(Unread(r, drift, most, lines), NOBODY)) == [] {
        StopIsSafe(r, drift, most, lines);
      }
    } else {
      var i, j :| 0 <= i < j < |lines| && lines[i].Fetch? && Retires(lines, j) &&
        !(lines[i].tick <= Max(lines[j].tick, 1) + drift && lines[i].sn <= Max(lines[j].sn, 1) + most);
      var r := OutOfOrderLoses(drift, most, lines, i, j);
    }
  }

  /** A trace that loses an instruction: the second was fetched first, and retired last. */
  lemma LosesAnInstruction()
    ensures var r, lines := Region(0, 0, 0, 1, false), [Fetch(5, 1, ""), Retire(6), Fetch(1, 2, ""), Retire(7)];
      Visible(r, Instructions(Unread(r, 0, 0, lines), NOBODY)) != []
  {
    var r, lines := Region(0, 0, 0, 1, false), [Fetch(5, 1, ""), Retire(6), Fetch(1, 2, ""), Retire(7)];
    StopsNoLater(r, 0, 0, lines, 0);
    StopSplits(r, 0, 0, lines);
    assert lines[3..][0] == Retire(7);
    assert ShownFetch(r, lines, 2);
    StopLosesIff(r, 0, 0, lines);
  }

  /** What the output of the viewer says. */
  lemma OutputTells(r: Region, drift: nat, least: nat, most: nat, lines: seq<Line>)
    ensures var handled := Instructions(Read(r, drift, most, lines), NOBODY);
      var printed := Visible(r, Emitted([], handled, least, most));
      OnTime(handled, least, most) ==>
        (printed == Visible(r, Sort(All(lines)))
         <==> forall j :: 0 <= StopAt(r, drift, most, lines) <= j < |lines| ==> !ShownFetch(r, lines, j))
  {
    WindowSortsIff(Instructions(Read(r, drift, most, lines), NOBODY), least, most);
    StopLosesIff(r, drift, most, lines);
  }

  lemma InstructionsCons(l: Line, rest: seq<Line>, c: Inst)
    ensures var d := Updated(c, l);
      Instructions([l] + rest, c) == if l.Retire? then [d] + Instructions(rest, d) else Instructions(rest, d)
  {
    assert ([l] + rest)[0] == l && ([l] + rest)[1..] == rest;
  }

  /** One more line of the main loop. */
  lemma StepStop(r: Region, drift: nat, most: nat, lines: seq<Line>, i: nat, c: Inst)
    requires i < |lines| && !Stops(r, drift, most, lines[i])
    ensures var d := Updated(c, lines[i]);
      var later := Instructions(UntilStop(r, drift, most, lines[i + 1..]), d);
      Instructions(UntilStop(r, drift, most, lines[i..]), c) == if lines[i].Retire? then [d] + later else later
  {
    assert lines[i..][0] == lines[i] && lines[i..][1..] == lines[i + 1..];
    InstructionsCons(lines[i], UntilStop(r, drift, most, lines[i + 1..]), c);
  }

  // ----- The viewer -----

  class Viewer {
    const region: Region
    const least: nat
    const most: nat
    const drift: nat
    var queue: seq<Inst>
    var printed: seq<Inst>

    constructor (region: Region, least: nat, most: nat, drift: nat)
      ensures this.region == region && this.least == least && this.most == most && this.drift == drift
      ensures queue == [] && printed == []
    {
      this.region, this.least, this.most, this.drift := region, least, most, drift;
      queue, printed := [], [];
    }

    /** `print_insts`: sorts the queue, then pops and filters down to a length. */
    method PrintInsts(keep: nat)
      modifies this
      ensures queue == Sort(old(queue))[Flushed(old(queue), keep)..]
      ensures printed == old(printed) + Visible(region, Sort(old(queue))[..Flushed(old(queue), keep)])
    {
      queue := Sort(queue);
      ghost var s := queue;
      ghost var n := 0;
      while |queue| > keep
        invariant n <= |s| && queue == s[n..] && n <= Flushed(s, keep)
        invariant printed == old(printed) + Visible(region, s[..n])
      {
        var item := queue[0];
        queue := queue[1..];
        VisibleSnoc(region, s, n);
        n := n + 1;
        if region.snStart > 0 && item.sn < region.snStart {
          continue;
        }
        if region.snStop > 0 && item.sn > region.snStop {
          continue;
        }
        if region.tickStart > 0 && item.fetch < region.tickStart {
          continue;
        }
        if region.tickStop > 0 && item.fetch > region.tickStop {
          continue;
        }
        if region.onlyCommitted && item.retire == 0 {
          continue;
        }
        printed := printed + [item];
      }
    }

    /** `queue_inst`. */
    method QueueInst(inst: Inst)
      modifies this
      ensures var q := old(queue) + [inst];
        if |q| <= most then queue == q && printed == old(printed)
        else
          && queue == Sort(q)[Flushed(q, least)..]
          && printed == old(printed) + Visible(region, Sort(q)[..Flushed(q, least)])
    {
      queue := queue + [inst];
      if |queue| > most {
        PrintInsts(least);
      }
    }

    /** The last flush. */
    method Flush()
      modifies this
      ensures queue == [] && printed == old(printed) + Visible(region, Sort(old(queue)))
    {
      ghost var s := Sort(queue);
      assert s[..|queue|] == s && s[|queue|..] == [];
      PrintInsts(0);
    }

    /** The skipping loops: to the start of the region, then to the next fetch. */
    method SkipToStart(lines: seq<Line>) returns (i: nat)
      ensures i <= |lines| && lines[i..] == FromFetch(FromStart(region, lines))
    {
      i := 0;
      assert lines[0..] == lines;
      while i < |lines| && !Begins(region, lines[i])
        invariant i <= |lines| && FromStart(region, lines) == FromStart(region, lines[i..])
      {
        assert lines[i..][1..] == lines[i + 1..];
        i := i + 1;
      }
      while i < |lines| && !lines[i].Fetch?
        invariant i <= |lines| && FromFetch(FromStart(region, lines)) == FromFetch(lines[i..])
      {
        assert lines[i..][1..] == lines[i + 1..];
        i := i + 1;
      }
    }

    /** One line of the main loop: a retiring instruction is queued. */
    method ReadLine(line: Line, c: Inst, ghost later: seq<Inst>) returns (d: Inst)
      modifies this
      ensures d == Updated(c, line)
      ensures old(printed + Visible(region,
          Emitted(queue, if line.Retire? then [Updated(c, line)] + later else later, least, most)))
        == printed + Visible(region, Emitted(queue, later, least, most))
    {
      d := Updated(c, line);
      if line.Retire? {
        ghost var q := queue + [d];
        if |queue| < most {
          EmittedKeep(queue, d, later, least, most);
        } else {
          ghost var now, kept := Sort(q)[..Flushed(q, least)], Sort(q)[Flushed(q, least)..];
          EmittedFlush(queue, d, later, least, most);
          VisibleConcat(region, now, Emitted(kept, later, least, most));
          Reassociate(printed, Visible(region, now), Visible(region, Emitted(kept, later, least, most)));
        }
        QueueInst(d);
      }
    }

    /** The main loop, from a line on, and the flush that ends it. */
    method ReadLines(lines: seq<Line>, from: nat)
      requires from <= |lines|
      modifies this
      ensures printed == old(printed + Visible(region, Emitted(
        queue, Instructions(UntilStop(region, drift, most, lines[from..]), NOBODY), least, most)))
    {
      var i, current := from, NOBODY;
      while i < |lines| && !Stops(region, drift, most, lines[i])
        invariant i <= |lines|
        invariant printed + Visible(region, Emitted(
          queue, Instructions(UntilStop(region, drift, most, lines[i..]), current), least, most))
          == old(printed + Visible(region, Emitted(
          queue, Instructions(UntilStop(region, drift, most, lines[from..]), NOBODY), least, most)))
        decreases |lines| - i
      {
        ghost var later := Instructions(UntilStop(region, drift, most, lines[i + 1..]), Updated(current, lines[i]));
        StepStop(region, drift, most, lines, i, current);
        current := ReadLine(lines[i], current, later);
        i := i + 1;
      }
      assert UntilStop(region, drift, most, lines[i..]) == [];
      Flush();
    }

    /** `process_trace`. The output is what the region shows of the order in which the
        lines that the loop reads leave the window. If no instruction comes too late,
        that is what the region shows of the whole trace, sorted, if and only if no
        fetch from the line on that stops the loop is in the region and retires. */
    method ProcessTrace(lines: seq<Line>)
      requires queue == [] && printed == []
      modifies this
      ensures var handled := Instructions(Read(region, drift, most, lines), NOBODY);
        && printed == Visible(region, Emitted([], handled, least, most))
        && (OnTime(handled, least, most) ==>
              (printed == Visible(region, Sort(All(lines)))
               <==> forall j :: 0 <= StopAt(region, drift, most, lines) <= j < |lines| ==>
                 !ShownFetch(region, lines, j)))
    {
      OutputTells(region, drift, least, most, lines);
      var i := SkipToStart(lines);
      ReadLines(lines, i);
    }
  }
}
