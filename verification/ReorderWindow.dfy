/** The viewer's reorder window: instructions are queued as they arrive, and flushed
    in order of their sequence numbers whenever the queue is too long. */
module ReorderWindow {
  import opened Basics
  import opened StableSort

  function Flushed(queue: seq<Inst>, keep: nat): (n: nat)
    ensures n <= |queue|
  {
    if |queue| > keep then |queue| - keep else 0
  }

  /** The order in which a trace leaves the window, filtered or not. */
  function Emitted(queue: seq<Inst>, trace: seq<Inst>, least: nat, most: nat): (r: seq<Inst>)
    decreases |trace|
  {
    if trace == [] then Sort(queue)
    else
      var q := queue + [trace[0]];
      if |q| > most then
        Sort(q)[..Flushed(q, least)] + Emitted(Sort(q)[Flushed(q, least)..], trace[1..], least, most)
      else Emitted(q, trace[1..], least, most)
  }

  lemma EmittedKeep(queue: seq<Inst>, x: Inst, rest: seq<Inst>, least: nat, most: nat)
    requires |queue| < most
    ensures Emitted(queue, [x] + rest, least, most) == Emitted(queue + [x], rest, least, most)
  {
    Heads([x], rest);
    assert [x][1..] + rest == rest;
  }

  lemma EmittedFlush(queue: seq<Inst>, x: Inst, rest: seq<Inst>, least: nat, most: nat)
    requires |queue| >= most
    ensures var q := queue + [x];
      Emitted(queue, [x] + rest, least, most) ==
      Sort(q)[..Flushed(q, least)] + Emitted(Sort(q)[Flushed(q, least)..], rest, least, most)
  {
    Heads([x], rest);
    assert [x][1..] + rest == rest;
  }

  /** How many of k arrivals have been flushed: it depends on their number alone. */
  function Gone(k: nat, least: nat, most: nat): (n: nat)
    ensures n <= k
  {
    if k == 0 then 0
    else
      var waiting := k - Gone(k - 1, least, most);
      if waiting > most then k - Min(waiting, least) else Gone(k - 1, least, most)
  }

  /** The place of the i-th instruction in the sorted trace. */
  function Rank(t: seq<Inst>, i: nat): (n: nat)
    requires i < |t|
  {
    CountLess(t, t[i].sn) + |Only(t[..i], t[i].sn)|
  }

  /** No instruction arrives when its place has been flushed. */
  predicate OnTime(t: seq<Inst>, least: nat, most: nat)
  {
    forall i :: 0 <= i < |t| ==> Gone(i, least, most) <= Rank(t, i)
  }

  /** The documented assumption: no instruction arrives more than m places after its rank. */
  predicate NotTooLate(t: seq<Inst>, m: nat)
  {
    forall i :: 0 <= i < |t| ==> i - Rank(t, i) <= m
  }

  lemma {:induction false} GoneGrows(j: nat, k: nat, least: nat, most: nat)
    requires j <= k
    ensures Gone(j, least, most) <= Gone(k, least, most)
  {
    if j == k {
    } else {
      GoneGrows(j, k - 1, least, most);
    }
  }

  /** The window keeps at least the lower threshold back. */
  lemma {:induction false} GoneKeeps(k: nat, least: nat, most: nat)
    ensures Gone(k, least, most) > 0 ==> Gone(k, least, most) <= k - least
    ensures Gone(k, least, least) == Max(0, k - least)
  {
    if k == 0 {
    } else {
      GoneKeeps(k - 1, least, most);
    }
  }

  // ----- On time, the window sorts -----

  /** The first of the smallest instructions still to come. */
  lemma {:induction false} Smallest(s: seq<Inst>) returns (j: nat)
    requires s != []
    ensures j < |s|
    ensures forall i :: 0 <= i < |s| ==> s[j].sn <= s[i].sn
    ensures forall i :: 0 <= i < j ==> s[j].sn < s[i].sn
  {
    if |s| == 1 {
      j := 0;
    } else {
      var k := Smallest(s[1..]);
      j := if s[0].sn <= s[k + 1].sn then 0 else k + 1;
      forall i | 0 < i < |s| ensures s[j].sn <= s[i].sn && (i < j ==> s[j].sn < s[i].sn) {
        assert s[i] == s[1..][i - 1];
      }
    }
  }

  /** What arrived before the smallest to come, and is no larger, fills the places that are gone. */
  lemma ArrivedAreEnough(t: seq<Inst>, k: nat, least: nat, most: nat) returns (j: nat)
    requires k < |t| && OnTime(t, least, most)
    ensures k <= j < |t| && forall i :: k <= i < |t| ==> t[j].sn <= t[i].sn
    ensures Gone(k, least, most) <= CountUpTo(t[..k], t[j].sn)
  {
    var d := Smallest(t[k..]);
    j := k + d;
    var v := t[j].sn;
    assert forall i :: k <= i < |t| ==> t[i] == t[k..][i - k];
    assert t == t[..k] + t[k..] && t[..j] == t[..k] + t[k..][..d];
    CountConcat(t[..k], t[k..], v);
    CountConcat(t[..k], t[k..][..d], v);
    NoneLess(t[k..], v);
    NoneSmall(t[k..][..d], v);
    OnlyCount(t[..j], v);
    GoneGrows(k, j, least, most);
    assert Gone(j, least, most) <= Rank(t, j);
  }

  /** The queue accounts for every arrival but as many as were printed. */
  ghost predicate Accounts(queue: seq<Inst>, arrived: seq<Inst>)
  {
    && |queue| <= |arrived|
    && forall v :: CountUpTo(arrived, v) <= |arrived| - |queue| + CountUpTo(queue, v)
  }

  lemma FirstComeBefore(s: seq<Inst>, n: nat, v: int, later: seq<Inst>)
    requires Ordered(s) && n <= CountUpTo(s, v)
    requires forall i :: 0 <= i < |later| ==> v <= later[i].sn
    ensures Before(s[..n], later)
  {
    forall a | 0 <= a < n ensures s[..n][a].sn <= v {
      FirstAreSmall(s, v, a);
    }
  }

  lemma CountDropped(s: seq<Inst>, n: nat, v: int)
    requires n <= |s|
    ensures CountUpTo(s, v) <= n + CountUpTo(s[n..], v)
  {
    assert s == s[..n] + s[n..];
    CountConcat(s[..n], s[n..], v);
  }

  lemma FlushAccounts(arrived: seq<Inst>, q: seq<Inst>, n: nat)
    requires n <= |q| && Accounts(q, arrived)
    ensures Accounts(Sort(q)[n..], arrived)
  {
    forall v ensures CountUpTo(arrived, v) <= |arrived| - (|q| - n) + CountUpTo(Sort(q)[n..], v) {
      assert CountUpTo(arrived, v) <= |arrived| - |q| + CountUpTo(q, v);
      SortCount(q, v);
      CountDropped(Sort(q), n, v);
    }
  }

  lemma ArrivalAccounts(t: seq<Inst>, k: nat, q: seq<Inst>)
    requires k < |t| && Accounts(q, t[..k])
    ensures Accounts(q + [t[k]], t[..k + 1])
  {
    var arrived, x := t[..k], t[k];
    SplitAt(t, k);
    forall v ensures CountUpTo(arrived + [x], v) <= |arrived| - |q| + CountUpTo(q + [x], v) {
      CountConcat(arrived, [x], v);
      CountConcat(q, [x], v);
      assert CountUpTo(arrived, v) <= |arrived| - |q| + CountUpTo(q, v);
    }
  }

  /** What a flush after k arrivals prints comes before everything to come. */
  lemma FlushIsFinal(t: seq<Inst>, k: nat, least: nat, most: nat, q: seq<Inst>)
    requires k <= |t| && OnTime(t, least, most) && Accounts(q, t[..k])
    requires Gone(k, least, most) == k - |q| + Flushed(q, least)
    ensures Before(Sort(q)[..Flushed(q, least)], t[k..])
  {
    if k < |t| {
      var j := ArrivedAreEnough(t, k, least, most);
      var v := t[j].sn;
      SortIsStable(q);
      SortCount(q, v);
      assert CountUpTo(t[..k], v) <= k - |q| + CountUpTo(q, v);
      FirstComeBefore(Sort(q), Flushed(q, least), v, t[k..]);
    }
  }

  lemma FlushSorts(q: seq<Inst>, n: nat, rest: seq<Inst>)
    requires n <= |q| && Before(Sort(q)[..n], rest)
    ensures Sort(q)[..n] + Sort(Sort(q)[n..] + rest) == Sort(q + rest)
  {
    var s := Sort(q);
    SortIsStable(q);
    assert s + rest == s[..n] + (s[n..] + rest);
    SortAfterPrefix(s[..n], s[n..] + rest);
    SortInTwoStages(q, rest);
  }

  /** Given that the rest of the trace is sorted, so is all that leaves after a flush. */
  lemma FlushStep(t: seq<Inst>, k: nat, q: seq<Inst>, least: nat, most: nat)
    requires k <= |t| && OnTime(t, least, most) && Accounts(q, t[..k])
    requires Gone(k, least, most) == k - |q| + Flushed(q, least)
    requires var kept := Sort(q)[Flushed(q, least)..];
      Emitted(kept, t[k..], least, most) == Sort(kept + t[k..])
    ensures var n := Flushed(q, least);
      Sort(q)[..n] + Emitted(Sort(q)[n..], t[k..], least, most) == Sort(q + t[k..])
  {
    FlushIsFinal(t, k, least, most, q);
    FlushSorts(q, Flushed(q, least), t[k..]);
  }

  lemma SortsIfKept(t: seq<Inst>, k: nat, queue: seq<Inst>, least: nat, most: nat)
    requires k < |t| && |queue| < most
    requires var q := queue + [t[k]]; Emitted(q, t[k + 1..], least, most) == Sort(q + t[k + 1..])
    ensures Emitted(queue, t[k..], least, most) == Sort(queue + t[k..])
  {
    SplitAt(t, k);
    Reassociate(queue, [t[k]], t[k + 1..]);
    EmittedKeep(queue, t[k], t[k + 1..], least, most);
  }

  lemma SortsIfFlushed(t: seq<Inst>, k: nat, queue: seq<Inst>, least: nat, most: nat)
    requires k < |t| && |queue| >= most
    requires var q := queue + [t[k]];
      var n := Flushed(q, least);
      Sort(q)[..n] + Emitted(Sort(q)[n..], t[k + 1..], least, most) == Sort(q + t[k + 1..])
    ensures Emitted(queue, t[k..], least, most) == Sort(queue + t[k..])
  {
    SplitAt(t, k);
    Reassociate(queue, [t[k]], t[k + 1..]);
    EmittedFlush(queue, t[k], t[k + 1..], least, most);
  }

  lemma {:induction false} WindowFrom(t: seq<Inst>, k: nat, queue: seq<Inst>, least: nat, most: nat)
    requires k <= |t| && OnTime(t, least, most)
    requires Accounts(queue, t[..k]) && |queue| == k - Gone(k, least, most)
    ensures Emitted(queue, t[k..], least, most) == Sort(queue + t[k..])
    decreases |t| - k
  {
    if k == |t| {
      assert queue + t[k..] == queue;
    } else {
      var q := queue + [t[k]];
      ArrivalAccounts(t, k, queue);
      if |queue| < most {
        WindowFrom(t, k + 1, q, least, most);
        SortsIfKept(t, k, queue, least, most);
      } else {
        FlushAccounts(t[..k + 1], q, Flushed(q, least));
        WindowFrom(t, k + 1, Sort(q)[Flushed(q, least)..], least, most);
        FlushStep(t, k + 1, q, least, most);
        SortsIfFlushed(t, k, queue, least, most);
      }
    }
  }

  // ----- Late, it does not -----

  /** The output and the queue after k arrivals. */
  function Window(t: seq<Inst>, k: nat, least: nat, most: nat): (w: (seq<Inst>, seq<Inst>))
    requires k <= |t|
    ensures |w.0| == Gone(k, least, most) && |w.1| == k - |w.0|
  {
    if k == 0 then ([], [])
    else
      var (out, queue) := Window(t, k - 1, least, most);
      var q := queue + [t[k - 1]];
      if |q| > most then (out + Sort(q)[..Flushed(q, least)], Sort(q)[Flushed(q, least)..]) else (out, q)
  }

  /** The whole output, in terms of the output and the queue after k arrivals. */
  function Total(t: seq<Inst>, k: nat, least: nat, most: nat): (out: seq<Inst>)
    requires k <= |t|
  {
    Window(t, k, least, most).0 + Emitted(Window(t, k, least, most).1, t[k..], least, most)
  }

  lemma NextEmits(t: seq<Inst>, k: nat, least: nat, most: nat)
    requires k < |t|
    ensures Total(t, k, least, most) == Total(t, k + 1, least, most)
  {
    var (out, queue) := Window(t, k, least, most);
    var x, rest := t[k], t[k + 1..];
    SplitAt(t, k);
    if |queue| < most {
      EmittedKeep(queue, x, rest, least, most);
    } else {
      var q := queue + [x];
      var n := Flushed(q, least);
      EmittedFlush(queue, x, rest, least, most);
      Reassociate(out, Sort(q)[..n], Emitted(Sort(q)[n..], rest, least, most));
    }
  }

  lemma {:induction false} WindowEmits(t: seq<Inst>, k: nat, least: nat, most: nat)
    requires k <= |t|
    ensures Total(t, k, least, most) == Total(t, 0, least, most)
    decreases k
  {
    if k == 0 {
    } else {
      NextEmits(t, k - 1, least, most);
      WindowEmits(t, k - 1, least, most);
    }
  }

  /** How many instructions with the number are in the output or the queue. */
  function Held(w: (seq<Inst>, seq<Inst>), v: int): (n: nat)
  {
    |Only(w.0, v)| + |Only(w.1, v)|
  }

  lemma MoveHolds(out: seq<Inst>, queue: seq<Inst>, n: nat, v: int)
    requires n <= |queue|
    ensures Held((out + queue[..n], queue[n..]), v) == Held((out, queue), v)
  {
    assert queue == queue[..n] + queue[n..];
    OnlyConcat(queue[..n], queue[n..], v);
    OnlyConcat(out, queue[..n], v);
  }

  lemma FlushHolds(out: seq<Inst>, q: seq<Inst>, n: nat, v: int)
    requires n <= |q|
    ensures Held((out + Sort(q)[..n], Sort(q)[n..]), v) == Held((out, q), v)
  {
    SortIsStable(q);
    MoveHolds(out, Sort(q), n, v);
  }

  lemma ArriveHolds(out: seq<Inst>, queue: seq<Inst>, x: Inst, least: nat, most: nat, v: int)
    ensures var q := queue + [x];
      var n := Flushed(q, least);
      Held(if |q| > most then (out + Sort(q)[..n], Sort(q)[n..]) else (out, q), v)
        == Held((out, queue), v) + |Only([x], v)|
  {
    var q := queue + [x];
    OnlyConcat(queue, [x], v);
    FlushHolds(out, q, Flushed(q, least), v);
  }

  lemma PrefixHolds(t: seq<Inst>, k: nat, v: int)
    requires k < |t|
    ensures |Only(t[..k + 1], v)| == |Only(t[..k], v)| + |Only([t[k]], v)|
  {
    SplitAt(t, k);
    OnlyConcat(t[..k], [t[k]], v);
  }

  lemma NextHolds(t: seq<Inst>, k: nat, least: nat, most: nat, v: int)
    requires k < |t| && Held(Window(t, k, least, most), v) == |Only(t[..k], v)|
    ensures Held(Window(t, k + 1, least, most), v) == |Only(t[..k + 1], v)|
  {
    var (out, queue) := Window(t, k, least, most);
    ArriveHolds(out, queue, t[k], least, most, v);
    PrefixHolds(t, k, v);
  }

  /** They hold, together, just what arrived. */
  lemma {:induction false} WindowHolds(t: seq<Inst>, k: nat, least: nat, most: nat, v: int)
    requires k <= |t|
    ensures Held(Window(t, k, least, most), v) == |Only(t[..k], v)|
  {
    if k == 0 {
    } else {
      WindowHolds(t, k - 1, least, most, v);
      NextHolds(t, k - 1, least, most, v);
    }
  }

  /** Some later instruction has the number, so that the trace has more of it than its beginning. */
  lemma OneMore(t: seq<Inst>, i: nat)
    requires i < |t|
    ensures |Only(t, t[i].sn)| > |Only(t[..i], t[i].sn)|
  {
    var v := t[i].sn;
    assert t == t[..i] + t[i..] && t[i..] == [t[i]] + t[i + 1..];
    OnlyConcat(t[..i], t[i..], v);
    OnlyCons(t[i], t[i + 1..], v);
  }

  /** The beginning of an ordered list that reaches past the smaller ones has the number. */
  lemma BeginningHas(out: seq<Inst>, rest: seq<Inst>, v: int, e: nat)
    requires Ordered(out + rest) && |out| > CountLess(out + rest, v) + e && |Only(out + rest, v)| > e
    ensures |Only(out, v)| > e
  {
    var s := out + rest;
    assert s[..|out|] == out;
    OnlyInPrefix(s, v, |out|);
  }

  /** An instruction that arrives when its place is gone spoils the order: the output
      already has as many places as its own, and one of its number is missing. */
  lemma LateIsUnsorted(t: seq<Inst>, i: nat, least: nat, most: nat)
    requires i < |t| && Rank(t, i) < Gone(i, least, most)
    ensures Emitted([], t, least, most) != Sort(t)
  {
    var v := t[i].sn;
    var (out, queue) := Window(t, i, least, most);
    var rest := Emitted(queue, t[i..], least, most);
    WindowEmits(t, i, least, most);
    assert t[0..] == t;
    WindowHolds(t, i, least, most, v);
    if out + rest == Sort(t) {
      SortIsStable(t);
      SortCountLess(t, v);
      OneMore(t, i);
      BeginningHas(out, rest, v, |Only(t[..i], v)|);
    }
  }

  // ----- When the window sorts -----

  /** For every trace and all thresholds: the window emits the stable sort of the
      whole trace if and only if no instruction arrives when its place is gone. */
  lemma WindowSortsIff(t: seq<Inst>, least: nat, most: nat)
    ensures Emitted([], t, least, most) == Sort(t) <==> OnTime(t, least, most)
  {
    if OnTime(t, least, most) {
      assert t[0..] == t && [] + t == t;
      WindowFrom(t, 0, [], least, most);
    } else {
      var i :| 0 <= i < |t| && Gone(i, least, most) > Rank(t, i);
      LateIsUnsorted(t, i, least, most);
    }
  }

  /** The window is a full sort: for every trace in which no instruction arrives
      more than `least` places late, whatever the threshold for flushing. */
  lemma WindowIsFullSort(t: seq<Inst>, least: nat, most: nat)
    requires NotTooLate(t, least)
    ensures Emitted([], t, least, most) == Sort(t)
  {
    forall i | 0 <= i < |t| ensures Gone(i, least, most) <= Rank(t, i) {
      GoneKeeps(i, least, most);
    }
    WindowSortsIff(t, least, most);
  }

  /** The documented assumption is exact when the window holds no more than it keeps,
      and so it is exactly what makes the window sort for every upper threshold. */
  lemma AssumptionIsExact(t: seq<Inst>, least: nat)
    ensures Emitted([], t, least, least) == Sort(t) <==> NotTooLate(t, least)
    ensures (forall most :: Emitted([], t, least, most) == Sort(t)) <==> NotTooLate(t, least)
  {
    WindowSortsIff(t, least, least);
    forall i | 0 <= i < |t| ensures Gone(i, least, least) <= Rank(t, i) <==> i - Rank(t, i) <= least {
      GoneKeeps(i, least, least);
    }
    if NotTooLate(t, least) {
      forall most ensures Emitted([], t, least, most) == Sort(t) {
        WindowIsFullSort(t, least, most);
      }
    }
  }

  /** For one upper threshold it is not exact: a trace that never fills the window is sorted, however late. */
  lemma LateButSorted()
    ensures var t := [Inst(2, 0, 0, ""), Inst(1, 0, 0, "")];
      !NotTooLate(t, 0) && Emitted([], t, 0, 2) == Sort(t)
  {
    var t := [Inst(2, 0, 0, ""), Inst(1, 0, 0, "")];
    assert t[..1] == [t[0]] && t[1..] == [t[1]];
    assert Rank(t, 1) == 0;
    forall i | 0 <= i < |t| ensures Gone(i, 0, 2) <= Rank(t, i) {
      assert Gone(0, 0, 2) == 0 && Gone(1, 0, 2) == 0;
    }
    WindowSortsIff(t, 0, 2);
  }

  // ----- Exactly once -----

  lemma FlushKeepsAll(q: seq<Inst>, n: nat)
    requires n <= |q|
    ensures multiset(Sort(q)[..n]) + multiset(Sort(q)[n..]) == multiset(q)
  {
    SortIsPermutation(q);
    SplitMultiset(Sort(q), n);
  }

  /** On any trace, however late, every instruction leaves the window exactly once. */
  lemma {:induction false} EmittedIsPermutation(queue: seq<Inst>, trace: seq<Inst>, least: nat, most: nat)
    ensures multiset(Emitted(queue, trace, least, most)) == multiset(queue) + multiset(trace)
    decreases |trace|
  {
    if trace == [] {
      SortIsPermutation(queue);
    } else {
      var x, rest := trace[0], trace[1..];
      var q := queue + [x];
      assert trace == [x] + rest && multiset(trace) == multiset{x} + multiset(rest);
      assert multiset(q) == multiset(queue) + multiset{x};
      if |q| > most {
        var n := Flushed(q, least);
        var now, kept := Sort(q)[..n], Sort(q)[n..];
        EmittedIsPermutation(kept, rest, least, most);
        FlushKeepsAll(q, n);
        assert multiset(now + Emitted(kept, rest, least, most)) == multiset(now) + multiset(kept) + multiset(rest);
      } else {
        EmittedIsPermutation(q, rest, least, most);
      }
    }
  }
}
