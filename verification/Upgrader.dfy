/** The checkpoint upgrader: migrations are applied in rounds, each round those whose
    dependencies the checkpoint had when the round began. A migration adds its tag or,
    if it is a downgrader, removes it. */
module Upgrader {
  import opened Basics

  type Tag = string

  datatype Migration = Migration(depends: seq<Tag>, down: bool)

  /** Every known migration, by its tag. */
  type Migrations = map<Tag, Migration>

  datatype Outcome = Upgraded | Unresolvable(left: set<Tag>)

  /** `ready`. */
  predicate Ready(u: Migrations, t: Tag, tags: set<Tag>)
    requires t in u
  {
    forall i :: 0 <= i < |u[t].depends| ==> u[t].depends[i] in tags
  }

  /** What a checkpoint with these tags needs. */
  function ToApply(u: Migrations, tags: set<Tag>): (r: set<Tag>)
  {
    set t | t in u && (u[t].down <==> t in tags)
  }

  /** The tags after some migrations, in whatever order. */
  function After(u: Migrations, tags: set<Tag>, done: set<Tag>): (r: set<Tag>)
  {
    tags - (set t | t in done && t in u && u[t].down) + (set t | t in done && t in u && !u[t].down)
  }

  function Tags(s: seq<Tag>): (r: set<Tag>)
  {
    set i | 0 <= i < |s| :: s[i]
  }

  predicate Distinct(s: seq<Tag>)
  {
    forall i, j :: 0 <= i < j < |s| ==> s[i] != s[j]
  }

  /** Each migration of a list runs when the checkpoint has its dependencies. */
  predicate Respects(u: Migrations, tags: set<Tag>, order: seq<Tag>)
  {
    forall i :: 0 <= i < |order| ==> order[i] in u && Ready(u, order[i], After(u, tags, Tags(order[..i])))
  }

  /** An order that applies every migration that is needed once, after its dependencies. */
  predicate Resolves(u: Migrations, tags: set<Tag>, order: seq<Tag>)
  {
    Distinct(order) && Tags(order) == ToApply(u, tags) && Respects(u, tags, order)
  }

  /** No migration that is needed depends on another tag that is to be removed. */
  predicate Independent(u: Migrations, tags: set<Tag>)
  {
    forall t, d :: t in ToApply(u, tags) && d in ToApply(u, tags) && d in u[t].depends && u[d].down ==> d == t
  }

  // ----- Orders -----

  lemma TagsConcat(a: seq<Tag>, b: seq<Tag>)
    ensures Tags(a + b) == Tags(a) + Tags(b)
  {
    forall x | x in Tags(a) + Tags(b) ensures x in Tags(a + b) {
      if x in Tags(a) {
        var i :| 0 <= i < |a| && a[i] == x;
        assert (a + b)[i] == x;
      } else {
        var i :| 0 <= i < |b| && b[i] == x;
        assert (a + b)[|a| + i] == x;
      }
    }
  }

  lemma TagsOne(t: Tag)
    ensures Tags([t]) == {t}
  {
    assert [t][0] in Tags([t]);
  }

  lemma TagsSnoc(s: seq<Tag>, t: Tag)
    ensures Tags(s + [t]) == Tags(s) + {t}
  {
    TagsConcat(s, [t]);
    TagsOne(t);
  }

  lemma DistinctConcat(a: seq<Tag>, b: seq<Tag>)
    requires Distinct(a) && Distinct(b) && Tags(a) !! Tags(b)
    ensures Distinct(a + b)
  {
    forall i, j | 0 <= i < j < |a + b| ensures (a + b)[i] != (a + b)[j] {
      if i < |a| <= j {
        assert (a + b)[i] in Tags(a) && (a + b)[j] in Tags(b);
      }
    }
  }

  lemma AfterTwice(u: Migrations, tags: set<Tag>, a: set<Tag>, b: set<Tag>)
    requires a !! b
    ensures After(u, After(u, tags, a), b) == After(u, tags, a + b)
  {
  }

  /** The tags in the middle of the second of two orders. */
  lemma AfterConcat(u: Migrations, tags: set<Tag>, a: seq<Tag>, b: seq<Tag>, k: nat)
    requires k < |b| && Tags(a) !! Tags(b)
    ensures (a + b)[|a| + k] == b[k]
    ensures After(u, tags, Tags((a + b)[..|a| + k])) == After(u, After(u, tags, Tags(a)), Tags(b[..k]))
  {
    assert (a + b)[..|a| + k] == a + b[..k];
    TagsConcat(a, b[..k]);
    assert Tags(b[..k]) <= Tags(b);
    AfterTwice(u, tags, Tags(a), Tags(b[..k]));
  }

  /** Two orders, one after the other. */
  lemma RespectsConcat(u: Migrations, tags: set<Tag>, a: seq<Tag>, b: seq<Tag>)
    requires Tags(a) !! Tags(b)
    requires Respects(u, tags, a) && Respects(u, After(u, tags, Tags(a)), b)
    ensures Respects(u, tags, a + b)
  {
    var order := a + b;
    forall i | 0 <= i < |order| ensures order[i] in u && Ready(u, order[i], After(u, tags, Tags(order[..i]))) {
      if i < |a| {
        assert order[..i] == a[..i];
      } else {
        AfterConcat(u, tags, a, b, i - |a|);
      }
    }
  }

  lemma Enumerate(s: set<Tag>) returns (order: seq<Tag>)
    ensures Distinct(order) && Tags(order) == s
    decreases |s|
  {
    if s == {} {
      order := [];
    } else {
      var t :| t in s;
      var rest := Enumerate(s - {t});
      order := [t] + rest;
      TagsOne(t);
      TagsConcat([t], rest);
      DistinctConcat([t], rest);
    }
  }

  // ----- Rounds -----

  /** The migrations of one round. */
  function Round(u: Migrations, tags: set<Tag>, todo: set<Tag>): (r: set<Tag>)
    requires todo <= u.Keys
  {
    set t | t in todo && Ready(u, t, tags)
  }

  /** No migration of a round depends on another tag that the round removes. */
  predicate NoClash(u: Migrations, round: set<Tag>)
    requires round <= u.Keys
  {
    forall t, d :: t in round && d in round && d in u[t].depends && u[d].down ==> d == t
  }

  lemma RoundRespects(u: Migrations, tags: set<Tag>, round: set<Tag>, order: seq<Tag>)
    requires round <= u.Keys && (forall t :: t in round ==> Ready(u, t, tags)) && NoClash(u, round)
    requires Distinct(order) && Tags(order) <= round
    ensures Respects(u, tags, order)
  {
    forall i | 0 <= i < |order| ensures order[i] in u && Ready(u, order[i], After(u, tags, Tags(order[..i]))) {
      var t, done := order[i], Tags(order[..i]);
      assert t in Tags(order) && done <= Tags(order) && t !in done;
      forall k | 0 <= k < |u[t].depends| ensures u[t].depends[k] in After(u, tags, done) {
        assert u[t].depends[k] in tags;
      }
    }
  }

  lemma ClashingOrder(u: Migrations, tags: set<Tag>, round: set<Tag>, t: Tag, d: Tag) returns (order: seq<Tag>)
    requires round <= u.Keys && t in round && d in round && d in u[t].depends && u[d].down && d != t
    ensures Distinct(order) && Tags(order) == round && !Respects(u, tags, order)
  {
    var rest := Enumerate(round - {t, d});
    var first := [d, t];
    TagsOne(d);
    TagsSnoc([d], t);
    assert first == [d] + [t];
    TagsConcat(first, rest);
    DistinctConcat(first, rest);
    order := first + rest;
    assert order[1] == t && order[..1] == [d];
    assert d !in After(u, tags, {d});
  }

  /** How far the rounds get: the migrations that run, as a set. */
  function Done(u: Migrations, tags: set<Tag>, todo: set<Tag>): (r: set<Tag>)
    requires todo <= u.Keys
    ensures r <= todo
    decreases todo
  {
    var round := Round(u, tags, todo);
    if round == {} then {} else round + Done(u, After(u, tags, round), todo - round)
  }

  /** No two migrations of one round clash. */
  predicate NoneClash(u: Migrations, tags: set<Tag>, todo: set<Tag>)
    requires todo <= u.Keys
    decreases todo
  {
    var round := Round(u, tags, todo);
    round != {} ==> NoClash(u, round) && NoneClash(u, After(u, tags, round), todo - round)
  }

  /** An order begins with that of a round. */
  predicate Splits(a: seq<Tag>, b: seq<Tag>, order: seq<Tag>, round: set<Tag>)
  {
    Distinct(a) && Tags(a) == round && order == a + b
  }

  /** The rounds, each in some order, one after the other. */
  ghost predicate IsRun(u: Migrations, tags: set<Tag>, todo: set<Tag>, order: seq<Tag>)
    requires todo <= u.Keys
    decreases todo
  {
    var round := Round(u, tags, todo);
    if round == {} then order == []
    else exists a, b :: Splits(a, b, order, round) && IsRun(u, After(u, tags, round), todo - round, b)
  }

  lemma RunCons(u: Migrations, tags: set<Tag>, todo: set<Tag>, a: seq<Tag>, b: seq<Tag>)
    requires todo <= u.Keys && Round(u, tags, todo) != {}
    requires Distinct(a) && Tags(a) == Round(u, tags, todo)
    requires IsRun(u, After(u, tags, Round(u, tags, todo)), todo - Round(u, tags, todo), b)
    ensures IsRun(u, tags, todo, a + b)
  {
    assert Splits(a, b, a + b, Round(u, tags, todo));
  }

  /** A run applies each migration that the rounds get to, once. */
  lemma {:induction false} RunApplies(u: Migrations, tags: set<Tag>, todo: set<Tag>, order: seq<Tag>)
    requires todo <= u.Keys && IsRun(u, tags, todo, order)
    ensures Distinct(order) && Tags(order) == Done(u, tags, todo)
    decreases todo
  {
    var round := Round(u, tags, todo);
    if round == {} {
    } else {
      var a, b :| Splits(a, b, order, round) && IsRun(u, After(u, tags, round), todo - round, b);
      RunApplies(u, After(u, tags, round), todo - round, b);
      TagsConcat(a, b);
      DistinctConcat(a, b);
    }
  }

  lemma {:induction false} SomeRun(u: Migrations, tags: set<Tag>, todo: set<Tag>) returns (order: seq<Tag>)
    requires todo <= u.Keys
    ensures IsRun(u, tags, todo, order)
    decreases todo
  {
    var round := Round(u, tags, todo);
    if round == {} {
      order := [];
    } else {
      var a := Enumerate(round);
      var b := SomeRun(u, After(u, tags, round), todo - round);
      RunCons(u, tags, todo, a, b);
      order := a + b;
    }
  }

  lemma {:induction false} RunRespects(u: Migrations, tags: set<Tag>, todo: set<Tag>, order: seq<Tag>)
    requires todo <= u.Keys && IsRun(u, tags, todo, order) && NoneClash(u, tags, todo)
    ensures Respects(u, tags, order)
    decreases todo
  {
    var round := Round(u, tags, todo);
    if round == {} {
    } else {
      var a, b :| Splits(a, b, order, round) && IsRun(u, After(u, tags, round), todo - round, b);
      RunRespects(u, After(u, tags, round), todo - round, b);
      RunApplies(u, After(u, tags, round), todo - round, b);
      RoundRespects(u, tags, round, a);
      RespectsConcat(u, tags, a, b);
    }
  }

  /** An order that goes wrong goes wrong with anything before or after it. */
  lemma DisrespectsConcat(u: Migrations, tags: set<Tag>, a: seq<Tag>, b: seq<Tag>)
    requires Tags(a) !! Tags(b)
    requires !Respects(u, tags, a) || !Respects(u, After(u, tags, Tags(a)), b)
    ensures !Respects(u, tags, a + b)
  {
    var order := a + b;
    if !Respects(u, tags, a) {
      var i :| 0 <= i < |a| && !(a[i] in u && Ready(u, a[i], After(u, tags, Tags(a[..i]))));
      assert order[i] == a[i] && order[..i] == a[..i];
    } else {
      var k :| 0 <= k < |b| && !(b[k] in u && Ready(u, b[k], After(u, After(u, tags, Tags(a)), Tags(b[..k]))));
      AfterConcat(u, tags, a, b, k);
    }
  }

  lemma {:induction false} ClashingRun(u: Migrations, tags: set<Tag>, todo: set<Tag>) returns (order: seq<Tag>)
    requires todo <= u.Keys && !NoneClash(u, tags, todo)
    ensures IsRun(u, tags, todo, order) && !Respects(u, tags, order)
    decreases todo
  {
    var round := Round(u, tags, todo);
    var later, left := After(u, tags, round), todo - round;
    var a, b;
    if NoClash(u, round) {
      a := Enumerate(round);
      b := ClashingRun(u, later, left);
    } else {
      var t, d :| t in round && d in round && d in u[t].depends && u[d].down && d != t;
      a := ClashingOrder(u, tags, round, t, d);
      b := SomeRun(u, later, left);
    }
    RunCons(u, tags, todo, a, b);
    RunApplies(u, later, left, b);
    DisrespectsConcat(u, tags, a, b);
    order := a + b;
  }

  /** Whatever the order within the rounds, each migration runs when the checkpoint has
      its dependencies: if and only if no round holds a migration and another tag, to
      be removed, that it depends on. */
  lemma RespectsIff(u: Migrations, start: set<Tag>)
    ensures (forall order :: IsRun(u, start, ToApply(u, start), order) ==> Respects(u, start, order))
      <==> NoneClash(u, start, ToApply(u, start))
  {
    var todo := ToApply(u, start);
    if NoneClash(u, start, todo) {
      forall order | IsRun(u, start, todo, order) ensures Respects(u, start, order) {
        RunRespects(u, start, todo, order);
      }
    } else {
      var order := ClashingRun(u, start, todo);
      assert IsRun(u, start, todo, order) && !Respects(u, start, order);
    }
  }

  // ----- When the rounds get to everything -----

  /** The tags after some migrations, if none were ever removed. */
  function Added(u: Migrations, tags: set<Tag>, done: set<Tag>): (r: set<Tag>)
  {
    tags + (set t | t in done && t in u && !u[t].down)
  }

  /** How far the rounds would get, if no tag were ever removed. */
  function Reach(u: Migrations, tags: set<Tag>, todo: set<Tag>): (r: set<Tag>)
    requires todo <= u.Keys
    ensures r <= todo
    decreases todo
  {
    var round := Round(u, tags, todo);
    if round == {} then {} else round + Reach(u, Added(u, tags, round), todo - round)
  }

  /** The round in which a migration would then run. */
  function Level(u: Migrations, tags: set<Tag>, todo: set<Tag>, t: Tag): (n: nat)
    requires todo <= u.Keys && t in Reach(u, tags, todo)
    decreases todo
  {
    var round := Round(u, tags, todo);
    if t in round then 0 else 1 + Level(u, Added(u, tags, round), todo - round, t)
  }

  /** A migration uses another tag that is to be removed. */
  predicate Uses(u: Migrations, t: Tag, d: Tag)
  {
    t in u && d in u && d in u[t].depends && u[d].down && d != t
  }

  /** No migration comes after the removal of a tag it depends on. */
  predicate InTime(u: Migrations, tags: set<Tag>, todo: set<Tag>)
    requires todo <= u.Keys && Reach(u, tags, todo) == todo
  {
    forall t, d :: t in todo && d in todo && Uses(u, t, d) ==> Level(u, tags, todo, t) <= Level(u, tags, todo, d)
  }

  /** Each comes before it. */
  predicate InGoodTime(u: Migrations, tags: set<Tag>, todo: set<Tag>)
    requires todo <= u.Keys && Reach(u, tags, todo) == todo
  {
    forall t, d :: t in todo && d in todo && Uses(u, t, d) ==> Level(u, tags, todo, t) < Level(u, tags, todo, d)
  }

  /** What a caller can tell from the dependencies: whether all that is needed will run. */
  predicate Completes(u: Migrations, start: set<Tag>)
  {
    Reach(u, start, ToApply(u, start)) == ToApply(u, start) && InTime(u, start, ToApply(u, start))
  }

  /** Nothing that is left depends on a tag that has been removed. */
  predicate NoneOrphaned(u: Migrations, done: set<Tag>, todo: set<Tag>)
  {
    forall t, d :: t in todo && d in done ==> !Uses(u, t, d)
  }

  /** A migration that depends on a removed tag never runs. */
  lemma {:induction false} OrphanNeverRuns(
      u: Migrations, start: set<Tag>, done: set<Tag>, todo: set<Tag>, t: Tag, d: Tag)
    requires done !! todo && todo <= u.Keys && t in todo && d in done && Uses(u, t, d)
    ensures t !in Done(u, After(u, start, done), todo)
    decreases todo
  {
    var tags := After(u, start, done);
    var round := Round(u, tags, todo);
    assert d !in tags && !Ready(u, t, tags);
    if round == {} {
    } else {
      AfterTwice(u, start, done, round);
      OrphanNeverRuns(u, start, done + round, todo - round, t, d);
    }
  }

  /** While nothing is orphaned, removing tags makes no difference to a round. */
  lemma SameRound(u: Migrations, start: set<Tag>, done: set<Tag>, todo: set<Tag>)
    requires done !! todo && todo <= u.Keys && NoneOrphaned(u, done, todo)
    ensures Round(u, After(u, start, done), todo) == Round(u, Added(u, start, done), todo)
  {
    var actual, added := After(u, start, done), Added(u, start, done);
    forall t | t in todo ensures Ready(u, t, actual) <==> Ready(u, t, added) {
      forall i | 0 <= i < |u[t].depends| ensures u[t].depends[i] in actual <==> u[t].depends[i] in added {
        var d := u[t].depends[i];
        assert d in done && d in u && u[d].down ==> Uses(u, t, d);
      }
    }
  }

  lemma AddedTwice(u: Migrations, tags: set<Tag>, a: set<Tag>, b: set<Tag>)
    ensures Added(u, Added(u, tags, a), b) == Added(u, tags, a + b)
  {
  }

  /** One round further: the rest is in time, and nothing in it is orphaned by this round. */
  lemma InTimeStep(u: Migrations, tags: set<Tag>, todo: set<Tag>)
    requires todo <= u.Keys && Round(u, tags, todo) != {}
    ensures var round := Round(u, tags, todo);
      var later, left := Added(u, tags, round), todo - round;
      && (Reach(u, tags, todo) == todo <==> Reach(u, later, left) == left)
      && (Reach(u, tags, todo) == todo ==>
            (InTime(u, tags, todo) <==> InTime(u, later, left) && NoneOrphaned(u, round, left)))
  {
    var round := Round(u, tags, todo);
    var later, left := Added(u, tags, round), todo - round;
    if Reach(u, tags, todo) == todo {
      assert forall t :: t in left ==> Level(u, tags, todo, t) == 1 + Level(u, later, left, t);
      assert forall t :: t in round ==> Level(u, tags, todo, t) == 0;
    }
  }

  lemma OrphansSplit(u: Migrations, a: set<Tag>, b: set<Tag>, todo: set<Tag>)
    ensures NoneOrphaned(u, a + b, todo) <==> NoneOrphaned(u, a, todo) && NoneOrphaned(u, b, todo)
  {
  }

  /** The rounds get to all that is left if and only if it is within reach, in time, and not orphaned. */
  lemma {:induction false} CompletesFrom(u: Migrations, start: set<Tag>, done: set<Tag>, todo: set<Tag>)
    requires done !! todo && todo <= u.Keys
    ensures Done(u, After(u, start, done), todo) == todo <==>
      && NoneOrphaned(u, done, todo) && Reach(u, Added(u, start, done), todo) == todo
      && InTime(u, Added(u, start, done), todo)
    decreases todo
  {
    var actual, added := After(u, start, done), Added(u, start, done);
    if !NoneOrphaned(u, done, todo) {
      var t, d :| t in todo && d in done && Uses(u, t, d);
      OrphanNeverRuns(u, start, done, todo, t, d);
    } else {
      SameRound(u, start, done, todo);
      var round := Round(u, actual, todo);
      if round == {} {
      } else {
        AfterTwice(u, start, done, round);
        AddedTwice(u, start, done, round);
        CompletesFrom(u, start, done + round, todo - round);
        InTimeStep(u, added, todo);
        OrphansSplit(u, done, round, todo - round);
      }
    }
  }

  /** All that is needed runs if and only if it is within reach of rounds that only add
      tags, and no migration would there run in a later round than the removal of a
      tag it depends on. */
  lemma CompletesIff(u: Migrations, start: set<Tag>)
    ensures Done(u, start, ToApply(u, start)) == ToApply(u, start) <==> Completes(u, start)
  {
    assert After(u, start, {}) == start && Added(u, start, {}) == start;
    CompletesFrom(u, start, {}, ToApply(u, start));
  }

  /** If an order of all that is needed exists, some migration is within reach while
      any is left: the first of the order that is left. */
  lemma {:induction false} SomeIsReady(u: Migrations, start: set<Tag>, order: seq<Tag>, left: set<Tag>, i: nat)
    returns (t: Tag)
    requires Resolves(u, start, order) && left <= ToApply(u, start)
    requires forall k :: 0 <= k < i && k < |order| ==> order[k] !in left
    requires exists k :: i <= k < |order| && order[k] in left
    ensures t in left && t in u && Ready(u, t, Added(u, start, ToApply(u, start) - left))
    decreases |order| - i
  {
    if order[i] in left {
      t := order[i];
      var done := Tags(order[..i]);
      assert Ready(u, t, After(u, start, done));
      assert done <= ToApply(u, start) - left by {
        assert forall k :: 0 <= k < i ==> order[k] in Tags(order);
      }
      forall k | 0 <= k < |u[t].depends| ensures u[t].depends[k] in Added(u, start, ToApply(u, start) - left) {
        assert u[t].depends[k] in After(u, start, done);
      }
    } else {
      t := SomeIsReady(u, start, order, left, i + 1);
    }
  }

  /** Then everything is within reach. */
  lemma {:induction false} ReachIsAll(u: Migrations, start: set<Tag>, order: seq<Tag>, todo: set<Tag>)
    requires Resolves(u, start, order) && todo <= ToApply(u, start)
    ensures Reach(u, Added(u, start, ToApply(u, start) - todo), todo) == todo
    decreases todo
  {
    var all := ToApply(u, start);
    var tags := Added(u, start, all - todo);
    var round := Round(u, tags, todo);
    if todo == {} {
    } else {
      var x :| x in todo;
      assert x in Tags(order);
      var t := SomeIsReady(u, start, order, todo, 0);
      assert t in round;
      AddedTwice(u, start, all - todo, round);
      assert all - todo + round == all - (todo - round);
      ReachIsAll(u, start, order, todo - round);
    }
  }

  /** An order that exists is found, in the sense that all migrations run, if and only if
      no migration would run in a later round than the removal of a tag it depends on. */
  lemma OrderIsFoundIff(u: Migrations, start: set<Tag>, order: seq<Tag>)
    requires Resolves(u, start, order)
    ensures Reach(u, start, ToApply(u, start)) == ToApply(u, start)
    ensures Done(u, start, ToApply(u, start)) == ToApply(u, start) <==> InTime(u, start, ToApply(u, start))
  {
    var all := ToApply(u, start);
    assert all - all == {} && Added(u, start, {}) == start;
    ReachIsAll(u, start, order, all);
    CompletesIff(u, start);
  }

  lemma GoodTimeStep(u: Migrations, tags: set<Tag>, todo: set<Tag>)
    requires todo <= u.Keys && Round(u, tags, todo) != {} && Reach(u, tags, todo) == todo
    ensures var round := Round(u, tags, todo);
      var later, left := Added(u, tags, round), todo - round;
      && Reach(u, later, left) == left
      && (InGoodTime(u, tags, todo) <==>
            InGoodTime(u, later, left) && NoneOrphaned(u, round, left) && NoClash(u, round))
  {
    var round := Round(u, tags, todo);
    var later, left := Added(u, tags, round), todo - round;
    assert forall t :: t in left ==> Level(u, tags, todo, t) == 1 + Level(u, later, left, t);
    assert forall t :: t in round ==> Level(u, tags, todo, t) == 0;
    if NoClash(u, round) {
      forall t, d | t in round && d in round ensures !Uses(u, t, d) {
      }
    } else {
      var t, d :| t in round && d in round && d in u[t].depends && u[d].down && d != t;
      assert Uses(u, t, d);
    }
  }

  /** When all runs, two migrations of a round clash if and only if one would run in the
      same round as the removal of a tag it depends on. */
  lemma {:induction false} ClashesFrom(u: Migrations, start: set<Tag>, done: set<Tag>, todo: set<Tag>)
    requires done !! todo && todo <= u.Keys && Done(u, After(u, start, done), todo) == todo
    ensures Reach(u, Added(u, start, done), todo) == todo
    ensures NoneClash(u, After(u, start, done), todo) <==> InGoodTime(u, Added(u, start, done), todo)
    decreases todo
  {
    CompletesFrom(u, start, done, todo);
    SameRound(u, start, done, todo);
    var round := Round(u, After(u, start, done), todo);
    if round == {} {
    } else {
      AfterTwice(u, start, done, round);
      AddedTwice(u, start, done, round);
      CompletesFrom(u, start, done + round, todo - round);
      OrphansSplit(u, done, round, todo - round);
      ClashesFrom(u, start, done + round, todo - round);
      GoodTimeStep(u, Added(u, start, done), todo);
    }
  }

  /** All that is needed runs, and each migration while the checkpoint has its
      dependencies, whatever the order within the rounds: if and only if it is within
      reach and each would run in an earlier round than the removal of a tag it
      depends on. Then an order exists, and the rounds follow one. */
  lemma SafelyCompletesIff(u: Migrations, start: set<Tag>)
    ensures var all := ToApply(u, start);
      (forall order :: IsRun(u, start, all, order) ==> Resolves(u, start, order))
      <==> Reach(u, start, all) == all && InGoodTime(u, start, all)
  {
    var all := ToApply(u, start);
    assert After(u, start, {}) == start && Added(u, start, {}) == start;
    RespectsIff(u, start);
    CompletesIff(u, start);
    var some := SomeRun(u, start, all);
    forall order | IsRun(u, start, all, order) ensures Distinct(order) && Tags(order) == Done(u, start, all) {
      RunApplies(u, start, all, order);
    }
    if Done(u, start, all) == all {
      ClashesFrom(u, start, {}, all);
    } else {
      assert !Resolves(u, start, some);
    }
  }

  /** Where nothing that is needed depends on another tag to be removed, as when there are
      no downgraders: everything runs if and only if an order exists. */
  lemma IndependentCompletesIff(u: Migrations, start: set<Tag>)
    ensures Independent(u, start) ==>
      (Done(u, start, ToApply(u, start)) == ToApply(u, start) <==> exists order :: Resolves(u, start, order))
  {
    var all := ToApply(u, start);
    if Independent(u, start) {
      assert forall t, d :: t in all && d in all ==> !Uses(u, t, d);
      CompletesIff(u, start);
      SafelyCompletesIff(u, start);
      if Done(u, start, all) == all {
        var order := SomeRun(u, start, all);
        assert Resolves(u, start, order);
      }
      forall order | Resolves(u, start, order) ensures Done(u, start, all) == all {
        OrderIsFoundIff(u, start, order);
      }
    }
  }

  const EXAMPLE: Migrations :=
    map["a" := Migration([], true), "b" := Migration(["a", "c"], false), "c" := Migration([], false)]

  lemma ExampleRounds()
    ensures ToApply(EXAMPLE, {"a"}) == {"a", "b", "c"}
    ensures "b" !in Done(EXAMPLE, {"a"}, {"a", "b", "c"})
  {
    var u, all: set<Tag> := EXAMPLE, {"a", "b", "c"};
    assert u["b"].depends[1] == "c";
    assert Round(u, {"a"}, all) == {"a", "c"};
    assert After(u, {"a"}, {"a", "c"}) == {"c"} && all - {"a", "c"} == {"b"};
    assert u["b"].depends[0] == "a" && !Ready(u, "b", {"c"});
    assert Round(u, {"c"}, {"b"}) == {};
  }

  lemma ExampleOrder()
    requires ToApply(EXAMPLE, {"a"}) == {"a", "b", "c"}
    ensures Resolves(EXAMPLE, {"a"}, ["c", "b", "a"])
  {
    var order := ["c", "b", "a"];
    assert order[..0] == [] && order[..1] == ["c"] && order[..2] == ["c"] + ["b"];
    assert order == ["c", "b"] + ["a"];
    TagsOne("c");
    TagsSnoc(["c"], "b");
    TagsSnoc(["c", "b"], "a");
    assert Tags([]) == {};
  }

  /** In general the rounds can miss an order that exists: a tag is removed in the
      first round, and a migration that was to use it in the second is stuck. */
  lemma MissesAnOrder() returns (u: Migrations, start: set<Tag>)
    ensures Done(u, start, ToApply(u, start)) != ToApply(u, start)
    ensures exists order :: Resolves(u, start, order)
  {
    u, start := EXAMPLE, {"a"};
    ExampleRounds();
    ExampleOrder();
  }

  // ----- The loop -----

  /** The body of a round: every ready migration runs, in any order. */
  method ApplyAll(u: Migrations, before: set<Tag>, ready: set<Tag>) returns (tags: set<Tag>, order: seq<Tag>)
    requires ready <= ToApply(u, before)
    ensures Distinct(order) && Tags(order) == ready && tags == After(u, before, ready)
  {
    tags, order := before, [];
    var rest := ready;
    while rest != {}
      invariant rest <= ready && Distinct(order) && Tags(order) == ready - rest
      invariant tags == After(u, before, ready - rest)
      decreases rest
    {
      var t :| t in rest;
      TagsSnoc(order, t);
      assert forall i :: 0 <= i < |order| ==> order[i] in Tags(order);
      order := order + [t];
      tags := if u[t].down then tags - {t} else tags + {t};
      rest := rest - {t};
    }
  }

  lemma ToApplyAfter(u: Migrations, start: set<Tag>, done: set<Tag>)
    requires done <= ToApply(u, start)
    ensures ToApply(u, After(u, start, done)) == ToApply(u, start) - done
  {
  }

  lemma RunGoesOn(
      u: Migrations, start: set<Tag>, all: set<Tag>, applied: seq<Tag>, tags: set<Tag>, todo: set<Tag>, order: seq<Tag>)
    requires all <= u.Keys && todo <= u.Keys
    requires Round(u, tags, todo) != {} && Distinct(order) && Tags(order) == Round(u, tags, todo)
    requires forall rest :: IsRun(u, tags, todo, rest) ==> IsRun(u, start, all, applied + rest)
    ensures var later, left := After(u, tags, Tags(order)), todo - Tags(order);
      forall rest :: IsRun(u, later, left, rest) ==> IsRun(u, start, all, applied + order + rest)
  {
    var later, left := After(u, tags, Tags(order)), todo - Tags(order);
    forall rest | IsRun(u, later, left, rest) ensures IsRun(u, start, all, applied + order + rest) {
      RunCons(u, tags, todo, order, rest);
      Reassociate(applied, order, rest);
    }
  }

  /** The migration loop of `process_file`. `applied` lists the migrations in the
      order in which they ran: the rounds, one after the other, so that RespectsIff
      and SafelyCompletesIff say when each has its dependencies. The loop ends on every
      input, and succeeds exactly when the dependencies allow it; each migration that is
      needed runs at most once; a failure leaves only migrations that are not ready; and
      a second pass over what a success left behind finds nothing to do. */
  method Migrate(u: Migrations, start: set<Tag>) returns (r: Outcome, tags: set<Tag>, applied: seq<Tag>)
    ensures IsRun(u, start, ToApply(u, start), applied)
    ensures Distinct(applied) && Tags(applied) <= ToApply(u, start) && tags == After(u, start, Tags(applied))
    ensures r.Upgraded? <==> Tags(applied) == ToApply(u, start)
    ensures r.Upgraded? <==> Completes(u, start)
    ensures r.Upgraded? ==> ToApply(u, tags) == {}
    ensures r.Unresolvable? ==> r.left == ToApply(u, tags) == ToApply(u, start) - Tags(applied) && r.left != {}
    ensures r.Unresolvable? ==> forall t :: t in r.left ==> !Ready(u, t, tags)
  {
    tags, applied := start, [];
    var toApply := ToApply(u, start);
    ghost var all := toApply;
    CompletesIff(u, start);
    assert Tags([]) == {} && After(u, start, {}) == start;
    assert forall rest: seq<Tag> :: [] + rest == rest;
    while toApply != {}
      invariant Tags(applied) <= all && toApply == all - Tags(applied) && Distinct(applied)
      invariant tags == After(u, start, Tags(applied))
      invariant forall rest :: IsRun(u, tags, toApply, rest) ==> IsRun(u, start, all, applied + rest)
      decreases toApply
    {
      ToApplyAfter(u, start, Tags(applied));
      var ready := set t | t in toApply && Ready(u, t, tags);
      assert ready == Round(u, tags, toApply);
      if ready == {} {
        assert forall t :: t in toApply ==> t !in ready;
        assert IsRun(u, tags, toApply, []) && applied + [] == applied;
        RunApplies(u, start, all, applied);
        return Unresolvable(toApply), tags, applied;
      }
      ghost var before := tags;
      var order;
      tags, order := ApplyAll(u, tags, ready);
      TagsConcat(applied, order);
      DistinctConcat(applied, order);
      AfterTwice(u, start, Tags(applied), ready);
      RunGoesOn(u, start, all, applied, before, toApply, order);
      applied := applied + order;
      toApply := toApply - ready;
    }
    ToApplyAfter(u, start, Tags(applied));
    assert IsRun(u, tags, toApply, []) && applied + [] == applied;
    RunApplies(u, start, all, applied);
    return Upgraded, tags, applied;
  }
}
