/** Sorting instructions by sequence number, as the viewer's list does: stably. */
module StableSort {
  import opened Basics

  /** An instruction of the trace: its number, its first and last ticks, and its text. */
  datatype Inst = Inst(sn: int, fetch: int, retire: int, disasm: string)

  predicate Ordered(s: seq<Inst>)
  {
    forall i, j :: 0 <= i < j < |s| ==> s[i].sn <= s[j].sn
  }

  /** Every instruction of a comes no later than every one of b. */
  predicate Before(a: seq<Inst>, b: seq<Inst>)
  {
    forall i, j :: 0 <= i < |a| && 0 <= j < |b| ==> a[i].sn <= b[j].sn
  }

  function Insert(x: Inst, s: seq<Inst>): (r: seq<Inst>)
    ensures |r| == |s| + 1
  {
    if s == [] || x.sn <= s[0].sn then [x] + s else [s[0]] + Insert(x, s[1..])
  }

  /** The list's own sort: by sequence number, equal numbers in order of arrival. */
  function Sort(s: seq<Inst>): (r: seq<Inst>)
    ensures |r| == |s|
  {
    if s == [] then [] else Insert(s[0], Sort(s[1..]))
  }

  /** The instructions with one sequence number, in order. */
  function Only(s: seq<Inst>, v: int): (r: seq<Inst>)
  {
    if s == [] then [] else (if s[0].sn == v then [s[0]] else []) + Only(s[1..], v)
  }

  lemma OnlyCons(x: Inst, s: seq<Inst>, v: int)
    ensures Only([x] + s, v) == (if x.sn == v then [x] else []) + Only(s, v)
  {
    assert ([x] + s)[0] == x && ([x] + s)[1..] == s;
  }

  lemma {:induction false} InsertOrdered(x: Inst, s: seq<Inst>)
    requires Ordered(s)
    ensures Ordered(Insert(x, s))
    ensures forall i :: 0 <= i < |s| + 1 ==> Insert(x, s)[i] == x || Insert(x, s)[i] in s
  {
    if s == [] || x.sn <= s[0].sn {
    } else {
      InsertOrdered(x, s[1..]);
      var tail := Insert(x, s[1..]);
      assert Insert(x, s) == [s[0]] + tail;
      assert forall i :: 0 <= i < |tail| ==> s[0].sn <= tail[i].sn;
    }
  }

  lemma {:induction false} InsertOnly(x: Inst, s: seq<Inst>, v: int)
    requires Ordered(s)
    ensures Only(Insert(x, s), v) == (if x.sn == v then [x] else []) + Only(s, v)
  {
    if s == [] || x.sn <= s[0].sn {
      OnlyCons(x, s, v);
    } else {
      var tail := s[1..];
      InsertOnly(x, tail, v);
      assert Insert(x, s) == [s[0]] + Insert(x, tail) && s == [s[0]] + tail;
      OnlyCons(s[0], Insert(x, tail), v);
      OnlyCons(s[0], tail, v);
      if x.sn == v {
        assert Only(Insert(x, s), v) == [x] + Only(tail, v);
      } else {
        assert Only(Insert(x, tail), v) == Only(tail, v);
      }
    }
  }

  /** The sort orders its input and keeps, for each sequence number, the very same
      instructions in the same order: nothing is lost, repeated or swapped. */
  lemma {:induction false} SortIsStable(s: seq<Inst>)
    ensures Ordered(Sort(s))
    ensures forall v :: Only(Sort(s), v) == Only(s, v)
  {
    if s == [] {
    } else {
      SortIsStable(s[1..]);
      InsertOrdered(s[0], Sort(s[1..]));
      forall v ensures Only(Sort(s), v) == Only(s, v) {
        InsertOnly(s[0], Sort(s[1..]), v);
      }
    }
  }

  // ----- The stable sort is unique -----

  lemma {:induction false} OnlyHas(s: seq<Inst>, v: int)
    ensures Only(s, v) != [] ==> Only(s, v)[0] in s && Only(s, v)[0].sn == v
    ensures Only(s, v) == [] ==> forall i :: 0 <= i < |s| ==> s[i].sn != v
  {
    if s == [] {
    } else {
      OnlyHas(s[1..], v);
      assert s == [s[0]] + s[1..];
    }
  }

  lemma BothEmpty(a: seq<Inst>, b: seq<Inst>)
    requires forall v :: Only(a, v) == Only(b, v)
    ensures a != [] ==> b != []
  {
    if a != [] {
      assert Only(a, a[0].sn) == Only(b, a[0].sn);
    }
  }

  lemma DropHead(a: seq<Inst>, w: int)
    requires a != []
    ensures Only(a[1..], w) == if a[0].sn == w then Only(a, w)[1..] else Only(a, w)
  {
  }

  lemma SameHead(a: seq<Inst>, b: seq<Inst>)
    requires a != [] && b != [] && Ordered(b)
    requires forall v :: Only(a, v) == Only(b, v)
    ensures b[0].sn <= a[0].sn
  {
    assert Only(a, a[0].sn) == Only(b, a[0].sn);
    OnlyHas(b, a[0].sn);
  }

  /** That leaves one result only: `Sort` is the stable sort. */
  lemma {:induction false} StableSortIsUnique(a: seq<Inst>, b: seq<Inst>)
    requires Ordered(a) && Ordered(b)
    requires forall v :: Only(a, v) == Only(b, v)
    ensures a == b
  {
    BothEmpty(a, b);
    BothEmpty(b, a);
    if a == [] {
    } else {
      SameHead(a, b);
      SameHead(b, a);
      var v := a[0].sn;
      assert Only(a, v) == Only(b, v) && Only(a, v)[0] == a[0] && Only(b, v)[0] == b[0];
      forall w ensures Only(a[1..], w) == Only(b[1..], w) {
        assert Only(a, w) == Only(b, w);
        DropHead(a, w);
        DropHead(b, w);
      }
      StableSortIsUnique(a[1..], b[1..]);
      assert a == [a[0]] + a[1..] && b == [b[0]] + b[1..];
    }
  }

  lemma {:induction false} OnlyConcat(a: seq<Inst>, b: seq<Inst>, v: int)
    ensures Only(a + b, v) == Only(a, v) + Only(b, v)
  {
    if a == [] {
      assert a + b == b;
    } else {
      assert a == [a[0]] + a[1..];
      ConsParts(a[0], a[1..], b);
      OnlyConcat(a[1..], b, v);
    }
  }

  // ----- Nothing is lost -----

  lemma {:induction false} OnlyMember(s: seq<Inst>, x: Inst)
    ensures x in Only(s, x.sn) <==> x in s
  {
    if s == [] {
    } else {
      OnlyMember(s[1..], x);
      assert s == [s[0]] + s[1..];
    }
  }

  lemma SortMembers(s: seq<Inst>)
    ensures forall x :: x in Sort(s) <==> x in s
  {
    SortIsStable(s);
    forall x ensures x in Sort(s) <==> x in s {
      OnlyMember(s, x);
      OnlyMember(Sort(s), x);
    }
  }

  lemma {:induction false} InsertIsPermutation(x: Inst, s: seq<Inst>)
    ensures multiset(Insert(x, s)) == multiset{x} + multiset(s)
  {
    if s == [] || x.sn <= s[0].sn {
    } else {
      InsertIsPermutation(x, s[1..]);
      assert s == [s[0]] + s[1..];
    }
  }

  lemma {:induction false} SortIsPermutation(s: seq<Inst>)
    ensures multiset(Sort(s)) == multiset(s)
  {
    if s == [] {
    } else {
      SortIsPermutation(s[1..]);
      InsertIsPermutation(s[0], Sort(s[1..]));
      assert s == [s[0]] + s[1..];
    }
  }

  // ----- Sorting in stages -----

  lemma InsertFirst(x: Inst, s: seq<Inst>)
    requires Before([x], s)
    ensures Insert(x, s) == [x] + s
  {
    assert s != [] ==> [x][0].sn <= s[0].sn;
  }

  lemma HeadIsFirst(p: seq<Inst>, q: seq<Inst>)
    requires p != [] && Ordered(p) && Before(p, q)
    ensures Before([p[0]], p[1..] + Sort(q))
  {
    var rest := p[1..] + Sort(q);
    SortMembers(q);
    forall j | 0 <= j < |rest| ensures p[0].sn <= rest[j].sn {
      if j >= |p| - 1 {
        assert rest[j] in q;
      }
    }
  }

  /** An ordered prefix that nothing later undercuts sorts to itself. */
  lemma {:induction false} SortAfterPrefix(p: seq<Inst>, q: seq<Inst>)
    requires Ordered(p) && Before(p, q)
    ensures Sort(p + q) == p + Sort(q)
  {
    if p == [] {
      assert p + q == q;
    } else {
      var x, tail := p[0], p[1..];
      assert p == [x] + tail;
      ConsParts(x, tail, q);
      SortAfterPrefix(tail, q);
      HeadIsFirst(p, q);
      InsertFirst(x, tail + Sort(q));
      ConsParts(x, tail, Sort(q));
    }
  }

  lemma {:induction false} InsertCommutes(x: Inst, y: Inst, s: seq<Inst>)
    requires Ordered(s) && x.sn < y.sn
    ensures Insert(x, Insert(y, s)) == Insert(y, Insert(x, s))
  {
    if s == [] || y.sn <= s[0].sn {
      assert ([x] + s)[1..] == s;
    } else if x.sn <= s[0].sn {
      assert ([x] + s)[1..] == s;
    } else {
      InsertCommutes(x, y, s[1..]);
      assert ([s[0]] + Insert(y, s[1..]))[1..] == Insert(y, s[1..]);
      assert ([s[0]] + Insert(x, s[1..]))[1..] == Insert(x, s[1..]);
    }
  }

  lemma {:induction false} SortAfterInsert(x: Inst, s: seq<Inst>, rest: seq<Inst>)
    requires Ordered(s)
    ensures Sort(Insert(x, s) + rest) == Insert(x, Sort(s + rest))
  {
    if s == [] || x.sn <= s[0].sn {
      assert Insert(x, s) + rest == [x] + (s + rest);
      assert ([x] + (s + rest))[1..] == s + rest;
    } else {
      var tail := s[1..];
      SortAfterInsert(x, tail, rest);
      assert Insert(x, s) + rest == [s[0]] + (Insert(x, tail) + rest);
      assert ([s[0]] + (Insert(x, tail) + rest))[1..] == Insert(x, tail) + rest;
      assert (s + rest)[1..] == tail + rest;
      SortIsStable(tail + rest);
      InsertCommutes(s[0], x, Sort(tail + rest));
    }
  }

  /** Sorting the queue early does not change the sort of everything. */
  lemma {:induction false} SortInTwoStages(q: seq<Inst>, rest: seq<Inst>)
    ensures Sort(Sort(q) + rest) == Sort(q + rest)
  {
    if q == [] {
    } else {
      SortInTwoStages(q[1..], rest);
      SortIsStable(q[1..]);
      SortAfterInsert(q[0], Sort(q[1..]), rest);
      assert (q + rest)[1..] == q[1..] + rest;
    }
  }

  // ----- Counting -----

  function CountLess(s: seq<Inst>, v: int): (n: nat)
    ensures n <= |s|
  {
    if s == [] then 0 else (if s[0].sn < v then 1 else 0) + CountLess(s[1..], v)
  }

  function CountUpTo(s: seq<Inst>, v: int): (n: nat)
    ensures n <= |s|
  {
    if s == [] then 0 else (if s[0].sn <= v then 1 else 0) + CountUpTo(s[1..], v)
  }

  lemma {:induction false} CountConcat(a: seq<Inst>, b: seq<Inst>, v: int)
    ensures CountLess(a + b, v) == CountLess(a, v) + CountLess(b, v)
    ensures CountUpTo(a + b, v) == CountUpTo(a, v) + CountUpTo(b, v)
  {
    if a == [] {
      assert a + b == b;
    } else {
      CountConcat(a[1..], b, v);
      assert (a + b)[1..] == a[1..] + b;
    }
  }

  lemma {:induction false} InsertCount(x: Inst, s: seq<Inst>, v: int)
    ensures CountUpTo(Insert(x, s), v) == (if x.sn <= v then 1 else 0) + CountUpTo(s, v)
  {
    if s == [] || x.sn <= s[0].sn {
      assert ([x] + s)[1..] == s;
    } else {
      InsertCount(x, s[1..], v);
      assert ([s[0]] + Insert(x, s[1..]))[1..] == Insert(x, s[1..]);
    }
  }

  lemma {:induction false} SortCount(s: seq<Inst>, v: int)
    ensures CountUpTo(Sort(s), v) == CountUpTo(s, v)
  {
    if s == [] {
    } else {
      SortCount(s[1..], v);
      InsertCount(s[0], Sort(s[1..]), v);
    }
  }

  lemma {:induction false} NoneSmall(s: seq<Inst>, v: int)
    requires forall i :: 0 <= i < |s| ==> s[i].sn > v
    ensures CountUpTo(s, v) == 0 && CountLess(s, v) == 0
  {
    if s == [] {
    } else {
      NoneSmall(s[1..], v);
    }
  }

  lemma {:induction false} NoneLess(s: seq<Inst>, v: int)
    requires forall i :: 0 <= i < |s| ==> s[i].sn >= v
    ensures CountLess(s, v) == 0
  {
    if s == [] {
    } else {
      NoneLess(s[1..], v);
    }
  }

  lemma {:induction false} FirstAreSmall(s: seq<Inst>, v: int, i: nat)
    requires Ordered(s) && i < CountUpTo(s, v)
    ensures s[i].sn <= v
  {
    if i > 0 {
      FirstAreSmall(s[1..], v, i - 1);
    } else if s[0].sn > v {
      NoneSmall(s, v);
    }
  }

  lemma {:induction false} OnlyCount(s: seq<Inst>, v: int)
    ensures |Only(s, v)| == CountUpTo(s, v) - CountLess(s, v)
  {
    if s == [] {
    } else {
      OnlyCount(s[1..], v);
    }
  }

  lemma SortCountLess(s: seq<Inst>, v: int)
    ensures CountLess(Sort(s), v) == CountLess(s, v)
  {
    SortCount(s, v);
    SortIsStable(s);
    OnlyCount(s, v);
    OnlyCount(Sort(s), v);
  }

  /** Of an ordered list, the first ones after the smaller ones are those of the number. */
  lemma {:induction false} OnlyInPrefix(s: seq<Inst>, v: int, n: nat)
    requires Ordered(s) && n <= |s|
    ensures |Only(s[..n], v)| >= Min(n - CountLess(s, v), |Only(s, v)|)
  {
    if n > 0 {
      var x, tail := s[0], s[1..];
      assert s[..n] == [x] + tail[..n - 1] && s == [x] + tail;
      OnlyCons(x, tail[..n - 1], v);
      OnlyCons(x, tail, v);
      OnlyInPrefix(tail, v, n - 1);
      if x.sn == v {
        NoneLess(s, v);
      } else if x.sn > v {
        NoneSmall(s, v);
        OnlyCount(s, v);
      }
    }
  }
}
