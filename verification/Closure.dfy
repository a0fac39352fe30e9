/** The guest's package selection: the closure of the wanted ROS packages under
    their first installed alternatives, and the Python packages they need. */
module Closure {
  import opened Basics

  type Package = string

  /** Alternatives, any one of which satisfies a dependency. */
  type Group = seq<Package>

  datatype Sdk = Sdk(prefix: string, installed: set<Package>, depends: map<Package, seq<Group>>)

  datatype Error = Missing(p: Package) | NoRecord(p: Package) | Unsatisfied(p: Package)

  datatype Selection = Selection(ros: set<Package>, system: set<Package>)

  predicate IsRos(sdk: Sdk, p: Package)
  {
    sdk.prefix <= p
  }

  predicate IsPython(p: Package)
  {
    "python3" <= p && !(|p| >= 4 && p[|p| - 4..] == "-dev")
  }

  /** The first alternative that the SDK has. */
  function FirstInstalled(sdk: Sdk, g: Group): (r: Option<Package>)
    ensures r.Some? ==> r.value in sdk.installed && r.value in g
    ensures r.None? ==> forall i :: 0 <= i < |g| ==> g[i] !in sdk.installed
  {
    if g == [] then None else if g[0] in sdk.installed then Some(g[0]) else FirstInstalled(sdk, g[1..])
  }

  function Groups(sdk: Sdk, p: Package): (gs: seq<Group>)
  {
    if p in sdk.depends then sdk.depends[p] else []
  }

  /** The ROS package that a group pulls in, or the Python package, or neither. */
  predicate PullsRos(sdk: Sdk, g: Group, q: Package)
  {
    FirstInstalled(sdk, g) == Some(q) && IsRos(sdk, q)
  }

  predicate PullsPython(sdk: Sdk, g: Group, q: Package)
  {
    FirstInstalled(sdk, g) == Some(q) && !IsRos(sdk, q) && IsPython(q)
  }

  predicate IsUnsatisfied(sdk: Sdk, g: Group)
  {
    FirstInstalled(sdk, g).None? && exists i :: 0 <= i < |g| && IsRos(sdk, g[i])
  }

  predicate AnyRos(sdk: Sdk, gs: seq<Group>, q: Package)
  {
    exists i :: 0 <= i < |gs| && PullsRos(sdk, gs[i], q)
  }

  predicate AnyPython(sdk: Sdk, gs: seq<Group>, q: Package)
  {
    exists i :: 0 <= i < |gs| && PullsPython(sdk, gs[i], q)
  }

  lemma AnySnoc(sdk: Sdk, gs: seq<Group>, j: nat, q: Package)
    requires j < |gs|
    ensures AnyRos(sdk, gs[..j + 1], q) <==> AnyRos(sdk, gs[..j], q) || PullsRos(sdk, gs[j], q)
    ensures AnyPython(sdk, gs[..j + 1], q) <==> AnyPython(sdk, gs[..j], q) || PullsPython(sdk, gs[j], q)
    ensures AnyRos(sdk, gs[..j], q) ==> AnyRos(sdk, gs, q)
  {
    assert forall i :: 0 <= i < j ==> gs[..j][i] == gs[..j + 1][i] == gs[i];
    assert gs[..j + 1][j] == gs[j];
  }

  predicate Needs(sdk: Sdk, p: Package, q: Package)
  {
    AnyRos(sdk, Groups(sdk, p), q)
  }

  predicate NeedsPython(sdk: Sdk, p: Package, q: Package)
  {
    AnyPython(sdk, Groups(sdk, p), q)
  }

  /** What the selection refuses about a package. */
  predicate Faulty(sdk: Sdk, p: Package, e: Error)
  {
    match e
    case Missing(q) => p == q && p !in sdk.installed
    case NoRecord(q) => p == q && p in sdk.installed && p !in sdk.depends
    case Unsatisfied(q) =>
      p == q && p in sdk.installed && p in sdk.depends &&
      exists i :: 0 <= i < |sdk.depends[p]| && IsUnsatisfied(sdk, sdk.depends[p][i])
  }

  predicate Sound(sdk: Sdk, p: Package)
  {
    && p in sdk.installed && p in sdk.depends
    && forall i :: 0 <= i < |sdk.depends[p]| ==> !IsUnsatisfied(sdk, sdk.depends[p][i])
  }

  /** A chain of dependencies from a root. */
  predicate IsPath(sdk: Sdk, roots: seq<Package>, path: seq<Package>)
  {
    && path != [] && path[0] in roots
    && forall i :: 0 < i < |path| ==> Needs(sdk, path[i - 1], path[i])
  }

  ghost predicate Reachable(sdk: Sdk, roots: seq<Package>, p: Package)
  {
    exists path :: IsPath(sdk, roots, path) && path[|path| - 1] == p
  }

  lemma ReachRoot(sdk: Sdk, roots: seq<Package>, p: Package)
    requires p in roots
    ensures Reachable(sdk, roots, p)
  {
    assert IsPath(sdk, roots, [p]);
  }

  lemma ReachNext(sdk: Sdk, roots: seq<Package>, p: Package, q: Package)
    requires Reachable(sdk, roots, p) && Needs(sdk, p, q)
    ensures Reachable(sdk, roots, q)
  {
    var path :| IsPath(sdk, roots, path) && path[|path| - 1] == p;
    var longer := path + [q];
    forall i | 0 < i < |longer| ensures Needs(sdk, longer[i - 1], longer[i]) {
      if i < |path| {
        assert longer[i] == path[i] && longer[i - 1] == path[i - 1];
      }
    }
    assert IsPath(sdk, roots, longer) && longer[|longer| - 1] == q;
  }

  ghost predicate Closed(sdk: Sdk, s: set<Package>)
  {
    forall p, q :: p in s && Needs(sdk, p, q) ==> q in s
  }

  lemma {:induction false} ClosedHasPath(sdk: Sdk, roots: seq<Package>, s: set<Package>, path: seq<Package>, i: nat)
    requires IsPath(sdk, roots, path) && i < |path|
    requires Closed(sdk, s) && forall p :: p in roots ==> p in s
    ensures path[i] in s
  {
    if i == 0 {
    } else {
      ClosedHasPath(sdk, roots, s, path, i - 1);
      assert Needs(sdk, path[i - 1], path[i]);
    }
  }

  /** A closed set that has the roots has everything reachable. */
  lemma ClosedHasReachable(sdk: Sdk, roots: seq<Package>, s: set<Package>)
    requires Closed(sdk, s) && forall p :: p in roots ==> p in s
    ensures forall p :: Reachable(sdk, roots, p) ==> p in s
  {
    forall p | Reachable(sdk, roots, p) ensures p in s {
      var path :| IsPath(sdk, roots, path) && path[|path| - 1] == p;
      ClosedHasPath(sdk, roots, s, path, |path| - 1);
    }
  }

  /** The dependencies of one package: what they push and what they add, or the
      first group that no installed package satisfies. */
  method Visit(sdk: Sdk, p: Package) returns (ok: bool, pulled: seq<Package>, python: set<Package>)
    requires p in sdk.depends
    ensures ok <==> forall i :: 0 <= i < |sdk.depends[p]| ==> !IsUnsatisfied(sdk, sdk.depends[p][i])
    ensures forall q :: q in pulled ==> Needs(sdk, p, q)
    ensures ok ==> forall q :: Needs(sdk, p, q) ==> q in pulled
    ensures ok ==> forall q :: q in python <==> NeedsPython(sdk, p, q)
  {
    var groups := sdk.depends[p];
    pulled, python := [], {};
    for j := 0 to |groups|
      invariant forall i :: 0 <= i < j ==> !IsUnsatisfied(sdk, groups[i])
      invariant forall q :: q in pulled <==> AnyRos(sdk, groups[..j], q)
      invariant forall q :: q in python <==> AnyPython(sdk, groups[..j], q)
    {
      forall q {
        AnySnoc(sdk, groups, j, q);
      }
      var installed := FirstInstalled(sdk, groups[j]);
      if installed.Some? && IsRos(sdk, installed.value) {
        pulled := pulled + [installed.value];
      } else if installed.Some? && IsPython(installed.value) {
        python := python + {installed.value};
      } else if installed.None? && exists i :: 0 <= i < |groups[j]| && IsRos(sdk, groups[j][i]) {
        assert IsUnsatisfied(sdk, groups[j]);
        return false, pulled, python;
      }
    }
    assert groups[..|groups|] == groups;
    return true, pulled, python;
  }

  /** What the worklist keeps: it has visited only sound reachable packages, it
      will visit only reachable ones, and nothing needed is forgotten. */
  ghost predicate Kept(sdk: Sdk, roots: seq<Package>, selected: set<Package>, pending: set<Package>)
  {
    && selected <= sdk.installed
    && (forall p :: p in selected ==> Reachable(sdk, roots, p) && Sound(sdk, p))
    && (forall p :: p in pending ==> Reachable(sdk, roots, p) && (p in roots || p in sdk.installed))
    && (forall p :: p in roots ==> p in selected || p in pending)
    && (forall p, q :: p in selected && Needs(sdk, p, q) ==> q in selected || q in pending)
  }

  ghost predicate SystemKept(sdk: Sdk, selected: set<Package>, runtime: set<Package>, system: set<Package>)
  {
    forall q :: q in system <==> q in runtime || exists p :: p in selected && NeedsPython(sdk, p, q)
  }

  lemma KeptByVisit(
      sdk: Sdk, roots: seq<Package>, selected: set<Package>, pending: set<Package>, p: Package, pulled: set<Package>)
    requires Kept(sdk, roots, selected, pending + {p}) && Sound(sdk, p)
    requires forall q :: q in pulled <==> Needs(sdk, p, q)
    ensures Kept(sdk, roots, selected + {p}, pending + pulled)
  {
    forall q | q in pulled ensures Reachable(sdk, roots, q) && q in sdk.installed {
      ReachNext(sdk, roots, p, q);
    }
  }

  function Elements(s: seq<Package>): (r: set<Package>)
  {
    set i | 0 <= i < |s| :: s[i]
  }

  lemma ElementsConcat(a: seq<Package>, b: seq<Package>)
    ensures Elements(a + b) == Elements(a) + Elements(b)
  {
    forall x | x in Elements(a) + Elements(b) ensures x in Elements(a + b) {
      if x in Elements(a) {
        var i :| 0 <= i < |a| && a[i] == x;
        assert (a + b)[i] == x;
      } else {
        var i :| 0 <= i < |b| && b[i] == x;
        assert (a + b)[|a| + i] == x;
      }
    }
  }

  lemma ElementsLast(s: seq<Package>)
    requires s != []
    ensures Elements(s) == Elements(s[..|s| - 1]) + {s[|s| - 1]}
  {
    var last := s[|s| - 1];
    assert s == s[..|s| - 1] + [last] && Elements([last]) == {last};
    ElementsConcat(s[..|s| - 1], [last]);
  }

  lemma SystemByVisit(
      sdk: Sdk, selected: set<Package>, runtime: set<Package>, system: set<Package>, p: Package, python: set<Package>)
    requires SystemKept(sdk, selected, runtime, system) && forall q :: q in python <==> NeedsPython(sdk, p, q)
    ensures SystemKept(sdk, selected + {p}, runtime, system + python)
  {
    var more := selected + {p};
    forall q ensures q in system + python <==> q in runtime || exists r :: r in more && NeedsPython(sdk, r, q) {
      if q in python {
        assert p in more && NeedsPython(sdk, p, q);
      }
    }
  }

  /** The worklist. It ends on every input. It succeeds if and only if every
      reachable package is sound, and then selects exactly the reachable packages,
      whatever the order of its visits; the error names a reachable package at
      fault, and a missing package can only be a root. */
  method Select(sdk: Sdk, roots: seq<Package>, runtime: set<Package>) returns (r: Result<Selection, Error>)
    ensures r.Ok? ==> forall p :: p in r.value.ros <==> Reachable(sdk, roots, p)
    ensures r.Ok? ==> SystemKept(sdk, r.value.ros, runtime, r.value.system)
    ensures r.Ok? ==> forall p :: Reachable(sdk, roots, p) ==> Sound(sdk, p)
    ensures r.Err? ==> Reachable(sdk, roots, r.error.p) && Faulty(sdk, r.error.p, r.error) && !Sound(sdk, r.error.p)
    ensures r.Err? && r.error.Missing? ==> r.error.p in roots
  {
    var selected: set<Package> := {};
    var system := runtime;
    var pending := roots;
    forall p | p in roots ensures Reachable(sdk, roots, p) {
      ReachRoot(sdk, roots, p);
    }
    while pending != []
      invariant Kept(sdk, roots, selected, Elements(pending))
      invariant SystemKept(sdk, selected, runtime, system)
      decreases sdk.installed - selected, |pending|
    {
      var package := pending[|pending| - 1];
      ElementsLast(pending);
      pending := pending[..|pending| - 1];
      if package in selected {
        continue;
      }
      if package !in sdk.installed {
        return Err(Missing(package));
      }
      if package !in sdk.depends {
        return Err(NoRecord(package));
      }
      var ok, pulled, python := Visit(sdk, package);
      if !ok {
        return Err(Unsatisfied(package));
      }
      KeptByVisit(sdk, roots, selected, Elements(pending), package, Elements(pulled));
      SystemByVisit(sdk, selected, runtime, system, package, python);
      ElementsConcat(pending, pulled);
      selected := selected + {package};
      pending := pending + pulled;
      system := system + python;
    }
    ClosedHasReachable(sdk, roots, selected);
    return Ok(Selection(selected, system));
  }
}
