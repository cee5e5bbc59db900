/** `ModuleFinder.find_related`: every module a module needs, however indirectly. */
module Related {
  type Name = string

  /** What each module imports itself; nothing is known of the others. */
  type Graph = map<Name, seq<Name>>

  function Imports(g: Graph, n: Name): seq<Name> { if n in g then g[n] else [] }

  ghost predicate IsPath(g: Graph, p: seq<Name>) {
    |p| >= 2 && forall i {:trigger p[i]} | 0 <= i < |p| - 1 :: p[i + 1] in Imports(g, p[i])
  }

  /** `b` can be reached from `a` in one or more steps. */
  ghost predicate Reaches(g: Graph, a: Name, b: Name) {
    exists p :: IsPath(g, p) && p[0] == a && p[|p| - 1] == b
  }

  lemma OneStep(g: Graph, a: Name, b: Name)
    requires b in Imports(g, a)
    ensures Reaches(g, a, b)
  {
    assert IsPath(g, [a, b]);
  }

  lemma OneMore(g: Graph, a: Name, b: Name, c: Name)
    requires Reaches(g, a, b) && c in Imports(g, b)
    ensures Reaches(g, a, c)
  {
    var p :| IsPath(g, p) && p[0] == a && p[|p| - 1] == b;
    var q := p + [c];
    forall i | 0 <= i < |q| - 1 ensures q[i + 1] in Imports(g, q[i]) {
      if i < |p| - 1 { assert q[i] == p[i] && q[i + 1] == p[i + 1]; }
    }
    assert IsPath(g, q) && q[0] == a && q[|q| - 1] == c;
  }

  /** A set that holds what `a` imports and what its own members import holds all `a` reaches. */
  lemma {:induction false} ClosedHoldsAll(g: Graph, a: Name, found: set<Name>, p: seq<Name>)
    requires IsPath(g, p) && p[0] == a
    requires forall n, m | (n == a || n in found) && m in Imports(g, n) :: m in found
    ensures p[|p| - 1] in found
    decreases |p|
  {
    var n := |p| - 1;
    var last := p[n - 1];
    if n > 1 {
      var q := p[..n];
      forall i | 0 <= i < |q| - 1 ensures q[i + 1] in Imports(g, q[i]) {
        assert q[i] == p[i] && q[i + 1] == p[i + 1];
      }
      ClosedHoldsAll(g, a, found, q);
    }
    assert p[n - 1 + 1] in Imports(g, last);
  }

  /** Everything that occurs in the graph. */
  function Universe(g: Graph): set<Name> {
    set n, m | n in g && m in g[n] :: m
  }

  function AsSet(q: seq<Name>): set<Name> { set n | n in q }

  /** The elements of a set in an arbitrary order. */
  method Listed(s: set<Name>) returns (q: seq<Name>)
    ensures forall n :: n in q <==> n in s
    ensures |q| == |s|
  {
    q := [];
    var rest := s;
    while rest != {}
      invariant rest <= s && (forall n :: n in q <==> n in s - rest) && |q| + |rest| == |s|
      decreases rest
    {
      var n :| n in rest;
      q, rest := q + [n], rest - {n};
    }
  }

  /** What has been found can be reached, and whatever has been searched has all it imports found. */
  ghost predicate Searched(g: Graph, a: Name, stack: seq<Name>, found: set<Name>) {
    && found <= Universe(g)
    && (forall n | n in found :: Reaches(g, a, n))
    && (forall n | n in stack :: n == a || n in found)
    && (forall n {:trigger n in stack} {:trigger Imports(g, n)} | (n == a || n in found) && n !in stack ::
          AsSet(Imports(g, n)) <= found)
  }

  lemma SearchOne(g: Graph, a: Name, stack: seq<Name>, found: set<Name>, listed: seq<Name>)
    requires stack != [] && Searched(g, a, stack, found)
    requires forall n :: n in listed <==> n in AsSet(Imports(g, stack[0])) - (found + AsSet(stack[1..]))
    ensures Searched(g, a, stack[1..] + listed, found + AsSet(Imports(g, stack[0])))
  {
    FoundStep(g, a, found, stack[0]);
    hide Reaches, Universe, Imports;
    var rest, found' := stack[1..], found + AsSet(Imports(g, stack[0]));
    assert stack == [stack[0]] + rest;
    forall n | n in rest + listed ensures n == a || n in found' {
      if n in rest { assert n in stack; } else { assert n in listed; }
    }
    forall n | (n == a || n in found') && n !in rest + listed
      ensures AsSet(Imports(g, n)) <= found'
    {
      assert n !in rest && n !in listed;
      if n != stack[0] { assert n !in stack; }
    }
  }

  lemma SearchEnds(g: Graph, a: Name, found: set<Name>)
    requires Searched(g, a, [], found)
    ensures forall n :: n in found <==> Reaches(g, a, n)
  {
    forall n, m | (n == a || n in found) && m in Imports(g, n) ensures m in found {
      assert n !in [] && m in AsSet(Imports(g, n));
    }
    forall n | Reaches(g, a, n) ensures n in found {
      var p :| IsPath(g, p) && p[0] == a && p[|p| - 1] == n;
      ClosedHoldsAll(g, a, found, p);
    }
  }

  /** On any finite graph of imports, cyclic or not, the search ends with exactly the names that can
      be reached in one or more steps, without the name itself. */
  method FindRelated(g: Graph, fullname: Name) returns (related: set<Name>)
    ensures forall n :: n in related <==> n != fullname && Reaches(g, fullname, n)
  {
    var stack, found: set<Name> := [fullname], {};
    assert Searched(g, fullname, stack, found);
    hide Searched, Reaches, Universe, Imports;
    while |stack| > 0
      invariant Searched(g, fullname, stack, found)
      decreases 2 * |Universe(g) - found| + |stack|
    {
      var name, was := stack[0], found;
      var names := AsSet(Imports(g, name));
      var more := names - (found + AsSet(stack[1..]));
      var listed := Listed(more);
      SearchOne(g, fullname, stack, found, listed);
      stack := stack[1..] + listed;
      found := found + names;
      WithinUniverse(g, fullname, stack, found);
      Shrinks(Universe(g), was, found, more);
    }
    SearchEnds(g, fullname, found);
    related := found - {fullname};
  }

  lemma WithinUniverse(g: Graph, a: Name, stack: seq<Name>, found: set<Name>)
    requires Searched(g, a, stack, found)
    ensures found <= Universe(g)
  {
  }

  lemma FoundStep(g: Graph, a: Name, found: set<Name>, name: Name)
    requires found <= Universe(g) && (forall n | n in found :: Reaches(g, a, n)) && (name == a || name in found)
    ensures found + AsSet(Imports(g, name)) <= Universe(g)
    ensures forall n | n in found + AsSet(Imports(g, name)) :: Reaches(g, a, n)
  {
    forall n | n in Imports(g, name) ensures Reaches(g, a, n) {
      if name == a { OneStep(g, a, n); } else { OneMore(g, a, name, n); }
    }
  }

  lemma Shrinks(u: set<Name>, a: set<Name>, b: set<Name>, more: set<Name>)
    requires a <= b <= u && more <= b - a
    ensures |u - b| + |more| <= |u - a|
  {
    assert u - a == (u - b) + (b - a);
    Size(more, b - a);
  }

  lemma Size(a: set<Name>, b: set<Name>)
    requires a <= b
    ensures |a| <= |b|
  {
    assert b == a + (b - a);
  }
}
