/** The tree of contexts.  Every context but the master was created by exactly one other
    context, and context ids only grow along the way down: a context asks for its block of
    child ids after it has received its own. */
module Tree {
  import opened Prelude

  /** `par` maps a context id to the id of the context that created it. */
  ghost predicate IsTree(par: map<Id, Id>) {
    forall x {:trigger par[x]} | x in par :: par[x] < x
  }

  /** `x` is `c` or one of its descendants. */
  ghost predicate Below(par: map<Id, Id>, c: Id, x: Id)
    decreases x
  {
    x == c || (x in par && par[x] < x && Below(par, c, par[x]))
  }

  ghost function Depth(par: map<Id, Id>, x: Id): nat
    decreases x
  {
    if x in par && par[x] < x then 1 + Depth(par, par[x]) else 0
  }

  lemma {:induction false} BelowOrder(par: map<Id, Id>, c: Id, x: Id)
    requires Below(par, c, x)
    ensures c <= x
    decreases x
  {
    if x != c {
      BelowOrder(par, c, par[x]);
    }
  }

  lemma BelowSelf(par: map<Id, Id>, c: Id)
    ensures Below(par, c, c)
  {
  }

  lemma {:induction false} BelowTrans(par: map<Id, Id>, a: Id, b: Id, c: Id)
    requires Below(par, a, b) && Below(par, b, c)
    ensures Below(par, a, c)
    decreases c
  {
    if c != b {
      BelowTrans(par, a, b, par[c]);
    }
  }

  lemma {:induction false} BelowGrows(par: map<Id, Id>, par': map<Id, Id>, c: Id, x: Id)
    requires Below(par, c, x)
    requires forall k | k in par :: k in par' && par'[k] == par[k]
    ensures Below(par', c, x)
    decreases x
  {
    if x != c {
      BelowGrows(par, par', c, par[x]);
    }
  }

  lemma ChildBelow(par: map<Id, Id>, p: Id, c: Id, x: Id)
    requires IsTree(par) && c in par && par[c] == p && Below(par, c, x)
    ensures Below(par, p, x) && p < x
  {
    assert Below(par, p, p);
    BelowTrans(par, p, c, x);
    BelowOrder(par, c, x);
  }

  /** The reverse of growth: ids added later cannot become ancestors of ids already there. */
  lemma {:induction false} BelowShrinks(par: map<Id, Id>, par': map<Id, Id>, c: Id, x: Id)
    requires Below(par', c, x)
    requires x in par || x == 0
    requires 0 !in par'
    requires forall k | k in par :: k in par' && par'[k] == par[k] && (par[k] in par || par[k] == 0)
    ensures Below(par, c, x)
    decreases x
  {
    if x != c {
      BelowShrinks(par, par', c, par[x]);
    }
  }

  /** Two ancestors of one context are themselves related. */
  lemma {:induction false} AncestorsComparable(par: map<Id, Id>, a: Id, b: Id, x: Id)
    requires Below(par, a, x) && Below(par, b, x)
    ensures Below(par, a, b) || Below(par, b, a)
    decreases x
  {
    if x != a && x != b {
      AncestorsComparable(par, a, b, par[x]);
    }
  }

  /** Subtrees rooted at two children of one context share nothing. */
  lemma SiblingsDisjoint(par: map<Id, Id>, c: Id, d: Id, x: Id)
    requires IsTree(par) && c in par && d in par && par[c] == par[d] && c != d
    requires Below(par, c, x)
    ensures !Below(par, d, x)
  {
    if Below(par, d, x) {
      AncestorsComparable(par, c, d, x);
      if Below(par, c, d) {
        BelowOrder(par, c, par[d]);
      } else {
        BelowOrder(par, d, par[c]);
      }
    }
  }

  /** The child of n on the way down to x. */
  ghost function Toward(par: map<Id, Id>, n: Id, x: Id): (d: Id)
    requires IsTree(par) && Below(par, n, x) && n != x
    ensures d in par && par[d] == n && Below(par, d, x) && n < d <= x
    decreases x
  {
    if par[x] == n then x else Toward(par, n, par[x])
  }

  lemma TowardUnique(par: map<Id, Id>, p: Id, c: Id, x: Id)
    requires IsTree(par) && c in par && par[c] == p && Below(par, c, x)
    requires Below(par, p, x) && p != x
    ensures Toward(par, p, x) == c
  {
    var d := Toward(par, p, x);
    if d != c {
      SiblingsDisjoint(par, c, d, x);
    }
  }
}
