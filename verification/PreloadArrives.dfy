/** Exactly when a module that the master forwards gets there: by itself, and along with others. */
module PreloadArrives {
  import opened Prelude
  import opened Tree
  import opened Modules
  import opened ModuleNet
  import opened Preloading
  import opened PreloadTurns
  import opened PreloadPaths
  import opened PreloadCargo

  // ---- One module -----------------------------------------------------------------------------------

  /** What is above a context's parent, or is its parent. */
  lemma BetweenIff(par: map<Id, Id>, d: Id, c: Id)
    requires IsTree(par) && 0 !in par && c in par
    ensures Between(par, d, c) <==> d in par && par[d] != 0 && (d == par[c] || Between(par, d, par[c]))
  {
    if d == par[c] && d in par { BelowSelf(par, d); }
    if Between(par, d, par[c]) && d == c { BelowOrder(par, c, par[c]); }
  }

  /** The module is passed on as far as the parent of `c` unless somebody above blocks it. */
  lemma {:induction false} GoesIff(q: Net, n: Name, c: Id)
    requires Shape(q) && c in q.par
    ensures q.par[c] == 0 ==> !Blocked(q, c, n)
    ensures q.par[c] != 0 ==> (Goes(q, n, q.par[c]) <==> !Blocked(q, c, n))
    decreases c
  {
    var p := q.par[c];
    forall d ensures Between(q.par, d, c) <==> d in q.par && q.par[d] != 0 && (d == p || Between(q.par, d, p)) {
      BetweenIff(q.par, d, c);
    }
    hide Between, LibOk;
    if p != 0 { GoesIff(q, n, p); } else { NothingAbove(q.par); }
  }

  lemma NothingAbove(par: map<Id, Id>)
    requires 0 !in par
    ensures forall d :: !Between(par, d, 0)
  {
  }

  /** Where the module is passed on to, it is. */
  lemma {:induction false} WhereItGoes(q: Net, end: Net, t: Id, n: Name, c: Id)
    requires Brought(q, end, t, n) && Inv(q) && Inv(end) && Still(q)
    requires c in q.par && Below(q.par, c, t) && Goes(q, n, c)
    ensures n in Preset || n in CacheAfter(q, n, c)
    decreases c
  {
    NoneLeft(q, c);
    StoredKeys(q.imps[c].cache, Cargo(q, n, c));
    if n in q.links[c].sent {
      SentKnown(q, c, n);
    } else if q.par[c] == 0 {
      RespondExtends(q.links[c], q.lib, n);
    } else {
      var p := q.par[c];
      ParentBelow(q.par, c, t);
      WhereItGoes(q, end, t, n, p);
      assert NodeOk(q, c) && NodeOk(end, p);
      SendAllExtends(q.lib, q.links[c], end.imps[p].cache, n);
    }
  }

  lemma ParentBelow(par: map<Id, Id>, c: Id, t: Id)
    requires IsTree(par) && c in par && Below(par, c, t)
    ensures Below(par, par[c], t)
  {
    BelowSelf(par, par[c]);
    BelowTrans(par, par[c], c, t);
  }

  /** One module, forwarded when nothing is under way: the target has it in the end if and only if it
      had it before, or no link between the first and the last counted it as sent. */
  lemma ForwardedIff(q: Net, cs: seq<Id>, end: Net, t: Id, n: Name)
    requires Forwards(q, t, [n], cs, end) && Still(q)
    ensures Has(end, t, n) <==> Has(q, t, n) || !Blocked(q, t, n)
  {
    TurnBrings(q, cs, end, t, n);
    AfterPreload(q, t, [n]);
    ReachedInv(Next(q, Preload(t, [n])), cs);
    GoesIff(q, n, t);
    BelowSelf(q.par, t);
    StoredKeys(q.imps[t].cache, Cargo(q, n, t));
    NoneLeft(q, t);
    if n in q.links[t].sent { SentKnown(q, t, n); }
    else if Goes(q, n, t) { WhereItGoes(q, end, t, n, t); }
  }

  // ---- A whole path ---------------------------------------------------------------------------------

  /** Forwarding `n` brings `m` to `t`. */
  ghost predicate Carries(q: Net, n: Name, t: Id, m: Name) {
    Shape(q) && t in q.par && m in Loads(Cargo(q, n, t))
  }

  lemma BroughtHas(q: Net, end: Net, t: Id, n: Name, m: Name)
    requires Brought(q, end, t, n)
    ensures Has(end, t, m) <==> Has(q, t, m) || Carries(q, n, t, m)
  {
    BelowSelf(q.par, t);
    StoredKeys(q.imps[t].cache, Cargo(q, n, t));
    hide Cargo, Stored, IsTree, LibOk, Below, Loads;
  }

  /** The turn of a name, after the names before it. */
  lemma LastTurn(net0: Net, t: Id, path: seq<Name>, n: Name, q: Net, q': Net, m: Name)
    requires EndsIn(net0, t, path, q) && EndsIn(net0, t, path + [n], q')
    ensures Has(q', t, n) <==> Has(q, t, n) || !Blocked(q, t, n)
    ensures Has(q', t, m) <==> Has(q, t, m) || Carries(q, n, t, m)
  {
    var xs :| Forwards(net0, t, path, xs, q);
    var cs :| Forwards(net0, t, path + [n], cs, q');
    hide Forwards, Still, Brought, Has, Blocked, Carries;
    var more := Turn(net0, t, path, n, xs, q, cs, q');
    ForwardedIff(q, more, q', t, n);
    TurnBrings(q, more, q', t, n);
    BroughtHas(q, q', t, n, m);
  }

  /** A name is there after its own turn if and only if it was there when its turn came, or no link on the
      way counted it as sent then; any other module is there if it was before, or this turn carried it. */
  lemma TurnIff(net0: Net, t: Id, path: seq<Name>, qs: seq<Net>, k: nat, m: Name)
    requires Turns(net0, t, path, qs) && k < |path|
    ensures Has(qs[k + 1], t, path[k]) <==> Has(qs[k], t, path[k]) || !Blocked(qs[k], t, path[k])
    ensures Has(qs[k + 1], t, m) <==> Has(qs[k], t, m) || Carries(qs[k], path[k], t, m)
  {
    hide EndsIn, Has, Blocked, Carries;
    assert path[..k + 1] == path[..k] + [path[k]];
    LastTurn(net0, t, path[..k], path[k], qs[k], qs[k + 1], m);
  }

  ghost predicate SomeCarries(t: Id, path: seq<Name>, qs: seq<Net>, k: nat, m: Name)
    requires k <= |path| && k <= |qs|
  {
    exists j {:trigger qs[j]} :: 0 <= j < k && Carries(qs[j], path[j], t, m)
  }

  lemma TurnsLength(net0: Net, t: Id, path: seq<Name>, qs: seq<Net>)
    requires Turns(net0, t, path, qs)
    ensures |qs| == |path| + 1
  {
    hide EndsIn;
  }

  lemma OneMore(t: Id, path: seq<Name>, qs: seq<Net>, k: nat, m: Name)
    requires k < |path| && k < |qs|
    ensures SomeCarries(t, path, qs, k + 1, m) <==> SomeCarries(t, path, qs, k, m) || Carries(qs[k], path[k], t, m)
  {
    hide Carries;
  }

  /** After any number of turns `t` has a module if and only if it had it before, or the turn of one of
      these names carried it, as the name itself or as related to it. */
  lemma {:induction false} PathHas(net0: Net, t: Id, path: seq<Name>, qs: seq<Net>, k: nat, m: Name)
    requires Turns(net0, t, path, qs) && k <= |path|
    ensures Has(qs[k], t, m) <==> Has(qs[0], t, m) || SomeCarries(t, path, qs, k, m)
  {
    hide Turns, EndsIn, Has, Carries;
    TurnsLength(net0, t, path, qs);
    if k == 0 {
      assert !SomeCarries(t, path, qs, 0, m);
    } else {
      PathHas(net0, t, path, qs, k - 1, m);
      OneMore(t, path, qs, k - 1, m);
      TurnIff(net0, t, path, qs, k - 1, m);
      hide SomeCarries;
    }
  }

  /** So if, for each name, no link on the way counts it as sent when its turn comes, all the names are
      there in the end. */
  lemma PathArrives(net0: Net, t: Id, path: seq<Name>, qs: seq<Net>, k: nat)
    requires Turns(net0, t, path, qs) && k < |path|
    requires Has(qs[k], t, path[k]) || !Blocked(qs[k], t, path[k])
    ensures Has(qs[|path|], t, path[k])
  {
    hide Turns, EndsIn, Has, Carries;
    TurnsLength(net0, t, path, qs);
    TurnIff(net0, t, path, qs, k, path[k]);
    PathHas(net0, t, path, qs, k + 1, path[k]);
    PathHas(net0, t, path, qs, |path|, path[k]);
  }
}
