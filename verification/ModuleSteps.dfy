/** Every step of the module network keeps its invariant. */
module ModuleSteps {
  import opened Prelude
  import opened Tree
  import opened Modules
  import opened ModuleNet

  // ---- Links --------------------------------------------------------------------------------------

  lemma ExtendsLinkOk(par: map<Id, Id>, lib: map<Name, Tup>, c: Id, l: Link, l': Link, cache: map<Name, Tup>)
    requires LinkOk(par, lib, c, l, cache) && Extends(lib, l, l')
    ensures LinkOk(par, lib, c, l', cache)
    ensures Loads(l.down) <= Loads(l'.down)
  {
    LoadsGrow(l.down, l'.down);
    forall i | 0 <= i < |l'.down| && l'.down[i].Fwd?
      ensures Known(l'.down[..i], cache, l'.down[i].name)
      ensures l'.down[i].target != c && Below(par, c, l'.down[i].target)
    {
      assert l'.down[i] == l.down[i];
      assert l'.down[..i] == l.down[..i];
    }
  }

  lemma FwdLinkOk(par: map<Id, Id>, lib: map<Name, Tup>, c: Id, l: Link, cache: map<Name, Tup>, t: Id, n: Name)
    requires LinkOk(par, lib, c, l, cache) && Known(l.down, cache, n) && t != c && Below(par, c, t)
    ensures LinkOk(par, lib, c, l.(down := l.down + [Fwd(t, n)]), cache)
    ensures Loads(l.down) <= Loads(l.down + [Fwd(t, n)])
  {
    var down' := l.down + [Fwd(t, n)];
    LoadsGrow(l.down, down');
    forall i | 0 <= i < |down'| && down'[i].Fwd?
      ensures Known(down'[..i], cache, down'[i].name)
    {
      assert down'[..i] == l.down[..i];
      if i == |l.down| { assert l.down[..i] == l.down; }
    }
  }

  lemma {:induction false} PreloadedLinkOk(par: map<Id, Id>, lib: map<Name, Tup>, c: Id, l: Link,
                                           cache: map<Name, Tup>, t: Id, path: seq<Name>)
    requires LinkOk(par, lib, c, l, cache) && LibOk(lib) && Below(par, c, t)
    ensures var l' := Preloaded(l, lib, c == t, t, path);
            LinkOk(par, lib, c, l', cache) && Loads(l.down) <= Loads(l'.down)
    decreases |path|
  {
    if path != [] {
      var l1 := Respond(l, lib, path[0]);
      RespondExtends(l, lib, path[0]);
      ExtendsLinkOk(par, lib, c, l, l1, cache);
      assert Known(l1.down, cache, path[0]);
      var l2 := if c == t then l1 else l1.(down := l1.down + [Fwd(t, path[0])]);
      if c != t { FwdLinkOk(par, lib, c, l1, cache, t, path[0]); }
      hide LinkOk, Extends, Respond;
      PreloadedLinkOk(par, lib, c, l2, cache, t, path[1..]);
    }
  }

  lemma LoadsTail(down: seq<Msg>)
    requires down != []
    ensures Loads(down) == Loads(down[1..]) + if down[0].Load? then {down[0].tup.name} else {}
  {
    assert down == [down[0]] + down[1..];
  }

  /** The child handles the first message; when it is a module, it is cached. */
  lemma TailLinkOk(par: map<Id, Id>, lib: map<Name, Tup>, c: Id, l: Link, cache: map<Name, Tup>, cache': map<Name, Tup>)
    requires LinkOk(par, lib, c, l, cache) && l.down != []
    requires cache'.Keys == cache.Keys + if l.down[0].Load? then {l.down[0].tup.name} else {}
    ensures LinkOk(par, lib, c, Tail(l), cache')
  {
    LoadsTail(l.down);
    var l' := Tail(l);
    forall i | 0 <= i < |l'.down| && l'.down[i].Fwd?
      ensures Known(l'.down[..i], cache', l'.down[i].name)
      ensures l'.down[i].target != c && Below(par, c, l'.down[i].target)
    {
      assert l'.down[i] == l.down[i + 1];
      assert l.down[..i + 1][1..] == l'.down[..i];
      LoadsTail(l.down[..i + 1]);
    }
  }

  // ---- Callbacks ----------------------------------------------------------------------------------

  ghost predicate AllExtend(lib: map<Name, Tup>, links: map<Id, Link>, links': map<Id, Link>) {
    links.Keys == links'.Keys && forall d {:trigger links'[d]} | d in links :: Extends(lib, links[d], links'[d])
  }

  /** Running callbacks only adds to links, only to those of children named in them, and the ones
      named have been sent the module. */
  lemma {:induction false} RunAllEffect(lib: map<Name, Tup>, links: map<Id, Link>, imp: Importer, n: Name, run: seq<nat>)
    requires CacheOk(lib, imp.cache) && n in imp.cache
    requires forall t | t in run :: t < |imp.issued|
    ensures AllExtend(lib, links, RunAll(links, imp, n, run))
    ensures forall t | t in run && imp.issued[t].child.Some? && imp.issued[t].child.value in links ::
              n in RunAll(links, imp, n, run)[imp.issued[t].child.value].sent
    ensures forall d | d in links && (forall t | t in run :: imp.issued[t].child != Some(d)) ::
              RunAll(links, imp, n, run)[d] == links[d]
    decreases |run|
  {
    if run != [] {
      assert run[0] in run && forall t | t in run[1..] :: t in run;
      var links1 := RunOne(links, imp, n, run[0]);
      var links' := RunAll(links, imp, n, run);
      RunOneEffect(lib, links, imp, n, run[0]);
      hide RunOne;
      RunAllEffect(lib, links1, imp, n, run[1..]);
      forall d | d in links
        ensures Extends(lib, links[d], links'[d])
      {
        ExtendsTrans(lib, links[d], links1[d], links'[d]);
      }
      forall t | t in run && imp.issued[t].child.Some? && imp.issued[t].child.value in links
        ensures n in links'[imp.issued[t].child.value].sent
      {
        if t !in run[1..] { assert t == run[0]; }
      }
    }
  }

  lemma RunOneEffect(lib: map<Name, Tup>, links: map<Id, Link>, imp: Importer, n: Name, t: nat)
    requires CacheOk(lib, imp.cache) && n in imp.cache && t < |imp.issued|
    ensures AllExtend(lib, links, RunOne(links, imp, n, t))
    ensures imp.issued[t].child.Some? && imp.issued[t].child.value in links ==>
              n in RunOne(links, imp, n, t)[imp.issued[t].child.value].sent
    ensures forall d | d in links && imp.issued[t].child != Some(d) :: RunOne(links, imp, n, t)[d] == links[d]
  {
    if imp.issued[t].child.Some? && imp.issued[t].child.value in links {
      SendAllExtends(lib, links[imp.issued[t].child.value], imp.cache, n);
    }
  }

  // ---- Requests -----------------------------------------------------------------------------------

  ghost predicate Proper(net: Net, i: Id, r: Request)
    requires Shape(net)
  {
    && i in net.par && r.name !in Preset
    && (r.child.Some? ==> r.child.value in net.par && net.par[r.child.value] == i)
  }

  lemma RequestImpOk(par: map<Id, Id>, i: Id, imp: Importer, up: seq<Name>, r: Request)
    requires ImpOk(par, i, imp, up) && r.name !in Preset
    requires r.child.Some? ==> r.child.value in par && par[r.child.value] == i
    ensures var imp' := OnRequest(imp, r);
            ImpOk(par, i, imp', if |imp'.asked| > |imp.asked| then up + [r.name] else up)
  {
    RequestOrderly(imp, r);
    hide Orderly;
  }

  lemma AskLinks(net: Net, i: Id, r: Request)
    requires Shape(net) && Proper(net, i, r) && CacheOk(net.lib, net.imps[i].cache)
    ensures AllExtend(net.lib, net.links, Ask(net, i, r).links)
    ensures r.name in net.imps[i].cache && r.child.Some? ==>
              r.name in Ask(net, i, r).links[r.child.value].sent
  {
    var t := |net.imps[i].issued|;
    if r.name in net.imps[i].cache {
      RunAllEffect(net.lib, net.links, OnRequest(net.imps[i], r), r.name, [t]);
      assert t in [t];
    } else {
      assert forall d | d in net.links :: Extends(net.lib, net.links[d], net.links[d]);
    }
  }

  lemma AskStatic(net: Net, i: Id, r: Request, x: Id)
    requires Shape(net) && Proper(net, i, r) && x in net.par
    requires Static(net, i) && Static(net, x)
    ensures Static(Ask(net, i, r), x)
  {
    AskLinks(net, i, r);
    var net' := Ask(net, i, r);
    assert Extends(net.lib, net.links[x], net'.links[x]);
    ExtendsLinkOk(net.par, net.lib, x, net.links[x], net'.links[x], net.imps[x].cache);
    RequestImpOk(net.par, i, net.imps[i], net.up[i], r);
    hide ImpOk, CacheOk, LinkOk, Extends, AllExtend;
  }

  lemma RequestOwes(imp: Importer, r: Request, n: Name, c: Id)
    requires Owes(imp, n, c)
    ensures Owes(OnRequest(imp, r), n, c)
  {
    var t :| 0 <= t < |imp.issued| && imp.issued[t] == Request(n, Some(c)) && Waiting(imp, t);
    assert Waiting(OnRequest(imp, r), t);
  }

  lemma AskAnswered(net: Net, i: Id, r: Request, x: Id, n: Name)
    requires Shape(net) && Proper(net, i, r) && CacheOk(net.lib, net.imps[i].cache)
    requires x in net.par && (Answered(net, x, n) || (x == i && n == r.name && n !in net.imps[i].callbacks))
    requires n in Ask(net, i, r).imps[x].callbacks
    requires x == i && n == r.name ==> n !in net.imps[i].cache
    ensures Answered(Ask(net, i, r), x, n)
  {
    hide CacheOk, IsTree, LibOk, Loads;
    AskLinks(net, i, r);
    var net' := Ask(net, i, r);
    if Answered(net, x, n) {
      assert Extends(net.lib, net.links[x], net'.links[x]);
      LoadsGrow(net.links[x].down, net'.links[x].down);
      if net.par[x] == i && Owes(net.imps[i], n, x) { RequestOwes(net.imps[i], r, n, x); }
      hide Extends, AllExtend, Owes;
    } else {
      AskSends(net, i, r);
    }
  }

  lemma AskSends(net: Net, i: Id, r: Request)
    requires Shape(net) && Proper(net, i, r)
    requires r.name !in net.imps[i].cache && r.name !in net.imps[i].callbacks
    ensures r.name in Ask(net, i, r).up[i]
  {
    var up' := Ask(net, i, r).up[i];
    assert up'[|up'| - 1] == r.name;
  }

  lemma NotCached(net: Net, x: Id, n: Name)
    requires Shape(net) && x in net.par && Static(net, x) && n in net.imps[x].callbacks
    ensures n !in net.imps[x].cache && n !in Preset
  {
  }

  /** What counts as sent to a context that waits for it is under way. */
  lemma SentAnswered(net: Net, x: Id, n: Name)
    requires Shape(net) && x in net.par && Static(net, x)
    requires n in net.imps[x].callbacks && n in net.links[x].sent
    ensures Answered(net, x, n)
  {
    NotCached(net, x, n);
    assert Known(net.links[x].down, net.imps[x].cache, n);
  }

  lemma RequestWaits(imp: Importer, n: Name, c: Id)
    requires n !in imp.cache
    ensures Owes(OnRequest(imp, Request(n, Some(c))), n, c)
  {
    var imp' := OnRequest(imp, Request(n, Some(c)));
    var waiting := imp'.callbacks[n];
    assert waiting[|waiting| - 1] == |imp.issued|;
    assert Waiting(imp', |imp.issued|);
  }

  /** A request made for a child is answered at once, or waits. */
  lemma AskServes(net: Net, i: Id, r: Request)
    requires Shape(net) && Proper(net, i, r) && r.child.Some? && Static(net, i) && Static(net, r.child.value)
    requires r.name in net.imps[r.child.value].callbacks
    ensures Answered(Ask(net, i, r), r.child.value, r.name)
  {
    var c, net' := r.child.value, Ask(net, i, r);
    AskLinks(net, i, r);
    AskStatic(net, i, r, c);
    hide Static, AllExtend, Owes;
    if r.name in net.imps[i].cache {
      SentAnswered(net', c, r.name);
    } else {
      RequestWaits(net.imps[i], r.name, c);
      hide OnRequest;
    }
  }

  /** Asking keeps a context's condition, even if one name it waits for is not answered before. */
  lemma AskNode(net: Net, i: Id, r: Request, x: Id)
    requires Shape(net) && Proper(net, i, r) && x in net.par
    requires Static(net, i) && Static(net, x)
    requires forall n {:trigger Answered(net, x, n)} | n in net.imps[x].callbacks ::
               Answered(net, x, n) || (r.child == Some(x) && n == r.name)
    ensures Shape(Ask(net, i, r)) && NodeOk(Ask(net, i, r), x)
  {
    AskStatic(net, i, r, x);
    var net' := Ask(net, i, r);
    assert Static(net', x);
    forall n | n in net'.imps[x].callbacks
      ensures Answered(net', x, n)
    {
      NotCached(net', x, n);
      if r.child == Some(x) && n == r.name {
        AskServes(net, i, r);
      } else {
        assert n in net.imps[x].callbacks ==> Answered(net, x, n);
        AskAnswered(net, i, r, x, n);
      }
    }
  }

  // ---- Every step keeps the invariant -----------------------------------------------------------

  lemma ImportKeeps(net: Net, i: Id, n: Name)
    requires Inv(net) && Enabled(net, Import(i, n))
    ensures Inv(Next(net, Import(i, n)))
  {
    forall x | x in net.par
      ensures NodeOk(Next(net, Import(i, n)), x)
    {
      assert NodeOk(net, i) && NodeOk(net, x);
      hide Static, Answered;
      AskNode(net, i, Request(n, None), x);
    }
  }

  lemma GetKeeps(net: Net, c: Id)
    requires Inv(net) && Enabled(net, Get(c))
    ensures Inv(Next(net, Get(c)))
  {
    var n := net.up[c][0];
    var net1 := net.(up := net.up[c := net.up[c][1..]]);
    assert NodeOk(net, c);
    assert n in net.imps[c].asked && n !in Preset;
    forall x | x in net.par
      ensures Shape(Next(net, Get(c))) && NodeOk(Next(net, Get(c)), x)
    {
      assert NodeOk(net, x);
      PopNode(net, c, x);
      if net.par[c] == 0 {
        GetMaster(net, c, x);
      } else {
        var p := net.par[c];
        assert NodeOk(net, p);
        PopNode(net, c, p);
        hide Static, Answered;
        AskNode(net1, p, Request(n, Some(c)), x);
      }
    }
  }

  /** Taking a request off its queue leaves only its own name without an answer. */
  lemma PopNode(net: Net, c: Id, x: Id)
    requires Shape(net) && Enabled(net, Get(c)) && x in net.par && NodeOk(net, x)
    ensures var net1 := net.(up := net.up[c := net.up[c][1..]]);
            && Shape(net1) && Static(net1, x)
            && forall n {:trigger Answered(net1, x, n)} | n in net1.imps[x].callbacks ::
                 Answered(net1, x, n) || (x == c && n == net.up[c][0])
  {
    var net1 := net.(up := net.up[c := net.up[c][1..]]);
    assert net.up[c] == [net.up[c][0]] + net.up[c][1..];
    forall n | n in net1.imps[x].callbacks && !(x == c && n == net.up[c][0])
      ensures Answered(net1, x, n)
    {
      assert Answered(net, x, n);
    }
  }

  lemma GetMaster(net: Net, c: Id, x: Id)
    requires Shape(net) && Enabled(net, Get(c)) && net.par[c] == 0 && x in net.par
    requires NodeOk(net, x)
    ensures Shape(Next(net, Get(c))) && NodeOk(Next(net, Get(c)), x)
  {
    var n, l, net' := net.up[c][0], net.links[c], Next(net, Get(c));
    PopNode(net, c, x);
    var net1 := net.(up := net.up[c := net.up[c][1..]]);
    assert net'.imps == net1.imps && net'.up == net1.up;
    RespondExtends(l, net.lib, n);
    if x == c {
      ExtendsLinkOk(net.par, net.lib, c, l, net'.links[c], net.imps[c].cache);
    }
    assert Static(net', x);
    forall m | m in net'.imps[x].callbacks
      ensures Answered(net', x, m)
    {
      NotCached(net', x, m);
      if x == c && m == n {
        assert Known(l.down, net.imps[c].cache, n) || n in Loads(net'.links[c].down);
      } else {
        assert Answered(net1, x, m);
      }
    }
  }

  // ---- Arrivals -----------------------------------------------------------------------------------

  lemma LoadImpOk(par: map<Id, Id>, c: Id, imp: Importer, up: seq<Name>, tup: Tup)
    requires ImpOk(par, c, imp, up)
    ensures ImpOk(par, c, OnLoad(imp, tup), up)
  {
    LoadOrderly(imp, tup);
    hide Orderly;
  }

  /** The links after a module arrived in `c`. */
  lemma LoadLinks(net: Net, c: Id, tup: Tup)
    requires Shape(net) && Enabled(net, Arrive(c)) && net.links[c].down[0] == Load(tup) && Static(net, c)
    ensures var imp' := OnLoad(net.imps[c], tup);
            var links1, links' := net.links[c := Tail(net.links[c])], LoadArrives(net, c, tup).links;
            && CacheOk(net.lib, imp'.cache)
            && AllExtend(net.lib, links1, links')
            && forall d | d in net.par && Owes(net.imps[c], tup.name, d) :: tup.name in links'[d].sent
  {
    var imp, imp' := net.imps[c], OnLoad(net.imps[c], tup);
    var links1, run := net.links[c := Tail(net.links[c])], Popped(imp, tup.name);
    var links' := LoadArrives(net, c, tup).links;
    assert Genuine(net.lib, net.links[c].down[0].tup);
    assert CacheOk(net.lib, imp'.cache);
    RunAllEffect(net.lib, links1, imp', tup.name, run);
    forall d | d in net.par && Owes(imp, tup.name, d)
      ensures tup.name in links'[d].sent
    {
      var t :| 0 <= t < |imp.issued| && imp.issued[t] == Request(tup.name, Some(d)) && Waiting(imp, t);
      assert t in run;
    }
  }

  lemma LoadStatic(net: Net, c: Id, tup: Tup, x: Id)
    requires Shape(net) && Enabled(net, Arrive(c)) && net.links[c].down[0] == Load(tup) && Static(net, c)
    requires x in net.par && Static(net, x)
    ensures Static(LoadArrives(net, c, tup), x)
  {
    hide IsTree, LibOk, Tail;
    LoadImpOk(net.par, c, net.imps[c], net.up[c], tup);
    LoadLinkOk(net, c, tup, x);
    LoadLinks(net, c, tup);
    hide ImpOk, CacheOk, LinkOk, Extends, AllExtend, RunAll, OnLoad, Popped;
  }

  lemma LoadLinkOk(net: Net, c: Id, tup: Tup, x: Id)
    requires Shape(net) && Enabled(net, Arrive(c)) && net.links[c].down[0] == Load(tup) && Static(net, c)
    requires x in net.par && Static(net, x)
    ensures var net' := LoadArrives(net, c, tup);
            LinkOk(net.par, net.lib, x, net'.links[x], net'.imps[x].cache)
  {
    hide ImpOk, CacheOk;
    LoadLinks(net, c, tup);
    var net' := LoadArrives(net, c, tup);
    var links1 := net.links[c := Tail(net.links[c])];
    assert Extends(net.lib, links1[x], net'.links[x]);
    if x == c {
      TailLinkOk(net.par, net.lib, c, net.links[c], net.imps[c].cache, net'.imps[c].cache);
    }
    ExtendsLinkOk(net.par, net.lib, x, links1[x], net'.links[x], net'.imps[x].cache);
    hide LinkOk, Extends, AllExtend, RunAll;
  }

  lemma LoadAnswered(net: Net, c: Id, tup: Tup, x: Id, n: Name)
    requires Shape(net) && Enabled(net, Arrive(c)) && net.links[c].down[0] == Load(tup) && Static(net, c)
    requires x in net.par && Static(net, x) && Answered(net, x, n)
    requires n in LoadArrives(net, c, tup).imps[x].callbacks
    ensures Answered(LoadArrives(net, c, tup), x, n)
  {
    hide LinkOk, ImpOk, CacheOk, Static;
    LoadStatic(net, c, tup, x);
    LoadLinks(net, c, tup);
    var net' := LoadArrives(net, c, tup);
    var links1 := net.links[c := Tail(net.links[c])];
    LoadsTail(net.links[c].down);
    assert Extends(net.lib, links1[x], net'.links[x]);
    LoadsGrow(links1[x].down, net'.links[x].down);
    if net.par[x] == c && Owes(net.imps[c], n, x) {
      if n == tup.name {
        SentAnswered(net', x, n);
      } else {
        LoadOwes(net.imps[c], tup, n, x);
      }
    }
    NotCached(net', x, n);
    hide Extends, AllExtend, Owes;
  }

  lemma LoadOwes(imp: Importer, tup: Tup, n: Name, c: Id)
    requires Owes(imp, n, c) && n != tup.name
    ensures Owes(OnLoad(imp, tup), n, c)
  {
    var t :| 0 <= t < |imp.issued| && imp.issued[t] == Request(n, Some(c)) && Waiting(imp, t);
    assert Waiting(OnLoad(imp, tup), t);
  }

  lemma LoadKeeps(net: Net, c: Id, tup: Tup)
    requires Inv(net) && Enabled(net, Arrive(c)) && net.links[c].down[0] == Load(tup)
    ensures Inv(LoadArrives(net, c, tup))
  {
    var net' := LoadArrives(net, c, tup);
    assert NodeOk(net, c);
    forall x | x in net.par
      ensures NodeOk(net', x)
    {
      assert NodeOk(net, x);
      LoadStatic(net, c, tup, x);
      forall n | n in net'.imps[x].callbacks
        ensures Answered(net', x, n)
      {
        assert Answered(net, x, n);
        LoadAnswered(net, c, tup, x, n);
      }
    }
  }

  /** Changes to links alone, each keeping what the link's child needs. */
  lemma LinksOnly(net: Net, net': Net, x: Id)
    requires Shape(net) && Shape(net') && net' == net.(links := net'.links)
    requires x in net.par && NodeOk(net, x)
    requires LinkOk(net.par, net.lib, x, net'.links[x], net.imps[x].cache)
    requires Loads(net.links[x].down) <= Loads(net'.links[x].down)
    ensures NodeOk(net', x)
  {
    forall n | n in net'.imps[x].callbacks
      ensures Answered(net', x, n)
    {
      assert Answered(net, x, n);
    }
  }

  /** Nobody looks up a module that is not cached. */
  lemma ForwarderHasModule(net: Net, c: Id, t: Id, n: Name)
    requires Shape(net) && Enabled(net, Arrive(c)) && net.links[c].down[0] == Fwd(t, n) && Static(net, c)
    ensures t != c && Below(net.par, c, t) && (n in Preset || n in net.imps[c].cache)
  {
    assert net.links[c].down[0].Fwd?;
    assert net.links[c].down[..0] == [];
  }

  lemma FwdKeeps(net: Net, c: Id, t: Id, n: Name)
    requires Inv(net) && Enabled(net, Arrive(c)) && net.links[c].down[0] == Fwd(t, n)
    ensures Inv(FwdArrives(net, c, t, n))
  {
    assert NodeOk(net, c);
    ForwarderHasModule(net, c, t, n);
    var d := Toward(net.par, c, t);
    assert NodeOk(net, d);
    hide LinkOk, ImpOk, CacheOk, Answered, Toward, Below;
    forall x | x in net.par
      ensures NodeOk(FwdArrives(net, c, t, n), x)
    {
      assert NodeOk(net, x);
      FwdLinks(net, c, t, n, x);
      hide FwdArrives;
      FwdChangesLinks(net, c, t, n);
      LinksOnly(net, FwdArrives(net, c, t, n), x);
    }
  }

  lemma FwdChangesLinks(net: Net, c: Id, t: Id, n: Name)
    requires Shape(net) && Enabled(net, Arrive(c))
    ensures FwdArrives(net, c, t, n) == net.(links := FwdArrives(net, c, t, n).links)
  {
    hide Shape, Below, Toward;
  }

  lemma FwdLinks(net: Net, c: Id, t: Id, n: Name, x: Id)
    requires Shape(net) && Enabled(net, Arrive(c)) && net.links[c].down[0] == Fwd(t, n) && Static(net, c)
    requires t != c && Below(net.par, c, t) && Static(net, Toward(net.par, c, t))
    requires x in net.par && Static(net, x)
    ensures var l' := FwdArrives(net, c, t, n).links[x];
            && LinkOk(net.par, net.lib, x, l', net.imps[x].cache)
            && Loads(net.links[x].down) <= Loads(l'.down)
  {
    hide IsTree, LibOk, SendAll, ImpOk, CacheOk;
    if x == Toward(net.par, c, t) {
      FwdLink(net, c, t, n);
    } else if x == c {
      LoadsTail(net.links[c].down);
      TailLinkOk(net.par, net.lib, c, net.links[c], net.imps[c].cache, net.imps[c].cache);
    }
    hide LinkOk, ImpOk, CacheOk, Loads, Below;
  }

  /** What forwarding does to the link on the way to the target. */
  lemma FwdLink(net: Net, c: Id, t: Id, n: Name)
    requires Shape(net) && Enabled(net, Arrive(c)) && net.links[c].down[0] == Fwd(t, n)
    requires t != c && Below(net.par, c, t) && Static(net, c) && Static(net, Toward(net.par, c, t))
    ensures var d := Toward(net.par, c, t);
            var l' := FwdArrives(net, c, t, n).links[d];
            && LinkOk(net.par, net.lib, d, l', net.imps[d].cache)
            && Loads(net.links[d].down) <= Loads(l'.down)
  {
    var d := Toward(net.par, c, t);
    var l, cache := net.links[d], net.imps[d].cache;
    if n !in l.sent && n in net.imps[c].cache {
      var l1 := SendAll(l, net.imps[c].cache, n);
      SendAllExtends(net.lib, l, net.imps[c].cache, n);
      ExtendsLinkOk(net.par, net.lib, d, l, l1, cache);
      assert Known(l1.down, cache, n);
      if d != t { FwdLinkOk(net.par, net.lib, d, l1, cache, t, n); }
    }
  }

  lemma PreloadKeeps(net: Net, t: Id, path: seq<Name>)
    requires Inv(net) && Enabled(net, Preload(t, path))
    ensures Inv(Preloads(net, t, path))
  {
    RootAbove(net.par, t);
    var net', d := Preloads(net, t, path), Toward(net.par, 0, t);
    assert NodeOk(net, d);
    PreloadedLinkOk(net.par, net.lib, d, net.links[d], net.imps[d].cache, t, path);
    forall x | x in net.par
      ensures NodeOk(net', x)
    {
      assert NodeOk(net, x);
      LinksOnly(net, net', x);
    }
  }

  lemma StepKeeps(net: Net, step: Step)
    requires Inv(net) && Enabled(net, step)
    ensures Inv(Next(net, step))
  {
    match step
    case Import(i, n) => ImportKeeps(net, i, n);
    case Get(c) => GetKeeps(net, c);
    case Arrive(c) =>
      hide NodeOk;
      if net.links[c].down[0].Load? { LoadKeeps(net, c, net.links[c].down[0].tup); }
      else { FwdKeeps(net, c, net.links[c].down[0].target, net.links[c].down[0].name); }
    case Preload(t, path) => PreloadKeeps(net, t, path);
  }
}
