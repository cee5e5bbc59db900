/** How imports end: with the module the master builds, or with an error. */
module ModuleOutcomes {
  import opened Prelude
  import opened Tree
  import opened Modules
  import opened ModuleNet
  import opened ModuleRuns
  import opened ModuleRepeats

  // ---- Nothing but the module itself is sent -----------------------------------------------------------

  /** All that is said of `n` is what the master builds for it. */
  predicate Says(lib: map<Name, Tup>, n: Name, tup: Tup) {
    tup.name == n ==> n in lib && tup == lib[n]
  }

  ghost predicate AllSay(lib: map<Name, Tup>, n: Name, down: seq<Msg>) {
    forall m | m in down && m.Load? :: Says(lib, n, m.tup)
  }

  ghost predicate Holds(lib: map<Name, Tup>, n: Name, cache: map<Name, Tup>) {
    n in cache ==> n in lib && cache[n] == lib[n]
  }

  predicate Named(cache: map<Name, Tup>) { forall m | m in cache :: cache[m].name == m }

  lemma SendOneSays(lib: map<Name, Tup>, n: Name, l: Link, tup: Tup)
    requires AllSay(lib, n, l.down) && Says(lib, n, tup)
    ensures AllSay(lib, n, SendOne(l, tup).down)
  {
  }

  lemma {:induction false} SendRelatedSays(lib: map<Name, Tup>, n: Name, l: Link, cache: map<Name, Tup>, related: seq<Name>)
    requires AllSay(lib, n, l.down) && Holds(lib, n, cache) && Named(cache)
    ensures AllSay(lib, n, SendRelated(l, cache, related).down)
    decreases |related|
  {
    if related != [] {
      if related[0] in cache { SendOneSays(lib, n, l, cache[related[0]]); }
      SendRelatedSays(lib, n, if related[0] in cache then SendOne(l, cache[related[0]]) else l, cache, related[1..]);
    }
  }

  lemma SendAllSays(lib: map<Name, Tup>, n: Name, l: Link, cache: map<Name, Tup>, k: Name)
    requires AllSay(lib, n, l.down) && Holds(lib, n, cache) && k in cache
    requires Named(cache)
    ensures AllSay(lib, n, SendAll(l, cache, k).down)
  {
    SendRelatedSays(lib, n, l, cache, cache[k].related);
    SendOneSays(lib, n, SendRelated(l, cache, cache[k].related), cache[k]);
  }

  lemma {:induction false} RelatedSays(lib: map<Name, Tup>, n: Name, l: Link, k: Name, related: seq<Name>)
    requires LibOk(lib) && AllSay(lib, n, l.down)
    ensures AllSay(lib, n, RespondRelated(l, lib, k, related).0.down)
    decreases |related|
  {
    if related != [] {
      var m := related[0];
      if (Top(m) != k && Top(m) !in l.sent) || m in l.sent {
        RelatedSays(lib, n, l, k, related[1..]);
      } else if m in lib {
        SendOneSays(lib, n, l, lib[m]);
        RelatedSays(lib, n, SendOne(l, lib[m]), k, related[1..]);
      }
    }
  }

  lemma RespondSays(lib: map<Name, Tup>, n: Name, l: Link, k: Name)
    requires LibOk(lib) && AllSay(lib, n, l.down) && Clean(lib, n)
    ensures AllSay(lib, n, Respond(l, lib, k).down)
  {
    if k in lib {
      RelatedSays(lib, n, l, k, lib[k].related);
      SendOneSays(lib, n, RespondRelated(l, lib, k, lib[k].related).0, lib[k]);
      RelatedRaisesIff(l, lib, k, lib[k].related);
    }
    hide RespondRelated;
  }

  lemma {:induction false} PreloadedSays(lib: map<Name, Tup>, n: Name, l: Link, direct: bool, t: Id, path: seq<Name>)
    requires LibOk(lib) && AllSay(lib, n, l.down) && Clean(lib, n)
    ensures AllSay(lib, n, Preloaded(l, lib, direct, t, path).down)
    decreases |path|
  {
    if path != [] {
      RespondSays(lib, n, l, path[0]);
      var l1 := Respond(l, lib, path[0]);
      var l2 := if direct then l1 else l1.(down := l1.down + [Fwd(t, path[0])]);
      hide Respond, Clean, LibOk;
      PreloadedSays(lib, n, l2, direct, t, path[1..]);
    }
  }

  // ---- Over the network -----------------------------------------------------------------------------------

  ghost predicate LinksSay(lib: map<Name, Tup>, n: Name, links: map<Id, Link>) {
    forall c | c in links :: AllSay(lib, n, links[c].down)
  }

  /** All that is cached or under way of `n` is what the master builds for it. */
  ghost predicate Right(net: Net, n: Name) {
    && (forall c | c in net.imps :: Holds(net.lib, n, net.imps[c].cache))
    && LinksSay(net.lib, n, net.links)
  }

  lemma RunOneSays(lib: map<Name, Tup>, n: Name, links: map<Id, Link>, imp: Importer, k: Name, t: nat)
    requires k in imp.cache && Holds(lib, n, imp.cache) && Named(imp.cache) && LinksSay(lib, n, links)
    ensures LinksSay(lib, n, RunOne(links, imp, k, t))
  {
    forall c | c in links ensures AllSay(lib, n, RunOne(links, imp, k, t)[c].down) {
      SendAllSays(lib, n, links[c], imp.cache, k);
      hide SendAll, AllSay, Holds;
    }
  }

  lemma {:induction false} RunAllSays(lib: map<Name, Tup>, n: Name, links: map<Id, Link>, imp: Importer, k: Name, run: seq<nat>)
    requires k in imp.cache && Holds(lib, n, imp.cache) && Named(imp.cache) && LinksSay(lib, n, links)
    ensures LinksSay(lib, n, RunAll(links, imp, k, run))
    decreases |run|
  {
    hide LinksSay, Holds, Named, RunOne;
    if run != [] {
      RunOneSays(lib, n, links, imp, k, run[0]);
      RunAllSays(lib, n, RunOne(links, imp, k, run[0]), imp, k, run[1..]);
    }
  }

  lemma NodeNamed(net: Net, c: Id)
    requires Inv(net) && c in net.par
    ensures Named(net.imps[c].cache)
  {
    assert NodeOk(net, c);
  }

  lemma AskRight(net: Net, i: Id, r: Request, n: Name)
    requires Shape(net) && i in net.par && Right(net, n) && Named(net.imps[i].cache)
    ensures Right(Ask(net, i, r), n)
  {
    AskSays(net, i, r, n);
    SameCache(net.imps[i], r);
    hide OnRequest, LinksSay, Named, RunAll, Shape;
  }

  lemma SameCache(imp: Importer, r: Request)
    ensures OnRequest(imp, r).cache == imp.cache
  {
  }

  lemma AskSays(net: Net, i: Id, r: Request, n: Name)
    requires Shape(net) && i in net.par && LinksSay(net.lib, n, net.links)
    requires Holds(net.lib, n, net.imps[i].cache) && Named(net.imps[i].cache)
    ensures LinksSay(net.lib, n, Ask(net, i, r).links)
  {
    SameCache(net.imps[i], r);
    hide OnRequest, LinksSay, Holds, Named, RunAll, IsTree, LibOk;
    var imp := net.imps[i];
    if r.name in imp.cache { RunAllSays(net.lib, n, net.links, OnRequest(imp, r), r.name, [|imp.issued|]); }
  }

  lemma LinkRight(net: Net, net': Net, n: Name, c: Id, l: Link)
    requires Right(net, n) && net'.imps == net.imps && net'.lib == net.lib && net'.links == net.links[c := l]
    requires AllSay(net.lib, n, l.down)
    ensures Right(net', n)
  {
    hide AllSay, Holds;
  }

  lemma TailSays(lib: map<Name, Tup>, n: Name, l: Link)
    requires l.down != [] && AllSay(lib, n, l.down)
    ensures AllSay(lib, n, Tail(l).down)
  {
    assert forall m | m in l.down[1..] :: m in l.down;
  }

  lemma GetRight(net: Net, c: Id, n: Name)
    requires Inv(net) && Enabled(net, Get(c)) && Right(net, n) && Clean(net.lib, n)
    ensures Right(GetArrives(net, c), n)
  {
    var k := net.up[c][0];
    if net.par[c] == 0 {
      RespondSays(net.lib, n, net.links[c], k);
      LinkRight(net, GetArrives(net, c), n, c, Respond(net.links[c], net.lib, k));
    } else {
      var net1 := net.(up := net.up[c := net.up[c][1..]]);
      NodeNamed(net, net.par[c]);
      hide Inv, Clean;
      AskRight(net1, net.par[c], Request(k, Some(c)), n);
    }
  }

  lemma LoadRight(net: Net, c: Id, tup: Tup, n: Name)
    requires Inv(net) && Enabled(net, Arrive(c)) && net.links[c].down[0] == Load(tup) && Right(net, n)
    ensures Right(LoadArrives(net, c, tup), n)
  {
    var imp' := OnLoad(net.imps[c], tup);
    var links1 := net.links[c := Tail(net.links[c])];
    NodeNamed(net, c);
    assert Load(tup) in net.links[c].down;
    TailSays(net.lib, n, net.links[c]);
    assert Holds(net.lib, n, imp'.cache) && Named(imp'.cache);
    hide Inv, OnLoad, Tail;
    assert LinksSay(net.lib, n, links1) by { hide AllSay; }
    hide LinksSay, Holds, Named;
    RunAllSays(net.lib, n, links1, imp', tup.name, Popped(net.imps[c], tup.name));
    hide RunAll, Popped, IsTree, LibOk;
  }

  lemma FwdRight(net: Net, c: Id, t: Id, k: Name, n: Name)
    requires Inv(net) && Enabled(net, Arrive(c)) && net.links[c].down[0] == Fwd(t, k) && Right(net, n)
    ensures Right(FwdArrives(net, c, t, k), n)
  {
    NodeNamed(net, c);
    TailSays(net.lib, n, net.links[c]);
    hide Inv, Holds, AllSay, Tail, IsTree, LibOk, Below;
    var net1 := net.(links := net.links[c := Tail(net.links[c])]);
    LinkRight(net, net1, n, c, Tail(net.links[c]));
    var net' := FwdArrives(net, c, t, k);
    if net' != net1 {
      var d := Toward(net.par, c, t);
      var l := SendAll(net.links[d], net.imps[c].cache, k);
      SendAllSays(net.lib, n, net.links[d], net.imps[c].cache, k);
      var l' := if d == t then l else l.(down := l.down + [Fwd(t, k)]);
      FwdSays(net.lib, n, l.down, t, k);
      hide SendAll;
      LinkRight(net1, net', n, d, l');
    }
  }

  lemma FwdSays(lib: map<Name, Tup>, n: Name, down: seq<Msg>, t: Id, k: Name)
    requires AllSay(lib, n, down)
    ensures AllSay(lib, n, down + [Fwd(t, k)])
  {
  }

  lemma StepRight(net: Net, step: Step, n: Name)
    requires Inv(net) && Enabled(net, step) && Right(net, n) && Clean(net.lib, n)
    ensures Right(Next(net, step), n)
  {
    hide Right, NodeOk, IsTree, Clean;
    match step
    case Import(i, k) =>
      NodeNamed(net, i);
      AskRight(net, i, Request(k, None), n);
    case Get(c) => GetRight(net, c, n);
    case Arrive(c) =>
      match net.links[c].down[0] {
        case Load(tup) => LoadRight(net, c, tup, n);
        case Fwd(t, k) => FwdRight(net, c, t, k, n);
      }
    case Preload(t, path) => PreloadRight(net, t, path, n);
  }

  lemma PreloadRight(net: Net, t: Id, path: seq<Name>, n: Name)
    requires Shape(net) && t in net.par && Right(net, n) && Clean(net.lib, n)
    ensures Right(Preloads(net, t, path), n)
  {
    RootAbove(net.par, t);
    var d := Toward(net.par, 0, t);
    PreloadedSays(net.lib, n, net.links[d], d == t, t, path);
    LinkRight(net, Preloads(net, t, path), n, d, Preloaded(net.links[d], net.lib, d == t, t, path));
  }

  /** In every run: what is cached and under way of a module that the master can build, with all that is
      related to it, is that module and never a negative response. */
  lemma {:induction false} RunRight(steps: seq<Step>, nets: seq<Net>, k: nat, n: Name)
    requires IsRun(steps, nets) && k <= |steps| && n !in Preset && Clean(nets[0].lib, n)
    ensures nets[k].lib == nets[0].lib && Right(nets[k], n)
  {
    if k == 0 {
      assert Initial(nets[0]);
    } else {
      RunRight(steps, nets, k - 1, n);
      RunKeeps(steps, nets, k - 1);
      hide Inv, Right, Clean, Initial;
      assert Enabled(nets[k-1], steps[k-1]);
      StepRight(nets[k-1], steps[k-1], n);
    }
  }

  // ---- Imports ----------------------------------------------------------------------------------------------

  /** What a request has come to: nothing yet, the module, or an ImportError. */
  datatype Import = Pending | Module(tup: Tup) | Failure

  function Outcome(imp: Importer, t: nat): Import
    requires t < |imp.issued|
  {
    var n := imp.issued[t].name;
    if t !in imp.ran || n !in imp.cache then Pending
    else if imp.cache[n].found then Module(imp.cache[n]) else Failure
  }

  /** In every run, once all messages have been handled: every import has ended, with the module that the
      master builds or with an error; with the module if the master can build it and all that is related
      to it, and with the error if it cannot build it. */
  lemma ImportEnds(steps: seq<Step>, nets: seq<Net>, k: nat, c: Id, t: nat)
    requires IsRun(steps, nets) && k <= |steps| && Shape(nets[k]) && c in nets[k].par
    requires forall d :: !Enabled(nets[k], Get(d)) && !Enabled(nets[k], Arrive(d))
    requires t < |nets[k].imps[c].issued| && nets[k].imps[c].issued[t].name !in Preset
    ensures var n, lib, r := nets[k].imps[c].issued[t].name, nets[0].lib, Outcome(nets[k].imps[c], t);
            && !r.Pending? && (r.Module? ==> n in lib && r.tup == lib[n])
            && (n !in lib ==> r.Failure?) && (Clean(lib, n) ==> r.Module?)
  {
    var n := nets[k].imps[c].issued[t].name;
    QuietMeansDone(steps, nets, k, c);
    SameLib(steps, nets, k);
    RunKeeps(steps, nets, k);
    assert NodeOk(nets[k], c);
    assert n in nets[k].imps[c].cache && Genuine(nets[k].lib, nets[k].imps[c].cache[n]) && nets[k].imps[c].cache[n].name == n;
    if Clean(nets[0].lib, n) { RunRight(steps, nets, k, n); }
    hide IsRun, Inv, NodeOk;
  }

  lemma {:induction false} SameLib(steps: seq<Step>, nets: seq<Net>, k: nat)
    requires IsRun(steps, nets) && k <= |steps|
    ensures nets[k].lib == nets[0].lib
  {
    if k > 0 {
      SameLib(steps, nets, k - 1);
      assert Enabled(nets[k-1], steps[k-1]) && nets[k] == Next(nets[k-1], steps[k-1]);
    }
  }
}
