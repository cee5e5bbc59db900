/** How often each module is put on a stream: once, but for the negative responses after an exception,
    which the master does not record. */
module ModuleRepeats {
  import opened Prelude
  import opened Tree
  import opened Modules
  import opened ModuleNet
  import opened ModuleRuns

  /** How often LOAD_MODULE for `n` was put on the link so far. */
  function Names(down: seq<Msg>): multiset<Name> {
    if down == [] then multiset{}
    else (if down[0].Load? then multiset{down[0].tup.name} else multiset{}) + Names(down[1..])
  }

  function Times(l: Link, n: Name): nat { l.got[n] + Names(l.down)[n] }

  /** The times it was put there without being recorded in sent_modules. */
  function Extra(l: Link, n: Name): int {
    Times(l, n) - if n in l.sent && n !in Preset then 1 else 0
  }

  lemma {:induction false} NamesAppend(a: seq<Msg>, b: seq<Msg>)
    ensures Names(a + b) == Names(a) + Names(b)
  {
    if a == [] {
      assert a + b == b;
    } else {
      ConcatTail(a, b);
      NamesAppend(a[1..], b);
    }
  }

  lemma SendOneExtra(l: Link, tup: Tup, n: Name)
    requires Preset <= l.sent
    ensures Extra(SendOne(l, tup), n) == Extra(l, n) && Preset <= SendOne(l, tup).sent
  {
    NamesAppend(l.down, [Load(tup)]);
    assert Names([Load(tup)]) == multiset{tup.name};
  }

  lemma {:induction false} SendRelatedExtra(l: Link, cache: map<Name, Tup>, related: seq<Name>, n: Name)
    requires Preset <= l.sent
    ensures Extra(SendRelated(l, cache, related), n) == Extra(l, n) && Preset <= SendRelated(l, cache, related).sent
    decreases |related|
  {
    if related != [] {
      var l1 := if related[0] in cache then SendOne(l, cache[related[0]]) else l;
      if related[0] in cache { SendOneExtra(l, cache[related[0]], n); }
      SendRelatedExtra(l1, cache, related[1..], n);
    }
  }

  /** A forwarder records whatever it sends. */
  lemma SendAllExtra(l: Link, cache: map<Name, Tup>, n: Name, k: Name)
    requires Preset <= l.sent && n in cache
    ensures Extra(SendAll(l, cache, n), k) == Extra(l, k) && Preset <= SendAll(l, cache, n).sent
  {
    SendRelatedExtra(l, cache, cache[n].related, k);
    SendOneExtra(SendRelated(l, cache, cache[n].related), cache[n], k);
  }

  // ---- When the master raises -------------------------------------------------------------------------

  /** A related module that the master would send along, and cannot build. */
  predicate Bad(l: Link, lib: map<Name, Tup>, n: Name, m: Name) {
    m !in lib && m !in l.sent && (Top(m) == n || Top(m) in l.sent)
  }

  /** The request raises: the module has not been sent, and it cannot be built or has a bad relation. */
  predicate Raises(l: Link, lib: map<Name, Tup>, n: Name) {
    n !in l.sent && (n !in lib || exists m :: m in lib[n].related && Bad(l, lib, n, m))
  }

  lemma {:induction false} TopTwice(m: Name)
    ensures Top(Top(m)) == Top(m)
  {
    if m != [] && m[0] != '.' { TopTwice(m[1..]); }
  }

  /** Sending a module along makes no other one bad, or good. */
  lemma BadStays(l: Link, lib: map<Name, Tup>, n: Name, k: Name, m: Name)
    requires LibOk(lib) && k in lib && (Top(k) == n || Top(k) in l.sent) && k !in l.sent
    ensures Bad(SendOne(l, lib[k]), lib, n, m) <==> Bad(l, lib, n, m)
  {
    TopTwice(m);
    assert lib[k].name == k;
  }

  /** The loop over related modules is cut short if and only if one of them is bad beforehand. */
  lemma {:induction false} RelatedRaisesIff(l: Link, lib: map<Name, Tup>, n: Name, related: seq<Name>)
    requires LibOk(lib)
    ensures !RespondRelated(l, lib, n, related).1 <==> exists m :: m in related && Bad(l, lib, n, m)
    decreases |related|
  {
    if related != [] {
      var m, rest := related[0], related[1..];
      assert forall x :: x in related <==> x == m || x in rest;
      if (Top(m) != n && Top(m) !in l.sent) || m in l.sent {
        RelatedRaisesIff(l, lib, n, rest);
      } else if m in lib {
        RelatedRaisesIff(SendOne(l, lib[m]), lib, n, rest);
        forall x ensures Bad(SendOne(l, lib[m]), lib, n, x) <==> Bad(l, lib, n, x) { BadStays(l, lib, n, m, x); }
      } else {
        assert Bad(l, lib, n, m);
      }
    }
  }

  // ---- What is sent along -----------------------------------------------------------------------------

  /** The related modules that the master sends along with `n`: those of `n`'s own package, and those
      whose package has been sent. */
  function Along(l: Link, n: Name, related: seq<Name>): set<Name> {
    set m | m in related && (Top(m) == n || Top(m) in l.sent)
  }

  lemma AlongStays(l: Link, tup: Tup, n: Name, related: seq<Name>)
    requires Top(tup.name) == n || Top(tup.name) in l.sent
    ensures Along(SendOne(l, tup), n, related) == Along(l, n, related)
  {
    forall m | m in related ensures Top(m) in SendOne(l, tup).sent ==> Top(m) == n || Top(m) in l.sent {
      TopTwice(m);
    }
  }

  /** If none of them is bad, the loop sends exactly those. */
  lemma {:induction false} RelatedSends(l: Link, lib: map<Name, Tup>, n: Name, related: seq<Name>)
    requires LibOk(lib) && RespondRelated(l, lib, n, related).1
    ensures RespondRelated(l, lib, n, related).0.sent == l.sent + Along(l, n, related)
    decreases |related|
  {
    if related != [] {
      var m, rest := related[0], related[1..];
      assert Along(l, n, related) == Along(l, n, rest) + if Top(m) == n || Top(m) in l.sent then {m} else {} by {
        assert forall x :: x in related <==> x == m || x in rest;
      }
      if (Top(m) != n && Top(m) !in l.sent) || m in l.sent {
        RelatedSends(l, lib, n, rest);
      } else {
        RelatedSends(SendOne(l, lib[m]), lib, n, rest);
        AlongStays(l, lib[m], n, rest);
        hide Along;
      }
    }
  }

  /** What a request makes the master send: the module behind all that goes along with it; or, if the
      request raises, a negative response behind as much as could be built. */
  lemma RespondSends(l: Link, lib: map<Name, Tup>, n: Name)
    requires LibOk(lib) && n !in l.sent
    ensures var l' := Respond(l, lib, n);
            if Raises(l, lib, n) then l'.down != [] && l'.down[|l'.down| - 1] == Load(Negative(n))
            else
              && n in lib && l'.sent == l.sent + {n} + Along(l, n, lib[n].related)
              && (n !in lib[n].related ==> l'.down != [] && l'.down[|l'.down| - 1] == Load(lib[n]))
  {
    if n in lib {
      RelatedRaisesIff(l, lib, n, lib[n].related);
      if !Raises(l, lib, n) { RelatedSends(l, lib, n, lib[n].related); }
    }
    hide RespondRelated;
  }

  /** What a forwarder sends: the module and every related one that it has. */
  lemma SendAllSends(l: Link, cache: map<Name, Tup>, n: Name)
    requires n in cache && forall m {:trigger cache[m]} | m in cache :: cache[m].name == m
    ensures SendAll(l, cache, n).sent == l.sent + {n} + set m | m in cache[n].related && m in cache
  {
    RelatedAllSends(l, cache, cache[n].related);
  }

  lemma {:induction false} RelatedAllSends(l: Link, cache: map<Name, Tup>, related: seq<Name>)
    requires forall m {:trigger cache[m]} | m in cache :: cache[m].name == m
    ensures SendRelated(l, cache, related).sent == l.sent + set m | m in related && m in cache
    decreases |related|
  {
    if related != [] {
      var m, rest := related[0], related[1..];
      assert forall x :: x in related <==> x == m || x in rest;
      RelatedAllSends(if m in cache then SendOne(l, cache[m]) else l, cache, rest);
      assert (set x | x in related && x in cache) == (set x | x in rest && x in cache) + if m in cache then {m} else {};
    }
  }

  // ---- How often --------------------------------------------------------------------------------------

  lemma {:induction false} RespondRelatedExtra(l: Link, lib: map<Name, Tup>, n: Name, related: seq<Name>, k: Name)
    requires Preset <= l.sent
    ensures var l' := RespondRelated(l, lib, n, related).0; Extra(l', k) == Extra(l, k) && Preset <= l'.sent
    decreases |related|
  {
    if related != [] {
      var m := related[0];
      if (Top(m) != n && Top(m) !in l.sent) || m in l.sent {
        RespondRelatedExtra(l, lib, n, related[1..], k);
      } else if m in lib {
        SendOneExtra(l, lib[m], k);
        RespondRelatedExtra(SendOne(l, lib[m]), lib, n, related[1..], k);
      }
    }
  }

  lemma FailedExtra(l: Link, n: Name, k: Name)
    ensures Extra(Failed(l, n), k) == Extra(l, k) + if k == n then 1 else 0
  {
    NamesAppend(l.down, [Load(Negative(n))]);
    assert Names([Load(Negative(n))]) == multiset{n};
  }

  /** A response puts a name on the stream without recording it if and only if that name was asked
      for and the request raised. */
  lemma RespondExtra(l: Link, lib: map<Name, Tup>, n: Name, k: Name)
    requires Preset <= l.sent && LibOk(lib)
    ensures Extra(Respond(l, lib, n), k) == Extra(l, k) + if k == n && Raises(l, lib, n) then 1 else 0
    ensures Preset <= Respond(l, lib, n).sent
  {
    if n !in l.sent {
      var l1 := if n in lib then RespondRelated(l, lib, n, lib[n].related).0 else l;
      if n in lib {
        RelatedRaisesIff(l, lib, n, lib[n].related);
        RespondRelatedExtra(l, lib, n, lib[n].related, k);
        SendOneExtra(l1, lib[n], k);
      }
      FailedExtra(l1, n, k);
      hide RespondRelated, Extra;
    }
  }

  /** A response puts a name on the stream once more if and only if it records it then, or the name
      was asked for and the request raised. */
  lemma SentAgainIff(l: Link, lib: map<Name, Tup>, n: Name, k: Name)
    requires Preset <= l.sent && LibOk(lib)
    ensures var l' := Respond(l, lib, n);
            Times(l', k) > Times(l, k) <==> (k in l'.sent && k !in l.sent) || (k == n && Raises(l, lib, n))
  {
    RespondExtra(l, lib, n, k);
    RespondExtends(l, lib, n);
    hide Respond, Raises;
  }

  // ---- An example -------------------------------------------------------------------------------------

  const Twice: map<Name, Tup> := map[
    "q" := Tup("q", [], true), "r" := Tup("r", ["q.x"], true), "q.x" := Tup("q.x", ["q.b"], true)]

  /** It does happen: `q.b` cannot be built, so a request for `q.x` fails; a later request for `r`
      sends `q.x` after all. */
  lemma SentTwice()
    ensures var l0 := Link(Preset, [], multiset{});
            Times(Respond(Respond(Respond(l0, Twice, "q"), Twice, "q.x"), Twice, "r"), "q.x") == 2
  {
    var l0 := Link(Preset, [], multiset{});
    TwiceFailed();
    TwiceAgain();
    assert Respond(l0, Twice, "q") == TwiceLink(1);
    hide Respond, RespondRelated;
    var q, no, x, r := Load(Twice["q"]), Load(Negative("q.x")), Load(Twice["q.x"]), Load(Twice["r"]);
    NamesAppend([q, no], [x, r]);
    NamesOfTwo(q, no);
    NamesOfTwo(x, r);
  }

  lemma NamesOfTwo(a: Msg, b: Msg)
    requires a.Load? && b.Load?
    ensures Names([a, b]) == multiset{a.tup.name, b.tup.name}
  {
    assert [b][1..] == [] && Names([b]) == multiset{b.tup.name};
    assert [a, b][1..] == [b] && Names([a, b]) == multiset{a.tup.name} + Names([b]);
  }

  lemma TwiceFailed()
    ensures Respond(TwiceLink(1), Twice, "q.x") == TwiceLink(2)
  {
    assert Top("q.b") == "q";
    assert RespondRelated(TwiceLink(1), Twice, "q.x", ["q.b"]) == (TwiceLink(1), false);
  }

  lemma TwiceAgain()
    ensures Respond(TwiceLink(2), Twice, "r") == TwiceLink(3)
  {
    assert Top("q.x") == "q" && ["q.x"][1..] == [];
    assert RespondRelated(TwiceLink(2), Twice, "r", ["q.x"]) == (SendOne(TwiceLink(2), Twice["q.x"]), true);
  }

  function TwiceLink(i: nat): Link {
    var q, x, r := Load(Twice["q"]), Load(Twice["q.x"]), Load(Twice["r"]);
    if i == 1 then Link(Preset + {"q"}, [q], multiset{})
    else if i == 2 then Link(Preset + {"q"}, [q, Load(Negative("q.x"))], multiset{})
    else Link(Preset + {"q", "q.x", "r"}, [q, Load(Negative("q.x"))] + [x, r], multiset{})
  }

  // ---- Over runs --------------------------------------------------------------------------------------

  /** How many of the responses in a preload for `n` raise. */
  function PathRaises(l: Link, lib: map<Name, Tup>, direct: bool, target: Id, path: seq<Name>, n: Name): nat
    decreases |path|
  {
    if path == [] then 0
    else
      var l1 := Respond(l, lib, path[0]);
      var l2 := if direct then l1 else l1.(down := l1.down + [Fwd(target, path[0])]);
      (if path[0] == n && Raises(l, lib, n) then 1 else 0) + PathRaises(l2, lib, direct, target, path[1..], n)
  }

  lemma {:induction false} PreloadedExtra(l: Link, lib: map<Name, Tup>, direct: bool, target: Id, path: seq<Name>, k: Name)
    requires Preset <= l.sent && LibOk(lib)
    ensures Extra(Preloaded(l, lib, direct, target, path), k)
         == Extra(l, k) + PathRaises(l, lib, direct, target, path, k)
    decreases |path|
  {
    if path != [] {
      var l1 := Respond(l, lib, path[0]);
      RespondExtra(l, lib, path[0], k);
      FwdExtra(l1, target, path[0], k);
      var l2 := if direct then l1 else l1.(down := l1.down + [Fwd(target, path[0])]);
      hide Extra, Raises, Respond;
      PreloadedExtra(l2, lib, direct, target, path[1..], k);
    }
  }

  lemma FwdExtra(l: Link, t: Id, n: Name, k: Name)
    ensures Extra(l.(down := l.down + [Fwd(t, n)]), k) == Extra(l, k)
  {
    NamesAppend(l.down, [Fwd(t, n)]);
  }

  /** How many requests of the step for `n`, answered by the master over the link to `c`, raise. */
  ghost function StepRaises(net: Net, step: Step, c: Id, n: Name): nat
    requires Shape(net) && Enabled(net, step)
  {
    match step
    case Get(d) => if d == c && net.par[c] == 0 && net.up[c][0] == n && Raises(net.links[c], net.lib, n) then 1 else 0
    case Preload(t, path) =>
      RootAbove(net.par, t);
      if Toward(net.par, 0, t) == c then PathRaises(net.links[c], net.lib, c == t, t, path, n) else 0
    case _ => 0
  }

  ghost function RunRaises(steps: seq<Step>, nets: seq<Net>, k: nat, c: Id, n: Name): nat
    requires IsRun(steps, nets) && k <= |steps|
  {
    if k == 0 then 0
    else RunRaises(steps, nets, k - 1, c, n)
         + (assert Enabled(nets[k-1], steps[k-1]); StepRaises(nets[k-1], steps[k-1], c, n))
  }

  lemma {:induction false} RunAllExtra(links: map<Id, Link>, imp: Importer, n: Name, run: seq<nat>, d: Id, k: Name)
    requires n in imp.cache && d in links && Preset <= links[d].sent
    ensures Extra(RunAll(links, imp, n, run)[d], k) == Extra(links[d], k)
    decreases |run|
  {
    if run != [] {
      SendAllExtra(links[d], imp.cache, n, k);
      hide Extra, SendAll;
      RunAllExtra(RunOne(links, imp, n, run[0]), imp, n, run[1..], d, k);
    }
  }

  lemma TailExtra(l: Link, k: Name)
    requires l.down != []
    ensures Extra(Tail(l), k) == Extra(l, k)
  {
  }

  lemma StepExtra(net: Net, step: Step, x: Id, k: Name)
    requires Inv(net) && Enabled(net, step) && x in net.par
    ensures Extra(Next(net, step).links[x], k) == Extra(net.links[x], k) + StepRaises(net, step, x, k)
  {
    assert NodeOk(net, x);
    hide Extra, NodeOk;
    match step
    case Import(i, n) => AskExtra(net, i, Request(n, None), x, k);
    case Get(c) => GetExtra(net, c, x, k);
    case Arrive(c) => ArriveExtra(net, c, x, k);
    case Preload(t, path) =>
      RootAbove(net.par, t);
      if x == Toward(net.par, 0, t) { PreloadedExtra(net.links[x], net.lib, x == t, t, path, k); }
  }

  lemma AskExtra(net: Net, i: Id, r: Request, x: Id, k: Name)
    requires Shape(net) && i in net.par && x in net.par && Preset <= net.links[x].sent
    ensures Extra(Ask(net, i, r).links[x], k) == Extra(net.links[x], k)
  {
    if r.name in net.imps[i].cache {
      RunAllExtra(net.links, OnRequest(net.imps[i], r), r.name, [|net.imps[i].issued|], x, k);
    }
  }

  lemma GetExtra(net: Net, c: Id, x: Id, k: Name)
    requires Shape(net) && Enabled(net, Get(c)) && x in net.par && Preset <= net.links[x].sent
    ensures Extra(GetArrives(net, c).links[x], k) == Extra(net.links[x], k) + StepRaises(net, Get(c), x, k)
  {
    var n := net.up[c][0];
    var net1 := net.(up := net.up[c := net.up[c][1..]]);
    if net.par[c] != 0 {
      AskExtra(net1, net.par[c], Request(n, Some(c)), x, k);
    } else if x == c {
      RespondExtra(net.links[c], net.lib, n, k);
    }
    hide Extra, Raises, Respond;
  }

  lemma ArriveExtra(net: Net, c: Id, x: Id, k: Name)
    requires Shape(net) && Enabled(net, Arrive(c)) && x in net.par && Preset <= net.links[x].sent
    ensures Extra(Next(net, Arrive(c)).links[x], k) == Extra(net.links[x], k)
  {
    if x == c { TailExtra(net.links[c], k); }
    hide Extra;
    match net.links[c].down[0]
    case Load(tup) =>
      RunAllExtra(net.links[c := Tail(net.links[c])], OnLoad(net.imps[c], tup), tup.name,
                  Popped(net.imps[c], tup.name), x, k);
    case Fwd(t, n) => FwdArrivesExtra(net, c, t, n, x, k);
  }

  lemma FwdArrivesExtra(net: Net, c: Id, t: Id, n: Name, x: Id, k: Name)
    requires Shape(net) && Enabled(net, Arrive(c)) && x in net.par && Preset <= net.links[x].sent
    requires x == c ==> Extra(Tail(net.links[c]), k) == Extra(net.links[c], k)
    ensures Extra(FwdArrives(net, c, t, n).links[x], k) == Extra(net.links[x], k)
  {
    if Below(net.par, c, t) && t != c && n in net.imps[c].cache && x == Toward(net.par, c, t) {
      SendAllExtra(net.links[x], net.imps[c].cache, n, k);
      FwdExtra(SendAll(net.links[x], net.imps[c].cache, n), t, n, k);
      hide Extra, SendAll, Tail, LibOk, IsTree;
    } else {
      hide Extra, SendAll, Tail, LibOk, IsTree;
      FwdElsewhere(net, c, t, n, x);
    }
  }

  lemma FwdElsewhere(net: Net, c: Id, t: Id, n: Name, x: Id)
    requires Shape(net) && Enabled(net, Arrive(c)) && x in net.par
    requires !(Below(net.par, c, t) && t != c && n in net.imps[c].cache && x == Toward(net.par, c, t))
    ensures FwdArrives(net, c, t, n).links[x] == if x == c then Tail(net.links[c]) else net.links[x]
  {
    hide SendAll, Tail, LibOk, IsTree;
  }

  /** The account of a stream, in every run: each name has been put on it as often as a request for it
      raised, and once more if it is recorded as sent. */
  lemma {:induction false} RunExtra(steps: seq<Step>, nets: seq<Net>, k: nat, c: Id, n: Name)
    requires IsRun(steps, nets) && k <= |steps| && c in nets[0].par
    ensures Shape(nets[k]) && nets[k].par == nets[0].par && nets[k].lib == nets[0].lib
    ensures Extra(nets[k].links[c], n) == RunRaises(steps, nets, k, c, n)
  {
    hide Inv, Enabled, Extra, StepRaises, Initial, Next, Shape;
    if k == 0 {
      NothingYet(steps, nets, c, n);
    } else {
      RunExtra(steps, nets, k - 1, c, n);
      RunKeeps(steps, nets, k - 1);
      OneStep(steps, nets, k - 1, c, n);
    }
  }

  lemma NothingYet(steps: seq<Step>, nets: seq<Net>, c: Id, n: Name)
    requires IsRun(steps, nets) && c in nets[0].par
    ensures Shape(nets[0]) && Extra(nets[0].links[c], n) == 0
  {
  }

  lemma OneStep(steps: seq<Step>, nets: seq<Net>, k: nat, c: Id, n: Name)
    requires IsRun(steps, nets) && k < |steps| && Inv(nets[k]) && c in nets[k].par
    ensures Shape(nets[k]) && Enabled(nets[k], steps[k])
    ensures Shape(nets[k+1]) && nets[k+1].par == nets[k].par && nets[k+1].lib == nets[k].lib
    ensures Extra(nets[k+1].links[c], n) == Extra(nets[k].links[c], n) + StepRaises(nets[k], steps[k], c, n)
  {
    hide Enabled, Extra, StepRaises, Initial;
    assert Enabled(nets[k], steps[k]);
    StepExtra(nets[k], steps[k], c, n);
    hide Inv, Next, Shape;
  }

  /** A stream carries a name more than once if and only if requests for it raised twice, or one raised
      and the name was also sent with success. */
  lemma CarriedTwiceIff(steps: seq<Step>, nets: seq<Net>, k: nat, c: Id, n: Name)
    requires IsRun(steps, nets) && k <= |steps| && c in nets[0].par && Shape(nets[k]) && c in nets[k].par
    ensures var raised, l := RunRaises(steps, nets, k, c, n), nets[k].links[c];
            Times(l, n) >= 2 <==> raised >= 2 || (raised == 1 && n in l.sent && n !in Preset)
  {
    RunExtra(steps, nets, k, c, n);
  }

  /** The master can build the module and everything related to it. */
  ghost predicate Clean(lib: map<Name, Tup>, n: Name) {
    n in lib && forall m | m in lib[n].related :: m in lib
  }

  lemma {:induction false} NoRaises(steps: seq<Step>, nets: seq<Net>, k: nat, c: Id, n: Name)
    requires IsRun(steps, nets) && k <= |steps| && c in nets[0].par
    requires nets[0].par[c] != 0 || Clean(nets[0].lib, n)
    ensures RunRaises(steps, nets, k, c, n) == 0
  {
    hide Enabled, Next, Initial, Extra, Shape, Inv, StepRaises, Clean;
    if k > 0 {
      NoRaises(steps, nets, k - 1, c, n);
      RunExtra(steps, nets, k - 1, c, n);
      RunKeeps(steps, nets, k - 1);
      Fixed(nets[k-1], nets[0], c);
      OneStep(steps, nets, k - 1, c, n);
      StepNoRaises(nets[k-1], steps[k-1], c, n);
    }
  }

  lemma Fixed(a: Net, b: Net, c: Id)
    requires Shape(a) && a.par == b.par && c in b.par
    ensures c in a.par && a.par[c] == b.par[c] && c in a.links
  {
  }

  lemma StepNoRaises(net: Net, step: Step, c: Id, n: Name)
    requires Shape(net) && Enabled(net, step) && c in net.par
    requires net.par[c] != 0 || Clean(net.lib, n)
    ensures StepRaises(net, step, c, n) == 0
  {
    if step.Preload? {
      RootAbove(net.par, step.target);
      if Toward(net.par, 0, step.target) == c {
        PathNoRaises(net.links[c], net.lib, c == step.target, step.target, step.path, n);
      }
    }
  }

  lemma {:induction false} PathNoRaises(l: Link, lib: map<Name, Tup>, direct: bool, target: Id, path: seq<Name>, n: Name)
    requires Clean(lib, n)
    ensures PathRaises(l, lib, direct, target, path, n) == 0
    decreases |path|
  {
    if path != [] {
      var l1 := Respond(l, lib, path[0]);
      var l2 := if direct then l1 else l1.(down := l1.down + [Fwd(target, path[0])]);
      PathNoRaises(l2, lib, direct, target, path[1..], n);
    }
  }

  /** In every run a forwarder puts each name on a stream at most once; so does the master, for names
      it can build along with everything related to them. */
  lemma LoadedOnce(steps: seq<Step>, nets: seq<Net>, k: nat, c: Id, n: Name)
    requires IsRun(steps, nets) && k <= |steps| && c in nets[0].par
    requires nets[0].par[c] != 0 || Clean(nets[0].lib, n)
    ensures c in nets[k].links && Times(nets[k].links[c], n) <= 1
    ensures Times(nets[k].links[c], n) == 1 <==> n in nets[k].links[c].sent && n !in Preset
  {
    NoRaises(steps, nets, k, c, n);
    RunExtra(steps, nets, k, c, n);
  }
}
