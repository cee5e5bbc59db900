/** What the invariant says about whole runs of the module network. */
module ModuleRuns {
  import opened Prelude
  import opened Tree
  import opened Modules
  import opened ModuleNet
  import opened ModuleSteps

  // ---- Runs -----------------------------------------------------------------------------------------

  ghost predicate IsRun(steps: seq<Step>, nets: seq<Net>) {
    && |nets| == |steps| + 1 && Initial(nets[0])
    && forall i {:trigger steps[i]} | 0 <= i < |steps| ::
         Shape(nets[i]) && Enabled(nets[i], steps[i]) && nets[i+1] == Next(nets[i], steps[i])
  }

  lemma InitialInv(net: Net)
    requires Initial(net)
    ensures Inv(net)
  {
    forall c | c in net.par ensures NodeOk(net, c) { InitialNode(net, c); }
    hide NodeOk, Initial;
  }

  lemma InitialNode(net: Net, c: Id)
    requires Initial(net) && c in net.par
    ensures NodeOk(net, c)
  {
    assert net.par[c] == net.par[c];
    var imp, l := net.imps[c], net.links[c];
    assert Orderly(imp) && l == Link(Preset, [], multiset{}) && net.up[c] == [];
    assert ImpOk(net.par, c, imp, []) && LinkOk(net.par, net.lib, c, l, imp.cache);
    hide ImpOk, LinkOk, Orderly;
  }

  lemma {:induction false} RunKeeps(steps: seq<Step>, nets: seq<Net>, k: nat)
    requires IsRun(steps, nets) && k <= |steps|
    ensures Inv(nets[k])
  {
    if k == 0 {
      InitialInv(nets[0]);
    } else {
      RunKeeps(steps, nets, k - 1);
      hide Inv, Next, Enabled;
      assert Enabled(nets[k-1], steps[k-1]);
      StepKeeps(nets[k-1], steps[k-1]);
    }
  }

  // ---- No stranded import -----------------------------------------------------------------------

  predicate Delivery(step: Step) { step.Get? || step.Arrive? }

  /** While anybody waits for a module, something is under way that some context will handle: the
      request, the module, or the same for a context further up that it asked. */
  lemma {:induction false} NoStrandedImport(net: Net, c: Id, n: Name)
    requires Inv(net) && c in net.par && n in net.imps[c].callbacks
    ensures exists d :: Below(net.par, d, c) && d in net.par && (Enabled(net, Get(d)) || Enabled(net, Arrive(d)))
    decreases c
  {
    assert NodeOk(net, c) && Below(net.par, c, c);
    assert Answered(net, c, n);
    if n in net.up[c] {
      assert Enabled(net, Get(c));
    } else if n in Loads(net.links[c].down) {
      assert Enabled(net, Arrive(c));
    } else {
      var p := net.par[c];
      assert Owes(net.imps[p], n, c);
      NoStrandedImport(net, p, n);
      var d :| Below(net.par, d, p) && d in net.par && (Enabled(net, Get(d)) || Enabled(net, Arrive(d)));
      assert Below(net.par, d, c);
    }
  }

  /** In every run: once all messages have been handled, every callback ever registered has been
      run, exactly once and with its module cached. */
  lemma QuietMeansDone(steps: seq<Step>, nets: seq<Net>, k: nat, c: Id)
    requires IsRun(steps, nets) && k <= |steps| && Shape(nets[k]) && c in nets[k].par
    requires forall d :: !Enabled(nets[k], Get(d)) && !Enabled(nets[k], Arrive(d))
    ensures var imp := nets[k].imps[c];
            && imp.callbacks == map[] && NoRepeats(imp.ran)
            && (forall t | 0 <= t < |imp.issued| :: t in imp.ran && imp.issued[t].name in imp.cache)
  {
    RunKeeps(steps, nets, k);
    var imp := nets[k].imps[c];
    assert NodeOk(nets[k], c);
    if n :| n in imp.callbacks {
      NoStrandedImport(nets[k], c, n);
      assert false;
    }
    forall t | 0 <= t < |imp.issued|
      ensures t in imp.ran
    {
      assert t in imp.ran || Waiting(imp, t);
    }
  }

  /** In every run and at every moment: a context asks its parent for a name at most once, no
      callback runs twice or before its module is cached, and what is cached is what the master
      builds, or a negative response. */
  lemma AskedOnce(steps: seq<Step>, nets: seq<Net>, k: nat, c: Id)
    requires IsRun(steps, nets) && k <= |steps| && Shape(nets[k]) && c in nets[k].par
    ensures var imp := nets[k].imps[c];
            && NoRepeats(imp.asked) && NoRepeats(imp.ran)
            && (forall t | t in imp.ran :: t < |imp.issued| && imp.issued[t].name in imp.cache && !Waiting(imp, t))
            && (forall n | n in nets[k].up[c] :: n in imp.asked)
            && CacheOk(nets[k].lib, imp.cache)
  {
    RunKeeps(steps, nets, k);
    assert NodeOk(nets[k], c);
    hide LinkOk, Answered;
  }

  /** A FORWARD_MODULE never arrives before the module it is about. */
  lemma ForwardedIsCached(steps: seq<Step>, nets: seq<Net>, k: nat, c: Id, t: Id, n: Name)
    requires IsRun(steps, nets) && k <= |steps| && Shape(nets[k]) && Enabled(nets[k], Arrive(c))
    requires nets[k].links[c].down[0] == Fwd(t, n)
    ensures t != c && Below(nets[k].par, c, t) && (n in Preset || n in nets[k].imps[c].cache)
  {
    RunKeeps(steps, nets, k);
    assert NodeOk(nets[k], c);
    ForwarderHasModule(nets[k], c, t, n);
  }
}
