/** Module loading over a whole tree of contexts: requests travel up and modules down, link by link,
    each link first in, first out. */
module ModuleNet {
  import opened Prelude
  import opened Tree
  import opened Modules

  /** `par` is the tree and `lib` what the master can build, both fixed.  A context other than the
      master has an importer, its parent's link to it, and the GET_MODULEs on their way up. */
  datatype Net = Net(par: map<Id, Id>, lib: map<Name, Tup>,
                     imps: map<Id, Importer>, links: map<Id, Link>, up: map<Id, seq<Name>>)

  datatype Step =
    | Import(i: Id, n: Name)                      // a thread of a context needs a module
    | Get(c: Id)                                  // the parent handles a GET_MODULE
    | Arrive(c: Id)                               // the child handles a message from its parent
    | Preload(target: Id, path: seq<Name>)        // the master's _forward_one_module

  ghost predicate Enabled(net: Net, step: Step) {
    match step
    case Import(i, n) => i in net.par && n !in Preset
    case Get(c) => c in net.up && net.up[c] != []
    case Arrive(c) => c in net.links && net.links[c].down != []
    case Preload(t, path) => t in net.par
  }

  /** The callbacks of a context, run in order: those made for a child send it the module. */
  function RunAll(links: map<Id, Link>, imp: Importer, n: Name, run: seq<nat>): (r: map<Id, Link>)
    requires n in imp.cache
    ensures r.Keys == links.Keys
    decreases |run|
  {
    if run == [] then links
    else RunAll(RunOne(links, imp, n, run[0]), imp, n, run[1..])
  }

  function RunOne(links: map<Id, Link>, imp: Importer, n: Name, t: nat): (r: map<Id, Link>)
    requires n in imp.cache
    ensures r.Keys == links.Keys
  {
    if t < |imp.issued| && imp.issued[t].child.Some? && imp.issued[t].child.value in links then
      var d := imp.issued[t].child.value;
      links[d := SendAll(links[d], imp.cache, n)]
    else links
  }

  /** _request_module in context `i`, with its callback if the module is there already. */
  ghost function Ask(net: Net, i: Id, r: Request): (net': Net)
    requires Shape(net) && i in net.par
    ensures Shape(net') && net'.par == net.par && net'.lib == net.lib
  {
    var imp, imp' := net.imps[i], OnRequest(net.imps[i], r);
    net.(imps := net.imps[i := imp'],
         up := if |imp'.asked| > |imp.asked| then net.up[i := net.up[i] + [r.name]] else net.up,
         links := if r.name in imp.cache then RunAll(net.links, imp', r.name, [|imp.issued|]) else net.links)
  }

  ghost function GetArrives(net: Net, c: Id): (net': Net)
    requires Enabled(net, Get(c)) && Shape(net)
    ensures Shape(net') && net'.par == net.par && net'.lib == net.lib
  {
    var n := net.up[c][0];
    var net1 := net.(up := net.up[c := net.up[c][1..]]);
    if net.par[c] == 0 then net1.(links := net.links[c := Respond(net.links[c], net.lib, n)])
    else Ask(net1, net.par[c], Request(n, Some(c)))
  }

  function Tail(l: Link): Link
    requires l.down != []
  {
    l.(down := l.down[1..],
       got := if l.down[0].Load? then l.got + multiset{l.down[0].tup.name} else l.got)
  }

  ghost function LoadArrives(net: Net, c: Id, tup: Tup): (net': Net)
    requires Enabled(net, Arrive(c)) && Shape(net)
    ensures Shape(net') && net'.par == net.par && net'.lib == net.lib
  {
    var imp' := OnLoad(net.imps[c], tup);
    net.(imps := net.imps[c := imp'],
         links := RunAll(net.links[c := Tail(net.links[c])], imp', tup.name, Popped(net.imps[c], tup.name)))
  }

  /** _on_forward_module in context `c`; looking up a module that is not cached raises. */
  ghost function FwdArrives(net: Net, c: Id, target: Id, n: Name): (net': Net)
    requires Enabled(net, Arrive(c)) && Shape(net)
    ensures Shape(net') && net'.par == net.par && net'.lib == net.lib
  {
    var net1 := net.(links := net.links[c := Tail(net.links[c])]);
    if !Below(net.par, c, target) || target == c then net1
    else
      var d := Toward(net.par, c, target);
      if n in net.links[d].sent || n !in net.imps[c].cache then net1
      else
        var l := SendAll(net.links[d], net.imps[c].cache, n);
        net1.(links := net1.links[d := if d == target then l else l.(down := l.down + [Fwd(target, n)])])
  }

  ghost function Preloads(net: Net, t: Id, path: seq<Name>): (net': Net)
    requires Enabled(net, Preload(t, path)) && Shape(net)
    ensures Shape(net') && net'.par == net.par && net'.lib == net.lib
  {
    RootAbove(net.par, t);
    var d := Toward(net.par, 0, t);
    net.(links := net.links[d := Preloaded(net.links[d], net.lib, d == t, t, path)])
  }

  ghost function Next(net: Net, step: Step): (net': Net)
    requires Enabled(net, step) && Shape(net)
    ensures Shape(net') && net'.par == net.par && net'.lib == net.lib
  {
    match step
    case Import(i, n) => Ask(net, i, Request(n, None))
    case Get(c) => GetArrives(net, c)
    case Arrive(c) =>
      (match net.links[c].down[0]
       case Load(tup) => LoadArrives(net, c, tup)
       case Fwd(t, n) => FwdArrives(net, c, t, n))
    case Preload(t, path) => Preloads(net, t, path)
  }

  ghost predicate Shape(net: Net) {
    && 0 !in net.par && IsTree(net.par)
    && (forall c {:trigger net.par[c]} | c in net.par :: net.par[c] == 0 || net.par[c] in net.par)
    && net.imps.Keys == net.par.Keys && net.links.Keys == net.par.Keys && net.up.Keys == net.par.Keys
    && LibOk(net.lib)
  }

  ghost predicate Initial(net: Net) {
    && Shape(net)
    && forall c {:trigger net.par[c]} | c in net.par ::
         && net.imps[c].cache.Keys <= Preset && CacheOk(net.lib, net.imps[c].cache)
         && net.imps[c] == Importer(net.imps[c].cache, map[], [], [], [])
         && net.links[c] == Link(Preset, [], multiset{}) && net.up[c] == []
  }

  lemma {:induction false} RootAbove(par: map<Id, Id>, x: Id)
    requires 0 !in par && IsTree(par) && (x in par || x == 0)
    requires forall c {:trigger par[c]} | c in par :: par[c] == 0 || par[c] in par
    ensures Below(par, 0, x)
    decreases x
  {
    if x != 0 { RootAbove(par, par[x]); }
  }

  // ---- The invariant ------------------------------------------------------------------------------

  /** The name is preset, cached at the child, or under way to it. */
  predicate Known(down: seq<Msg>, cache: map<Name, Tup>, n: Name) {
    n in Preset || n in cache || n in Loads(down)
  }

  /** Whatever counts as sent is there or under way, and nobody is told to forward a module that is
      not there or ahead in the queue. */
  ghost predicate LinkOk(par: map<Id, Id>, lib: map<Name, Tup>, c: Id, l: Link, cache: map<Name, Tup>) {
    && Preset <= l.sent
    && (forall n | n in l.sent :: Known(l.down, cache, n))
    && (forall i {:trigger l.down[i]} | 0 <= i < |l.down| && l.down[i].Load? :: Genuine(lib, l.down[i].tup))
    && (forall i {:trigger l.down[i]} | 0 <= i < |l.down| && l.down[i].Fwd? ::
          && Known(l.down[..i], cache, l.down[i].name)
          && l.down[i].target != c && Below(par, c, l.down[i].target))
  }

  /** A callback for child `c` is waiting for `n`. */
  ghost predicate Owes(imp: Importer, n: Name, c: Id) {
    exists t :: 0 <= t < |imp.issued| && imp.issued[t] == Request(n, Some(c)) && Waiting(imp, t)
  }

  /** Every module somebody waits for in `c` has been asked for and not been forgotten. */
  ghost predicate Answered(net: Net, c: Id, n: Name)
    requires Shape(net) && c in net.par
  {
    || n in net.up[c]
    || (net.par[c] != 0 && Owes(net.imps[net.par[c]], n, c))
    || n in Loads(net.links[c].down)
  }

  /** Requests made for children, requests on their way up, and the names waited for. */
  ghost predicate ImpOk(par: map<Id, Id>, i: Id, imp: Importer, up: seq<Name>) {
    && Orderly(imp)
    && (forall t {:trigger imp.issued[t]} | 0 <= t < |imp.issued| && imp.issued[t].child.Some? ::
          imp.issued[t].child.value in par && par[imp.issued[t].child.value] == i)
    && (forall n | n in imp.callbacks :: n !in Preset)
    && |up| <= |imp.asked| && up == imp.asked[|imp.asked| - |up|..]
    && (forall n | n in imp.asked :: n !in Preset)
  }

  ghost predicate Static(net: Net, c: Id)
    requires Shape(net) && c in net.par
  {
    && ImpOk(net.par, c, net.imps[c], net.up[c])
    && CacheOk(net.lib, net.imps[c].cache)
    && LinkOk(net.par, net.lib, c, net.links[c], net.imps[c].cache)
  }

  ghost predicate NodeOk(net: Net, c: Id)
    requires Shape(net) && c in net.par
  {
    && Static(net, c)
    && forall n {:trigger Answered(net, c, n)} | n in net.imps[c].callbacks :: Answered(net, c, n)
  }

  ghost predicate Inv(net: Net) {
    Shape(net) && forall c {:trigger NodeOk(net, c)} | c in net.par :: NodeOk(net, c)
  }
}
