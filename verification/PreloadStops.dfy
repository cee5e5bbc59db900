/** A run in which a module that the master forwards does not arrive, since a context on the way imported
    it earlier; and how it arrives after all along with another. */
module PreloadStops {
  import opened Prelude
  import opened Tree
  import opened Modules
  import opened ModuleNet
  import opened ModuleRuns
  import opened Preloading
  import opened PreloadTurns
  import opened PreloadPaths
  import opened PreloadArrives

  /** Once the messages of a run have been handled, nobody waits any more. */
  lemma QuietIsStill(net: Net)
    requires Inv(net) && forall d :: !Enabled(net, Get(d)) && !Enabled(net, Arrive(d))
    ensures Still(net)
  {
    forall c | c in net.par ensures net.links[c].down == [] && net.up[c] == [] && net.imps[c].callbacks == map[] {
      assert !Enabled(net, Get(c)) && !Enabled(net, Arrive(c));
      if n :| n in net.imps[c].callbacks {
        NoStrandedImport(net, c, n);
        assert false;
      }
    }
  }

  // ---- The run --------------------------------------------------------------------------------------

  const Wanted: Name := "p"
  const Built: Tup := Tup(Wanted, [], true)

  const Inner: Name := "p.m"
  const Along: Tup := Tup(Inner, [Wanted], true)

  const Lib: map<Name, Tup> := map[Wanted := Built, Inner := Along]

  const Fresh: Importer := Importer(map[], map[], [], [], [])
  function Asked(child: Option<Id>): Importer {
    Importer(map[], map[Wanted := [0]], [Request(Wanted, child)], [], [Wanted])
  }
  function Loaded(child: Option<Id>): Importer {
    Importer(map[Wanted := Built], map[], [Request(Wanted, child)], [0], [Wanted])
  }

  const Unused: Link := Link(Preset, [], multiset{})
  const Carrying: Link := Link(Preset + {Wanted}, [Load(Built)], multiset{})
  const Carried: Link := Link(Preset + {Wanted}, [], multiset{Wanted})

  function Three<V>(a: V, b: V, c: V): map<Id, V> { map[1 := a, 2 := b, 3 := c] }

  /** A chain: context 1 is below the master, 2 below 1 and 3 below 2. */
  function Chain(imps: map<Id, Importer>, links: map<Id, Link>, up: map<Id, seq<Name>>): Net {
    Net(Three(0, 1, 2), Lib, imps, links, up)
  }

  const NoneUp: map<Id, seq<Name>> := Three([], [], [])

  const Start: Net := Chain(Three(Fresh, Fresh, Fresh), Three(Unused, Unused, Unused), NoneUp)
  const Wants: Net := Chain(Three(Fresh, Asked(None), Fresh), Three(Unused, Unused, Unused), Three([], [Wanted], []))
  const Relays: Net :=
    Chain(Three(Asked(Some(2)), Asked(None), Fresh), Three(Unused, Unused, Unused), Three([Wanted], [], []))
  const Answers: Net := Chain(Three(Asked(Some(2)), Asked(None), Fresh), Three(Carrying, Unused, Unused), NoneUp)
  const Halfway: Net := Chain(Three(Loaded(Some(2)), Asked(None), Fresh), Three(Carried, Carrying, Unused), NoneUp)
  const Imported: Net := Chain(Three(Loaded(Some(2)), Loaded(None), Fresh), Three(Carried, Carried, Unused), NoneUp)

  const Steps: seq<Step> := [Import(2, Wanted), Get(2), Get(1), Arrive(1), Arrive(2)]
  const Nets: seq<Net> := [Start, Wants, Relays, Answers, Halfway, Imported]

  lemma ChainShape(imps: map<Id, Importer>, links: map<Id, Link>, up: map<Id, seq<Name>>)
    requires imps.Keys == links.Keys == up.Keys == {1, 2, 3}
    ensures Shape(Chain(imps, links, up))
  {
    var par := Three(0, 1, 2);
    assert 0 !in par && IsTree(par) && forall c {:trigger par[c]} | c in par :: par[c] == 0 || par[c] in par;
    assert LibOk(Lib) by { Different(); }
    Update(0, 1, 2, 0);
    hide Three, IsTree, LibOk;
  }

  lemma Different()
    ensures Wanted != Inner
  {
    assert |Wanted| == 1 && |Inner| == 3;
  }

  lemma NotPreset()
    ensures Wanted !in Preset && Inner !in Preset
  {
    assert |Wanted| == 1 && |Inner| == 3 && |"mitogen"| == 7 && |"mitogen.core"| == 12;
  }

  lemma Update<V>(a: V, b: V, c: V, x: V)
    ensures Three(a, b, c)[1 := x] == Three(x, b, c) && Three(a, b, c)[2 := x] == Three(a, x, c)
    ensures Three(a, b, c)[3 := x] == Three(a, b, x)
    ensures Three(a, b, c).Keys == {1, 2, 3} && Three(a, b, c)[1] == a && Three(a, b, c)[2] == b && Three(a, b, c)[3] == c
  {
  }

  lemma Asks(child: Option<Id>)
    ensures OnRequest(Fresh, Request(Wanted, child)) == Asked(child)
  {
  }

  lemma LoadsIt(child: Option<Id>)
    ensures OnLoad(Asked(child), Built) == Loaded(child) && Popped(Asked(child), Wanted) == [0]
  {
    assert map[][Wanted := Built] == map[Wanted := Built] && map[Wanted := [0]] - {Wanted} == map[];
  }

  lemma Sends()
    ensures SendAll(Unused, map[Wanted := Built], Wanted) == Carrying == Respond(Unused, Lib, Wanted) && Tail(Carrying) == Carried
  {
    NotPreset();
    assert SendOne(Unused, Built) == Carrying;
  }

  lemma Runs(links: map<Id, Link>)
    requires 2 in links && links[2] == Unused
    ensures RunAll(links, Loaded(None), Wanted, [0]) == links
    ensures RunAll(links, Loaded(Some(2)), Wanted, [0]) == links[2 := Carrying]
  {
    Sends();
    hide SendAll;
    assert [0][1..] == [];
    assert RunOne(links, Loaded(Some(2)), Wanted, 0) == links[2 := Carrying];
  }

  lemma Importing()
    ensures Enabled(Start, Import(2, Wanted)) && Shape(Start) && Wants == Next(Start, Import(2, Wanted))
  {
    NotPreset();
    ChainShape(Three(Fresh, Fresh, Fresh), Three(Unused, Unused, Unused), NoneUp);
    Asks(None);
    Update(0, 1, 2, 0);
    Update(Fresh, Fresh, Fresh, Asked(None));
    Update([], [], [], [Wanted]);
    assert [] + [Wanted] == [Wanted];
    hide Three, OnRequest, Shape;
    assert Wants == Ask(Start, 2, Request(Wanted, None));
  }

  lemma Relaying()
    ensures Enabled(Wants, Get(2)) && Shape(Wants) && Relays == Next(Wants, Get(2))
  {
    ChainShape(Three(Fresh, Asked(None), Fresh), Three(Unused, Unused, Unused), Three([], [Wanted], []));
    Asks(Some(2));
    Update(0, 1, 2, 0);
    Update(Fresh, Asked(None), Fresh, Asked(Some(2)));
    Update([], [Wanted], [], []);
    Update([], [], [], [Wanted]);
    assert [Wanted][1..] == [] && [] + [Wanted] == [Wanted];
    hide Three, OnRequest, Shape;
    assert Relays == GetArrives(Wants, 2);
  }

  lemma Responding()
    ensures Enabled(Relays, Get(1)) && Shape(Relays) && Answers == Next(Relays, Get(1))
  {
    ChainShape(Three(Asked(Some(2)), Asked(None), Fresh), Three(Unused, Unused, Unused), Three([Wanted], [], []));
    Sends();
    Update(0, 1, 2, 0);
    Update(Unused, Unused, Unused, Carrying);
    Update([Wanted], [], [], []);
    assert [Wanted][1..] == [];
    hide Three, Respond, Shape;
    assert Answers == GetArrives(Relays, 1);
  }

  lemma Answering()
    ensures Enabled(Answers, Arrive(1)) && Shape(Answers) && Halfway == Next(Answers, Arrive(1))
  {
    ChainShape(Three(Asked(Some(2)), Asked(None), Fresh), Three(Carrying, Unused, Unused), NoneUp);
    Sends();
    LoadsIt(Some(2));
    Update(0, 1, 2, 0);
    Update(Carrying, Unused, Unused, Carried);
    Update(Carried, Unused, Unused, Carrying);
    Update(Asked(Some(2)), Asked(None), Fresh, Loaded(Some(2)));
    Runs(Three(Carried, Unused, Unused));
    hide Three, RunAll, Tail, OnLoad, Popped, Shape;
    assert Halfway == LoadArrives(Answers, 1, Built);
  }

  lemma Arriving()
    ensures Enabled(Halfway, Arrive(2)) && Shape(Halfway) && Imported == Next(Halfway, Arrive(2))
  {
    ChainShape(Three(Loaded(Some(2)), Asked(None), Fresh), Three(Carried, Carrying, Unused), NoneUp);
    Sends();
    LoadsIt(None);
    Update(0, 1, 2, 0);
    Update(Carried, Carrying, Unused, Carried);
    Update(Loaded(Some(2)), Asked(None), Fresh, Loaded(None));
    assert RunAll(Three(Carried, Carried, Unused), Loaded(None), Wanted, [0]) == Three(Carried, Carried, Unused) by {
      assert [0][1..] == [];
    }
    hide Three, RunAll, Tail, OnLoad, Popped, Shape;
    assert Imported == LoadArrives(Halfway, 2, Built);
  }

  lemma IsARun()
    ensures IsRun(Steps, Nets)
  {
    Importing();
    Relaying();
    Responding();
    Answering();
    Arriving();
    StartIsInitial();
    hide Next, Shape, Enabled, Initial;
  }

  lemma StartIsInitial()
    ensures Initial(Start)
  {
    ChainShape(Three(Fresh, Fresh, Fresh), Three(Unused, Unused, Unused), NoneUp);
  }

  lemma ImportedIsStill()
    ensures Shape(Imported) && Still(Imported) && 3 in Imported.par && !Has(Imported, 3, Wanted) && Blocked(Imported, 3, Wanted)
  {
    NotPreset();
    ChainShape(Three(Loaded(Some(2)), Loaded(None), Fresh), Three(Carried, Carried, Unused), NoneUp);
    assert Between(Imported.par, 2, 3) && Wanted in Imported.links[2].sent;
  }

  /** Context 2 has imported the module; the master then forwards it to context 3.  However the messages
      are delivered, context 3 does not have it when nothing is under way any more. */
  lemma StopsShort() returns (end: Net)
    ensures IsRun(Steps, Nets)
    ensures EndsIn(Imported, 3, [Wanted], end)
    ensures forall other | EndsIn(Imported, 3, [Wanted], other) :: !Has(other, 3, Wanted)
  {
    IsARun();
    RunKeeps(Steps, Nets, 5);
    ImportedIsStill();
    hide IsRun, Inv, IsTree, LibOk, Has, Blocked;
    end := EndExists(Imported, 3, [Wanted]);
    forall other | EndsIn(Imported, 3, [Wanted], other) ensures !Has(other, 3, Wanted) {
      var cs :| Forwards(Imported, 3, [Wanted], cs, other);
      ForwardedIff(Imported, cs, other, 3, Wanted);
    }
  }

  // ---- It comes along with another ------------------------------------------------------------------

  /** Now `p.m`, to which `p` is related, is forwarded behind `p`.  Context 2 does not pass on the first,
      but it sends both when it passes on the second. */
  const Both: set<Name> := Preset + {Wanted} + {Inner}
  const Queue1: Link := Link(Both, [Fwd(3, Wanted), Load(Along), Fwd(3, Inner)], multiset{Wanted})
  const Queue2: Link := Link(Both, [Load(Along), Fwd(3, Inner)], multiset{Wanted})
  const Queue3: Link := Link(Both, [Fwd(3, Inner)], multiset{Wanted, Inner})
  const Queue4: Link := Link(Both, [], multiset{Wanted, Inner})
  const Last1: Link := Link(Both, [Load(Built), Load(Along)], multiset{})
  const Last2: Link := Link(Both, [Load(Along)], multiset{Wanted})

  function Holds(child: Option<Id>): Importer { Loaded(child).(cache := Lib) }
  const Receives: Importer := Fresh.(cache := map[Wanted := Built])

  const Sent: Net := Chain(Three(Loaded(Some(2)), Loaded(None), Fresh), Three(Queue1, Carried, Unused), NoneUp)
  const Stopped: Net := Chain(Three(Loaded(Some(2)), Loaded(None), Fresh), Three(Queue2, Carried, Unused), NoneUp)
  const At1: Net := Chain(Three(Holds(Some(2)), Loaded(None), Fresh), Three(Queue3, Carried, Unused), NoneUp)
  const From1: Net := Chain(Three(Holds(Some(2)), Loaded(None), Fresh), Three(Queue4, Queue2, Unused), NoneUp)
  const At2: Net := Chain(Three(Holds(Some(2)), Holds(None), Fresh), Three(Queue4, Queue3, Unused), NoneUp)
  const From2: Net := Chain(Three(Holds(Some(2)), Holds(None), Fresh), Three(Queue4, Queue4, Last1), NoneUp)
  const At3: Net := Chain(Three(Holds(Some(2)), Holds(None), Receives), Three(Queue4, Queue4, Last2), NoneUp)

  lemma NoRequests()
    ensures NoneUp.Keys == {1, 2, 3}
  {
  }

  lemma Ways()
    ensures var par := Three(0, 1, 2);
            && Below(par, 0, 3) && Below(par, 1, 3) && Below(par, 2, 3) && IsTree(par)
            && Toward(par, 0, 3) == 1 && Toward(par, 1, 3) == 2 && Toward(par, 2, 3) == 3
  {
    var par := Three(0, 1, 2);
    assert Below(par, 2, 2) && Below(par, 1, 2) && Below(par, 0, 1) && Below(par, 0, 2);
  }

  lemma Queues()
    ensures Tail(Queue1) == Queue2 && Tail(Queue2) == Queue3 && Tail(Queue3) == Queue4 && Tail(Last1) == Last2
  {
    assert multiset{Wanted} + multiset{Inner} == multiset{Wanted, Inner};
    assert multiset{} + multiset{Wanted} == multiset{Wanted};
  }

  lemma OneSent()
    ensures SendOne(Carried, Along) == Link(Both, [Load(Along)], multiset{Wanted})
  {
    NotPreset();
    Different();
  }

  lemma Sends2()
    ensures Preloaded(Carried, Lib, false, 3, [Wanted, Inner]) == Queue1
  {
    var l := Carried.(down := Carried.down + [Fwd(3, Wanted)]);
    NotPreset();
    Different();
    assert Respond(Carried, Lib, Wanted) == Carried;
    assert RespondRelated(l, Lib, Inner, [Wanted]) == (l, true) by { assert [Wanted][1..] == []; }
    assert Respond(l, Lib, Inner) == SendOne(l, Along);
    assert [Wanted, Inner][1..] == [Inner];
    PreloadedOne(l, Lib, false, 3, Inner);
    hide RespondRelated, Respond;
  }

  lemma Passes()
    ensures SendAll(Carried, Lib, Inner) == Link(Both, [Load(Along)], multiset{Wanted})
    ensures SendAll(Unused, Lib, Inner) == Last1
  {
    NotPreset();
    Different();
    OneSent();
    assert [Wanted][1..] == [];
    assert SendRelated(Carried, Lib, [Wanted]) == Carried && SendRelated(Unused, Lib, [Wanted]) == Carrying;
  }

  lemma Learns(child: Option<Id>)
    ensures OnLoad(Loaded(child), Along) == Holds(child) && Popped(Loaded(child), Inner) == []
    ensures OnLoad(Fresh, Built) == Receives && Popped(Fresh, Wanted) == []
  {
    Different();
    assert map[Wanted := Built][Inner := Along] == Lib && map[][Wanted := Built] == map[Wanted := Built];
    var none: map<Name, seq<nat>> := map[];
    assert none - {Inner} == none && none - {Wanted} == none;
  }

  lemma Preloading1()
    ensures Shape(Imported) && Enabled(Imported, Preload(3, [Wanted, Inner])) && Sent == Next(Imported, Preload(3, [Wanted, Inner]))
  {
    Update(Loaded(Some(2)), Loaded(None), Fresh, Fresh);
    NoRequests();
    ChainShape(Three(Loaded(Some(2)), Loaded(None), Fresh), Three(Carried, Carried, Unused), NoneUp);
    Ways();
    Sends2();
    Update(Carried, Carried, Unused, Queue1);
    Update(0, 1, 2, 0);
    NextPreload(Imported, 3, [Wanted, Inner]);
    hide Three, Next, Preloaded, Shape, Below, IsTree;
  }

  lemma StoppedAt1()
    ensures Shape(Sent) && Enabled(Sent, Arrive(1)) && Stopped == Next(Sent, Arrive(1))
  {
    Update(Loaded(Some(2)), Loaded(None), Fresh, Fresh);
    Update(Queue1, Carried, Unused, Queue2);
    NoRequests();
    Update(0, 1, 2, 0);
    ChainShape(Three(Loaded(Some(2)), Loaded(None), Fresh), Three(Queue1, Carried, Unused), NoneUp);
    Queues();
    Ways();
    hide Three, SendAll, Tail, Shape, Below, IsTree;
  }

  lemma LoadAt1()
    ensures Shape(Stopped) && Enabled(Stopped, Arrive(1)) && At1 == Next(Stopped, Arrive(1))
  {
    Update(Loaded(Some(2)), Loaded(None), Fresh, Holds(Some(2)));
    Update(Queue2, Carried, Unused, Queue3);
    NoRequests();
    Update(0, 1, 2, 0);
    ChainShape(Three(Loaded(Some(2)), Loaded(None), Fresh), Three(Queue2, Carried, Unused), NoneUp);
    Queues();
    Learns(Some(2));
    assert RunAll(Three(Queue3, Carried, Unused), Holds(Some(2)), Inner, []) == Three(Queue3, Carried, Unused);
    hide Three, RunAll, Tail, OnLoad, Popped, Shape;
  }

  /** A FORWARD_MODULE that is passed on. */
  lemma PassesOn(net: Net, c: Id, d: Id, l: Link)
    requires Shape(net) && Enabled(net, Arrive(c)) && net.links[c].down[0] == Fwd(3, Inner)
    requires Below(net.par, c, 3) && c != 3 && d == Toward(net.par, c, 3) && Inner !in net.links[d].sent
    requires Inner in net.imps[c].cache && SendAll(net.links[d], net.imps[c].cache, Inner) == l
    ensures var l' := if d == 3 then l else l.(down := l.down + [Fwd(3, Inner)]);
            Next(net, Arrive(c)) == net.(links := net.links[c := Tail(net.links[c])][d := l'])
  {
    hide SendAll, Tail, IsTree, LibOk, Below;
  }

  lemma PassedAt1()
    ensures Shape(At1) && Enabled(At1, Arrive(1)) && From1 == Next(At1, Arrive(1))
  {
    hide SendAll, Tail, Shape, Next;
    Update(Holds(Some(2)), Loaded(None), Fresh, Fresh);
    Update(Queue3, Carried, Unused, Queue4);
    Update(Queue4, Carried, Unused, Queue2);
    NoRequests();
    Update(0, 1, 2, 0);
    ChainShape(Three(Holds(Some(2)), Loaded(None), Fresh), Three(Queue3, Carried, Unused), NoneUp);
    Queues();
    Ways();
    Passes();
    Different();
    NotPreset();
    hide Three;
    PassesOn(At1, 1, 2, Link(Both, [Load(Along)], multiset{Wanted}));
    assert [Load(Along)] + [Fwd(3, Inner)] == [Load(Along), Fwd(3, Inner)];
  }

  lemma LoadAt2()
    ensures Shape(From1) && Enabled(From1, Arrive(2)) && At2 == Next(From1, Arrive(2))
  {
    Update(Holds(Some(2)), Loaded(None), Fresh, Holds(None));
    Update(Queue4, Queue2, Unused, Queue3);
    NoRequests();
    Update(0, 1, 2, 0);
    ChainShape(Three(Holds(Some(2)), Loaded(None), Fresh), Three(Queue4, Queue2, Unused), NoneUp);
    Queues();
    Learns(None);
    assert RunAll(Three(Queue4, Queue3, Unused), Holds(None), Inner, []) == Three(Queue4, Queue3, Unused);
    hide Three, RunAll, Tail, OnLoad, Popped, Shape;
  }

  lemma PassedAt2()
    ensures Shape(At2) && Enabled(At2, Arrive(2)) && From2 == Next(At2, Arrive(2))
  {
    hide SendAll, Tail, Shape, Next;
    Update(Holds(Some(2)), Holds(None), Fresh, Fresh);
    Update(Queue4, Queue3, Unused, Queue4);
    Update(Queue4, Queue4, Unused, Last1);
    NoRequests();
    Update(0, 1, 2, 0);
    ChainShape(Three(Holds(Some(2)), Holds(None), Fresh), Three(Queue4, Queue3, Unused), NoneUp);
    Queues();
    Ways();
    Passes();
    NotPreset();
    hide Three;
    PassesOn(At2, 2, 3, Last1);
  }

  lemma LoadAt3()
    ensures Shape(From2) && Enabled(From2, Arrive(3)) && At3 == Next(From2, Arrive(3))
  {
    Update(Holds(Some(2)), Holds(None), Fresh, Receives);
    Update(Queue4, Queue4, Last1, Last2);
    NoRequests();
    Update(0, 1, 2, 0);
    ChainShape(Three(Holds(Some(2)), Holds(None), Fresh), Three(Queue4, Queue4, Last1), NoneUp);
    Queues();
    Learns(None);
    assert RunAll(Three(Queue4, Queue4, Last2), Receives, Wanted, []) == Three(Queue4, Queue4, Last2);
    hide Three, RunAll, Tail, OnLoad, Popped, Shape;
  }

  const Order: seq<Id> := [1, 1, 1, 2, 2, 3]

  lemma Before(net: Net, c: Id, cs: seq<Id>, end: Net)
    requires Shape(net) && Enabled(net, Arrive(c)) && Leads(Next(net, Arrive(c)), cs, end)
    ensures Leads(net, [c] + cs, end)
  {
    assert ([c] + cs)[1..] == cs;
    hide Next, Enabled, Shape;
  }

  lemma Nowhere(net: Net)
    requires Shape(net)
    ensures Leads(net, [], net)
  {
    hide Shape;
  }

  lemma FromTwo()
    ensures Leads(From1, [2, 2, 3], At3)
  {
    hide Next, Enabled, Leads, Shape;
    ChainShape(Three(Holds(Some(2)), Holds(None), Receives), Three(Queue4, Queue4, Last2), NoneUp);
    LoadAt3();
    Nowhere(At3);
    Before(From2, 3, [], At3);
    assert [3] + [] == [3];
    PassedAt2();
    Before(At2, 2, [3], At3);
    assert [2] + [3] == [2, 3];
    LoadAt2();
    Before(From1, 2, [2, 3], At3);
    assert [2] + [2, 3] == [2, 2, 3];
  }

  lemma AsFarAsAt3()
    ensures Leads(Sent, Order, At3)
  {
    hide Next, Enabled, Leads, Shape;
    FromTwo();
    PassedAt1();
    Before(At1, 1, [2, 2, 3], At3);
    assert [1] + [2, 2, 3] == [1, 2, 2, 3];
    LoadAt1();
    Before(Stopped, 1, [1, 2, 2, 3], At3);
    assert [1] + [1, 2, 2, 3] == [1, 1, 2, 2, 3];
    StoppedAt1();
    Before(Sent, 1, [1, 1, 2, 2, 3], At3);
    assert [1] + [1, 1, 2, 2, 3] == Order;
  }

  /** `p` is not there after its own turn, but it is once `p.m` has been forwarded behind it. */
  lemma ComesAlong() returns (q: Net, end: Net)
    ensures EndsIn(Imported, 3, [Wanted], q) && !Has(q, 3, Wanted)
    ensures EndsIn(Imported, 3, [Wanted, Inner], end) && Has(end, 3, Wanted)
  {
    q := StopsShort();
    hide IsRun, Inv, IsTree, LibOk, Next, Enabled, Possible, Reached, Still, Idle, Shape;
    IsARun();
    RunKeeps(Steps, Nets, 5);
    ImportedIsStill();
    end := EndExists(Imported, 3, [Wanted, Inner]);
    var cs :| Forwards(Imported, 3, [Wanted, Inner], cs, end);
    AfterPreload(Imported, 3, [Wanted, Inner]);
    Preloading1();
    AsFarAsAt3();
    var more := CatchUp(Sent, Order, cs);
    ReachedAppend(Sent, Order, more);
    ReachedIdle(Sent, Order);
    ReachedHas(At3, more, 3, Wanted);
  }
}
