/** The objects behind the module network: the importer, and the sending end of a stream to a child
    as ModuleForwarder and ModuleResponder use it. */
module ImporterCode {
  import opened Prelude
  import opened Modules

  class ContextImporter {
    var cache: map<Name, Tup>
    /** Presence of an entry means that a GET_MODULE is in flight. */
    var callbacks: map<Name, seq<nat>>
    var issued: seq<Request>
    var ran: seq<nat>
    var asked: seq<Name>

    function View(): Importer
      reads this
    {
      Importer(cache, callbacks, issued, ran, asked)
    }

    constructor (preset: map<Name, Tup>)
      ensures View() == Importer(preset, map[], [], [], [])
    {
      cache, callbacks, issued, ran, asked := preset, map[], [], [], [];
    }

    method RequestModule(r: Request)
      modifies this
      ensures View() == OnRequest(old(View()), r)
    {
      var callback := |issued|;
      issued := issued + [r];
      var present := r.name in cache;
      if !present {
        if r.name in callbacks {
          callbacks := callbacks[r.name := callbacks[r.name] + [callback]];
        } else {
          callbacks := callbacks[r.name := [callback]];
          asked := asked + [r.name];
        }
      }
      if present { ran := ran + [callback]; }
    }

    method OnLoadModule(tup: Tup)
      modifies this
      ensures View() == OnLoad(old(View()), tup)
    {
      cache := cache[tup.name := tup];
      var funcs: seq<nat> := [];
      if tup.name in callbacks {
        funcs := callbacks[tup.name];
        callbacks := callbacks - {tup.name};
      }
      for i := 0 to |funcs|
        invariant cache == old(cache)[tup.name := tup] && callbacks == old(callbacks) - {tup.name}
        invariant issued == old(issued) && asked == old(asked) && ran == old(ran) + funcs[..i]
      {
        ran := ran + [funcs[i]];
      }
    }
  }

  class ChildStream {
    var sentModules: set<Name>
    var down: seq<Msg>
    ghost var got: multiset<Name>

    ghost function View(): Link
      reads this
    {
      Link(sentModules, down, got)
    }

    constructor ()
      ensures View() == Link(Preset, [], multiset{})
    {
      sentModules, down, got := Preset, [], multiset{};
    }

    method SendOneModule(tup: Tup)
      modifies this
      ensures View() == SendOne(old(View()), tup)
    {
      if tup.name !in sentModules {
        sentModules := sentModules + {tup.name};
        down := down + [Load(tup)];
      }
    }

    /** ModuleForwarder: from the importer's cache. */
    method ForwardModuleAndRelated(cache: map<Name, Tup>, n: Name)
      requires n in cache
      modifies this
      ensures View() == SendAll(old(View()), cache, n)
    {
      var related := cache[n].related;
      var i := 0;
      while i < |related|
        invariant i <= |related|
        invariant SendRelated(View(), cache, related[i..]) == SendRelated(old(View()), cache, related)
      {
        if related[i] in cache { SendOneModule(cache[related[i]]); }
        assert related[i..][1..] == related[i + 1..];
        i := i + 1;
      }
      SendOneModule(cache[n]);
    }

    /** ModuleResponder: a module that cannot be built raises, which ends in a negative response. */
    method SendModuleAndRelated(lib: map<Name, Tup>, n: Name)
      modifies this
      ensures View() == Respond(old(View()), lib, n)
    {
      if n in sentModules { return; }
      var raised := n !in lib;
      if !raised {
        var related := lib[n].related;
        var i := 0;
        while i < |related| && !raised
          invariant i <= |related|
          invariant if raised then RespondRelated(old(View()), lib, n, related) == (View(), false)
                    else RespondRelated(View(), lib, n, related[i..]) == RespondRelated(old(View()), lib, n, related)
          decreases |related| - i, !raised
        {
          var m := related[i];
          assert related[i..][1..] == related[i + 1..];
          if Top(m) != n && Top(m) !in sentModules {
          } else if m !in sentModules {
            if m in lib { SendOneModule(lib[m]); } else { raised := true; }
          }
          i := i + 1;
        }
      }
      if !raised {
        SendOneModule(lib[n]);
      } else {
        down := down + [Load(Negative(n))];
      }
    }

    /** ModuleResponder._forward_one_module, with the packages of the module outermost first. */
    method ForwardOneModule(lib: map<Name, Tup>, remoteId: Id, target: Id, path: seq<Name>)
      modifies this
      ensures View() == Preloaded(old(View()), lib, remoteId == target, target, path)
    {
      var i := 0;
      while i < |path|
        invariant i <= |path|
        invariant Preloaded(View(), lib, remoteId == target, target, path[i..])
               == Preloaded(old(View()), lib, remoteId == target, target, path)
      {
        SendModuleAndRelated(lib, path[i]);
        if remoteId != target { down := down + [Fwd(target, path[i])]; }
        assert path[i..][1..] == path[i + 1..];
        i := i + 1;
      }
    }
  }
}
