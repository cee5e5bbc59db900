/** The router's table of message handlers, and its index by the context a reply is expected from. */
module Handles {
  import opened Prelude

  type Handle = nat

  /** An entry of _handle_map; `reg` numbers the registrations. */
  datatype Entry = Entry(reg: nat, persist: bool, respondent: Option<Id>)

  /** Why a function is called: with a message, from `src`, dead or not, and what the policy says of it; or
      with a dead message made up on the spot. */
  datatype Why = Delivered(src: Id, dead: bool, allowed: bool) | RespondentGone | BrokerExit

  /** The history of one registration: how it was made, what its function was called with, and whether it
      was taken out of the table by del_handler or by an overwriting registration. */
  datatype Reg = Reg(persist: bool, respondent: Option<Id>, log: seq<Why>, dropped: bool)

  /** `handles`, `byRespondent` and `nextHandle` are the router's fields. */
  datatype Table = Table(
    handles: map<Handle, Entry>, byRespondent: map<Id, set<Handle>>, nextHandle: nat, regs: seq<Reg>)

  const Empty := Table(map[], map[], 1000, [])

  function Index(t: Table, c: Id): set<Handle> {
    if c in t.byRespondent then t.byRespondent[c] else {}
  }

  /** The handle a registration gets: no handle, or handle 0, means a new one. */
  function Chosen(t: Table, handle: Option<Handle>): Handle {
    if handle.Some? && handle.value != 0 then handle.value else t.nextHandle
  }

  predicate Duplicate(t: Table, handle: Option<Handle>, overwrite: bool) {
    Chosen(t, handle) in t.handles && !overwrite
  }

  function Drop(regs: seq<Reg>, r: nat): seq<Reg> {
    if r < |regs| then regs[r := regs[r].(dropped := true)] else regs
  }

  function Called(regs: seq<Reg>, r: nat, why: Why): seq<Reg> {
    if r < |regs| then regs[r := regs[r].(log := regs[r].log + [why])] else regs
  }

  function Advance(t: Table, handle: Option<Handle>): nat {
    if handle.Some? && handle.value != 0 then t.nextHandle else t.nextHandle + 1
  }

  function Add(t: Table, handle: Option<Handle>, persist: bool, respondent: Option<Id>, overwrite: bool): Table {
    var h := Chosen(t, handle);
    if Duplicate(t, handle, overwrite) then t.(nextHandle := Advance(t, handle))
    else
      var regs1 := if h in t.handles then Drop(t.regs, t.handles[h].reg) else t.regs;
      Table(
        t.handles[h := Entry(|t.regs|, persist, respondent)],
        if respondent.Some? then t.byRespondent[respondent.value := Index(t, respondent.value) + {h}]
        else t.byRespondent,
        Advance(t, handle),
        regs1 + [Reg(persist, respondent, [], false)])
  }

  /** del_handler, as far as the table goes. */
  function Remove(t: Table, h: Handle): Table
    requires h in t.handles
  {
    var c := t.handles[h].respondent;
    t.(handles := t.handles - {h},
       byRespondent := if c.Some? then t.byRespondent[c.value := Index(t, c.value) - {h}] else t.byRespondent)
  }

  function Delete(t: Table, h: Handle): Table
    requires h in t.handles
  {
    Remove(t, h).(regs := Drop(t.regs, t.handles[h].reg))
  }

  datatype Outcome = InvalidHandle | UnexpectedContext | Refused | Invoked(reg: nat)

  /** _invoke, for a message to `h` from context `src`; `allowed` is what the policy says. */
  function Decide(t: Table, h: Handle, src: Id, dead: bool, allowed: bool): Outcome {
    if h !in t.handles then InvalidHandle
    else if t.handles[h].respondent.Some? && !dead && src != t.handles[h].respondent.value then UnexpectedContext
    else if !allowed then Refused
    else Invoked(t.handles[h].reg)
  }

  function Deliver(t: Table, h: Handle, src: Id, dead: bool, allowed: bool): Table {
    var o := Decide(t, h, src, dead, allowed);
    if !o.Invoked? then t
    else
      var t1 := if t.handles[h].persist then t else Remove(t, h);
      t1.(regs := Called(t.regs, o.reg, Delivered(src, dead, allowed)))
  }

  /** All handlers of `hs` are called and removed. */
  function Finish(t: Table, hs: set<Handle>, why: Why): Table {
    t.(handles := t.handles - hs,
       regs := seq(|t.regs|, r requires 0 <= r < |t.regs| =>
         if exists h :: h in hs && h in t.handles && t.handles[h].reg == r
         then t.regs[r].(log := t.regs[r].log + [why]) else t.regs[r]))
  }

  /** _on_respondent_disconnect, which looks every handle of the index up in the table. */
  function Gone(t: Table, c: Id): Table {
    Finish(t, Index(t, c), RespondentGone).(byRespondent := t.byRespondent - {c})
  }

  function Exit(t: Table): Table { Finish(t, t.handles.Keys, BrokerExit) }

  // ---- The two indexes ----------------------------------------------------------------------------

  ghost predicate Agree(t: Table) {
    forall c: Id, h: Handle {:trigger h in Index(t, c)} ::
      h in Index(t, c) <==> h in t.handles && t.handles[h].respondent == Some(c)
  }

  lemma Entries(t: Table, h: Handle, c: Id)
    requires Agree(t) && h in t.handles && t.handles[h].respondent == Some(c)
    ensures h in Index(t, c)
  {
  }

  /** A registration keeps the indexes in agreement if and only if it does not overwrite an entry
      that some other respondent, or none, takes over from a respondent. */
  lemma AddAgrees(t: Table, handle: Option<Handle>, persist: bool, respondent: Option<Id>, overwrite: bool)
    requires Agree(t)
    ensures var h := Chosen(t, handle);
            Agree(Add(t, handle, persist, respondent, overwrite)) <==>
              !(h in t.handles && overwrite && t.handles[h].respondent.Some?
                && t.handles[h].respondent != respondent)
  {
    var h, t' := Chosen(t, handle), Add(t, handle, persist, respondent, overwrite);
    if h in t.handles && overwrite && t.handles[h].respondent.Some? {
      var c := t.handles[h].respondent.value;
      Entries(t, h, c);
      assert h in Index(t', c);
    }
    if !(h in t.handles && overwrite && t.handles[h].respondent.Some? && t.handles[h].respondent != respondent) {
      forall c: Id, k: Handle ensures k in Index(t', c) <==> k in t'.handles && t'.handles[k].respondent == Some(c) {
        assert k in Index(t, c) <==> k in t.handles && t.handles[k].respondent == Some(c);
      }
    }
  }

  lemma RemoveAgrees(t: Table, h: Handle)
    requires Agree(t) && h in t.handles
    ensures Agree(Remove(t, h))
  {
    var t' := Remove(t, h);
    forall c: Id, k: Handle ensures k in Index(t', c) <==> k in t'.handles && t'.handles[k].respondent == Some(c) {
      assert k in Index(t, c) <==> k in t.handles && t.handles[k].respondent == Some(c);
    }
  }

  lemma GoneAgrees(t: Table, c: Id)
    requires Agree(t)
    ensures Agree(Gone(t, c))
    ensures forall h :: h in Gone(t, c).handles <==> h in t.handles && t.handles[h].respondent != Some(c)
  {
    var t' := Gone(t, c);
    forall h ensures h in t'.handles <==> h in t.handles && t.handles[h].respondent != Some(c) {
      assert h in Index(t, c) <==> h in t.handles && t.handles[h].respondent == Some(c);
    }
    forall d: Id, k: Handle ensures k in Index(t', d) <==> k in t'.handles && t'.handles[k].respondent == Some(d) {
      assert k in Index(t, d) <==> k in t.handles && t.handles[k].respondent == Some(d);
    }
  }

  /** The broker's exit empties the table but not the index: they agree afterwards if and only if
      no reply was expected from anybody. */
  lemma ExitAgrees(t: Table)
    requires Agree(t)
    ensures Exit(t).handles == map[]
    ensures Agree(Exit(t)) <==> forall h | h in t.handles :: t.handles[h].respondent == None
  {
    var t' := Exit(t);
    assert forall c :: Index(t', c) == Index(t, c);
    if h :| h in t.handles && t.handles[h].respondent.Some? {
      Entries(t, h, t.handles[h].respondent.value);
      assert h in Index(t', t.handles[h].respondent.value);
    }
  }

  // ---- Each registration's history ------------------------------------------------------------------

  ghost predicate InTable(t: Table, r: nat) {
    exists h :: h in t.handles && t.handles[h].reg == r
  }

  predicate AllDelivered(log: seq<Why>) { forall i | 0 <= i < |log| :: log[i].Delivered? }

  /** A registration in the table has only had messages, a one-shot one none at all.  One that is
      gone without having been dropped has had its last call: for a one-shot registration its only
      one, for a persistent one a dead message. */
  predicate Told(reg: Reg, live: bool) {
    var n := |reg.log|;
    if live || reg.dropped then
      (live ==> !reg.dropped) && AllDelivered(reg.log) && (!reg.persist ==> n == 0)
    else if reg.persist then
      n > 0 && !reg.log[n - 1].Delivered? && AllDelivered(reg.log[..n - 1])
    else n == 1
  }

  ghost predicate Faithful(t: Table) {
    && Numbered(t)
    && forall r {:trigger t.regs[r]} | 0 <= r < |t.regs| :: Told(t.regs[r], InTable(t, r))
  }

  /** The entry is as the registration was made. */
  predicate Registered(reg: Reg, e: Entry) { reg.persist == e.persist && reg.respondent == e.respondent }

  ghost predicate Numbered(t: Table) {
    && (forall h {:trigger t.handles[h]} | h in t.handles ::
          t.handles[h].reg < |t.regs| && Registered(t.regs[t.handles[h].reg], t.handles[h]))
    && (forall h, k {:trigger t.handles[h], t.handles[k]} | h in t.handles && k in t.handles ::
          t.handles[h].reg == t.handles[k].reg ==> h == k)
  }

  lemma AddNumbered(t: Table, handle: Option<Handle>, persist: bool, respondent: Option<Id>, overwrite: bool)
    requires Numbered(t)
    ensures Numbered(Add(t, handle, persist, respondent, overwrite))
  {
  }

  lemma AddFaithful(t: Table, handle: Option<Handle>, persist: bool, respondent: Option<Id>, overwrite: bool)
    requires Faithful(t)
    ensures Faithful(Add(t, handle, persist, respondent, overwrite))
  {
    var h, t' := Chosen(t, handle), Add(t, handle, persist, respondent, overwrite);
    AddNumbered(t, handle, persist, respondent, overwrite);
    if !Duplicate(t, handle, overwrite) {
      assert t'.handles[h].reg == |t.regs|;
      hide Numbered;
      forall r | 0 <= r < |t'.regs| ensures Told(t'.regs[r], InTable(t', r)) {
        if r < |t.regs| { AddTold(t, handle, persist, respondent, overwrite, r); }
        else { assert InTable(t', r); }
      }
    } else {
      assert forall r | 0 <= r < |t.regs| :: InTable(t', r) == InTable(t, r);
    }
  }

  lemma AddTold(t: Table, handle: Option<Handle>, persist: bool, respondent: Option<Id>, overwrite: bool, r: nat)
    requires Faithful(t) && !Duplicate(t, handle, overwrite) && r < |t.regs|
    ensures var t' := Add(t, handle, persist, respondent, overwrite); Told(t'.regs[r], InTable(t', r))
  {
    var h, t' := Chosen(t, handle), Add(t, handle, persist, respondent, overwrite);
    InTableBut(t, t', h, r);
    if h in t.handles { assert InTable(t, t.handles[h].reg); }
    assert Told(t.regs[r], InTable(t, r));
  }

  /** Only the registration under `h` can have left the table. */
  lemma InTableBut(t: Table, t': Table, h: Handle, r: nat)
    requires r < |t.regs| && Faithful(t)
    requires t'.handles.Keys - {h} == t.handles.Keys - {h}
    requires forall k {:trigger t'.handles[k]} | k in t'.handles && k in t.handles && k != h :: t'.handles[k] == t.handles[k]
    requires h in t'.handles ==> t'.handles[h].reg != r
    ensures InTable(t', r) <==> InTable(t, r) && !(h in t.handles && t.handles[h].reg == r)
  {
    if InTable(t, r) && !(h in t.handles && t.handles[h].reg == r) {
      var k :| k in t.handles && t.handles[k].reg == r;
      assert k in t'.handles.Keys - {h};
      assert t'.handles[k].reg == r;
    }
    if InTable(t', r) {
      var k :| k in t'.handles && t'.handles[k].reg == r;
      assert k in t.handles.Keys - {h};
      assert t.handles[k].reg == r;
    }
  }

  lemma DeleteFaithful(t: Table, h: Handle)
    requires Faithful(t) && h in t.handles
    ensures Faithful(Delete(t, h))
  {
    var t' := Delete(t, h);
    forall r | 0 <= r < |t'.regs| ensures Told(t'.regs[r], InTable(t', r)) {
      InTableBut(t, t', h, r);
      assert InTable(t, t.handles[h].reg);
    }
  }

  lemma DeliverFaithful(t: Table, h: Handle, src: Id, dead: bool, allowed: bool)
    requires Faithful(t)
    ensures Faithful(Deliver(t, h, src, dead, allowed))
  {
    var t' := Deliver(t, h, src, dead, allowed);
    if Decide(t, h, src, dead, allowed).Invoked? {
      assert InTable(t, t.handles[h].reg);
      forall r | 0 <= r < |t'.regs| ensures Told(t'.regs[r], InTable(t', r)) {
        if t.handles[h].persist {
          assert InTable(t', r) <==> InTable(t, r);
        } else {
          InTableBut(t, t', h, r);
        }
      }
    }
  }

  lemma FinishFaithful(t: Table, hs: set<Handle>, why: Why)
    requires Faithful(t) && !why.Delivered?
    ensures Faithful(Finish(t, hs, why))
  {
    var t' := Finish(t, hs, why);
    assert Numbered(t') by { hide Told, InTable; }
    hide Numbered, Told, InTable;
    forall r | 0 <= r < |t'.regs| ensures Told(t'.regs[r], InTable(t', r)) { FinishTold(t, hs, why, r); }
  }

  lemma FinishTold(t: Table, hs: set<Handle>, why: Why, r: nat)
    requires Faithful(t) && !why.Delivered? && r < |t.regs|
    ensures var t' := Finish(t, hs, why); Told(t'.regs[r], InTable(t', r))
  {
    var t' := Finish(t, hs, why);
    assert Told(t.regs[r], InTable(t, r));
    if h :| h in hs && h in t.handles && t.handles[h].reg == r {
      assert InTable(t, r) && !InTable(t', r);
      assert t'.regs[r].log[..|t.regs[r].log|] == t.regs[r].log;
    } else {
      if InTable(t, r) {
        var k :| k in t.handles && t.handles[k].reg == r;
        assert k in t'.handles && t'.handles[k].reg == r;
      }
      assert InTable(t', r) <==> InTable(t, r);
    }
  }

  // ---- Runs -----------------------------------------------------------------------------------------

  datatype Step =
    | AddHandler(handle: Option<Handle>, persist: bool, respondent: Option<Id>, overwrite: bool)
    | DelHandler(h: Handle)
    | Invoke(h: Handle, src: Id, dead: bool, allowed: bool)
    | Disconnect(c: Id)
    | ExitBroker

  /** del_handler raises for a handle that is not registered, and the disconnect handler when the
      index names one. */
  predicate Enabled(t: Table, step: Step) {
    match step
    case DelHandler(h) => h in t.handles
    case Disconnect(c) => Index(t, c) <= t.handles.Keys
    case _ => true
  }

  /** Steps that keep the two indexes in agreement. */
  ghost predicate Gentle(t: Table, step: Step) {
    match step
    case AddHandler(handle, _, respondent, overwrite) =>
      var h := Chosen(t, handle);
      !(h in t.handles && overwrite && t.handles[h].respondent.Some? && t.handles[h].respondent != respondent)
    case ExitBroker => forall h | h in t.handles :: t.handles[h].respondent == None
    case _ => true
  }

  function Next(t: Table, step: Step): Table
    requires Enabled(t, step)
  {
    match step
    case AddHandler(handle, persist, respondent, overwrite) => Add(t, handle, persist, respondent, overwrite)
    case DelHandler(h) => Delete(t, h)
    case Invoke(h, src, dead, allowed) => Deliver(t, h, src, dead, allowed)
    case Disconnect(c) => Gone(t, c)
    case ExitBroker => Exit(t)
  }

  ghost predicate IsRun(steps: seq<Step>, ts: seq<Table>) {
    && |ts| == |steps| + 1 && ts[0] == Empty
    && forall i {:trigger steps[i]} | 0 <= i < |steps| ::
         Enabled(ts[i], steps[i]) && ts[i+1] == Next(ts[i], steps[i])
  }

  lemma StepFaithful(t: Table, step: Step)
    requires Faithful(t) && Enabled(t, step)
    ensures Faithful(Next(t, step))
  {
    hide Faithful, Finish, Remove;
    match step
    case AddHandler(handle, persist, respondent, overwrite) => AddFaithful(t, handle, persist, respondent, overwrite);
    case DelHandler(h) => DeleteFaithful(t, h);
    case Invoke(h, src, dead, allowed) => DeliverFaithful(t, h, src, dead, allowed);
    case Disconnect(c) => GoneFaithful(t, c);
    case ExitBroker => FinishFaithful(t, t.handles.Keys, BrokerExit);
  }

  lemma StepAgrees(t: Table, step: Step)
    requires Agree(t) && Enabled(t, step)
    ensures Agree(Next(t, step)) <==> Gentle(t, step)
  {
    hide Agree, Finish, Remove;
    match step
    case AddHandler(handle, persist, respondent, overwrite) => AddAgrees(t, handle, persist, respondent, overwrite);
    case DelHandler(h) => DeleteAgrees(t, h);
    case Invoke(h, src, dead, allowed) => DeliverAgrees(t, h, src, dead, allowed);
    case Disconnect(c) => GoneAgrees(t, c);
    case ExitBroker => ExitAgrees(t);
  }

  lemma DeleteAgrees(t: Table, h: Handle)
    requires Agree(t) && h in t.handles
    ensures Agree(Delete(t, h))
  {
    RemoveAgrees(t, h);
    assert forall c :: Index(Delete(t, h), c) == Index(Remove(t, h), c);
  }

  lemma DeliverAgrees(t: Table, h: Handle, src: Id, dead: bool, allowed: bool)
    requires Agree(t)
    ensures Agree(Deliver(t, h, src, dead, allowed))
  {
    if Decide(t, h, src, dead, allowed).Invoked? {
      RemoveAgrees(t, h);
      var t1 := if t.handles[h].persist then t else Remove(t, h);
      assert forall c :: Index(Deliver(t, h, src, dead, allowed), c) == Index(t1, c);
    }
  }

  lemma GoneFaithful(t: Table, c: Id)
    requires Faithful(t)
    ensures Faithful(Gone(t, c))
  {
    FinishFaithful(t, Index(t, c), RespondentGone);
    var a, b := Gone(t, c), Finish(t, Index(t, c), RespondentGone);
    assert forall r :: InTable(a, r) == InTable(b, r);
  }

  lemma {:induction false} RunFaithful(steps: seq<Step>, ts: seq<Table>, n: nat)
    requires IsRun(steps, ts) && n <= |steps|
    ensures Faithful(ts[n])
  {
    if n > 0 {
      RunFaithful(steps, ts, n - 1);
      hide Faithful, Next, Enabled;
      assert Enabled(ts[n-1], steps[n-1]);
      StepFaithful(ts[n-1], steps[n-1]);
    }
  }

  /** The two indexes agree throughout a run if and only if no registration overwrites one that
      expected a reply from somebody else, and the broker exits with no reply expected. */
  lemma RunAgrees(steps: seq<Step>, ts: seq<Table>)
    requires IsRun(steps, ts)
    ensures (forall i {:trigger ts[i]} | 0 <= i < |ts| :: Agree(ts[i])) <==>
            (forall i {:trigger steps[i]} | 0 <= i < |steps| :: Gentle(ts[i], steps[i]))
  {
    if forall i {:trigger steps[i]} | 0 <= i < |steps| :: Gentle(ts[i], steps[i]) {
      forall i | 0 <= i < |ts| ensures Agree(ts[i]) { GentleAgrees(steps, ts, i); }
    } else {
      var i :| 0 <= i < |steps| && !Gentle(ts[i], steps[i]);
      if Agree(ts[i]) {
        StepAgrees(ts[i], steps[i]);
        assert !Agree(ts[i + 1]);
      }
    }
  }

  lemma {:induction false} GentleAgrees(steps: seq<Step>, ts: seq<Table>, n: nat)
    requires IsRun(steps, ts) && n <= |steps|
    requires forall i {:trigger steps[i]} | 0 <= i < |steps| :: Gentle(ts[i], steps[i])
    ensures Agree(ts[n])
  {
    if n > 0 {
      GentleAgrees(steps, ts, n - 1);
      hide Agree, Next, Enabled, Gentle;
      assert Enabled(ts[n-1], steps[n-1]);
      assert Gentle(ts[n-1], steps[n-1]);
      StepAgrees(ts[n-1], steps[n-1]);
    }
  }

  const Awaiting := AddHandler(Some(5), false, Some(1), false)

  /** A handler that awaits a reply from context 1 is overwritten by one that awaits none. */
  lemma OverwriteDisagrees()
    ensures var ts := Both(Awaiting, AddHandler(Some(5), true, None, true));
            IsRun([Awaiting, AddHandler(Some(5), true, None, true)], ts) && !Agree(ts[2])
  {
    EmptyAgrees();
    var t := Next(Empty, Awaiting);
    AddAgrees(Empty, Some(5), false, Some(1), false);
    assert t.handles[5].respondent == Some(1);
    AddAgrees(t, Some(5), true, None, true);
  }

  /** The broker exits while a reply from context 1 is awaited. */
  lemma ExitDisagrees()
    ensures var ts := Both(Awaiting, ExitBroker);
            IsRun([Awaiting, ExitBroker], ts) && !Agree(ts[2])
  {
    EmptyAgrees();
    var t := Next(Empty, Awaiting);
    AddAgrees(Empty, Some(5), false, Some(1), false);
    assert 5 in t.handles && t.handles[5].respondent == Some(1);
    ExitAgrees(t);
  }

  lemma EmptyAgrees()
    ensures Agree(Empty)
  {
  }

  /** The run of two steps that are always possible. */
  function Both(a: Step, b: Step): seq<Table>
    requires !a.DelHandler? && !a.Disconnect? && !b.DelHandler? && !b.Disconnect?
  {
    [Empty, Next(Empty, a), Next(Next(Empty, a), b)]
  }

  /** In every run: a one-shot function is called at most once, and exactly once if its entry has
      left the table other than by del_handler or an overwriting registration. */
  lemma OneShot(steps: seq<Step>, ts: seq<Table>, n: nat, r: nat)
    requires IsRun(steps, ts) && n <= |steps|
    requires r < |ts[n].regs| && !ts[n].regs[r].persist
    ensures |ts[n].regs[r].log| == if InTable(ts[n], r) || ts[n].regs[r].dropped then 0 else 1
  {
    RunFaithful(steps, ts, n);
    assert Told(ts[n].regs[r], InTable(ts[n], r));
  }

  // ---- Whom a handler hears ---------------------------------------------------------------------------

  /** An allowed message; and if the handler expects replies from a context, a message from that context
      or a dead one. */
  predicate MayHear(reg: Reg, why: Why) {
    why.Delivered? ==> why.allowed && (reg.respondent.Some? && !why.dead ==> why.src == reg.respondent.value)
  }

  predicate HearsRightly(reg: Reg) { forall i | 0 <= i < |reg.log| :: MayHear(reg, reg.log[i]) }

  ghost predicate AllHearRightly(t: Table) {
    forall r {:trigger t.regs[r]} | 0 <= r < |t.regs| :: HearsRightly(t.regs[r])
  }

  lemma HearsMore(reg: Reg, why: Why)
    requires HearsRightly(reg) && MayHear(reg, why)
    ensures HearsRightly(reg.(log := reg.log + [why]))
  {
    var reg' := reg.(log := reg.log + [why]);
    forall i | 0 <= i < |reg'.log| ensures MayHear(reg', reg'.log[i]) {
      if i < |reg.log| { assert MayHear(reg, reg.log[i]); }
    }
  }

  /** The message is the next entry in the history of whoever is registered for the handle, if it may be;
      a one-shot handler is then unregistered.  Otherwise nothing happens. */
  lemma DeliverIff(t: Table, h: Handle, src: Id, dead: bool, allowed: bool)
    requires Faithful(t)
    ensures var t' := Deliver(t, h, src, dead, allowed);
            if h in t.handles && MayHear(t.regs[t.handles[h].reg], Delivered(src, dead, allowed)) then
              var r := t.handles[h].reg;
              && Decide(t, h, src, dead, allowed) == Invoked(r) && |t'.regs| == |t.regs|
              && t'.regs[r] == t.regs[r].(log := t.regs[r].log + [Delivered(src, dead, allowed)])
              && (forall q | 0 <= q < |t.regs| && q != r :: t'.regs[q] == t.regs[q])
              && t'.handles == if t.regs[r].persist then t.handles else t.handles - {h}
            else t' == t && !Decide(t, h, src, dead, allowed).Invoked?
  {
    hide Told, InTable, Index;
    if h in t.handles { assert Registered(t.regs[t.handles[h].reg], t.handles[h]); }
  }

  lemma DeliverHears(t: Table, h: Handle, src: Id, dead: bool, allowed: bool)
    requires Faithful(t) && AllHearRightly(t)
    ensures AllHearRightly(Deliver(t, h, src, dead, allowed))
  {
    assert h in t.handles ==> t.handles[h].reg < |t.regs|;
    hide Faithful, HearsRightly, MayHear, Deliver;
    var t' := Deliver(t, h, src, dead, allowed);
    DeliverIff(t, h, src, dead, allowed);
    if h in t.handles && MayHear(t.regs[t.handles[h].reg], Delivered(src, dead, allowed)) {
      HearsMore(t.regs[t.handles[h].reg], Delivered(src, dead, allowed));
    }
  }

  lemma FinishHears(t: Table, hs: set<Handle>, why: Why)
    requires AllHearRightly(t) && !why.Delivered?
    ensures AllHearRightly(Finish(t, hs, why))
  {
    var t' := Finish(t, hs, why);
    hide HearsRightly;
    forall r | 0 <= r < |t'.regs| ensures HearsRightly(t'.regs[r]) {
      HearsMore(t.regs[r], why);
    }
  }

  lemma StepHears(t: Table, step: Step)
    requires Faithful(t) && AllHearRightly(t) && Enabled(t, step)
    ensures AllHearRightly(Next(t, step))
  {
    hide Faithful, Finish, Deliver, Index;
    match step
    case AddHandler(_, _, _, _) =>
    case DelHandler(_) =>
    case Invoke(h, src, dead, allowed) => DeliverHears(t, h, src, dead, allowed);
    case Disconnect(c) => FinishHears(t, Index(t, c), RespondentGone);
    case ExitBroker => FinishHears(t, t.handles.Keys, BrokerExit);
  }

  /** In every run: no function is called with a message that was refused, and none that expects replies
      from a context with a message from another, unless it is dead. */
  lemma {:induction false} HearsOnlyRespondent(steps: seq<Step>, ts: seq<Table>, n: nat)
    requires IsRun(steps, ts) && n <= |steps|
    ensures AllHearRightly(ts[n])
  {
    if n > 0 {
      HearsOnlyRespondent(steps, ts, n - 1);
      RunFaithful(steps, ts, n - 1);
      hide Faithful, AllHearRightly, Next, Enabled;
      assert Enabled(ts[n-1], steps[n-1]);
      StepHears(ts[n-1], steps[n-1]);
    }
  }

  // ---- Handles that are given out -----------------------------------------------------------------------

  ghost predicate BelowNext(t: Table) { t.nextHandle >= 1000 && forall h | h in t.handles :: 0 < h < t.nextHandle }

  /** Explicit handles are the well-known ones. */
  predicate WellKnown(step: Step) {
    step.AddHandler? && step.handle.Some? ==> step.handle.value < 1000
  }

  /** In every run with well-known handles only: a handler registered without one gets a handle that no
      handler has, greater than any given out before; and nobody ever has handle 0. */
  lemma {:induction false} NewHandle(steps: seq<Step>, ts: seq<Table>, n: nat)
    requires IsRun(steps, ts) && n <= |steps| && forall i {:trigger steps[i]} | 0 <= i < |steps| :: WellKnown(steps[i])
    ensures BelowNext(ts[n]) && 0 !in ts[n].handles
    ensures !Duplicate(ts[n], None, false) && forall h | h in ts[n].handles :: h < Chosen(ts[n], None)
    ensures forall persist, c :: Chosen(Add(ts[n], None, persist, c, false), None) > Chosen(ts[n], None)
  {
    if n > 0 {
      NewHandle(steps, ts, n - 1);
      assert Enabled(ts[n-1], steps[n-1]) && WellKnown(steps[n-1]);
    }
  }

  // ---- Last calls ---------------------------------------------------------------------------------------

  /** Whoever expects a reply from a context that is gone is told so, last, and nobody else is. */
  lemma GoneTells(t: Table, c: Id, h: Handle)
    requires Faithful(t) && Agree(t) && h in t.handles
    ensures var r, t' := t.handles[h].reg, Gone(t, c);
            if t.handles[h].respondent == Some(c) then
              h !in t'.handles && t'.regs[r].log == t.regs[r].log + [RespondentGone]
            else h in t'.handles && t'.regs[r] == t.regs[r]
  {
    hide Told, InTable;
    assert h in Index(t, c) <==> t.handles[h].respondent == Some(c);
    assert Numbered(t);
  }

  /** Whoever is in the table when the broker exits is told so, last. */
  lemma ExitTellsAll(t: Table, h: Handle)
    requires Faithful(t) && h in t.handles
    ensures Exit(t).handles == map[]
    ensures var r := t.handles[h].reg;
            Exit(t).regs[r].log == t.regs[r].log + [BrokerExit]
  {
    assert Exit(t).handles.Keys == {};
  }
}

/** The router's methods on the table. */
module HandlesCode {
  import opened Prelude
  import opened Handles

  class Router {
    var handleMap: map<Handle, Entry>
    var handlesByRespondent: map<Id, set<Handle>>
    var lastHandle: nat
    var regs: seq<Reg>

    function View(): Table
      reads this
    {
      Table(handleMap, handlesByRespondent, lastHandle, regs)
    }

    constructor ()
      ensures View() == Empty
    {
      handleMap, handlesByRespondent, lastHandle, regs := map[], map[], 1000, [];
    }

    /** `None` when the handle is registered already. */
    method AddHandler(handle: Option<Handle>, persist: bool, respondent: Option<Id>, overwrite: bool)
      returns (r: Option<Handle>)
      modifies this
      ensures View() == Add(old(View()), handle, persist, respondent, overwrite)
      ensures r == if old(Duplicate(View(), handle, overwrite)) then None else Some(old(Chosen(View(), handle)))
    {
      var h := lastHandle;
      if handle.Some? && handle.value != 0 { h := handle.value; } else { lastHandle := lastHandle + 1; }
      if h in handleMap && !overwrite { return None; }
      ghost var n := |regs|;
      assert n == |(if h in handleMap then Drop(regs, handleMap[h].reg) else regs)|;
      var e := Entry(|regs|, persist, respondent);
      regs := (if h in handleMap then Drop(regs, handleMap[h].reg) else regs) + [Reg(persist, respondent, [], false)];
      handleMap := handleMap[h := e];
      if respondent.Some? { AddToIndex(respondent.value, h); }
      return Some(h);
    }

    method AddToIndex(c: Id, h: Handle)
      modifies this`handlesByRespondent
      ensures handlesByRespondent == old(handlesByRespondent[c := Index(View(), c) + {h}])
    {
      if c !in handlesByRespondent { handlesByRespondent := handlesByRespondent[c := {}]; }
      handlesByRespondent := handlesByRespondent[c := handlesByRespondent[c] + {h}];
    }

    /** False when the handle is not registered. */
    method DelHandler(h: Handle) returns (ok: bool)
      requires Agree(View())
      modifies this
      ensures ok == (h in old(handleMap))
      ensures View() == if ok then Delete(old(View()), h) else old(View())
    {
      if h !in handleMap { return false; }
      var e := handleMap[h];
      Pop(h);
      regs := Drop(regs, e.reg);
      return true;
    }

    method Pop(h: Handle)
      requires Agree(View()) && h in handleMap
      modifies this
      ensures View() == Remove(old(View()), h)
    {
      var e := handleMap[h];
      handleMap := handleMap - {h};
      if e.respondent.Some? {
        assert h in Index(old(View()), e.respondent.value);
        handlesByRespondent := handlesByRespondent[e.respondent.value := handlesByRespondent[e.respondent.value] - {h}];
      }
    }

    method Invoke(h: Handle, src: Id, dead: bool, allowed: bool) returns (o: Outcome)
      requires Agree(View())
      modifies this
      ensures o == Decide(old(View()), h, src, dead, allowed)
      ensures View() == Deliver(old(View()), h, src, dead, allowed)
    {
      if h !in handleMap { return InvalidHandle; }
      var e := handleMap[h];
      if e.respondent.Some? && !(dead || src == e.respondent.value) { return UnexpectedContext; }
      if !allowed { return Refused; }
      if !e.persist { Pop(h); }
      regs := Called(regs, e.reg, Delivered(src, dead, allowed));
      return Invoked(e.reg);
    }

    /** Calls and removes the context's handlers, in no particular order. */
    method OnRespondentDisconnect(c: Id)
      requires Agree(View()) && Faithful(View())
      modifies this
      ensures View() == Gone(old(View()), c)
    {
      ghost var t := View();
      IndexedOnly(t, c);
      FinishNone(t, RespondentGone);
      hide Finish, Agree, Faithful;
      var hs := if c in handlesByRespondent then handlesByRespondent[c] else {};
      ghost var done: set<Handle> := {};
      handlesByRespondent := handlesByRespondent - {c};
      while hs != {}
        invariant hs !! done && hs + done == Index(t, c) && hs <= t.handles.Keys
        invariant View() == Finish(t, done, RespondentGone).(byRespondent := t.byRespondent - {c})
        decreases hs
      {
        var h :| h in hs;
        FinishOne(t, done, h, RespondentGone);
        regs := Called(regs, handleMap[h].reg, RespondentGone);
        handleMap := handleMap - {h};
        hs, done := hs - {h}, done + {h};
      }
      assert done == Index(t, c);
    }

    method OnBrokerExit()
      requires Faithful(View())
      modifies this
      ensures View() == Exit(old(View()))
    {
      ghost var t := View();
      FinishNone(t, BrokerExit);
      hide Finish, Faithful;
      ghost var done: set<Handle> := {};
      while handleMap.Keys != {}
        invariant done !! handleMap.Keys && done + handleMap.Keys == t.handles.Keys
        invariant View() == Finish(t, done, BrokerExit)
        decreases handleMap.Keys
      {
        var h :| h in handleMap.Keys;
        FinishOne(t, done, h, BrokerExit);
        regs := Called(regs, handleMap[h].reg, BrokerExit);
        handleMap := handleMap - {h};
        done := done + {h};
      }
      assert done == t.handles.Keys;
    }
  }

  lemma IndexedOnly(t: Table, c: Id)
    requires Agree(t)
    ensures Index(t, c) <= t.handles.Keys
  {
  }

  lemma FinishNone(t: Table, why: Why)
    ensures Finish(t, {}, why) == t
  {
    assert Finish(t, {}, why).handles == t.handles;
    assert Finish(t, {}, why).regs == t.regs;
  }

  /** One more handler called and removed. */
  lemma FinishOne(t: Table, done: set<Handle>, h: Handle, why: Why)
    requires Faithful(t) && h in t.handles && h !in done
    ensures var t1 := Finish(t, done, why);
            && h in t1.handles && t1.handles[h] == t.handles[h] && t1.byRespondent == t.byRespondent
            && Finish(t, done + {h}, why)
            == t1.(handles := t1.handles - {h}, regs := Called(t1.regs, t.handles[h].reg, why))
  {
    FinishOneRegs(t, done, h, why);
    var t1, t2 := Finish(t, done, why), Finish(t, done + {h}, why);
    assert t2.handles == t1.handles - {h};
    hide Called, Faithful;
  }

  lemma FinishOneRegs(t: Table, done: set<Handle>, h: Handle, why: Why)
    requires Faithful(t) && h in t.handles && h !in done
    ensures Finish(t, done + {h}, why).regs == Called(Finish(t, done, why).regs, t.handles[h].reg, why)
  {
    var t1, t2 := Finish(t, done, why), Finish(t, done + {h}, why);
    var regs := Called(t1.regs, t.handles[h].reg, why);
    forall r | 0 <= r < |regs| ensures regs[r] == t2.regs[r] {
      if r == t.handles[h].reg {
        assert h in done + {h};
      } else if k :| k in done && k in t.handles && t.handles[k].reg == r {
        assert k in done + {h};
      }
    }
  }
}
