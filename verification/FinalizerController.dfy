/** The code of the role, policy and secret-engine controllers, call by call, as a run of the
    finalizer machine. */
module FinalizerController {
  import opened Results
  import opened FinalizerProtocol
  import opened FinalizerOutcomes
  import Hold = FinalizerHold

  /** The cluster as one injector worker meets it. Every method that talks to the API server
      or to Vault lets the others act first and then gets an arbitrary answer; it demands that
      the worker has come to that call. */
  class Cluster {
    const kind: Kind
    var versions: seq<Option<Object>>
    var vault: set<Site>
    ghost var leftover: set<Site>
    ghost var pc: Pc
    ghost var acts: seq<Action>

    constructor (kind: Kind)
      ensures Valid() && pc.Idle? && this.kind == kind && acts == []
    {
      this.kind := kind;
      versions, vault, leftover, pc, acts := [None], {}, {}, Idle, [];
    }

    ghost function Abs(): State
      reads this
    {
      State(kind, versions, vault, leftover, pc)
    }

    /** Everything that happened so far is a run of the machine. */
    ghost predicate Valid()
      reads this
    {
      Abs() == After(Init(kind), acts)
    }

    ghost method Record(a: Action)
      requires Valid()
      modifies this`pc, this`leftover, this`acts
      ensures acts == old(acts) + [a] && After(Init(kind), acts) == Next(old(Abs()), a)
      ensures pc == Next(old(Abs()), a).pc && leftover == Next(old(Abs()), a).leftover
    {
      AfterOneMore(Init(kind), acts, a);
      var t := Next(Abs(), a);
      pc, leftover, acts := t.pc, t.leftover, acts + [a];
    }

    /** The users and the cache move arbitrarily. */
    method OthersAct()
      requires Valid()
      modifies this`versions, this`pc, this`leftover, this`acts
      ensures Valid() && old(acts) <= acts && pc == old(pc)
    {
      var events: seq<Action> := *;
      for n := 0 to |events|
        invariant Valid() && old(acts) <= acts && pc == old(pc)
      {
        hide After, Next;
        if ByOthers(events[n]) {
          OthersKeepWorker(Abs(), events[n]);
          var t := ByUsers(State(kind, versions, {}, {}, Idle), events[n]);
          hide ByUsers;
          Record(events[n]);
          versions := t.versions;
        }
      }
    }

    /** Reads the cache: what the injector works on. */
    method Read() returns (o: Option<Object>)
      requires Valid() && pc.Idle?
      modifies this`versions, this`pc, this`leftover, this`acts
      ensures Valid() && old(acts) <= acts && pc == Dispatch(kind, o)
    {
      hide After;
      OthersAct();
      o := Hold.View(versions);
      Record(Begin);
    }

    /** A patch of the finalizer or a status update. `o` is the object that comes back. */
    method UpdateStored(u: Update) returns (ok: bool, o: Option<Object>)
      requires Valid() && Updates(pc, u)
      modifies this`versions, this`pc, this`leftover, this`acts
      ensures Valid() && old(acts) <= acts && (ok ==> o.Some?)
      ensures pc == AfterUpdate(kind, old(pc), if ok then o else None)
    {
      hide After;
      OthersAct();
      var c: CallResult := *;
      UpdateStep(Abs(), u, c);
      var t := Patch(State(kind, versions, {}, {}, Idle), u, c);
      ok := c.Done? && Hold.Last(versions).Some?;
      o := if ok then Some(Apply(u, Hold.Last(versions).value)) else None;
      hide Work, Patch;
      Record(Answer(c, false));
      versions := t.versions;
    }

    /** Builds the Vault client, in the injector and in the finalizer. */
    method NewClient() returns (ok: bool)
      requires Valid() && (pc.Prepare? || pc.BuildClient?)
      modifies this`versions, this`pc, this`leftover, this`acts
      ensures Valid() && old(acts) <= acts
      ensures pc == if old(pc).Prepare? then (if ok then Creating(old(pc).o, 0) else Idle)
                    else if ok then Deleting(old(pc).o, 0) else RemoveFinalizer(old(pc).o)
    {
      hide After;
      OthersAct();
      var c: CallResult := *;
      ok := c.Done?;
      ClientStep(Abs(), c);
      hide Work;
      Record(Answer(c, false));
    }

    /** One creating call to Vault, for the target of `o`. */
    method CallCreate(x: Option<Artifact>, o: Object) returns (ok: bool)
      requires Valid() && pc.Creating? && pc.o == o && pc.k < |CreateCalls(kind)| && x == CreateCalls(kind)[pc.k]
      modifies this`versions, this`vault, this`pc, this`leftover, this`acts
      ensures Valid() && old(acts) <= acts
      ensures pc == if ok && old(pc.k) + 1 < |CreateCalls(kind)| then Creating(o, old(pc.k) + 1) else Note(o)
      ensures vault == old(vault) || (x.Some? && vault == old(vault) + {SiteOf(x.value, o.target)})
      ensures ok && x.Some? ==> vault == old(vault) + {SiteOf(x.value, o.target)}
    {
      hide After;
      OthersAct();
      var c: CallResult := *;
      ok := c.Done?;
      CreateStep(Abs(), c);
      hide Work;
      Record(Answer(c, false));
      vault := if x.Some? && !c.Failed? then vault + {SiteOf(x.value, o.target)} else vault;
    }

    /** One deleting call, for the target of `o`; `code` is the status code of the answer. */
    method CallDelete(x: Artifact, o: Object) returns (ok: bool, code: int)
      requires Valid() && pc.Deleting? && pc.o == o && pc.k < |DeleteCalls(kind)| && x == DeleteCalls(kind)[pc.k]
      modifies this`versions, this`vault, this`pc, this`leftover, this`acts
      ensures Valid() && old(acts) <= acts
      ensures pc == if !ok && !(kind.Role? && code / 100 == 4) then Idle
                    else if old(pc.k) + 1 < |DeleteCalls(kind)| then Deleting(o, old(pc.k) + 1)
                    else RemoveFinalizer(o)
      ensures vault == old(vault) || vault == old(vault) - {SiteOf(x, o.target)}
      ensures ok ==> vault == old(vault) - {SiteOf(x, o.target)}
    {
      hide After;
      OthersAct();
      var c: CallResult := *;
      ok, code := c.Done?, *;
      DeleteStep(Abs(), c, code / 100 == 4);
      hide Work;
      Record(Answer(c, code / 100 == 4));
      vault := if c.Failed? then vault else vault - {SiteOf(x, o.target)};
    }

    /** The injector: dispatches on the cached object. */
    method RunInjector() returns (ok: bool)
      requires Valid() && pc.Idle?
      modifies this
      ensures Valid() && pc.Idle? && old(acts) <= acts
      ensures Held(Abs()) || vault == leftover
    {
      hide After, Next, Init, Held;
      ok := true;
      var view := Read();
      if view.Some? {
        var o := view.value;
        if o.deleting {
          if o.finalizer { ok := RunFinalizer(o); }
        } else {
          if !o.finalizer {
            var patched, _ := UpdateStored(SetFinalizer(true));
            ok := patched;
          }
          if ok { ok := ReconcileObject(o); }
        }
      }
      SafeNow();
    }

    /** The rest of the injector: the first status update of a new role or engine, whose result
        replaces the object, the client, and the reconcile. */
    method ReconcileObject(o: Object) returns (ok: bool)
      requires Valid() && pc == Started(kind, o)
      modifies this
      ensures Valid() && pc.Idle? && old(acts) <= acts
    {
      hide After, Next, Init;
      var obj := o;
      ok := true;
      if kind != Policy && !obj.noted {
        var newObj;
        ok, newObj := UpdateStored(SetPhase);
        if !ok { return; }
        obj := newObj.value;
      }
      ok := NewClient();
      if !ok { return; }
      ok := Reconcile(obj);
    }

    /** The creating calls in order; the status update follows the first error or the last call.
        A successful reconcile has made every artifact. */
    method Reconcile(o: Object) returns (ok: bool)
      requires Valid() && pc == Creating(o, 0)
      modifies this
      ensures Valid() && pc.Idle? && old(acts) <= acts
      ensures ok ==> vault == old(vault) + match kind
        case Role => {RoleAt(o.target)}
        case Policy => {PolicyAt(o.target)}
        case Engine => {EnginePolicyAt(o.target), MountAt(o.target)}
      ensures old(vault) <= vault
    {
      hide After, Next, Init;
      match kind {
        case Role => ok := CallCreate(Some(VaultRole), o);
        case Policy => ok := CallCreate(Some(VaultPolicy), o);
        case Engine => ok := CreateEngine(o);
      }
      var written, _ := UpdateStored(SetNoted);
      ok := ok && written;
    }

    method CreateEngine(o: Object) returns (ok: bool)
      requires Valid() && kind == Engine && pc == Creating(o, 0)
      modifies this
      ensures Valid() && pc == Note(o) && old(acts) <= acts
      ensures ok ==> vault == old(vault) + {EnginePolicyAt(o.target), MountAt(o.target)}
      ensures vault in {old(vault), old(vault) + {EnginePolicyAt(o.target)},
                        old(vault) + {EnginePolicyAt(o.target), MountAt(o.target)}}
    {
      hide After, Next, Init;
      ghost var was := vault;
      ok := CallCreate(Some(EnginePolicy), o);
      if ok { ok := CallCreate(None, o); } else { return; }
      if ok { ok := CallCreate(Some(EngineMount), o); } else { return; }
      assert was + {EnginePolicyAt(o.target)} + {MountAt(o.target)} == was + {EnginePolicyAt(o.target), MountAt(o.target)};
      if ok { ok := CallCreate(None, o); }
    }

    /** The finalizer. One of an engine or a policy that succeeds has deleted all it made, or
        had no client and deleted nothing. */
    method RunFinalizer(o: Object) returns (ok: bool)
      requires Valid() && pc == BuildClient(o)
      modifies this
      ensures Valid() && pc.Idle? && old(acts) <= acts
      ensures kind.Role? ==> vault in {old(vault), old(vault) - {RoleAt(o.target)}}
      ensures kind.Policy? ==> vault in {old(vault), old(vault) - {PolicyAt(o.target)}}
      ensures kind.Engine? ==> vault in {old(vault), old(vault) - {EnginePolicyAt(o.target)},
                                         old(vault) - {EnginePolicyAt(o.target), MountAt(o.target)}}
      ensures ok && kind.Engine? ==> vault in {old(vault), old(vault) - {EnginePolicyAt(o.target), MountAt(o.target)}}
    {
      hide After, Next, Init;
      ok := NewClient();
      if ok {
        var code;
        match kind {
          case Role =>
            ok, code := CallDelete(VaultRole, o);
            if !ok && code / 100 != 4 { return; }
          case Policy =>
            ok, code := CallDelete(VaultPolicy, o);
            if !ok { return; }
          case Engine =>
            ok := DeleteEngine(o);
            if !ok { return; }
        }
      }
      var patched, _ := UpdateStored(SetFinalizer(false));
      ok := patched;
    }

    method DeleteEngine(o: Object) returns (ok: bool)
      requires Valid() && kind == Engine && pc == Deleting(o, 0)
      modifies this
      ensures Valid() && pc == (if ok then RemoveFinalizer(o) else Idle) && old(acts) <= acts
      ensures ok ==> vault == old(vault) - {EnginePolicyAt(o.target), MountAt(o.target)}
      ensures vault in {old(vault), old(vault) - {EnginePolicyAt(o.target)},
                        old(vault) - {EnginePolicyAt(o.target), MountAt(o.target)}}
    {
      hide After, Next, Init;
      ghost var was := vault;
      var code;
      ok, code := CallDelete(EnginePolicy, o);
      if !ok { return; }
      assert was - {EnginePolicyAt(o.target)} - {MountAt(o.target)} == was - {EnginePolicyAt(o.target), MountAt(o.target)};
      ok, code := CallDelete(EngineMount, o);
    }

    lemma SafeNow()
      requires Valid()
      ensures Held(Abs()) || vault == leftover
    {
      InvHolds(kind, acts);
      hide HeldInv, After;
    }
  }

  // ----- what the steps amount to -----

  lemma OthersKeepWorker(s: State, a: Action)
    requires ByOthers(a)
    ensures Next(s, a) == s.(versions := ByUsers(State(s.kind, s.versions, {}, {}, Idle), a).versions)
  {
  }

  /** The write that is due at a position. */
  predicate Updates(pc: Pc, u: Update) {
    match pc
    case AddFinalizer(_) => u == SetFinalizer(true)
    case RemoveFinalizer(_) => u == SetFinalizer(false)
    case WritePhase(_) => u == SetPhase
    case Note(_) => u == SetNoted
    case _ => false
  }

  /** Where the worker stands after a write; `back` is the object that came back, if it did. */
  function AfterUpdate(kind: Kind, pc: Pc, back: Option<Object>): Pc {
    match pc
    case AddFinalizer(o) => if back.Some? then Started(kind, o) else Idle
    case WritePhase(_) => if back.Some? then Prepare(back.value) else Idle
    case _ => Idle
  }

  lemma UpdateStep(s: State, u: Update, c: CallResult)
    requires Updates(s.pc, u)
    ensures var back := if Acknowledged(s, c) then Some(Apply(u, Stored(s).value)) else None;
      Work(s, c, false) == s.(versions := Patch(State(s.kind, s.versions, {}, {}, Idle), u, c).versions,
                              pc := AfterUpdate(s.kind, s.pc, back))
  {
    hide Started;
  }

  lemma ClientStep(s: State, c: CallResult)
    requires s.pc.Prepare? || s.pc.BuildClient?
    ensures var t := Work(s, c, false);
      && t.versions == s.versions && t.vault == s.vault
      && t.pc == if s.pc.Prepare? then (if c.Done? then Creating(s.pc.o, 0) else Idle)
                 else if c.Done? then Deleting(s.pc.o, 0) else RemoveFinalizer(s.pc.o)
  {
  }

  lemma CreateStep(s: State, c: CallResult)
    requires s.pc.Creating? && s.pc.k < |CreateCalls(s.kind)|
    ensures var t := Work(s, c, false); var x := CreateCalls(s.kind)[s.pc.k];
      && t.versions == s.versions
      && t.vault == (if x.Some? && !c.Failed? then s.vault + {SiteOf(x.value, s.pc.o.target)} else s.vault)
      && t.pc == if c.Done? && s.pc.k + 1 < |CreateCalls(s.kind)| then Creating(s.pc.o, s.pc.k + 1) else Note(s.pc.o)
  {
  }

  lemma DeleteStep(s: State, c: CallResult, is4xx: bool)
    requires s.pc.Deleting? && s.pc.k < |DeleteCalls(s.kind)|
    ensures var t := Work(s, c, is4xx); var x := DeleteCalls(s.kind)[s.pc.k];
      && t.versions == s.versions
      && t.vault == (if c.Failed? then s.vault else s.vault - {SiteOf(x, s.pc.o.target)})
      && t.pc == if !c.Done? && !(s.kind.Role? && is4xx) then Idle
                 else if s.pc.k + 1 < |DeleteCalls(s.kind)| then Deleting(s.pc.o, s.pc.k + 1)
                 else RemoveFinalizer(s.pc.o)
  {
    hide Sites;
  }
}
