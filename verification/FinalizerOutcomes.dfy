/** What the reconciles and the finalizers of the three controllers leave in Vault, artifact by
    artifact, with the users and the cache moving between the calls. */
module FinalizerOutcomes {
  import opened Results
  import opened FinalizerProtocol
  import Hold = FinalizerHold

  /** The answers that the worker gets along a run. */
  function Answers(acts: seq<Action>): (r: seq<Action>)
    ensures forall a <- r :: a.Answer?
  {
    if acts == [] then []
    else
      var a := acts[|acts| - 1];
      Answers(acts[..|acts| - 1]) + (if a.Answer? then [a] else [])
  }

  /** All calls but the last one were done, as far as the worker knows. */
  predicate DoneSoFar(acts: seq<Action>) {
    forall i | 0 <= i < |Answers(acts)| - 1 :: Answers(acts)[i].c.Done?
  }

  lemma OneMoreAnswer(acts: seq<Action>)
    requires acts != []
    ensures var k := |acts| - 1;
      Answers(acts) == if acts[k].Answer? then Answers(acts[..k]) + [acts[k]] else Answers(acts[..k])
    ensures DoneSoFar(acts) ==> DoneSoFar(acts[..|acts| - 1])
    ensures DoneSoFar(acts) && acts[|acts| - 1].Answer? ==> forall a <- Answers(acts[..|acts| - 1]) :: a.c.Done?
  {
    var cs, ds := Answers(acts[..|acts| - 1]), Answers(acts);
    assert forall i | 0 <= i < |cs| :: cs[i] == ds[i];
  }

  /** Neither users nor the cache touch Vault or the worker. */
  lemma OthersLeaveVault(s: State, a: Action)
    requires !a.Answer? && (a.Begin? ==> !s.pc.Idle?)
    ensures Next(s, a).vault == s.vault && Next(s, a).pc == s.pc && Next(s, a).kind == s.kind
  {
  }

  // ----- where the artifacts are -----

  function RoleAt(t: Target): Site { Site(VaultRole, t.vault, t.place) }

  function PolicyAt(t: Target): Site { Site(VaultPolicy, t.vault, t.place) }

  /** Named after the object: the path does not matter. */
  function EnginePolicyAt(t: Target): Site { Site(EnginePolicy, t.vault, "") }

  function MountAt(t: Target): Site { Site(EngineMount, t.vault, t.place) }

  // ----- reconciles -----

  /** The only call of a role reconcile makes the role of the spec that was read; the status update
      follows whatever the answer is. */
  lemma {:induction false} RoleReconcile(s: State, o: Object, acts: seq<Action>)
    requires s.kind.Role? && s.pc == Creating(o, 0) && |Answers(acts)| <= 1
    ensures var cs, t := Answers(acts), After(s, acts);
      && t.kind == s.kind
      && t.pc == (if cs == [] then Creating(o, 0) else Note(o))
      && t.vault == s.vault + (if cs != [] && !cs[0].c.Failed? then {RoleAt(o.target)} else {})
  {
    if acts != [] {
      var k := |acts| - 1;
      OneMoreAnswer(acts);
      RoleReconcile(s, o, acts[..k]);
      if acts[k].Answer? {
        RoleCall(After(s, acts[..k]), o, acts[k]);
      } else {
        OthersLeaveVault(After(s, acts[..k]), acts[k]);
      }
      hide Next, Answers, DoneSoFar;
    }
  }

  lemma RoleCall(s: State, o: Object, a: Action)
    requires s.kind.Role? && s.pc == Creating(o, 0) && a.Answer?
    ensures var t := Next(s, a);
      && t.kind == s.kind && t.pc == Note(o)
      && t.vault == s.vault + (if a.c.Failed? then {} else {RoleAt(o.target)})
  {
  }

  /** The same for a policy. */
  lemma {:induction false} PolicyReconcile(s: State, o: Object, acts: seq<Action>)
    requires s.kind.Policy? && s.pc == Creating(o, 0) && |Answers(acts)| <= 1
    ensures var cs, t := Answers(acts), After(s, acts);
      && t.kind == s.kind
      && t.pc == (if cs == [] then Creating(o, 0) else Note(o))
      && t.vault == s.vault + (if cs != [] && !cs[0].c.Failed? then {PolicyAt(o.target)} else {})
  {
    if acts != [] {
      var k := |acts| - 1;
      OneMoreAnswer(acts);
      PolicyReconcile(s, o, acts[..k]);
      if acts[k].Answer? {
        PolicyCall(After(s, acts[..k]), o, acts[k]);
      } else {
        OthersLeaveVault(After(s, acts[..k]), acts[k]);
      }
      hide Next, Answers, DoneSoFar;
    }
  }

  lemma PolicyCall(s: State, o: Object, a: Action)
    requires s.kind.Policy? && s.pc == Creating(o, 0) && a.Answer?
    ensures var t := Next(s, a);
      && t.kind == s.kind && t.pc == Note(o)
      && t.vault == s.vault + (if a.c.Failed? then {} else {PolicyAt(o.target)})
  {
  }

  /** A secret engine: its policy, the auth role, the mount, the configuration, each only after the
      one before it was done. There is a new mount only if the policy and the auth role were
      done, and once all four calls are, policy and mount are both there. */
  lemma {:induction false} EngineReconcile(s: State, o: Object, acts: seq<Action>)
    requires s.kind.Engine? && s.pc == Creating(o, 0) && |Answers(acts)| <= 4 && DoneSoFar(acts)
    ensures var cs, t := Answers(acts), After(s, acts);
      && t.kind == s.kind
      && t.pc == (if |cs| == 4 || (cs != [] && !cs[|cs| - 1].c.Done?) then Note(o) else Creating(o, |cs|))
      && t.vault == s.vault + (if cs != [] && !cs[0].c.Failed? then {EnginePolicyAt(o.target)} else {})
                            + (if |cs| > 2 && !cs[2].c.Failed? then {MountAt(o.target)} else {})
  {
    if acts != [] {
      var k := |acts| - 1;
      OneMoreAnswer(acts);
      EngineReconcile(s, o, acts[..k]);
      if acts[k].Answer? {
        EngineCall(After(s, acts[..k]), o, acts[k]);
      } else {
        OthersLeaveVault(After(s, acts[..k]), acts[k]);
      }
      hide Next, Answers, DoneSoFar;
    }
  }

  lemma EngineCall(s: State, o: Object, a: Action)
    requires s.kind.Engine? && s.pc.Creating? && s.pc.o == o && s.pc.k < 4 && a.Answer?
    ensures var k, t := s.pc.k, Next(s, a);
      && t.kind == s.kind
      && t.pc == (if a.c.Done? && k < 3 then Creating(o, k + 1) else Note(o))
      && t.vault == s.vault + if a.c.Failed? then {}
                              else if k == 0 then {EnginePolicyAt(o.target)}
                              else if k == 2 then {MountAt(o.target)} else {}
  {
  }

  // ----- finalizers -----

  /** No new reconcile begins. */
  predicate SameRun(acts: seq<Action>) {
    forall a <- acts :: !a.Begin?
  }

  /** The finalizer of a role deletes the role of the spec that was read, and goes on when the call
      was done or its code was a 4xx one. */
  lemma {:induction false} RoleFinalizer(s: State, o: Object, acts: seq<Action>)
    requires s.kind.Role? && s.pc == Deleting(o, 0) && |Answers(acts)| <= 1
    requires SameRun(acts)
    ensures var cs, t := Answers(acts), After(s, acts);
      && t.kind == s.kind
      && t.pc == (if cs == [] then Deleting(o, 0) else if cs[0].c.Done? || cs[0].is4xx then RemoveFinalizer(o) else Idle)
      && t.vault == s.vault - (if cs != [] && !cs[0].c.Failed? then {RoleAt(o.target)} else {})
  {
    if acts != [] {
      var k := |acts| - 1;
      OneMoreAnswer(acts);
      RoleFinalizer(s, o, acts[..k]);
      if acts[k].Answer? {
        RoleDelete(After(s, acts[..k]), o, acts[k]);
      } else {
        OthersLeaveVault(After(s, acts[..k]), acts[k]);
      }
      hide Next, Answers, DoneSoFar;
    }
  }

  lemma RoleDelete(s: State, o: Object, a: Action)
    requires s.kind.Role? && s.pc == Deleting(o, 0) && a.Answer?
    ensures var t := Next(s, a);
      && t.kind == s.kind && t.pc == (if a.c.Done? || a.is4xx then RemoveFinalizer(o) else Idle)
      && t.vault == s.vault - (if a.c.Failed? then {} else {RoleAt(o.target)})
  {
    hide Missed, Skipped;
  }

  /** The finalizer of a policy has no such rule. */
  lemma {:induction false} PolicyFinalizer(s: State, o: Object, acts: seq<Action>)
    requires s.kind.Policy? && s.pc == Deleting(o, 0) && |Answers(acts)| <= 1
    requires SameRun(acts)
    ensures var cs, t := Answers(acts), After(s, acts);
      && t.kind == s.kind
      && t.pc == (if cs == [] then Deleting(o, 0) else if cs[0].c.Done? then RemoveFinalizer(o) else Idle)
      && t.vault == s.vault - (if cs != [] && !cs[0].c.Failed? then {PolicyAt(o.target)} else {})
  {
    if acts != [] {
      var k := |acts| - 1;
      OneMoreAnswer(acts);
      PolicyFinalizer(s, o, acts[..k]);
      if acts[k].Answer? {
        PolicyDelete(After(s, acts[..k]), o, acts[k]);
      } else {
        OthersLeaveVault(After(s, acts[..k]), acts[k]);
      }
      hide Next, Answers, DoneSoFar;
    }
  }

  lemma PolicyDelete(s: State, o: Object, a: Action)
    requires s.kind.Policy? && s.pc == Deleting(o, 0) && a.Answer?
    ensures var t := Next(s, a);
      && t.kind == s.kind && t.pc == (if a.c.Done? then RemoveFinalizer(o) else Idle)
      && t.vault == s.vault - (if a.c.Failed? then {} else {PolicyAt(o.target)})
  {
    hide Missed, Skipped;
  }

  /** The finalizer of a secret engine deletes the policy, and only if that was done the mount. */
  lemma {:induction false} EngineFinalizer(s: State, o: Object, acts: seq<Action>)
    requires s.kind.Engine? && s.pc == Deleting(o, 0) && |Answers(acts)| <= 2 && DoneSoFar(acts)
    requires SameRun(acts)
    ensures var cs, t := Answers(acts), After(s, acts);
      && t.kind == s.kind
      && t.pc == (if cs != [] && !cs[|cs| - 1].c.Done? then Idle else if |cs| == 2 then RemoveFinalizer(o) else Deleting(o, |cs|))
      && t.vault == s.vault - (if cs != [] && !cs[0].c.Failed? then {EnginePolicyAt(o.target)} else {})
                            - (if |cs| > 1 && !cs[1].c.Failed? then {MountAt(o.target)} else {})
  {
    if acts != [] {
      var k := |acts| - 1;
      OneMoreAnswer(acts);
      EngineFinalizer(s, o, acts[..k]);
      if acts[k].Answer? {
        EngineDelete(After(s, acts[..k]), o, acts[k]);
      } else {
        OthersLeaveVault(After(s, acts[..k]), acts[k]);
      }
      hide Next, Answers, DoneSoFar;
    }
  }

  lemma EngineDelete(s: State, o: Object, a: Action)
    requires s.kind.Engine? && s.pc.Deleting? && s.pc.o == o && s.pc.k < 2 && a.Answer?
    ensures var k, t := s.pc.k, Next(s, a);
      && t.kind == s.kind
      && t.pc == (if !a.c.Done? then Idle else if k == 0 then Deleting(o, 1) else RemoveFinalizer(o))
      && t.vault == s.vault - if a.c.Failed? then {}
                              else if k == 0 then {EnginePolicyAt(o.target)} else {MountAt(o.target)}
  {
    hide Missed, Skipped;
  }

  // ----- whole reconciles -----

  /** A reconcile whose `n` calls are all done, nobody acting in between. */
  function Alone(n: nat): seq<Action> {
    if n == 0 then [Begin] else Alone(n - 1) + [Answer(Done, false)]
  }

  lemma AloneStep(s: State, n: nat)
    ensures After(s, Alone(0)) == Next(s, Begin)
    ensures After(s, Alone(n + 1)) == Next(After(s, Alone(n)), Answer(Done, false))
  {
    hide Next;
    AfterOneMore(s, [], Begin);
    AfterOneMore(s, Alone(n), Answer(Done, false));
    assert [] + [Begin] == [Begin];
  }

  /** The artifacts of an object, by name. */
  function Artifacts(kind: Kind, t: Target): set<Site> {
    match kind
    case Role => {RoleAt(t)}
    case Policy => {PolicyAt(t)}
    case Engine => {EnginePolicyAt(t), MountAt(t)}
  }

  /** The calls to the API server and the client, position by position, when they are done and
      the object is there. */
  lemma DoneElsewhere(s: State)
    requires Stored(s).Some?
    ensures var t, o := Next(s, Answer(Done, false)), Stored(s).value;
      && t.kind == s.kind
      && (!s.pc.Creating? && !s.pc.Deleting? ==> t.vault == s.vault)
      && (s.pc.AddFinalizer? ==>
          && Stored(t) == Some(o.(finalizer := true))
          && t.pc == if !s.kind.Policy? && !s.pc.o.noted then WritePhase(s.pc.o) else Prepare(s.pc.o))
      && (s.pc.WritePhase? && (o.deleting ==> o.finalizer) ==> Stored(t) == Some(o) && t.pc == Prepare(o))
      && (s.pc.Prepare? ==> Stored(t) == Some(o) && t.pc == Creating(s.pc.o, 0))
      && (s.pc.Creating? ==> Stored(t) == Some(o))
      && (s.pc.Note? && (o.deleting ==> o.finalizer) ==> Stored(t) == Some(o.(noted := true)) && t.pc == Idle)
      && (s.pc.BuildClient? ==> Stored(t) == Some(o) && t.pc == Deleting(s.pc.o, 0))
      && (s.pc.Deleting? ==> Stored(t) == Some(o))
      && (s.pc.RemoveFinalizer? ==>
          && t.pc == Idle
          && Stored(t) == if o.deleting then None else Some(o.(finalizer := false)))
  {
    hide Missed, Skipped;
  }

  /** A run begins with what the cache shows, and a role or an engine without conditions gets its
      first status update before anything is made. */
  lemma BeginsWith(s: State, o: Object)
    requires s.pc.Idle? && Hold.View(s.versions) == Some(o)
    ensures var t := Next(s, Begin);
      && t == s.(pc := t.pc)
      && (o.deleting && o.finalizer ==> t.pc == BuildClient(o))
      && (o.deleting && !o.finalizer ==> t.pc == Idle)
      && (!o.deleting && !o.finalizer ==> t.pc == AddFinalizer(o))
      && (!o.deleting && o.finalizer && (s.kind == Policy || o.noted) ==> t.pc == Prepare(o))
      && (!o.deleting && o.finalizer && s.kind != Policy && !o.noted ==> t.pc == WritePhase(o))
  {
  }

  /** A call outside Vault that is not done ends the run, but for the client of a finalizer. */
  lemma FailsElsewhere(s: State, c: CallResult, is4xx: bool)
    requires !c.Done? && !s.pc.Creating? && !s.pc.Deleting?
    ensures var t := Next(s, Answer(c, is4xx));
      t.vault == s.vault && t.pc == if s.pc.BuildClient? then RemoveFinalizer(s.pc.o) else Idle
  {
    hide Missed;
  }

  /** A new object that nobody else touches: every call done, the worker sets the finalizer, makes
      the artifacts and notes the outcome in the status. */
  lemma ReconcileAlone(s: State, o: Object)
    requires s.pc.Idle? && s.versions == [Some(o)] && !o.deleting && !o.finalizer && !o.noted
    ensures var n := match s.kind { case Role => 5 case Policy => 4 case Engine => 8 };
      var t := After(s, Alone(n));
      && t.pc.Idle? && t.vault == s.vault + Artifacts(s.kind, o.target)
      && Stored(t) == Some(o.(finalizer := true, noted := true))
  {
    hide After, Alone, Next, Stored, Artifacts;
    UpToCreating(s, o);
    var n := if s.kind.Policy? then 2 else 3;
    MadeAlone(s, n);
    var m := n + if s.kind.Engine? then 4 else 1;
    AloneStep(s, m);
    DoneElsewhere(After(s, Alone(m)));
  }

  /** The creating calls, all done. */
  lemma MadeAlone(s: State, n: nat)
    requires var t := After(s, Alone(n)); t.pc.Creating? && t.pc.k == 0 && Stored(t).Some?
    ensures var t := After(s, Alone(n));
      var u := After(s, Alone(n + if t.kind.Engine? then 4 else 1));
      && u.kind == t.kind && u.pc == Note(t.pc.o) && Stored(u) == Stored(t)
      && u.vault == t.vault + Artifacts(t.kind, t.pc.o.target)
  {
    hide After, Alone, Next, Stored;
    var t := After(s, Alone(n));
    AloneStep(s, n);
    DoneElsewhere(t);
    match t.kind {
      case Role => RoleCall(t, t.pc.o, Answer(Done, false));
      case Policy => PolicyCall(t, t.pc.o, Answer(Done, false));
      case Engine => EngineAlone(s, t, n);
    }
  }

  lemma EngineAlone(s: State, t: State, n: nat)
    requires t == After(s, Alone(n)) && t.kind.Engine? && t.pc.Creating? && t.pc.k == 0 && Stored(t).Some?
    ensures var u := After(s, Alone(n + 4));
      && u.kind == t.kind && u.pc == Note(t.pc.o) && Stored(u) == Stored(t)
      && u.vault == t.vault + {EnginePolicyAt(t.pc.o.target), MountAt(t.pc.o.target)}
  {
    hide After, Alone, Next, Stored;
    for k := 0 to 4
      invariant var u := After(s, Alone(n + k));
        && u.kind == t.kind && Stored(u) == Stored(t)
        && u.pc == (if k < 4 then Creating(t.pc.o, k) else Note(t.pc.o))
        && u.vault == t.vault + (if k > 0 then {EnginePolicyAt(t.pc.o.target)} else {})
                              + (if k > 2 then {MountAt(t.pc.o.target)} else {})
    {
      AloneStep(s, n + k);
      EngineCall(After(s, Alone(n + k)), t.pc.o, Answer(Done, false));
      DoneElsewhere(After(s, Alone(n + k)));
    }
  }

  lemma UpToCreating(s: State, o: Object)
    requires s.pc.Idle? && s.versions == [Some(o)] && !o.deleting && !o.finalizer && !o.noted
    ensures var t := After(s, Alone(if s.kind.Policy? then 2 else 3));
      && t.pc.Creating? && t.pc.k == 0 && t.pc.o.target == o.target
      && t.vault == s.vault && t.kind == s.kind && Stored(t) == Some(o.(finalizer := true))
  {
    var t := Next(s, Begin);
    assert t == s.(pc := AddFinalizer(o)) && Stored(t) == Some(o);
    hide After, Alone, Next, Stored;
    AloneStep(s, 0);
    AloneStep(s, 1);
    AloneStep(s, 2);
    DoneElsewhere(t);
    DoneElsewhere(After(s, Alone(1)));
    if !s.kind.Policy? { DoneElsewhere(After(s, Alone(2))); }
  }

  /** A deleted object whose finalizer gets through: its artifacts and the object are gone. */
  lemma FinalizeAlone(s: State, o: Object)
    requires s.pc.Idle? && s.versions == [Some(o)] && o.deleting && o.finalizer
    ensures var n := match s.kind { case Role => 3 case Policy => 3 case Engine => 4 };
      var t := After(s, Alone(n));
      && t.pc.Idle? && t.vault == s.vault - Artifacts(s.kind, o.target) && Stored(t).None?
  {
    var t := Next(s, Begin);
    assert t == s.(pc := BuildClient(o)) && Stored(t) == Some(o);
    hide After, Alone, Next, Stored;
    AloneStep(s, 0);
    AloneStep(s, 1);
    AloneStep(s, 2);
    AloneStep(s, 3);
    DoneElsewhere(t);
    var u := After(s, Alone(1));
    DoneElsewhere(u);
    match s.kind {
      case Role => RoleDelete(u, o, Answer(Done, false));
      case Policy => PolicyDelete(u, o, Answer(Done, false));
      case Engine =>
        EngineDelete(u, o, Answer(Done, false));
        EngineDelete(After(s, Alone(2)), o, Answer(Done, false));
        DoneElsewhere(After(s, Alone(2)));
    }
    DoneElsewhere(After(s, Alone(if s.kind.Engine? then 3 else 2)));
  }

  /** Without a client the finalizer deletes nothing and lets the object go. */
  lemma FinalizeWithoutClient(s: State, o: Object, c: CallResult)
    requires s.pc == BuildClient(o) && Stored(s).Some? && Stored(s).value.deleting && !c.Done?
    ensures var t := Next(Next(s, Answer(c, false)), Answer(Done, false));
      && t.pc.Idle? && t.vault == s.vault && Stored(t).None?
  {
    var u := Next(s, Answer(c, false));
    assert u.pc == RemoveFinalizer(o) && u.versions == s.versions && u.vault == s.vault;
    hide Next;
    DoneElsewhere(u);
  }
}
