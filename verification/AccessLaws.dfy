/** What every run of the access-request machine keeps, whatever users do, however far the
    cache lags, whichever calls fail or lose their answers. */
module AccessLaws {
  import opened Results
  import opened AccessRequest
  import Hold = FinalizerHold

  // ----- the finalizer holds the object while the worker issues -----

  /** What matters of a version for the finalizer. */
  function MarkOf(o: Request): Hold.Mark {
    Hold.Mark(o.deleting, o.finalizer)
  }

  function Shape(v: Option<Request>): Option<Hold.Mark> {
    Hold.MarkOne(v, MarkOf)
  }

  function Shapes(vs: seq<Option<Request>>): seq<Option<Hold.Mark>> {
    Hold.Marks(vs, MarkOf)
  }

  function Phase(pc: Pc): Hold.Phase {
    match pc
    case Idle => Hold.Idle
    case AddFinalizer(_) => Hold.Adding
    case FinManager(_) => Hold.Finalizing
    case FinRevoke(_) => Hold.Finalizing
    case RemoveFinalizer(_, _) => Hold.Finalizing
    case _ => Hold.Working
  }

  predicate HeldInv(s: State) {
    Hold.AllSettled(s.versions, MarkOf) && Hold.WorkerInv(Shapes(s.versions), Phase(s.pc))
  }

  predicate Held(s: State) {
    Stored(s).Some? && Stored(s).value.finalizer
  }

  lemma ShapesAppend(vs: seq<Option<Request>>, v: Option<Request>)
    ensures Shapes(vs + [v]) == Shapes(vs) + [Shape(v)]
  {
  }

  lemma ShapesTail(vs: seq<Option<Request>>)
    requires vs != []
    ensures Shapes(vs[1..]) == Shapes(vs)[1..]
  {
  }

  lemma ShapesEnds(s: State)
    ensures Hold.Last(Shapes(s.versions)) == Shape(Stored(s)) && Hold.View(Shapes(s.versions)) == Shape(View(s))
    ensures Hold.Carries(Hold.Last(Shapes(s.versions))) <==> Held(s)
  {
  }

  lemma StoreKeepsHeld(s: State, o: Request)
    requires HeldInv(s) && Stored(s).Some?
    requires o.deleting == Stored(s).value.deleting && o.finalizer == Stored(s).value.finalizer
    ensures Store(s, o) == s.(versions := s.versions + [Some(o)]) && HeldInv(Store(s, o))
    ensures Held(Store(s, o)) == Held(s)
  {
    ShapesEnds(s);
    ShapesAppend(s.versions, Some(o));
    Hold.Stutter(Shapes(s.versions), Phase(s.pc));
    hide Shapes, Hold.WorkerInv;
    assert Stored(s) in s.versions;
  }

  lemma FinalizerPatchKeepsHeld(s: State, on: bool, c: CallResult)
    requires HeldInv(s) && s.versions != []
    ensures Shapes(Patch(s, SetFinalizer(on), c).versions) == Hold.Patched(Shapes(s.versions), on, c)
    ensures Hold.AllSettled(Patch(s, SetFinalizer(on), c).versions, MarkOf)
  {
    ShapesEnds(s);
    hide Shapes, Hold.WorkerInv;
    if Stored(s).Some? && !c.Failed? {
      var o := Stored(s).value.(finalizer := on);
      ShapesAppend(s.versions, if o.deleting && !on then None else Some(o));
    }
  }

  lemma OthersKeepHeld(s: State, a: Action)
    requires HeldInv(s) && ByOthers(a)
    ensures HeldInv(Next(s, a)) && Held(Next(s, a)) == Held(s)
  {
    hide HeldInv, Frozen;
    match a
    case UserCreates(_) => ExistenceKeepsHeld(s, a, Hold.Creation);
    case UserDeletes => ExistenceKeepsHeld(s, a, Hold.Deletion);
    case CacheCatchesUp => CatchUpKeepsHeld(s);
    case EditConditions(cs) =>
      if Stored(s).Some? { StoreKeepsHeld(s, Stored(s).value.(conditions := cs)); }
    case EditSpec(spec) =>
      if Stored(s).Some? {
        StoreKeepsHeld(s, Stored(s).value.(spec := spec, generation := Stored(s).value.generation + 1));
      }
  }

  lemma ExistenceKeepsHeld(s: State, a: Action, change: Hold.Change)
    requires HeldInv(s)
    requires (a.UserCreates? && change.Creation?) || (a.UserDeletes? && change.Deletion?)
    ensures HeldInv(Next(s, a)) && Held(Next(s, a)) == Held(s)
  {
    var t := Next(s, a);
    ShapesEnds(s);
    ShapesEnds(t);
    ShapesAppend(s.versions, Stored(t));
    Hold.ChangesKeepWorkerInv(Shapes(s.versions), Phase(s.pc), change);
    hide Shapes, Hold.WorkerInv;
    assert Stored(s) in s.versions || s.versions == [];
  }

  lemma CatchUpKeepsHeld(s: State)
    requires HeldInv(s)
    ensures HeldInv(Next(s, CacheCatchesUp)) && Held(Next(s, CacheCatchesUp)) == Held(s)
  {
    if |s.versions| > 1 {
      ShapesTail(s.versions);
      ShapesEnds(s);
      ShapesEnds(Next(s, CacheCatchesUp));
      Hold.ChangesKeepWorkerInv(Shapes(s.versions), Phase(s.pc), Hold.CatchUp);
      assert |Shapes(s.versions)| == |s.versions|;
      hide Shapes, Hold.WorkerInv;
    }
  }

  /** What the worker is allowed to hold in its hands at each position. */
  predicate Approved(req: Request) {
    !req.deleting && Decision(req.conditions) == Some(RequestApproved) && !Processed(req)
  }

  predicate PcInv(s: State) {
    match s.pc
    case Idle => true
    case AddFinalizer(req) => !req.deleting && !req.finalizer
    case Wait(req) => !req.deleting && Decision(req.conditions).None?
    case BuildManager(req) => Approved(req)
    case NoteManager(req) => Approved(req)
    case Get(req) => Approved(req) && !HasRefs(req)
    case CreateSecret(req, _) => Approved(req) && !HasRefs(req)
    case RevokeNew(req, _) => Approved(req) && !HasRefs(req)
    case Record(req, _, _) => Approved(req) && !HasRefs(req)
    case CreateRole(req, _) => Approved(req) && !HasRefs(req) && Stored(s).Some? && Stored(s).value.secret.Some?
    case CreateBinding(req, _) => Approved(req) && !HasRefs(req) && Stored(s).Some? && Stored(s).value.secret.Some?
    case Finish(req) => Approved(req) && !HasRefs(req) && Stored(s).Some? && Stored(s).value.secret.Some?
    case Note(req) => Approved(req)
    case RevokeOld(req) => Approved(req)
    case DeleteOld(req, revoked) => Approved(req) && (revoked ==> LeaseSet(s.client, req.lease) !! s.leases)
    case Clear(req) => Approved(req) && LeaseSet(s.client, req.lease) !! s.leases && SecretSet(req.secret) !! s.secrets
    case FinManager(req) => req.deleting && req.finalizer
    case FinRevoke(req) => req.deleting && req.finalizer
    case RemoveFinalizer(req, skipped) =>
      req.deleting && req.finalizer && (!skipped ==> LeaseSet(s.client, req.lease) !! s.leases)
  }

  predicate Inv(s: State) {
    HeldInv(s) && PcInv(s)
  }

  lemma PatchKeepsHeld(s: State, u: Update, c: CallResult)
    requires HeldInv(s) && !u.SetFinalizer?
    ensures HeldInv(Patch(s, u, c)) && Held(Patch(s, u, c)) == Held(s)
    ensures Patch(s, u, c).pc == s.pc && Patch(s, u, c).leases == s.leases && Patch(s, u, c).secrets == s.secrets
    ensures Patch(s, u, c).client == s.client
    ensures Stored(Patch(s, u, c)) ==
            if c.Failed? || Stored(s).None? then Stored(s) else Some(Apply(u, Stored(s).value))
  {
    hide HeldInv;
    if Stored(s).Some? {
      StoreKeepsHeld(s, Apply(u, Stored(s).value));
    }
  }

  lemma InvBegin(s: State)
    requires Inv(s)
    ensures Inv(Next(s, Begin))
  {
    if s.pc.Idle? {
      var vs := Shapes(s.versions);
      ShapesEnds(s);
      Hold.DispatchKeepsWorkerInv(vs);
      Hold.PhaseMoves(vs);
      hide Hold.WorkerInv, Shapes;
    }
  }

  lemma InvFinalizerPatch(s: State, c: CallResult, id: string)
    requires Inv(s) && (s.pc.AddFinalizer? || s.pc.RemoveFinalizer?)
    ensures Inv(Work(s, c, id))
  {
    var on := s.pc.AddFinalizer?;
    var vs, t := Shapes(s.versions), Patch(s, SetFinalizer(on), c);
    FinalizerPatchKeepsHeld(s, on, c);
    Hold.PatchKeepsWorkerInv(vs, c);
    ShapesEnds(s);
    Hold.PhaseMoves(Shapes(t.versions));
    assert Hold.WorkerInv(Shapes(t.versions), if on then Hold.Adding else Hold.Finalizing);
    hide Hold.WorkerInv, Shapes, Hold.Patched;
    PatchKeepsOthers(s, on, c);
    DecideInv(s, t, c);
  }

  lemma PatchKeepsOthers(s: State, on: bool, c: CallResult)
    ensures Patch(s, SetFinalizer(on), c).pc == s.pc && Patch(s, SetFinalizer(on), c).leases == s.leases
    ensures Patch(s, SetFinalizer(on), c).client == s.client
  {
  }

  lemma DecideInv(s: State, t: State, c: CallResult)
    ensures s.pc.AddFinalizer? && !s.pc.req.deleting ==> PcInv(t.(pc := Decide(s.pc.req))) && PcInv(t.(pc := Idle))
    ensures PcInv(t.(pc := Idle))
    ensures s.pc.AddFinalizer? ==> Phase(Decide(s.pc.req)) == Hold.Working || Decide(s.pc.req).Idle?
  {
  }

  /** The status updates. */
  function UpdateOf(pc: Pc): Option<Update> {
    match pc
    case Wait(_) => Some(SetPhase)
    case NoteManager(req) => Some(SetManagerFailed(req.generation))
    case Record(_, lease, secret) => Some(SetRefs(lease, secret))
    case Finish(req) => Some(SetIssued(req.generation))
    case Note(_) => Some(SetFailed)
    case Clear(req) => Some(ClearRefs(req.generation))
    case _ => None
  }

  lemma InvUpdate(s: State, c: CallResult, id: string)
    requires Inv(s) && UpdateOf(s.pc).Some?
    ensures Inv(Work(s, c, id))
  {
    var u := UpdateOf(s.pc).value;
    Hold.PhaseMoves(Shapes(s.versions));
    ShapesEnds(s);
    PatchKeepsHeld(s, u, c);
    Hold.PhaseMoves(Shapes(Patch(s, u, c).versions));
    UpdateMoves(s, c, id);
    hide Hold.WorkerInv, Shapes, Hold.AllSettled, Approved, Patch, Work, PcInv;
  }

  /** Where a status update leaves the worker. */
  lemma UpdateMoves(s: State, c: CallResult, id: string)
    requires PcInv(s) && HeldInv(s) && UpdateOf(s.pc).Some?
    ensures var t := Work(s, c, id);
      && PcInv(t) && t.versions == Patch(s, UpdateOf(s.pc).value, c).versions
      && (Phase(t.pc).Idle? || Phase(t.pc).Working?) && (s.pc.Wait? ==> Phase(t.pc).Idle?)
  {
    PatchKeepsHeld(s, UpdateOf(s.pc).value, c);
    hide HeldInv, Approved, Patch;
  }

  predicate CallAt(pc: Pc) {
    UpdateOf(pc).None? && !pc.AddFinalizer? && !pc.RemoveFinalizer?
  }

  /** The calls to Vault and for secrets and roles. */
  lemma InvCall(s: State, c: CallResult, id: string)
    requires Inv(s) && CallAt(s.pc)
    ensures Inv(Work(s, c, id))
  {
    CallWrites(s, c, id);
    CallPhase(s, c, id);
    CallKeepsPcInv(s, c, id);
    hide Work, PcInv, CallAt;
    Hold.PhaseMoves(Shapes(s.versions));
    hide Hold.WorkerInv, Shapes;
  }

  lemma CallWrites(s: State, c: CallResult, id: string)
    requires CallAt(s.pc)
    ensures Work(s, c, id).versions == s.versions
  {
  }

  lemma CallPhase(s: State, c: CallResult, id: string)
    requires CallAt(s.pc)
    ensures Phase(Work(s, c, id).pc) == Phase(s.pc) || Phase(Work(s, c, id).pc) == Hold.Idle
    ensures Phase(s.pc) in {Hold.Idle, Hold.Working, Hold.Finalizing}
  {
  }

  lemma CallKeepsPcInv(s: State, c: CallResult, id: string)
    requires PcInv(s) && HeldInv(s) && CallAt(s.pc)
    ensures PcInv(Work(s, c, id))
  {
    CallWrites(s, c, id);
    hide HeldInv, Approved, CallAt;
  }

  lemma InvOthers(s: State, a: Action)
    requires Inv(s) && ByOthers(a)
    ensures Inv(Next(s, a))
  {
    OthersKeepHeld(s, a);
    ShapesEnds(s);
    ShapesEnds(Next(s, a));
    Hold.PhaseMoves(Shapes(s.versions));
    hide Hold.WorkerInv, Shapes, Hold.AllSettled, Processed, Decision;
  }

  lemma InvNext(s: State, a: Action)
    requires Inv(s)
    ensures Inv(Next(s, a))
  {
    hide Inv, Work, ByUsers;
    match a
    case Begin => InvBegin(s);
    case Answer(c, id) =>
      if s.pc.AddFinalizer? || s.pc.RemoveFinalizer? {
        InvFinalizerPatch(s, c, id);
      } else if UpdateOf(s.pc).Some? {
        InvUpdate(s, c, id);
      } else {
        InvCall(s, c, id);
      }
    case _ => InvOthers(s, a);
  }

  lemma {:induction false} InvHolds(acts: seq<Action>)
    ensures Inv(After(Init(), acts))
  {
    if acts == [] {
      InvInit();
    } else {
      InvHolds(acts[..|acts| - 1]);
      InvNext(After(Init(), acts[..|acts| - 1]), acts[|acts| - 1]);
      hide Inv, Next;
    }
  }

  lemma InvInit()
    ensures Inv(Init())
  {
    assert Shapes(Init().versions) == [None];
  }

  // ----- the gate -----

  function Snapshot(pc: Pc): Option<Request> {
    if pc.Idle? then None else Some(pc.req)
  }

  /** A credential is requested exactly when the worker makes that call; it then works from an
      approved and unprocessed snapshot without lease or secret, and the stored object carries
      the finalizer. */
  lemma RequestsAreGated(acts: seq<Action>, a: Action)
    ensures var s := After(Init(), acts);
      && After(Init(), acts + [a]).requests == s.requests + (if s.pc.Get? && a.Answer? then 1 else 0)
      && (s.pc.Get? ==> Approved(s.pc.req) && !HasRefs(s.pc.req) && Held(s))
  {
    var s := After(Init(), acts);
    InvHolds(acts);
    AfterOneMore(Init(), acts, a);
    ShapesEnds(s);
    Hold.PhaseMoves(Shapes(s.versions));
    hide After, Hold.WorkerInv, Shapes, Apply, Decide, Dispatch;
  }

  /** Every snapshot is a version that the cache showed. */
  lemma {:induction false} SnapshotFromCache(acts: seq<Action>) returns (n: nat)
    requires !After(Init(), acts).pc.Idle?
    ensures n <= |acts| && View(After(Init(), acts[..n])) == Snapshot(After(Init(), acts).pc)
  {
    var before, a := acts[..|acts| - 1], acts[|acts| - 1];
    var s := After(Init(), before);
    SnapshotStays(s, a);
    hide Next, After;
    if s.pc.Idle? {
      n := |acts| - 1;
    } else {
      n := SnapshotFromCache(before);
      assert before[..n] == acts[..n];
    }
  }

  lemma SnapshotStays(s: State, a: Action)
    ensures !Next(s, a).pc.Idle? ==>
      Snapshot(Next(s, a).pc) == if s.pc.Idle? then View(s) else Snapshot(s.pc)
  {
    hide Apply, Processed, Decision;
  }

  /** Whatever is stored, the snapshot decides: a run reaches the request for a credential if
      and only if its snapshot is live, approved, unprocessed and without references, the
      finalizer is there or could be added, and there is a credential manager. */
  lemma SnapshotDecides(s: State, v: Request, c0: CallResult, c1: CallResult)
    requires s.pc.Idle? && View(s) == Some(v)
    ensures var t := if v.finalizer then Next(s, Begin) else Work(Next(s, Begin), c0, "");
      Work(t, c1, "").pc == Get(v) <==>
      Approved(v) && !HasRefs(v) && (v.finalizer || Acknowledged(s, c0)) && c1.Done?
  {
    hide Store, Apply, Processed, Decision;
  }

  // ----- single runs, users interfering -----

  lemma {:induction false} OthersKeep(s: State, us: seq<Action>)
    requires Inv(s) && Held(s) && forall u <- us :: ByOthers(u)
    ensures var t := After(s, us);
      && Inv(t) && Held(t) && t.pc == s.pc && t.requests == s.requests && t.client == s.client
      && t.leases == s.leases && t.secrets == s.secrets
      && Stored(t).value.lease == Stored(s).value.lease && Stored(t).value.secret == Stored(s).value.secret
  {
    if us != [] {
      var before, u := us[..|us| - 1], us[|us| - 1];
      OthersKeep(s, before);
      OthersKeepOne(After(s, before), u);
      hide Inv, Next;
    }
  }

  lemma OthersKeepOne(s: State, u: Action)
    requires Inv(s) && Held(s) && ByOthers(u)
    ensures var t := Next(s, u);
      && Inv(t) && Held(t) && t.pc == s.pc && t.requests == s.requests && t.client == s.client
      && t.leases == s.leases && t.secrets == s.secrets
      && Stored(t).value.lease == Stored(s).value.lease && Stored(t).value.secret == Stored(s).value.secret
  {
    OthersKeepHeld(s, u);
    InvNext(s, u);
    hide HeldInv, PcInv;
  }

  /** The worker's next call, after others have acted. */
  function Call(s: State, us: seq<Action>, c: CallResult, id: string): State {
    Work(After(s, us), c, id)
  }

  lemma CallKeeps(s: State, us: seq<Action>, c: CallResult, id: string)
    requires Inv(s) && Held(s) && (forall u <- us :: ByOthers(u)) && !s.pc.RemoveFinalizer?
    ensures Inv(Call(s, us, c, id)) && Held(Call(s, us, c, id))
  {
    OthersKeep(s, us);
    var t := After(s, us);
    InvNext(t, Answer(c, id));
    assert t.pc == s.pc;
    WorkKeepsHeld(t, c, id);
  }

  lemma WorkKeepsHeld(s: State, c: CallResult, id: string)
    requires Inv(s) && Held(s) && !s.pc.RemoveFinalizer?
    ensures Held(Work(s, c, id))
  {
    hide HeldInv, PcInv, Decision, Processed;
  }

  lemma PrepareIsHeld(s: State)
    requires Inv(s) && Phase(s.pc).Working?
    ensures Held(s)
  {
    ShapesEnds(s);
    Hold.PhaseMoves(Shapes(s.versions));
    hide Hold.WorkerInv, Shapes;
  }

  /** A run that finds a lease or a secret from an earlier cycle never issues. It clears the
      references if and only if the lease could be revoked, the secret deleted and the status
      written, and then both are gone. */
  lemma CleanupRun(s: State, us1: seq<Action>, c1: CallResult, us2: seq<Action>, c2: CallResult, us3: seq<Action>, c3: CallResult)
    requires Inv(s) && s.pc.RevokeOld? && (Stored(s).Some? ==> HasRefs(Stored(s).value))
    requires forall u <- us1 + us2 + us3 :: ByOthers(u)
    ensures var t := Call(Call(Call(s, us1, c1, ""), us2, c2, ""), us3, c3, "");
      && Stored(t).Some? && t.pc.Idle? && t.requests == s.requests
      && t.leases == s.leases - (if c1.Failed? then {} else LeaseSet(s.client, s.pc.req.lease))
      && t.secrets == s.secrets - (if c2.Failed? then {} else SecretSet(s.pc.req.secret))
      && (!HasRefs(Stored(t).value) <==>
            && (c1.Done? || LeaseSet(s.client, s.pc.req.lease) == {})
            && (c2.Done? || s.pc.req.secret.None?) && !c3.Failed?)
      && (!HasRefs(Stored(t).value) ==>
            LeaseSet(s.client, s.pc.req.lease) !! t.leases && SecretSet(s.pc.req.secret) !! t.secrets)
  {
    PrepareIsHeld(s);
    OthersOnly(us1, us2, us3);
    var s1 := Call(s, us1, c1, "");
    var s2 := Call(s1, us2, c2, "");
    OthersKeep(s, us1);
    CallKeeps(s, us1, c1, "");
    RevokeStep(After(s, us1), c1);
    OthersKeep(s1, us2);
    CallKeeps(s1, us2, c2, "");
    DeleteStep(After(s1, us2), c2);
    OthersKeep(s2, us3);
    ClearStep(After(s2, us3), c3);
    hide Inv, After, Held, Work, HasRefs;
  }

  lemma RevokeStep(s: State, c: CallResult)
    requires s.pc.RevokeOld? && Held(s)
    ensures var req := s.pc.req;
      Work(s, c, "") == s.(leases := s.leases - (if c.Failed? then {} else LeaseSet(s.client, req.lease)),
                           pc := DeleteOld(req, c.Done? || LeaseSet(s.client, req.lease) == {}))
    ensures Stored(Work(s, c, "")) == Stored(s)
  {
  }

  lemma DeleteStep(s: State, c: CallResult)
    requires s.pc.DeleteOld? && Held(s)
    ensures var req := s.pc.req;
      Work(s, c, "") == s.(secrets := s.secrets - (if c.Failed? then {} else SecretSet(req.secret)),
                           pc := if s.pc.revoked && (c.Done? || req.secret.None?) then Clear(req) else Idle)
    ensures Stored(Work(s, c, "")) == Stored(s)
  {
  }

  lemma ClearStep(s: State, c: CallResult)
    requires (s.pc.Clear? || s.pc.Idle?) && Held(s)
    ensures var t := Work(s, c, "");
      && t.pc.Idle? && t.requests == s.requests && t.leases == s.leases && t.secrets == s.secrets && Stored(t).Some?
      && (HasRefs(Stored(t).value) <==> HasRefs(Stored(s).value) && (s.pc.Idle? || c.Failed?))
  {
  }

  lemma OthersOnly(us1: seq<Action>, us2: seq<Action>, us3: seq<Action>)
    requires forall u <- us1 + us2 + us3 :: ByOthers(u)
    ensures (forall u <- us1 :: ByOthers(u)) && (forall u <- us2 :: ByOthers(u)) && (forall u <- us3 :: ByOthers(u))
  {
    assert forall u <- us1 :: u in us1 + us2 + us3;
    assert forall u <- us2 :: u in us1 + us2 + us3;
    assert forall u <- us3 :: u in us1 + us2 + us3;
  }

  lemma EarlySteps(t: State, t1: State, t2: State, id: string)
    requires t.pc.Get?
    ensures Work(t, Failed, id).leases == t.leases && Work(t, Failed, id).secrets == t.secrets
    ensures Work(t, Done, id).client == t.client
    ensures Work(t, Done, id).pc == CreateSecret(t.pc.req, id) && Work(t, Done, id).secrets == t.secrets
    ensures Work(t, Done, id).leases == t.leases + LeaseSet(t.client, Some(id))
    ensures t1.pc.CreateSecret? ==> var w := Work(t1, Failed, "");
      && w.leases == t1.leases && w.secrets == t1.secrets && w.client == t1.client
      && w.pc == if t1.pc.lease != "" then RevokeNew(t1.pc.req, t1.pc.lease) else Note(t1.pc.req)
    ensures t2.pc.RevokeNew? ==>
      Work(t2, Done, "").leases == t2.leases - LeaseSet(t2.client, Some(t2.pc.lease)) && Work(t2, Done, "").secrets == t2.secrets
    ensures t2.pc.Note? && Held(t2) ==> Work(t2, Done, "").leases == t2.leases && Work(t2, Done, "").secrets == t2.secrets
  {
    hide SetCondition;
  }

  /** Failing to get a credential, or failing to store it with a working revocation, leaves
      the live leases and the secrets as they were. */
  lemma EarlyFailureLeavesNoLease(s: State, us1: seq<Action>, us2: seq<Action>, us3: seq<Action>, id: string)
    requires Inv(s) && s.pc.Get? && LeaseSet(s.client, Some(id)) !! s.leases
    requires forall u <- us1 + us2 + us3 :: ByOthers(u)
    ensures Call(s, us1, Failed, id).leases == s.leases && Call(s, us1, Failed, id).secrets == s.secrets
    ensures var t := Call(Call(Call(s, us1, Done, id), us2, Failed, ""), us3, Done, "");
      t.leases == s.leases && t.secrets == s.secrets
  {
    PrepareIsHeld(s);
    OthersOnly(us1, us2, us3);
    var s1 := Call(s, us1, Done, id);
    var s2 := Call(s1, us2, Failed, "");
    OthersKeep(s, us1);
    CallKeeps(s, us1, Done, id);
    OthersKeep(s1, us2);
    CallKeeps(s1, us2, Failed, "");
    OthersKeep(s2, us3);
    EarlySteps(After(s, us1), After(s1, us2), After(s2, us3), id);
    hide Inv, After, Held, Work;
  }
}
