/** Two promises over whole runs, and exactly what the cache must have seen for them: an issued
    credential is not issued again, and what is bound to it are the approved subjects. */
module AccessRuns {
  import opened Results
  import opened AccessRequest
  import opened AccessLaws
  import opened AccessLeases
  import Hold = FinalizerHold

  // ----- no second credential -----

  /** A request whose credential was issued and recorded, with no failure noted. */
  predicate Settled(o: Request) {
    o.secret.Some? && !Has(o.conditions, ConditionFailed)
  }

  lemma SettledIsProcessed(o: Request)
    requires Settled(o)
    ensures !Approved(o)
  {
  }

  /** A successful run settles the request. */
  lemma IssuedIsSettled(acts: seq<Action>, c: CallResult, id: string)
    requires After(Init(), acts).pc.Finish? && !c.Failed?
    ensures var t := After(Init(), acts + [Answer(c, id)]);
      Stored(t).Some? && Settled(Stored(t).value) && (c.Done? ==> t.pc.Idle?)
  {
    hide *;
    InvHolds(acts);
    AfterOneMore(Init(), acts, Answer(c, id));
    FinishSettles(After(Init(), acts), c, id);
  }

  lemma FinishSettles(s: State, c: CallResult, id: string)
    requires Inv(s) && s.pc.Finish? && !c.Failed?
    ensures var t := Next(s, Answer(c, id));
      Stored(t).Some? && Settled(Stored(t).value) && (c.Done? ==> t.pc.Idle?)
  {
    PrepareIsHeld(s);
    SetIssuedSettles(Stored(s).value, s.pc.req.generation);
    PatchKeepsHeld(s, SetIssued(s.pc.req.generation), c);
    hide HeldInv, Settled, Apply, Patch;
  }

  lemma SetIssuedSettles(o: Request, g: int)
    requires o.secret.Some?
    ensures Settled(Apply(SetIssued(g), o))
  {
    HasAfterRemove(o.conditions, ConditionFailed, ConditionFailed);
    HasAfterSet(RemoveCondition(o.conditions, ConditionFailed), ConditionAvailable, ConditionFailed);
    hide Has, SetCondition, RemoveCondition;
  }

  /** The cache is past every version that is approved and not processed. */
  predicate CaughtUp(versions: seq<Option<Request>>) {
    forall v <- versions :: v.Some? ==> !Approved(v.value)
  }

  /** People edit approvals, not failures, and do not create the request anew. */
  predicate Proper(s: State, a: Action) {
    && !a.UserCreates?
    && (a.EditConditions? && Stored(s).Some? ==>
          (Has(a.conditions, ConditionFailed) <==> Has(Stored(s).value.conditions, ConditionFailed)))
  }

  ghost predicate AllProper(s: State, acts: seq<Action>) {
    forall n | 0 <= n < |acts| :: Proper(After(s, acts[..n]), acts[n])
  }

  /** No credential was requested since, and while the request exists it is settled with the
      same references. */
  predicate Untouched(s: State, t: State) {
    && t.requests == s.requests
    && (Stored(t).Some? ==>
          && Stored(s).Some? && Settled(Stored(t).value)
          && Stored(t).value.lease == Stored(s).value.lease && Stored(t).value.secret == Stored(s).value.secret)
  }

  /** The positions that a worker takes when it never sees work to do. */
  predicate AtRest(pc: Pc) {
    match pc
    case Idle => true
    case AddFinalizer(req) => !Approved(req)
    case Wait(_) => true
    case FinManager(_) => true
    case FinRevoke(_) => true
    case RemoveFinalizer(_, _) => true
    case _ => false
  }

  predicate Resting(s: State) {
    CaughtUp(s.versions) && AtRest(s.pc) && (Stored(s).Some? ==> Settled(Stored(s).value))
  }

  lemma StoreRests(s: State, o: Request)
    requires CaughtUp(s.versions) && Settled(o)
    ensures CaughtUp(Store(s, o).versions) && Store(s, o).pc == s.pc && Store(s, o).requests == s.requests
    ensures Stored(Store(s, o)).Some? ==> Stored(Store(s, o)) == Some(o)
  {
    SettledIsProcessed(o);
    hide Settled, Approved;
  }

  lemma DispatchRests(v: Option<Request>)
    requires v.Some? ==> !Approved(v.value)
    ensures AtRest(Dispatch(v))
    ensures v.Some? && !v.value.deleting ==> AtRest(Decide(v.value))
  {
  }

  lemma RestingOthers(s: State, a: Action)
    requires Resting(s) && ByOthers(a) && Proper(s, a)
    ensures Resting(Next(s, a)) && Untouched(s, Next(s, a))
  {
    var o := Stored(s);
    hide CaughtUp, Frozen, Has;
    match a
    case UserDeletes => if o.Some? { StoreRests(s, o.value.(deleting := true)); }
    case EditConditions(cs) => if o.Some? { StoreRests(s, o.value.(conditions := cs)); }
    case EditSpec(spec) =>
      if o.Some? { StoreRests(s, o.value.(spec := spec, generation := o.value.generation + 1)); }
    case CacheCatchesUp => CatchUpRests(s);
  }

  lemma CatchUpRests(s: State)
    requires CaughtUp(s.versions)
    ensures CaughtUp(ByUsers(s, CacheCatchesUp).versions) && Stored(ByUsers(s, CacheCatchesUp)) == Stored(s)
  {
  }

  /** A write of a resting worker. */
  predicate RestingUpdate(u: Update) {
    u.SetFinalizer? || u.SetPhase?
  }

  lemma RestingPatch(s: State, u: Update, c: CallResult)
    requires CaughtUp(s.versions) && (Stored(s).Some? ==> Settled(Stored(s).value)) && RestingUpdate(u)
    ensures var t := Patch(s, u, c);
      && CaughtUp(t.versions) && t.requests == s.requests && (Stored(t).Some? ==> Stored(s).Some? && SameStatus(Stored(s).value, Stored(t).value))
  {
    if Stored(s).Some? {
      StoreRests(s, Apply(u, Stored(s).value));
    }
    hide CaughtUp, Has, Store;
  }

  predicate SameStatus(o: Request, o': Request) {
    && o'.conditions == o.conditions && o'.lease == o.lease && o'.secret == o.secret
    && o'.observedGeneration == o.observedGeneration && o'.spec == o.spec
  }

  /** A worker at rest requests nothing and leaves the status as it is, but for the waiting
      phase. */
  lemma RestingWork(s: State, c: CallResult, id: string)
    requires Resting(s) && (s.pc.AddFinalizer? ==> !s.pc.req.deleting)
    ensures Resting(Work(s, c, id)) && Untouched(s, Work(s, c, id))
    ensures Stored(Work(s, c, id)).Some? ==>
      Stored(s).Some? && SameStatus(Stored(s).value, Stored(Work(s, c, id)).value)
  {
    hide CaughtUp, Has, Patch, Decide, Approved;
    match s.pc
    case AddFinalizer(req) =>
      RestingPatch(s, SetFinalizer(true), c);
      DispatchRests(Some(req));
    case Wait(_) => RestingPatch(s, SetPhase, c);
    case RemoveFinalizer(_, _) => RestingPatch(s, SetFinalizer(false), c);
    case _ =>
  }

  lemma RestingStep(s: State, a: Action)
    requires Inv(s) && Resting(s) && Proper(s, a)
    ensures Resting(Next(s, a)) && Untouched(s, Next(s, a))
  {
    match a
    case Begin =>
      if s.pc.Idle? {
        if s.versions != [] { assert View(s) in s.versions; }
        DispatchRests(View(s));
        hide Approved, Settled, Dispatch;
      }
    case Answer(c, id) => RestingWork(s, c, id);
    case _ => RestingOthers(s, a);
  }

  lemma {:induction false} RestingHolds(s: State, acts: seq<Action>)
    requires Inv(s) && Resting(s) && AllProper(s, acts)
    ensures Inv(After(s, acts)) && Resting(After(s, acts)) && Untouched(s, After(s, acts))
  {
    if acts != [] {
      var k := |acts| - 1;
      var before := acts[..k];
      assert AllProper(s, before) by {
        assert forall n | 0 <= n < k :: before[..n] == acts[..n] && before[n] == acts[n];
      }
      RestingHolds(s, before);
      var t := After(s, before);
      InvNext(t, acts[k]);
      RestingStep(t, acts[k]);
      hide Inv, Resting, Next, Settled, Proper;
    }
  }

  lemma {:induction false} CatchUpTo(s: State, j: nat) returns (acts: seq<Action>)
    requires j < |s.versions|
    ensures After(s, acts) == s.(versions := s.versions[j..])
    ensures forall a <- acts :: a.CacheCatchesUp?
  {
    acts := [];
    assert s.versions[0..] == s.versions;
    for k := 0 to j
      invariant After(s, acts) == s.(versions := s.versions[k..]) && forall a <- acts :: a.CacheCatchesUp?
    {
      AfterOneMore(s, acts, CacheCatchesUp);
      hide After;
      assert s.versions[k..][1..] == s.versions[k + 1..];
      acts := acts + [CacheCatchesUp];
    }
  }

  /** The worker's calls all succeed. */
  lemma Proceed(s: State, acts: seq<Action>, id: string) returns (more: seq<Action>)
    ensures more == acts + [Answer(Done, id)] && After(s, more) == Work(After(s, acts), Done, id)
  {
    more := acts + [Answer(Done, id)];
    AfterOneMore(s, acts, Answer(Done, id));
    hide After;
  }

  /** From a cache that still shows an approved, unprocessed version, the worker reaches the
      request for a credential, or the cleanup, in a few calls. */
  lemma ReachWork(s: State, v: Request) returns (acts: seq<Action>)
    requires s.pc.Idle? && View(s) == Some(v) && Approved(v) && Stored(s).Some? && Settled(Stored(s).value) && Inv(s)
    ensures forall a <- acts :: !ByOthers(a)
    ensures var t := After(s, acts);
      && t.pc == (if HasRefs(v) then RevokeOld(v) else Get(v)) && t.requests == s.requests
      && Stored(t).Some? && Stored(t).value.secret.Some?
  {
    AfterOneMore(s, [], Begin);
    acts := [Begin];
    assert [] + [Begin] == [Begin];
    var t := After(s, acts);
    hide After;
    assert t == s.(pc := if v.finalizer then BuildManager(v) else AddFinalizer(v));
    if !v.finalizer {
      acts := Proceed(s, acts, "");
      assert Stored(s) in s.versions;
    }
    acts := Proceed(s, acts, "");
  }

  /** A worker that reads such a version asks for another credential, or clears the references
      that are recorded. */
  lemma LaggingRead(s: State, v: Request) returns (acts: seq<Action>)
    requires Inv(s) && s.pc.Idle? && Stored(s).Some? && Settled(Stored(s).value)
    requires View(s) == Some(v) && Approved(v)
    ensures (forall a <- acts :: !ByOthers(a)) && !Untouched(s, After(s, acts))
  {
    acts := ReachWork(s, v);
    InvAfter(s, acts);
    hide After, Settled, Approved, Untouched, HeldInv, PcInv;
    if HasRefs(v) {
      PrepareIsHeld(After(s, acts));
      acts := CleanUp(s, acts);
    } else {
      acts := Proceed(s, acts, "");
      NewRequest(s, acts);
    }
  }

  lemma LaggingRun(s: State, j: nat) returns (acts: seq<Action>)
    requires Inv(s) && s.pc.Idle? && Stored(s).Some? && Settled(Stored(s).value)
    requires j < |s.versions| && s.versions[j].Some? && Approved(s.versions[j].value)
    ensures AllProper(s, acts) && !Untouched(s, After(s, acts))
  {
    var first := CatchUpTo(s, j);
    var s1 := s.(versions := s.versions[j..]);
    CatchUpInv(s, j);
    hide Inv, Settled, Approved, After;
    var rest := LaggingRead(s1, s.versions[j].value);
    AfterAppend(s, first, rest);
    acts := first + rest;
    hide Untouched;
    NobodyElse(s, acts);
    TouchedSince(s, s1, After(s, acts));
  }

  lemma NobodyElse(s: State, acts: seq<Action>)
    requires forall a <- acts :: !ByOthers(a) || a.CacheCatchesUp?
    ensures AllProper(s, acts)
  {
    hide After;
    forall n | 0 <= n < |acts| ensures Proper(After(s, acts[..n]), acts[n]) {
      assert acts[n] in acts;
    }
  }

  lemma TouchedSince(s: State, s1: State, t: State)
    requires Stored(s1) == Stored(s) && s1.requests == s.requests
    ensures Untouched(s, t) == Untouched(s1, t)
  {
    hide Settled;
  }

  lemma NewRequest(s: State, acts: seq<Action>)
    requires After(s, acts).requests != s.requests
    ensures !Untouched(s, After(s, acts))
  {
  }

  /** A cleanup whose calls succeed clears the references. */
  lemma CleanUp(s: State, acts: seq<Action>) returns (more: seq<Action>)
    requires After(s, acts).pc.RevokeOld? && Held(After(s, acts)) && Stored(s).Some? && Stored(s).value.secret.Some?
    ensures more == acts + [Answer(Done, ""), Answer(Done, ""), Answer(Done, "")]
    ensures !Untouched(s, After(s, more))
  {
    hide Settled, After;
    more := Proceed(s, acts, "");
    more := Proceed(s, more, "");
    more := Proceed(s, more, "");
    var t := After(s, more);
    assert Stored(t).Some? && Stored(t).value.secret.None?;
  }

  lemma CatchUpInv(s: State, j: nat)
    requires Inv(s) && j < |s.versions|
    ensures Inv(s.(versions := s.versions[j..])) && Stored(s.(versions := s.versions[j..])) == Stored(s)
  {
    var acts := CatchUpTo(s, j);
    InvAfter(s, acts);
  }

  lemma {:induction false} InvAfter(s: State, acts: seq<Action>)
    requires Inv(s)
    ensures Inv(After(s, acts))
  {
    if acts != [] {
      InvAfter(s, acts[..|acts| - 1]);
      InvNext(After(s, acts[..|acts| - 1]), acts[|acts| - 1]);
      hide Inv, Next;
    }
  }

  /** After a successful run no later run requests another credential or touches the recorded
      references, whatever people do to approval, spec and object: if and only if the cache has
      caught up with the versions that were approved and not yet processed. */
  lemma NeverIssuedTwice(s: State)
    requires Inv(s) && s.pc.Idle? && Stored(s).Some? && Settled(Stored(s).value)
    ensures CaughtUp(s.versions) <==> forall acts | AllProper(s, acts) :: Untouched(s, After(s, acts))
  {
    if CaughtUp(s.versions) {
      forall acts | AllProper(s, acts) ensures Untouched(s, After(s, acts)) {
        RestingHolds(s, acts);
      }
    } else {
      hide Inv, Approved, Settled;
      var j :| 0 <= j < |s.versions| && s.versions[j].Some? && Approved(s.versions[j].value);
      var acts := LaggingRun(s, j);
    }
  }

  // ----- the finalizer of a settled request -----

  /** Every version in sight, and the snapshot in use, have the lease that is stored; and the
      object is held. */
  predicate LeaseSeen(s: State) {
    Stored(s).Some? ==>
      && Held(s)
      && (forall v <- s.versions :: v.Some? ==> v.value.lease == Stored(s).value.lease)
      && (Snapshot(s.pc).Some? ==> Snapshot(s.pc).value.lease == Stored(s).value.lease)
  }

  /** The finalizer could build no credential manager, or its revocation went to another Vault
      than that of the lease. */
  predicate NoRevocation(s: State) {
    s.pc.RemoveFinalizer? &&
    (s.pc.skipped || exists l <- s.leases :: s.pc.req.lease == Some(l.id) && l.vault != s.client)
  }

  lemma FinalizingIsDeleting(s: State)
    requires Inv(s) && s.pc.RemoveFinalizer? && Held(s)
    ensures Stored(s).value.deleting
  {
    ShapesEnds(s);
    Hold.FinalizedIsDying(Shapes(s.versions));
  }

  lemma LeaseSeenStep(s: State, a: Action)
    requires Inv(s) && Resting(s) && LeaseSeen(s) && Proper(s, a)
    ensures LeaseSeen(Next(s, a))
    ensures Abandoned(s, a) != {} ==> NoRevocation(s)
  {
    var t := Next(s, a);
    RestingStep(s, a);
    SnapshotStays(s, a);
    VersionsGrow(s, a);
    if s.pc.RemoveFinalizer? && Stored(s).Some? {
      FinalizingIsDeleting(s);
    }
    HeldUntilGone(s, a);
    hide Next, HeldInv, Settled, CaughtUp, Proper;
    assert s.versions != [] ==> View(s) in s.versions;
    assert forall v <- t.versions :: v in s.versions || v == Stored(t);
  }

  lemma HeldUntilGone(s: State, a: Action)
    requires Inv(s) && (Held(s) || Stored(s).None?) && !a.UserCreates?
    ensures Stored(Next(s, a)).Some? ==> Held(Next(s, a))
  {
    match a
    case Answer(c, id) =>
      if Stored(s).None? {
        GoneStays(s, c, id);
      } else if s.pc.RemoveFinalizer? {
        FinalizingIsDeleting(s);
      } else {
        WorkKeepsHeld(s, c, id);
      }
    case Begin =>
    case _ => if Stored(s).Some? { OthersKeepHeld(s, a); }
  }

  lemma GoneStays(s: State, c: CallResult, id: string)
    requires Stored(s).None?
    ensures Stored(Work(s, c, id)).None?
  {
  }

  /** From a settled request whose references the whole cache has seen, nothing ever loses the
      lease but a finalizer that could build no credential manager, or one whose role refers to
      another Vault by then. */
  lemma {:induction false} OnlySkipsLoseLease(s: State, acts: seq<Action>, n: nat)
    requires Inv(s) && Resting(s) && LeaseSeen(s) && AllProper(s, acts) && n < |acts|
    ensures var t := After(s, acts[..n]);
      LeaseSeen(t) && (Abandoned(t, acts[n]) != {} ==> NoRevocation(t))
  {
    hide *;
    ProperAt(s, acts, n);
    RestingHolds(s, acts[..n]);
    if n == 0 {
      AfterNothing(s, acts);
    } else {
      OnlySkipsLoseLease(s, acts, n - 1);
      ProperAt(s, acts, n - 1);
      RestingHolds(s, acts[..n - 1]);
      AfterNext(s, acts, n - 1);
      LeaseSeenStep(After(s, acts[..n - 1]), acts[n - 1]);
    }
    LeaseSeenStep(After(s, acts[..n]), acts[n]);
  }

  lemma ProperAt(s: State, acts: seq<Action>, n: nat)
    requires AllProper(s, acts) && n < |acts|
    ensures AllProper(s, acts[..n]) && Proper(After(s, acts[..n]), acts[n])
  {
    hide Proper, After;
    assert forall i | 0 <= i < n :: acts[..n][..i] == acts[..i] && acts[..n][i] == acts[i];
  }

  lemma AfterNothing(s: State, acts: seq<Action>)
    ensures After(s, acts[..0]) == s
  {
  }

  // ----- whose secret it is -----

  /** The subjects bound to the secret are those of the stored spec. */
  predicate BoundRight(s: State) {
    s.binding.Some? && Stored(s).Some? ==> s.binding.value == Stored(s).value.spec.subjects
  }

  /** A decision stands throughout. */
  ghost predicate FrozenThroughout(s: State, acts: seq<Action>) {
    forall n | 0 <= n <= |acts| :: FrozenAt(After(s, acts[..n]))
  }

  predicate FrozenAt(s: State) {
    Stored(s).Some? && Frozen(Stored(s).value)
  }

  /** The step binds the subjects of the worker's snapshot. */
  predicate Binds(s: State, a: Action) {
    s.pc.CreateBinding? && a.Answer? && !a.c.Failed? && (OwnerExists(s, s.pc.req) || s.binding.Some?)
  }

  /** If it binds, the snapshot has the subjects that are stored. */
  predicate BindsRight(s: State, a: Action) {
    Binds(s, a) && Stored(s).Some? ==> s.pc.req.spec.subjects == Stored(s).value.spec.subjects
  }

  lemma FrozenStep(s: State, a: Action)
    requires FrozenAt(s) && FrozenAt(Next(s, a))
    ensures Stored(Next(s, a)).value.spec == Stored(s).value.spec
    ensures Next(s, a).binding == if Binds(s, a) then Some(s.pc.req.spec.subjects) else s.binding
  {
    match a
    case Answer(c, id) => WorkKeepsSpec(s, c, id);
    case Begin =>
    case _ => hide Has;
  }

  lemma PatchKeepsSpec(s: State, u: Update, c: CallResult)
    requires Stored(s).Some?
    ensures var t := Patch(s, u, c);
      Stored(t).Some? ==> Stored(t).value.spec == Stored(s).value.spec && t.binding == s.binding
  {
    hide SetCondition, RemoveCondition;
  }

  lemma WorkKeepsSpec(s: State, c: CallResult, id: string)
    requires Stored(s).Some? && Stored(Work(s, c, id)).Some?
    ensures Stored(Work(s, c, id)).value.spec == Stored(s).value.spec
    ensures Work(s, c, id).binding == if Binds(s, Answer(c, id)) then Some(s.pc.req.spec.subjects) else s.binding
  {
    hide Patch, Decide, Work;
    if UpdateOf(s.pc).Some? {
      PatchKeepsSpec(s, UpdateOf(s.pc).value, c);
      WritePatches(s, c, id);
    } else if s.pc.AddFinalizer? || s.pc.RemoveFinalizer? {
      PatchKeepsSpec(s, SetFinalizer(s.pc.AddFinalizer?), c);
      WritePatches(s, c, id);
    } else {
      CallWrites(s, c, id);
      CallBinds(s, c, id);
    }
  }

  lemma WritePatches(s: State, c: CallResult, id: string)
    requires UpdateOf(s.pc).Some? || s.pc.AddFinalizer? || s.pc.RemoveFinalizer?
    ensures var u := if UpdateOf(s.pc).Some? then UpdateOf(s.pc).value else SetFinalizer(s.pc.AddFinalizer?);
      Work(s, c, id) == Patch(s, u, c).(pc := Work(s, c, id).pc)
  {
    hide Patch, Decide;
  }

  lemma CallBinds(s: State, c: CallResult, id: string)
    requires CallAt(s.pc)
    ensures Work(s, c, id).binding == if Binds(s, Answer(c, id)) then Some(s.pc.req.spec.subjects) else s.binding
  {
  }

  ghost predicate AlwaysBoundRight(s: State, acts: seq<Action>) {
    forall n | 0 <= n <= |acts| :: BoundRight(After(s, acts[..n]))
  }

  ghost predicate AllBindRight(s: State, acts: seq<Action>) {
    forall n | 0 <= n < |acts| :: BindsRight(After(s, acts[..n]), acts[n])
  }

  lemma {:induction false} FrozenSpec(s: State, acts: seq<Action>, n: nat)
    requires FrozenThroughout(s, acts) && n <= |acts|
    ensures FrozenAt(After(s, acts[..n])) && FrozenAt(s)
    ensures Stored(After(s, acts[..n])).value.spec == Stored(s).value.spec
  {
    assert acts[..0] == [] && FrozenAt(After(s, acts[..0]));
    assert FrozenAt(After(s, acts[..n]));
    if n > 0 {
      FrozenSpec(s, acts, n - 1);
      AfterNext(s, acts, n - 1);
      FrozenStep(After(s, acts[..n - 1]), acts[n - 1]);
      hide Next, FrozenAt;
    }
  }

  /** While a decision stands the spec stays what it was; and the secret is bound to its
      subjects throughout if and only if every run that binds it read a version with them. */
  lemma BoundIffReadRight(s: State, acts: seq<Action>)
    requires FrozenThroughout(s, acts) && BoundRight(s)
    ensures Stored(s).Some? && forall n | 0 <= n <= |acts| ::
      Stored(After(s, acts[..n])).Some? && Stored(After(s, acts[..n])).value.spec == Stored(s).value.spec
    ensures AlwaysBoundRight(s, acts) <==> AllBindRight(s, acts)
  {
    FrozenSpec(s, acts, 0);
    forall n | 0 <= n <= |acts|
      ensures Stored(After(s, acts[..n])).Some? && Stored(After(s, acts[..n])).value.spec == Stored(s).value.spec
    {
      FrozenSpec(s, acts, n);
    }
    hide After, Next;
    if AllBindRight(s, acts) {
      BoundUpTo(s, acts, |acts|);
    }
    if AlwaysBoundRight(s, acts) {
      forall n | 0 <= n < |acts| ensures BindsRight(After(s, acts[..n]), acts[n]) {
        BindStep(s, acts, n);
      }
    }
  }

  lemma BindStep(s: State, acts: seq<Action>, n: nat)
    requires FrozenThroughout(s, acts) && n < |acts| && BoundRight(After(s, acts[..n]))
    ensures BoundRight(After(s, acts[..n + 1])) <==> BindsRight(After(s, acts[..n]), acts[n])
  {
    FrozenSpec(s, acts, n);
    FrozenSpec(s, acts, n + 1);
    AfterNext(s, acts, n);
    FrozenStep(After(s, acts[..n]), acts[n]);
    hide After, Next;
  }

  lemma {:induction false} BoundUpTo(s: State, acts: seq<Action>, n: nat)
    requires FrozenThroughout(s, acts) && BoundRight(s) && n <= |acts| && AllBindRight(s, acts)
    ensures forall j | 0 <= j <= n :: BoundRight(After(s, acts[..j]))
  {
    hide Next, BoundRight, BindsRight;
    if n == 0 {
      assert acts[..0] == [];
    } else {
      BoundUpTo(s, acts, n - 1);
      BindStep(s, acts, n - 1);
    }
  }

  /** All versions that the cache has not gone past, and the snapshot in use, have the stored
      spec: in particular once the cache is inside the window of the decision. */
  predicate SpecSeen(s: State) {
    && Stored(s).Some?
    && (forall v <- s.versions :: v.Some? ==> v.value.spec == Stored(s).value.spec)
    && (Snapshot(s.pc).Some? ==> Snapshot(s.pc).value.spec == Stored(s).value.spec)
  }

  lemma SpecSeenStep(s: State, a: Action)
    requires SpecSeen(s) && FrozenAt(s) && FrozenAt(Next(s, a))
    ensures SpecSeen(Next(s, a)) && BindsRight(s, a)
  {
    FrozenStep(s, a);
    SnapshotStays(s, a);
    VersionsGrow(s, a);
    var t := Next(s, a);
    hide Next, FrozenAt;
    assert View(s) in s.versions;
    assert forall v <- t.versions :: v in s.versions || v == Stored(t);
  }

  lemma VersionsGrow(s: State, a: Action)
    ensures forall v <- Next(s, a).versions :: v in s.versions || v == Stored(Next(s, a))
  {
    hide Has, SetCondition, RemoveCondition, Decision, Processed;
  }

  lemma {:induction false} SpecSeenHolds(s: State, acts: seq<Action>, n: nat)
    requires SpecSeen(s) && FrozenThroughout(s, acts) && n <= |acts|
    ensures SpecSeen(After(s, acts[..n]))
    ensures forall j | 0 <= j < n :: BindsRight(After(s, acts[..j]), acts[j])
  {
    hide Next, SpecSeen, BindsRight;
    if n == 0 {
      assert acts[..0] == [];
    } else {
      SpecSeenHolds(s, acts, n - 1);
      AfterNext(s, acts, n - 1);
      SpecSeenStep(After(s, acts[..n - 1]), acts[n - 1]);
    }
  }

  /** With a cache inside the window of the decision, what is bound to the secret are the
      subjects that were approved. */
  lemma ApprovedSubjectsAreBound(s: State, acts: seq<Action>)
    requires SpecSeen(s) && FrozenThroughout(s, acts) && BoundRight(s)
    ensures AlwaysBoundRight(s, acts)
    ensures forall n | 0 <= n <= |acts| ::
      Stored(After(s, acts[..n])).Some? && Stored(After(s, acts[..n])).value.spec == Stored(s).value.spec
  {
    hide SpecSeen, BindsRight, After;
    SpecSeenHolds(s, acts, |acts|);
    BoundIffReadRight(s, acts);
  }
}
