/** What the conditions of a request decide and what a run writes into them, condition by
    condition. */
module AccessOutcomes {
  import opened Results
  import opened AccessRequest
  import opened AccessLaws
  import opened AccessLeases
  import opened AccessRuns

  // ----- what the conditions say -----

  predicate ApprovedLast(cs: seq<Condition>) {
    exists k | 0 <= k < |cs| :: LastDecides(cs, k) && cs[k].typ == RequestApproved
  }

  predicate DeniedLast(cs: seq<Condition>) {
    exists k | 0 <= k < |cs| :: LastDecides(cs, k) && cs[k].typ == RequestDenied
  }

  /** The last deciding condition wins, whatever stands before it. */
  lemma {:induction false} LastDecisionWins(cs: seq<Condition>, k: int)
    requires LastDecides(cs, k)
    ensures Decision(cs) == Some(cs[k].typ)
    decreases |cs|
  {
    var rest := cs[1..];
    assert forall j | 0 <= j < |rest| :: rest[j] == cs[j + 1] && (Decides(rest, j) <==> Decides(cs, j + 1));
    if k == 0 {
      NothingDecides(rest);
    } else {
      LastDecisionWins(rest, k - 1);
    }
  }

  lemma {:induction false} NothingDecides(cs: seq<Condition>)
    requires forall k | 0 <= k < |cs| :: !Decides(cs, k)
    ensures Decision(cs).None?
  {
    if cs != [] {
      var rest := cs[1..];
      assert forall j | 0 <= j < |rest| :: rest[j] == cs[j + 1] && (Decides(rest, j) <==> Decides(cs, j + 1));
      NothingDecides(rest);
      assert !Decides(cs, 0);
    }
  }

  lemma {:induction false} FindLast(cs: seq<Condition>, n: nat) returns (k: int)
    requires n <= |cs| && (forall j | n <= j < |cs| :: !Decides(cs, j))
    ensures k >= 0 ==> LastDecides(cs, k)
    ensures k < 0 ==> forall j | 0 <= j < |cs| :: !Decides(cs, j)
  {
    if n == 0 {
      k := -1;
    } else if Decides(cs, n - 1) {
      k := n - 1;
    } else {
      k := FindLast(cs, n - 1);
    }
  }

  /** A request is approved, denied or undecided, by its last deciding condition. */
  lemma DecisionIsLast(cs: seq<Condition>)
    ensures ApprovedLast(cs) <==> Decision(cs) == Some(RequestApproved)
    ensures DeniedLast(cs) <==> Decision(cs) == Some(RequestDenied)
    ensures Decision(cs).None? <==> forall k | 0 <= k < |cs| :: !Decides(cs, k)
  {
    var k := FindLast(cs, |cs|);
    if k >= 0 {
      LastDecisionWins(cs, k);
    } else {
      NothingDecides(cs);
    }
    forall j | LastDecides(cs, j) ensures Decision(cs) == Some(cs[j].typ) { LastDecisionWins(cs, j); }
  }

  predicate NotesFailure(cs: seq<Condition>) {
    exists i | 0 <= i < |cs| :: cs[i].typ == ConditionFailed
  }

  // ----- what a run does about them -----

  /** A run whose snapshot was denied stops, at once or after the finalizer patch, whatever
      others do in between and whatever the answer: it asks for nothing. */
  lemma DeniedStops(s: State, v: Request, us: seq<Action>, c: CallResult, id: string)
    requires s.pc.Idle? && View(s) == Some(v) && !v.deleting && DeniedLast(v.conditions)
    requires forall u <- us :: ByOthers(u)
    ensures var t := Next(s, Begin); var u := Call(t, us, c, id);
      && (v.finalizer ==> t.pc.Idle?)
      && (!v.finalizer ==> t.pc == AddFinalizer(v))
      && u.pc.Idle? && u.requests == s.requests && u.leases == s.leases
  {
    DecisionIsLast(v.conditions);
    OthersKeepWorker(Next(s, Begin), us);
    hide Decision, Apply, DeniedLast, After;
  }

  lemma {:induction false} OthersKeepWorker(s: State, us: seq<Action>)
    requires forall u <- us :: ByOthers(u)
    ensures var t := After(s, us); t.pc == s.pc && t.requests == s.requests && t.leases == s.leases
  {
    if us != [] {
      var before, u := us[..|us| - 1], us[|us| - 1];
      OthersKeepWorker(s, before);
      assert u in us && forall x <- before :: x in us;
    }
  }

  /** Wherever in a run a credential is asked for, the snapshot's last deciding condition
      approves, the snapshot has neither lease nor secret and is not being deleted, and the
      stored object has the finalizer. */
  lemma AskedIsApproved(acts: seq<Action>)
    requires After(Init(), acts).pc.Get?
    ensures var s := After(Init(), acts); var req := s.pc.req;
      && ApprovedLast(req.conditions) && !DeniedLast(req.conditions)
      && req.lease.None? && req.secret.None? && !req.deleting
      && Stored(s).Some? && Stored(s).value.finalizer
  {
    var s := After(Init(), acts);
    RequestsAreGated(acts, Begin);
    DecisionIsLast(s.pc.req.conditions);
    hide After, ApprovedLast, DeniedLast, Decision;
  }

  /** A run takes up a request if and only if its last deciding condition approves, and there
      is no secret yet or some failure was noted; with a secret or a lease it cleans up, and
      only without either it asks for a credential. */
  lemma TakenUpExactly(s: State, v: Request, c0: CallResult, c1: CallResult)
    requires s.pc.Idle? && View(s) == Some(v)
    ensures var t := if v.finalizer then Next(s, Begin) else Work(Next(s, Begin), c0, "");
      && (t.pc == BuildManager(v) <==>
            && !v.deleting && ApprovedLast(v.conditions) && (v.secret.None? || NotesFailure(v.conditions))
            && (v.finalizer || Acknowledged(s, c0)))
      && (t.pc == BuildManager(v) && c1.Done? ==>
            Work(t, c1, "").pc == if v.lease.None? && v.secret.None? then Get(v) else RevokeOld(v))
  {
    DecisionIsLast(v.conditions);
    assert ApprovedLast(v.conditions) ==> v.conditions != [];
    assert Decision(v.conditions).Some? ==> v.conditions != [];
    hide Decision, Apply, ApprovedLast, DeniedLast, Store;
  }

  /** A live request that nobody decided waits: its stored version gets the phase, and nothing else
      happens. */
  lemma UndecidedWaits(s: State, v: Request, c0: CallResult, c1: CallResult)
    requires s.pc.Idle? && View(s) == Some(v) && !v.deleting && forall k | 0 <= k < |v.conditions| :: !Decides(v.conditions, k)
    requires v.finalizer || Acknowledged(s, c0)
    ensures var t := if v.finalizer then Next(s, Begin) else Work(Next(s, Begin), c0, "");
      && t.pc == Wait(v)
      && var u := Work(t, c1, "");
         && u.pc.Idle? && u.requests == s.requests && u.leases == s.leases
         && (Stored(t).Some? && !Stored(t).value.deleting && !c1.Failed? ==>
               Stored(u) == Some(Stored(t).value.(phaseSet := true)))
  {
    DecisionIsLast(v.conditions);
    hide Decision, Processed;
  }

  // ----- writing conditions -----

  /** Setting a condition touches the first one of its type, or appends one. */
  lemma {:induction false} SetConditionAt(cs: seq<Condition>, t: CondType) returns (k: nat)
    ensures k <= |cs| && forall i | 0 <= i < k :: cs[i].typ != t
    ensures k < |cs| ==> cs[k].typ == t
    ensures SetCondition(cs, t) == cs[..k] + [Condition(t, true)] + (if k < |cs| then cs[k + 1..] else [])
    decreases |cs|
  {
    if cs == [] || cs[0].typ == t {
      k := 0;
    } else {
      var n := SetConditionAt(cs[1..], t);
      k := n + 1;
      assert cs[..k] == [cs[0]] + cs[1..][..n];
      assert k < |cs| ==> cs[1..][n + 1..] == cs[k + 1..];
    }
  }

  /** Removing a condition keeps exactly the others. */
  lemma {:induction false} RemoveConditionKeeps(cs: seq<Condition>, t: CondType, c: Condition)
    ensures multiset(RemoveCondition(cs, t))[c] == if c.typ == t then 0 else multiset(cs)[c]
    decreases |cs|
  {
    if cs != [] {
      RemoveConditionKeeps(cs[1..], t, c);
      assert cs == [cs[0]] + cs[1..];
    }
  }

  lemma SetIsThere(cs: seq<Condition>, t: CondType)
    ensures Condition(t, true) in SetCondition(cs, t)
  {
    var k := SetConditionAt(cs, t);
    assert SetCondition(cs, t)[k] == Condition(t, true);
  }

  // ----- failures are noted -----

  /** The calls whose failure is noted at once. */
  predicate NotedCall(pc: Pc) {
    pc.Get? || pc.CreateRole? || pc.CreateBinding? || (pc.CreateSecret? && pc.lease == "")
  }

  /** A credential, role or binding that could not be had leaves a Failed condition on the
      stored request once the status is written, and the cleanup follows. */
  lemma FailureIsNoted(s: State, us1: seq<Action>, c1: CallResult, id: string, us2: seq<Action>, c2: CallResult)
    requires Inv(s) && NotedCall(s.pc) && !c1.Done? && !c2.Failed?
    requires forall u <- us1 + us2 :: ByOthers(u)
    ensures var t := Call(Call(s, us1, c1, id), us2, c2, "");
      t.pc == RevokeOld(s.pc.req) && Stored(t).Some? && Condition(ConditionFailed, true) in Stored(t).value.conditions
  {
    OthersOnly(us1, us2, []);
    assert us1 + us2 + [] == us1 + us2;
    PrepareIsHeld(s);
    OthersKeep(s, us1);
    CallKeeps(s, us1, c1, id);
    var s1 := Call(s, us1, c1, id);
    FailsToNote(After(s, us1), c1, id);
    OthersKeep(s1, us2);
    NoteNotes(After(s1, us2), c2);
    hide Inv, After, Held, Work;
  }

  lemma FailsToNote(s: State, c: CallResult, id: string)
    requires NotedCall(s.pc) && !c.Done?
    ensures Work(s, c, id).pc == Note(s.pc.req)
  {
  }

  lemma NoteNotes(s: State, c: CallResult)
    requires s.pc.Note? && Held(s) && !c.Failed?
    ensures var t := Work(s, c, "");
      t.pc == RevokeOld(s.pc.req) && Stored(t).Some? && Condition(ConditionFailed, true) in Stored(t).value.conditions
  {
    SetIsThere(Stored(s).value.conditions, ConditionFailed);
    hide SetCondition;
  }

  /** A secret that could not be created: its lease is revoked first, and only if that was
      done the failure is noted. */
  lemma SecretFailureIsNoted(s: State, us1: seq<Action>, c1: CallResult, id: string,
                             us2: seq<Action>, c2: CallResult, us3: seq<Action>, c3: CallResult)
    requires Inv(s) && s.pc.CreateSecret? && s.pc.lease != "" && !c1.Done? && !c3.Failed?
    requires forall u <- us1 + us2 + us3 :: ByOthers(u)
    ensures var s2 := Call(Call(s, us1, c1, id), us2, c2, ""); var t := Call(s2, us3, c3, "");
      && s2.pc == (if c2.Done? then Note(s.pc.req) else RevokeOld(s.pc.req))
      && (c2.Done? ==> t.pc == RevokeOld(s.pc.req) && Stored(t).Some?)
      && (c2.Done? ==> Condition(ConditionFailed, true) in Stored(t).value.conditions)
  {
    OthersOnly(us1, us2, us3);
    PrepareIsHeld(s);
    OthersKeep(s, us1);
    CallKeeps(s, us1, c1, id);
    var s1 := Call(s, us1, c1, id);
    SecretFails(After(s, us1), c1, id);
    OthersKeep(s1, us2);
    CallKeeps(s1, us2, c2, "");
    var s2 := Call(s1, us2, c2, "");
    RevokeNewStep(After(s1, us2), c2);
    OthersKeep(s2, us3);
    if c2.Done? { NoteNotes(After(s2, us3), c3); }
    hide Inv, After, Held, Work;
  }

  lemma SecretFails(s: State, c: CallResult, id: string)
    requires s.pc.CreateSecret? && s.pc.lease != "" && !c.Done?
    ensures Work(s, c, id).pc == RevokeNew(s.pc.req, s.pc.lease)
  {
  }

  lemma RevokeNewStep(s: State, c: CallResult)
    requires s.pc.RevokeNew?
    ensures Work(s, c, "").pc == if c.Done? then Note(s.pc.req) else RevokeOld(s.pc.req)
  {
  }

  /** Without a credential manager the failure is noted with the generation that was read. */
  lemma ManagerFailureIsNoted(s: State, us1: seq<Action>, c1: CallResult, id: string, us2: seq<Action>, c2: CallResult)
    requires Inv(s) && s.pc.BuildManager? && !c1.Done? && !c2.Failed?
    requires forall u <- us1 + us2 :: ByOthers(u)
    ensures var t := Call(Call(s, us1, c1, id), us2, c2, "");
      && t.pc.Idle? && Stored(t).Some? && Condition(ConditionFailed, true) in Stored(t).value.conditions
      && Stored(t).value.observedGeneration == s.pc.req.generation
  {
    OthersOnly(us1, us2, []);
    assert us1 + us2 + [] == us1 + us2;
    PrepareIsHeld(s);
    OthersKeep(s, us1);
    CallKeeps(s, us1, c1, id);
    var s1 := Call(s, us1, c1, id);
    ManagerFails(After(s, us1), c1, id);
    OthersKeep(s1, us2);
    NoteManagerNotes(After(s1, us2), c2);
    hide Inv, After, Held, Work;
  }

  lemma ManagerFails(s: State, c: CallResult, id: string)
    requires s.pc.BuildManager? && !c.Done?
    ensures Work(s, c, id).pc == NoteManager(s.pc.req)
  {
  }

  lemma NoteManagerNotes(s: State, c: CallResult)
    requires s.pc.NoteManager? && Held(s) && !c.Failed?
    ensures var t := Work(s, c, "");
      && t.pc.Idle? && Stored(t).Some? && Condition(ConditionFailed, true) in Stored(t).value.conditions
      && Stored(t).value.observedGeneration == s.pc.req.generation
  {
    SetIsThere(Stored(s).value.conditions, ConditionFailed);
    hide SetCondition;
  }

  // ----- a successful run -----

  lemma {:induction false} OthersKeepBinding(s: State, us: seq<Action>)
    requires Inv(s) && Held(s) && forall u <- us :: ByOthers(u)
    ensures After(s, us).role == s.role && After(s, us).binding == s.binding
    ensures Stored(After(s, us)).Some? && Stored(After(s, us)).value.uid == Stored(s).value.uid
  {
    if us != [] {
      var before, u := us[..|us| - 1], us[|us| - 1];
      OthersKeepBinding(s, before);
      OthersKeep(s, before);
      OneKeepsBinding(After(s, before), u);
      hide Inv, Next;
    }
  }

  lemma OneKeepsBinding(s: State, u: Action)
    requires Held(s) && ByOthers(u)
    ensures Next(s, u).role == s.role && Next(s, u).binding == s.binding
    ensures Stored(Next(s, u)).Some? && Stored(Next(s, u)).value.uid == Stored(s).value.uid
  {
    hide Admissible;
  }

  /** The last four calls done, others acting before each: lease and secret are recorded, the
      reader role points to that secret, the subjects that were read are bound, and the status
      says that the credential is available, with no failure and the generation that was read. */
  lemma IssueCompletes(s: State, us1: seq<Action>, us2: seq<Action>, us3: seq<Action>, us4: seq<Action>)
    requires Inv(s) && s.pc.Record? && OwnerExists(s, s.pc.req)
    requires forall u <- us1 + us2 + us3 + us4 :: ByOthers(u)
    ensures var t := Call(Call(Call(Call(s, us1, Done, ""), us2, Done, ""), us3, Done, ""), us4, Done, "");
      var req := s.pc.req;
      && t.pc.Idle? && Stored(t).Some?
      && Stored(t).value.lease == Some(s.pc.lease) && Stored(t).value.secret == Some(s.pc.secret)
      && t.role == Some(s.pc.secret) && t.binding == Some(req.spec.subjects)
      && Condition(ConditionAvailable, true) in Stored(t).value.conditions
      && (forall x <- Stored(t).value.conditions :: x.typ != ConditionFailed)
      && Stored(t).value.observedGeneration == req.generation
  {
    OthersOnly(us1, us2, us3 + us4);
    OthersOnly(us3, us4, []);
    assert us1 + us2 + (us3 + us4) == us1 + us2 + us3 + us4 && us3 + us4 + [] == us3 + us4;
    PrepareIsHeld(s);
    var s1 := Call(s, us1, Done, "");
    CallStep(s, us1);
    var s2 := Call(s1, us2, Done, "");
    CallStep(s1, us2);
    var s3 := Call(s2, us3, Done, "");
    CallStep(s2, us3);
    CallStep(s3, us4);
    hide Inv, After, Held, Work, Call;
  }

  /** One of those calls. */
  lemma CallStep(s: State, us: seq<Action>)
    requires s.pc.Record? || s.pc.CreateRole? || s.pc.CreateBinding? || s.pc.Finish?
    requires Inv(s) && Held(s) && (forall u <- us :: ByOthers(u)) && OwnerExists(s, s.pc.req)
    ensures Stored(Call(s, us, Done, "")).Some?
    ensures var t := Call(s, us, Done, ""); var o, req := Stored(t).value, s.pc.req;
      && Inv(t) && Held(t) && (!t.pc.Idle? ==> OwnerExists(t, t.pc.req))
      && (s.pc.Record? ==> t.pc == CreateRole(req, s.pc.secret) && o.lease == Some(s.pc.lease) && o.secret == Some(s.pc.secret))
      && (!s.pc.Record? ==> o.lease == Stored(s).value.lease && o.secret == Stored(s).value.secret)
      && (s.pc.CreateRole? ==> t.pc == CreateBinding(req, s.pc.secret) && t.role == Some(s.pc.secret))
      && (!s.pc.CreateRole? ==> t.role == s.role)
      && (s.pc.CreateBinding? ==> t.pc == Finish(req) && t.binding == Some(req.spec.subjects))
      && (!s.pc.CreateBinding? ==> t.binding == s.binding)
      && (s.pc.Finish? ==> t.pc.Idle? && o.observedGeneration == req.generation)
      && (s.pc.Finish? ==> Condition(ConditionAvailable, true) in o.conditions)
      && (s.pc.Finish? ==> forall x <- o.conditions :: x.typ != ConditionFailed)
  {
    OthersKeep(s, us);
    OthersKeepBinding(s, us);
    CallKeeps(s, us, Done, "");
    GoodStep(After(s, us));
    hide Inv, After, Work, ByOthers;
  }

  lemma GoodStep(s: State)
    requires s.pc.Record? || s.pc.CreateRole? || s.pc.CreateBinding? || s.pc.Finish?
    requires Held(s) && OwnerExists(s, s.pc.req)
    ensures Stored(Work(s, Done, "")).Some?
    ensures var t := Work(s, Done, ""); var o, o', req := Stored(s).value, Stored(t).value, s.pc.req;
      && o'.uid == o.uid
      && (s.pc.Record? ==> t.pc == CreateRole(req, s.pc.secret) && o'.lease == Some(s.pc.lease) && o'.secret == Some(s.pc.secret))
      && (!s.pc.Record? ==> o'.lease == o.lease && o'.secret == o.secret)
      && (s.pc.CreateRole? ==> t.pc == CreateBinding(req, s.pc.secret) && t.role == Some(s.pc.secret))
      && (!s.pc.CreateRole? ==> t.role == s.role)
      && (s.pc.CreateBinding? ==> t.pc == Finish(req) && t.binding == Some(req.spec.subjects))
      && (!s.pc.CreateBinding? ==> t.binding == s.binding)
      && (s.pc.Finish? ==> t.pc.Idle? && o'.observedGeneration == req.generation)
      && (s.pc.Finish? ==> Condition(ConditionAvailable, true) in o'.conditions)
      && (s.pc.Finish? ==> forall x <- o'.conditions :: x.typ != ConditionFailed)
  {
    var cs := Stored(s).value.conditions;
    var r := RemoveCondition(cs, ConditionFailed);
    SetIsThere(r, ConditionAvailable);
    HasAfterRemove(cs, ConditionFailed, ConditionFailed);
    HasAfterSet(r, ConditionAvailable, ConditionFailed);
    hide SetCondition, RemoveCondition;
    assert !Has(SetCondition(r, ConditionAvailable), ConditionFailed);
  }

  // ----- the finalizer -----

  /** A finalizer that builds its manager for the Vault `vault`, revokes and is let through, others
      acting in between: the recorded lease is gone from that Vault, no other is, and so is the
      request. */
  lemma FinalizerCompletes(s: State, us1: seq<Action>, vault: string, us2: seq<Action>, us3: seq<Action>)
    requires Inv(s) && Held(s) && s.pc.FinManager?
    requires forall u <- us1 + us2 + us3 :: ByOthers(u)
    ensures var t := Call(Call(Call(s, us1, Done, vault), us2, Done, ""), us3, Done, ""); var lease := s.pc.req.lease;
      && t.pc.Idle? && Stored(t).None? && t.requests == s.requests
      && t.leases == s.leases - (if lease.Some? && lease.value != "" then {Lease(vault, lease.value)} else {})
  {
    OthersOnly(us1, us2, us3);
    var s1 := Call(s, us1, Done, vault);
    OthersKeep(s, us1);
    CallKeeps(s, us1, Done, vault);
    FinSteps(After(s, us1), vault);
    var s2 := Call(s1, us2, Done, "");
    OthersKeep(s1, us2);
    CallKeeps(s1, us2, Done, "");
    FinSteps(After(s1, us2), vault);
    OthersKeep(s2, us3);
    FinalizingIsDeleting(After(s2, us3));
    FinSteps(After(s2, us3), vault);
    hide Inv, After, Held, Work;
  }

  /** Without a manager it lets the request go and revokes nothing. */
  lemma FinalizerWithoutManager(s: State, us1: seq<Action>, c: CallResult, id: string, us2: seq<Action>)
    requires Inv(s) && Held(s) && s.pc.FinManager? && !c.Done?
    requires forall u <- us1 + us2 :: ByOthers(u)
    ensures var t := Call(Call(s, us1, c, id), us2, Done, "");
      t.pc.Idle? && Stored(t).None? && t.leases == s.leases
  {
    OthersOnly(us1, us2, []);
    assert us1 + us2 + [] == us1 + us2;
    OthersKeep(s, us1);
    CallKeeps(s, us1, c, id);
    NoManager(After(s, us1), c, id);
    var s1 := Call(s, us1, c, id);
    OthersKeep(s1, us2);
    FinalizingIsDeleting(After(s1, us2));
    FinSteps(After(s1, us2), "");
    hide Inv, After, Held, Work;
  }

  lemma FinSteps(s: State, vault: string)
    ensures var t := Work(s, Done, vault);
      s.pc.FinManager? ==> t.pc == FinRevoke(s.pc.req) && t.client == vault && t.leases == s.leases && t.requests == s.requests
    ensures var t := Work(s, Done, "");
      s.pc.FinRevoke? ==>
        && t.pc == RemoveFinalizer(s.pc.req, false) && t.client == s.client && t.requests == s.requests
        && t.leases == s.leases - LeaseIn(s.client, s.pc.req.lease)
    ensures var t := Work(s, Done, "");
      s.pc.RemoveFinalizer? && Stored(s).Some? && Stored(s).value.deleting ==>
        t.pc.Idle? && Stored(t).None? && t.leases == s.leases && t.requests == s.requests
  {
    hide Decide;
  }

  function LeaseIn(vault: string, lease: Option<string>): set<Lease> {
    if lease.Some? && lease.value != "" then {Lease(vault, lease.value)} else {}
  }

  lemma NoManager(s: State, c: CallResult, id: string)
    requires s.pc.FinManager? && !c.Done?
    ensures Work(s, c, id).pc == RemoveFinalizer(s.pc.req, true) && Work(s, c, id).leases == s.leases
  {
  }

  // ----- edits that pass the webhook -----

  /** An edit of the spec goes through if and only if no approve or deny condition is there,
      true or not, or the spec stays what it was. */
  lemma EditsWhileUndecided(s: State, o: Request, spec: Spec)
    requires Stored(s) == Some(o) && (o.deleting ==> o.finalizer)
    ensures var t, decided := Next(s, EditSpec(spec)),
      exists i | 0 <= i < |o.conditions| :: o.conditions[i].typ == RequestApproved || o.conditions[i].typ == RequestDenied;
      t == if decided && spec != o.spec then s
           else s.(versions := s.versions + [Some(o.(spec := spec, generation := o.generation + 1))])
  {
  }
}
