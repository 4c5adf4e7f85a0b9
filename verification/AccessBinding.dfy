/** Exactly what the cache must have seen, at the moment a decision appears, for the secret to
    stay bound to the approved subjects whatever happens while the decision stands. */
module AccessBinding {
  import opened Results
  import opened AccessRequest
  import opened AccessLaws
  import opened AccessRuns
  import Hold = FinalizerHold

  /** Objects that bear the name one after the other have increasing identities, and the
      worker's snapshot is not newer than what the cache shows. */
  predicate UidInv(s: State) {
    && (forall i, j | 0 <= i < j < |s.versions| && s.versions[i].Some? && s.versions[j].Some? ::
          s.versions[i].value.uid <= s.versions[j].value.uid)
    && (forall v <- s.versions :: v.Some? ==> v.value.uid < s.uids)
    && (Snapshot(s.pc).Some? ==>
          Snapshot(s.pc).value.uid < s.uids &&
          forall v <- s.versions :: v.Some? ==> Snapshot(s.pc).value.uid <= v.value.uid)
  }

  lemma StoreKeepsUids(s: State, o: Request)
    requires UidInv(s) && Stored(s).Some? && o.uid == Stored(s).value.uid
    ensures UidInv(Store(s, o))
  {
    var vs, t := s.versions, Store(s, o);
    assert vs[|vs| - 1] in vs;
    forall i, j | 0 <= i < j < |t.versions| && t.versions[i].Some? && t.versions[j].Some?
      ensures t.versions[i].value.uid <= t.versions[j].value.uid
    {
      assert i < |vs| - 1 ==> vs[i].value.uid <= vs[|vs| - 1].value.uid;
    }
  }

  lemma PatchKeepsUids(s: State, u: Update, c: CallResult)
    requires UidInv(s)
    ensures UidInv(Patch(s, u, c)) && Patch(s, u, c).pc == s.pc
  {
    if Stored(s).Some? {
      StoreKeepsUids(s, Apply(u, Stored(s).value));
    }
    hide UidInv, SetCondition, RemoveCondition;
  }

  /** The identities depend on versions, counter and snapshot only. */
  lemma UidsElsewhere(s: State, t: State)
    requires UidInv(s) && t.versions == s.versions && t.uids == s.uids
    requires Snapshot(t.pc).None? || Snapshot(t.pc) == Snapshot(s.pc)
    ensures UidInv(t)
  {
  }

  lemma UidStep(s: State, a: Action)
    requires UidInv(s)
    ensures UidInv(Next(s, a))
  {
    SnapshotStays(s, a);
    match a
    case Answer(c, id) =>
      if UpdateOf(s.pc).Some? || s.pc.AddFinalizer? || s.pc.RemoveFinalizer? {
        var u := if UpdateOf(s.pc).Some? then UpdateOf(s.pc).value else SetFinalizer(s.pc.AddFinalizer?);
        PatchKeepsUids(s, u, c);
        WritePatches(s, c, id);
        UidsElsewhere(Patch(s, u, c), Work(s, c, id));
      } else {
        CallWrites(s, c, id);
        CallKeepsUids(s, c, id);
        UidsElsewhere(s, Work(s, c, id));
      }
    case Begin => UidBegin(s);
    case _ => UidOthers(s, a);
  }

  lemma CallKeepsUids(s: State, c: CallResult, id: string)
    requires CallAt(s.pc)
    ensures Work(s, c, id).uids == s.uids
  {
  }

  lemma UidBegin(s: State)
    requires UidInv(s)
    ensures UidInv(Next(s, Begin))
  {
    if s.pc.Idle? && s.versions != [] {
      assert View(s) in s.versions;
      forall v <- s.versions | v.Some? && View(s).Some? ensures View(s).value.uid <= v.value.uid {
        var i :| 0 <= i < |s.versions| && s.versions[i] == v;
        assert s.versions[0] == View(s);
      }
      SnapshotStays(s, Begin);
      hide Dispatch, Approved;
    }
  }

  lemma UidOthers(s: State, a: Action)
    requires UidInv(s) && ByOthers(a)
    ensures UidInv(Next(s, a))
  {
    var o := Stored(s);
    hide UidInv, Store, Frozen;
    match a
    case UserCreates(spec) => UidCreates(s, spec);
    case UserDeletes => if o.Some? { StoreKeepsUids(s, o.value.(deleting := true)); }
    case EditConditions(cs) => if o.Some? { StoreKeepsUids(s, o.value.(conditions := cs)); }
    case EditSpec(spec) =>
      if o.Some? { StoreKeepsUids(s, o.value.(spec := spec, generation := o.value.generation + 1)); }
    case CacheCatchesUp => UidCatchUp(s);
  }

  lemma UidCreates(s: State, spec: Spec)
    requires UidInv(s)
    ensures UidInv(ByUsers(s, UserCreates(spec)))
  {
    var t := ByUsers(s, UserCreates(spec));
    assert forall i | 0 <= i < |s.versions| :: s.versions[i] in s.versions;
  }

  lemma UidCatchUp(s: State)
    requires UidInv(s)
    ensures UidInv(ByUsers(s, CacheCatchesUp))
  {
  }

  lemma {:induction false} UidsHold(acts: seq<Action>)
    ensures UidInv(After(Init(), acts))
  {
    if acts != [] {
      UidsHold(acts[..|acts| - 1]);
      UidStep(After(Init(), acts[..|acts| - 1]), acts[|acts| - 1]);
      hide UidInv, Next;
    }
  }

  // ----- who can still bind -----

  /** A run that reads the version could bind its subjects to the stored object's secret. */
  predicate CanBind(s: State, v: Request) {
    Approved(v) && !HasRefs(v) && Stored(s).Some? && (v.uid == Stored(s).value.uid || s.binding.Some?)
  }

  /** The worker may still come to the binding call in this run. */
  predicate BeforeBinding(pc: Pc) {
    pc.AddFinalizer? || pc.BuildManager? || pc.Get? || pc.CreateSecret? || pc.Record? || pc.CreateRole? || pc.CreateBinding?
  }

  predicate RightSubjects(s: State, v: Request) {
    Stored(s).Some? ==> v.spec.subjects == Stored(s).value.spec.subjects
  }

  /** Every version in sight that can reach the binding call, and the snapshot in use if it can,
      has the stored subjects. */
  predicate SubjectsSeen(s: State) {
    && (forall v <- s.versions :: v.Some? && CanBind(s, v.value) ==> RightSubjects(s, v.value))
    && (BeforeBinding(s.pc) && CanBind(s, s.pc.req) ==> RightSubjects(s, s.pc.req))
  }

  lemma SameObject(s: State, a: Action)
    requires Stored(s).Some? && Stored(Next(s, a)).Some?
    ensures Stored(Next(s, a)).value.uid == Stored(s).value.uid
  {
    match a
    case Answer(c, id) =>
      hide Patch, Work, Decide;
      if UpdateOf(s.pc).Some? || s.pc.AddFinalizer? || s.pc.RemoveFinalizer? {
        WritePatches(s, c, id);
        PatchKeepsUid(s, if UpdateOf(s.pc).Some? then UpdateOf(s.pc).value else SetFinalizer(s.pc.AddFinalizer?), c);
      } else {
        CallWrites(s, c, id);
      }
    case _ => hide Has;
  }

  lemma PatchKeepsUid(s: State, u: Update, c: CallResult)
    requires Stored(s).Some?
    ensures Stored(Patch(s, u, c)).Some? ==> Stored(Patch(s, u, c)).value.uid == Stored(s).value.uid
  {
    hide SetCondition, RemoveCondition;
  }

  lemma BeforeBindingStays(s: State, a: Action)
    requires BeforeBinding(Next(s, a).pc)
    ensures s.pc.Idle? || (BeforeBinding(s.pc) && Next(s, a).pc.req == s.pc.req)
  {
    hide Apply, Has, Processed;
  }

  /** Binding for the first time needs a snapshot of the stored object itself, and then all
      versions in sight are its own. */
  lemma SameUids(s: State, v: Option<Request>)
    requires UidInv(s) && v in s.versions && v.Some? && Stored(s).Some?
    requires Snapshot(s.pc).Some? && Snapshot(s.pc).value.uid == Stored(s).value.uid
    ensures v.value.uid == Stored(s).value.uid
  {
    var i :| 0 <= i < |s.versions| && s.versions[i] == v;
    assert s.versions[|s.versions| - 1] == Stored(s);
  }

  lemma SubjectsSeenStep(s: State, a: Action)
    requires Inv(s) && UidInv(s) && SubjectsSeen(s) && FrozenAt(s) && FrozenAt(Next(s, a))
    ensures SubjectsSeen(Next(s, a)) && BindsRight(s, a)
  {
    var t := Next(s, a);
    FrozenStep(s, a);
    SameObject(s, a);
    VersionsGrow(s, a);
    if Binds(s, a) { BinderCanBind(s, a); }
    hide Next, FrozenAt, UidInv, Approved, HasRefs, HeldInv, PcInv;
    forall v <- t.versions | v.Some? && CanBind(t, v.value) ensures RightSubjects(t, v.value) {
      if v in s.versions {
        if Binds(s, a) && s.binding.None? { SameUids(s, v); }
        assert CanBind(s, v.value);
      }
    }
    if BeforeBinding(t.pc) && CanBind(t, t.pc.req) {
      SnapshotStays(s, a);
      BeforeBindingStays(s, a);
      if s.pc.Idle? { ViewInSight(s); }
      NotBindingStays(s, a);
    }
  }

  lemma ViewInSight(s: State)
    requires View(s).Some?
    ensures View(s) in s.versions
  {
  }

  lemma BinderCanBind(s: State, a: Action)
    requires Inv(s) && Binds(s, a) && Stored(s).Some?
    ensures CanBind(s, s.pc.req) && BeforeBinding(s.pc)
  {
    hide HeldInv, Approved;
  }

  lemma NotBindingStays(s: State, a: Action)
    requires BeforeBinding(Next(s, a).pc)
    ensures !Binds(s, a)
  {
  }

  lemma {:induction false} SubjectsSeenHolds(s: State, acts: seq<Action>, n: nat)
    requires Inv(s) && UidInv(s) && SubjectsSeen(s) && FrozenThroughout(s, acts) && n <= |acts|
    ensures Inv(After(s, acts[..n])) && UidInv(After(s, acts[..n])) && SubjectsSeen(After(s, acts[..n]))
    ensures forall j | 0 <= j < n :: BindsRight(After(s, acts[..j]), acts[j])
  {
    hide Next, SubjectsSeen, BindsRight, UidInv, Inv, FrozenAt;
    if n == 0 {
      assert acts[..0] == [];
    } else {
      SubjectsSeenHolds(s, acts, n - 1);
      AfterNext(s, acts, n - 1);
      InvNext(After(s, acts[..n - 1]), acts[n - 1]);
      UidStep(After(s, acts[..n - 1]), acts[n - 1]);
      assert FrozenAt(After(s, acts[..n - 1])) && FrozenAt(After(s, acts[..n]));
      SubjectsSeenStep(After(s, acts[..n - 1]), acts[n - 1]);
    }
  }

  // ----- a version with other subjects does get bound -----

  lemma FrozenCons(s: State, a: Action, rest: seq<Action>)
    requires FrozenAt(s) && FrozenThroughout(Next(s, a), rest)
    ensures FrozenThroughout(s, [a] + rest) && After(s, [a] + rest) == After(Next(s, a), rest)
  {
    hide FrozenAt, Next;
    var acts := [a] + rest;
    AfterOneMore(s, [], a);
    assert [] + [a] == [a];
    AfterAppend(s, [a], rest);
    forall n | 0 <= n <= |acts| ensures FrozenAt(After(s, acts[..n])) {
      if n > 0 {
        assert acts[..n] == [a] + rest[..n - 1];
        AfterAppend(s, [a], rest[..n - 1]);
      } else {
        assert acts[..0] == [];
      }
    }
  }

  function Rank(pc: Pc): nat {
    match pc
    case AddFinalizer(_) => 7
    case BuildManager(_) => 6
    case Get(_) => 5
    case CreateSecret(_, _) => 4
    case Record(_, _, _) => 3
    case CreateRole(_, _) => 2
    case CreateBinding(_, _) => 1
    case _ => 0
  }

  /** One successful call on the way to the binding call. */
  lemma TowardsBinding(s: State)
    requires Inv(s) && FrozenAt(s) && BeforeBinding(s.pc) && CanBind(s, s.pc.req) && !s.pc.CreateBinding?
    ensures var t := Work(s, Done, "");
      && FrozenAt(t) && BeforeBinding(t.pc) && Rank(t.pc) < Rank(s.pc) && t.pc.req == s.pc.req
      && CanBind(t, t.pc.req) && Stored(t).value.spec == Stored(s).value.spec
  {
    assert Stored(s) in s.versions;
    hide Hold.WorkerInv, Has, Processed;
  }

  lemma BindFrom(s: State) returns (acts: seq<Action>)
    requires Inv(s) && FrozenAt(s) && BeforeBinding(s.pc) && CanBind(s, s.pc.req) && !RightSubjects(s, s.pc.req)
    ensures FrozenThroughout(s, acts) && !BoundRight(After(s, acts))
    decreases Rank(s.pc)
  {
    var t, a := Work(s, Done, ""), Answer(Done, "");
    var rest: seq<Action> := [];
    if s.pc.CreateBinding? {
      LastCallBinds(s);
      StaysFrozen(t);
    } else {
      TowardsBinding(s);
      InvNext(s, a);
      hide Inv, FrozenAt, CanBind, BeforeBinding, BoundRight, Rank, Work;
      rest := BindFrom(t);
    }
    hide *;
    FrozenCons(s, a, rest);
    NextIsWork(s, Done, "");
    acts := [a] + rest;
  }

  lemma NextIsWork(s: State, c: CallResult, id: string)
    ensures Next(s, Answer(c, id)) == Work(s, c, id)
  {
  }

  lemma LastCallBinds(s: State)
    requires s.pc.CreateBinding? && FrozenAt(s) && CanBind(s, s.pc.req) && !RightSubjects(s, s.pc.req)
    ensures FrozenAt(Work(s, Done, "")) && !BoundRight(Work(s, Done, ""))
  {
  }

  lemma StaysFrozen(s: State)
    requires FrozenAt(s)
    ensures FrozenThroughout(s, []) && After(s, []) == s
  {
  }

  /** A worker whose calls all fail stops without writing or binding anything. */
  lemma Unwind(s: State) returns (acts: seq<Action>)
    requires Inv(s) && FrozenAt(s)
    ensures FrozenThroughout(s, acts)
    ensures var t := After(s, acts); t.pc.Idle? && t.versions == s.versions && t.binding == s.binding && Inv(t)
    decreases Calls(s.pc)
  {
    if s.pc.Idle? {
      acts := [];
      StaysFrozen(s);
    } else {
      var t, a := Work(s, Failed, ""), Answer(Failed, "");
      FailedCall(s);
      InvNext(s, a);
      NextIsWork(s, Failed, "");
      hide Inv, Work, Calls, Next;
      SameFrozen(s, t);
      var rest := Unwind(t);
      FrozenCons(s, a, rest);
      acts := [a] + rest;
    }
  }

  lemma SameFrozen(s: State, t: State)
    requires FrozenAt(s) && t.versions == s.versions
    ensures FrozenAt(t)
  {
  }

  function Calls(pc: Pc): nat {
    match pc
    case Idle => 0
    case CreateSecret(_, _) => 7
    case RevokeNew(_, _) => 6
    case Note(_) => 5
    case RevokeOld(_) => 4
    case DeleteOld(_, _) => 3
    case BuildManager(_) => 3
    case FinManager(_) => 3
    case FinRevoke(_) => 3
    case NoteManager(_) => 2
    case Clear(_) => 2
    case Wait(_) => 2
    case AddFinalizer(_) => 2
    case RemoveFinalizer(_, _) => 2
    case _ => 8
  }

  lemma FailedCall(s: State)
    requires !s.pc.Idle?
    ensures var t := Work(s, Failed, ""); t.versions == s.versions && t.binding == s.binding && Calls(t.pc) < Calls(s.pc)
  {
  }

  /** From the idle worker: it reads version `j` and binds its subjects. */
  lemma ReadAndBind(s: State, j: nat) returns (acts: seq<Action>)
    requires Inv(s) && FrozenAt(s) && s.pc.Idle? && j < |s.versions| && s.versions[j].Some?
    requires CanBind(s, s.versions[j].value) && !RightSubjects(s, s.versions[j].value)
    ensures FrozenThroughout(s, acts) && !BoundRight(After(s, acts))
    decreases j
  {
    if j == 0 {
      var t := Next(s, Begin);
      BeginBinds(s);
      InvNext(s, Begin);
      hide Inv, FrozenAt, CanBind, BeforeBinding, BoundRight, Next;
      var rest := BindFrom(t);
      FrozenCons(s, Begin, rest);
      acts := [Begin] + rest;
    } else {
      var t := Next(s, CacheCatchesUp);
      CatchUpKeeps(s, s.versions[j].value);
      InvNext(s, CacheCatchesUp);
      assert t.versions[j - 1] == s.versions[j];
      hide Inv, FrozenAt, CanBind, BoundRight, Next;
      var rest := ReadAndBind(t, j - 1);
      FrozenCons(s, CacheCatchesUp, rest);
      acts := [CacheCatchesUp] + rest;
    }
  }

  lemma BeginBinds(s: State)
    requires s.pc.Idle? && FrozenAt(s) && View(s).Some? && CanBind(s, View(s).value) && !RightSubjects(s, View(s).value)
    ensures var t := Next(s, Begin);
      FrozenAt(t) && BeforeBinding(t.pc) && t.pc.req == View(s).value && CanBind(t, t.pc.req) && !RightSubjects(t, t.pc.req)
  {
    hide Has, Processed;
  }

  lemma CatchUpKeeps(s: State, v: Request)
    requires |s.versions| > 1 && FrozenAt(s)
    ensures var t := Next(s, CacheCatchesUp);
      && t.versions == s.versions[1..] && t.pc == s.pc && FrozenAt(t) && Stored(t) == Stored(s) && t.binding == s.binding
      && CanBind(t, v) == CanBind(s, v) && RightSubjects(t, v) == RightSubjects(s, v)
  {
    hide Has, Approved;
  }

  /** While a decision stands, whatever the users do, however the cache moves and whatever calls
      succeed, the secret stays bound to the stored subjects: if and only if every version in
      sight that can still reach the binding call, and the snapshot in use, has them. */
  lemma BoundRightForever(s: State)
    requires Inv(s) && UidInv(s) && FrozenAt(s) && BoundRight(s)
    ensures SubjectsSeen(s) <==> forall acts | FrozenThroughout(s, acts) :: BoundRight(After(s, acts))
  {
    if SubjectsSeen(s) {
      forall acts | FrozenThroughout(s, acts) ensures BoundRight(After(s, acts)) {
        SeenStaysBound(s, acts);
      }
    } else {
      hide Inv, UidInv, FrozenAt, BoundRight, CanBind, After;
      if BeforeBinding(s.pc) && CanBind(s, s.pc.req) && !RightSubjects(s, s.pc.req) {
        var acts := BindFrom(s);
      } else {
        var j :| 0 <= j < |s.versions| && s.versions[j].Some? && CanBind(s, s.versions[j].value) &&
                 !RightSubjects(s, s.versions[j].value);
        var acts := UnwindAndBind(s, j);
      }
    }
  }

  lemma SeenStaysBound(s: State, acts: seq<Action>)
    requires Inv(s) && UidInv(s) && BoundRight(s) && SubjectsSeen(s) && FrozenThroughout(s, acts)
    ensures BoundRight(After(s, acts))
  {
    hide *;
    SubjectsSeenHolds(s, acts, |acts|);
    AllBind(s, acts);
    BoundIffReadRight(s, acts);
    AtEnd(s, acts);
  }

  lemma AllBind(s: State, acts: seq<Action>)
    requires forall j | 0 <= j < |acts| :: BindsRight(After(s, acts[..j]), acts[j])
    ensures AllBindRight(s, acts)
  {
    hide BindsRight, After;
  }

  lemma AtEnd(s: State, acts: seq<Action>)
    requires AlwaysBoundRight(s, acts)
    ensures BoundRight(After(s, acts))
  {
    hide BoundRight, After;
    assert acts[..|acts|] == acts;
  }

  lemma UnwindAndBind(s: State, j: nat) returns (acts: seq<Action>)
    requires Inv(s) && FrozenAt(s) && j < |s.versions| && s.versions[j].Some?
    requires CanBind(s, s.versions[j].value) && !RightSubjects(s, s.versions[j].value)
    ensures FrozenThroughout(s, acts) && !BoundRight(After(s, acts))
  {
    var first := Unwind(s);
    var t := After(s, first);
    CanBindElsewhere(s, t, s.versions[j].value);
    SameFrozen(s, t);
    hide *;
    var rest := ReadAndBind(t, j);
    FrozenAppend(s, first, rest);
    acts := first + rest;
  }

  lemma CanBindElsewhere(s: State, t: State, v: Request)
    requires t.versions == s.versions && t.binding == s.binding
    ensures CanBind(t, v) == CanBind(s, v) && RightSubjects(t, v) == RightSubjects(s, v)
  {
    hide Approved;
  }

  lemma FrozenAppend(s: State, xs: seq<Action>, ys: seq<Action>)
    requires FrozenThroughout(s, xs) && FrozenThroughout(After(s, xs), ys)
    ensures FrozenThroughout(s, xs + ys) && After(s, xs + ys) == After(After(s, xs), ys)
  {
    hide FrozenAt, After;
    var acts := xs + ys;
    forall n | 0 <= n <= |acts| ensures FrozenAt(After(s, acts[..n])) {
      if n <= |xs| {
        assert acts[..n] == xs[..n];
      } else {
        assert acts[..n] == xs + ys[..n - |xs|];
        AfterAppend(s, xs, ys[..n - |xs|]);
      }
    }
    AfterAppend(s, xs, ys);
  }
}
