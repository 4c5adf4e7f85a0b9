/** When a finalizer leaves nothing behind, and when it does. */
module FinalizerRuns {
  import opened Results
  import opened Ledgers
  import opened FinalizerProtocol
  import Hold = FinalizerHold

  // ----- one finalizer -----

  /** A finalizer step that takes the explicit skip path: the client cannot be built, or the
      delete of a role fails with a 4xx code. */
  predicate Skips(s: State, a: Action) {
    a.Answer? && ((s.pc.BuildClient? && !a.c.Done?) || (s.pc.Deleting? && s.kind.Role? && a.c.Failed? && a.is4xx))
  }

  predicate Finalizing(pc: Pc) {
    pc.BuildClient? || pc.Deleting? || pc.RemoveFinalizer?
  }

  /** The steps are those of one finalizer, with others acting in between, that skips nothing. */
  ghost predicate OneFinalizer(s: State, acts: seq<Action>) {
    && (forall n | 0 <= n <= |acts| :: Finalizing(After(s, acts[..n]).pc))
    && (forall n | 0 <= n < |acts| :: !Skips(After(s, acts[..n]), acts[n]))
  }

  function SitesUpTo(kind: Kind, t: Target, k: nat): set<Site> {
    set i | 0 <= i < k && i < |DeleteCalls(kind)| :: SiteOf(DeleteCalls(kind)[i], t)
  }

  lemma SitesUpToAll(kind: Kind, t: Target)
    ensures SitesUpTo(kind, t, |DeleteCalls(kind)|) == Sites(kind, t)
  {
    var ds := DeleteCalls(kind);
    forall x | x in Sites(kind, t) ensures x in SitesUpTo(kind, t, |ds|) {
      var y :| y in ds && SiteOf(y, t) == x;
      var i :| 0 <= i < |ds| && ds[i] == y;
    }
  }

  lemma SitesUpToNext(kind: Kind, t: Target, k: nat)
    requires k < |DeleteCalls(kind)|
    ensures SitesUpTo(kind, t, k + 1) == SitesUpTo(kind, t, k) + {SiteOf(DeleteCalls(kind)[k], t)}
    ensures SitesUpTo(kind, t, 0) == {}
  {
  }

  /** How far a finalizer that began with the vault `before` has come. */
  predicate Progress(s: State, o: Object, before: set<Site>) {
    match s.pc
    case BuildClient(x) => x == o && s.vault == before
    case Deleting(x, k) => x == o && k < |DeleteCalls(s.kind)| && s.vault == before - SitesUpTo(s.kind, o.target, k)
    case RemoveFinalizer(x) => x == o && s.vault == before - Sites(s.kind, o.target)
    case _ => false
  }

  lemma ProgressStep(s: State, a: Action, o: Object, before: set<Site>)
    requires Progress(s, o, before) && !Skips(s, a) && Finalizing(Next(s, a).pc)
    ensures Progress(Next(s, a), o, before) && Next(s, a).kind == s.kind
  {
    KindStays(s, a);
    SitesUpToAll(s.kind, o.target);
    if s.pc.Deleting? {
      SitesUpToNext(s.kind, o.target, s.pc.k);
    } else {
      SitesUpToNext(s.kind, o.target, 0);
    }
    hide SitesUpTo, Sites, Store, Started, Hold.View;
  }

  lemma {:induction false} FinalizerProgress(s: State, acts: seq<Action>, o: Object)
    requires s.pc == BuildClient(o) && OneFinalizer(s, acts)
    ensures Progress(After(s, acts), o, s.vault) && After(s, acts).kind == s.kind
  {
    if acts != [] {
      var k := |acts| - 1;
      assert OneFinalizer(s, acts[..k]) by {
        assert forall n | 0 <= n <= k :: acts[..k][..n] == acts[..n];
      }
      FinalizerProgress(s, acts[..k], o);
      assert acts[..k + 1] == acts;
      ProgressStep(After(s, acts[..k]), acts[k], o, s.vault);
      hide Next, Progress, Skips;
    }
  }

  /** A finalizer that gets through without skipping deletes exactly what lies where the spec it
      read points. */
  lemma FinalizerDeletes(s: State, acts: seq<Action>, o: Object)
    requires s.pc == BuildClient(o) && OneFinalizer(s, acts) && After(s, acts).pc.RemoveFinalizer?
    ensures After(s, acts).vault == s.vault - Sites(s.kind, o.target)
  {
    FinalizerProgress(s, acts, o);
    hide After;
  }

  /** Some create call for `x` was carried out in the run, and no delete call for it since. */
  ghost predicate Outstanding(kind: Kind, acts: seq<Action>, x: Site) {
    exists n: nat :: LeftAt(Creations(Init(kind), acts), Deletions(Init(kind), acts), n, x)
  }

  /** So it leaves Vault clean if and only if every create call that was carried out, and not
      undone since, went where the finalizer's spec points. */
  lemma FinalizerCleansExactly(kind: Kind, before: seq<Action>, acts: seq<Action>, o: Object)
    requires var s := After(Init(kind), before);
      s.pc == BuildClient(o) && OneFinalizer(s, acts) && After(s, acts).pc.RemoveFinalizer?
    ensures After(After(Init(kind), before), acts).vault == {} <==>
            forall x | Outstanding(kind, before, x) :: x in Sites(kind, o.target)
  {
    hide *;
    var s := After(Init(kind), before);
    InvHolds(kind, before);
    FinalizerDeletes(s, acts, o);
    VaultIsOutstanding(kind, before);
    EmptyDifference(s.vault, Sites(kind, o.target));
  }

  lemma EmptyDifference(a: set<Site>, b: set<Site>)
    ensures a - b == {} <==> forall x | x in a :: x in b
  {
    if x :| x in a && x !in b {
      assert x in a - b;
    }
  }

  lemma VaultIsOutstanding(kind: Kind, acts: seq<Action>)
    ensures forall x :: x in After(Init(kind), acts).vault <==> Outstanding(kind, acts, x)
  {
    hide After, LeftAt;
    forall x ensures x in After(Init(kind), acts).vault <==> Outstanding(kind, acts, x) {
      VaultExactly(kind, acts, x);
    }
  }

  /** Going to the same place: to the same Vault, and, but for the policy of an engine, to the
      same path or name. */
  lemma SamePlace(kind: Kind, x: Artifact, t: Target, u: Target)
    requires x in DeleteCalls(kind)
    ensures SiteOf(x, t) in Sites(kind, u) <==> t.vault == u.vault && (x.EnginePolicy? || t.place == u.place)
  {
    if SiteOf(x, t) in Sites(kind, u) {
      var y :| y in DeleteCalls(kind) && SiteOf(y, u) == SiteOf(x, t);
    }
    if t.vault == u.vault && (x.EnginePolicy? || t.place == u.place) {
      assert SiteOf(x, t) == SiteOf(x, u);
    }
  }

  /** Whatever a finalizer skips or misses on its way to the patch does stay: with the patch the
      object disappears. */
  lemma LeavingsStay(kind: Kind, acts: seq<Action>, a: Action)
    requires var s := After(Init(kind), acts); Held(s) && !s.pc.RemoveFinalizer? && Next(s, a).pc.RemoveFinalizer?
    ensures var s := After(Init(kind), acts); var t := Next(Next(s, a), Answer(Done, false));
      Stored(t).None? && t.vault == Next(s, a).vault && Skipped(s, a) + Missed(s, a) <= t.vault
  {
    var s := After(Init(kind), acts);
    InvHolds(kind, acts);
    InvNext(s, a);
    StepBalance(s, a);
    hide After;
    StaysHeld(s, a);
    ReleaseDrops(Next(s, a));
    hide Inv, Next, Skipped, Missed, Deletes;
  }

  lemma StaysHeld(s: State, a: Action)
    requires Inv(s) && Held(s) && !s.pc.RemoveFinalizer? && Next(s, a).pc.RemoveFinalizer?
    ensures Held(Next(s, a))
  {
    if a.Answer? {
      CallPhase(s, a.c, a.is4xx);
    }
    hide Makes, Deletes, Skipped, Missed, Hold.WorkerInv, Hold.Marks, Hold.AllSettled, Sites;
  }

  lemma ReleaseDrops(s: State)
    requires Inv(s) && Held(s) && s.pc.RemoveFinalizer?
    ensures var t := Next(s, Answer(Done, false)); Stored(t).None? && t.vault == s.vault
  {
    MarksEnds(s);
    Hold.FinalizedIsDying(Marks(s));
    hide Hold.WorkerInv, Hold.Marks, Hold.AllSettled;
  }

  // ----- over runs -----

  predicate HeldOrClean(s: State) {
    Held(s) || s.vault == {}
  }

  /** Nothing ever exists in Vault without the finalizer. */
  ghost predicate AlwaysHeldOrClean(kind: Kind, acts: seq<Action>) {
    forall n | 0 <= n <= |acts| :: HeldOrClean(After(Init(kind), acts[..n]))
  }

  /** The step takes the finalizer off. */
  predicate Releases(s: State, a: Action) {
    s.pc.RemoveFinalizer? && a.Answer? && !a.c.Failed? && Held(s)
  }

  /** Whenever the finalizer is taken off, what finalizers skipped or missed was deleted since. */
  ghost predicate ReleasesCleanly(kind: Kind, acts: seq<Action>) {
    forall n | 0 <= n < |acts| && Releases(After(Init(kind), acts[..n]), acts[n]) ::
      After(Init(kind), acts[..n]).leftover == {}
  }

  lemma HeldOrCleanStep(s: State, a: Action)
    requires Inv(s) && HeldOrClean(s)
    ensures HeldOrClean(Next(s, a)) <==> !(Releases(s, a) && s.leftover != {})
  {
    InvNext(s, a);
    StepBalance(s, a);
    if Held(s) && !Held(Next(s, a)) {
      NewlyReleased(s, a);
    }
    MakesHeld(s, a);
    if Releases(s, a) {
      ReleaseAnyway(s, a);
    }
    hide Next, HeldInv, Skipped, Missed, Deletes, Makes;
  }

  lemma MakesHeld(s: State, a: Action)
    requires Inv(s)
    ensures Makes(s, a) != {} ==> Held(s)
    ensures s.pc.RemoveFinalizer? ==> Makes(s, a) == Deletes(s, a) == Skipped(s, a) == Missed(s, a) == {}
  {
    MarksEnds(s);
    Hold.PhaseMoves(Marks(s));
    hide Hold.WorkerInv, Hold.Marks, Hold.AllSettled;
  }

  lemma ReleaseAnyway(s: State, a: Action)
    requires Inv(s) && Releases(s, a)
    ensures !Held(Next(s, a))
  {
    MarksEnds(s);
    Hold.FinalizedIsDying(Marks(s));
    hide Hold.WorkerInv, Hold.Marks, Hold.AllSettled;
  }

  lemma NewlyReleased(s: State, a: Action)
    requires Inv(s) && Held(s) && !Held(Next(s, a))
    ensures Releases(s, a)
  {
    match a
    case Answer(c, is4xx) =>
      if WritesStatus(s.pc) {
        PatchKeepsInv(s, if s.pc.Note? then SetNoted else SetPhase, c);
      } else if !s.pc.AddFinalizer? && !s.pc.RemoveFinalizer? {
        CallPhase(s, c, is4xx);
      }
      hide Makes, Deletes, Skipped, Missed, Hold.WorkerInv, Hold.Marks, Hold.AllSettled;
    case Begin =>
    case _ => OthersKeepHeld(s, a);
  }

  /** Over every run: nothing ever exists in Vault without the finalizer, if and only if nothing
      skipped or missed is outstanding whenever the finalizer is taken off. */
  lemma NothingLeftBehind(kind: Kind, acts: seq<Action>)
    ensures AlwaysHeldOrClean(kind, acts) <==> ReleasesCleanly(kind, acts)
  {
    hide After, HeldOrClean, Releases, Inv;
    if ReleasesCleanly(kind, acts) {
      HeldOrCleanUpTo(kind, acts, |acts|);
    }
    if AlwaysHeldOrClean(kind, acts) {
      forall n | 0 <= n < |acts| && Releases(After(Init(kind), acts[..n]), acts[n])
        ensures After(Init(kind), acts[..n]).leftover == {}
      {
        InvHolds(kind, acts[..n]);
        AfterNext(Init(kind), acts, n);
        assert HeldOrClean(After(Init(kind), acts[..n])) && HeldOrClean(After(Init(kind), acts[..n + 1]));
        HeldOrCleanStep(After(Init(kind), acts[..n]), acts[n]);
      }
    }
  }

  lemma {:induction false} HeldOrCleanUpTo(kind: Kind, acts: seq<Action>, n: nat)
    requires n <= |acts| && ReleasesCleanly(kind, acts)
    ensures forall j | 0 <= j <= n :: HeldOrClean(After(Init(kind), acts[..j]))
  {
    hide After, HeldOrClean, Releases, Inv;
    if n == 0 {
      CleanAtStart(kind, acts);
    } else {
      HeldOrCleanUpTo(kind, acts, n - 1);
      InvHolds(kind, acts[..n - 1]);
      AfterNext(Init(kind), acts, n - 1);
      HeldOrCleanStep(After(Init(kind), acts[..n - 1]), acts[n - 1]);
    }
  }

  lemma CleanAtStart(kind: Kind, acts: seq<Action>)
    ensures HeldOrClean(After(Init(kind), acts[..0]))
  {
  }

  // ----- specs that stay where they are -----

  /** The step does not point the spec elsewhere. */
  predicate Steady(a: Action, t: Target) {
    (a.UserCreates? || a.EditTarget? ==> a.target == t)
  }

  ghost predicate AllSteady(kind: Kind, acts: seq<Action>, t: Target) {
    forall n | 0 <= n < |acts| :: Steady(acts[n], t) && !Skips(After(Init(kind), acts[..n]), acts[n])
  }

  function SnapshotOf(pc: Pc): Option<Object> {
    if pc.Idle? then None else Some(pc.o)
  }

  predicate OneTarget(s: State, t: Target) {
    && (forall v <- s.versions :: v.Some? ==> v.value.target == t)
    && (SnapshotOf(s.pc).Some? ==> SnapshotOf(s.pc).value.target == t)
    && s.vault <= Sites(s.kind, t) && s.leftover == {}
  }

  lemma OneTargetStep(s: State, a: Action, t: Target)
    requires Inv(s) && OneTarget(s, t) && Steady(a, t) && !Skips(s, a)
    ensures OneTarget(Next(s, a), t)
  {
    KindStays(s, a);
    StepBalance(s, a);
    SnapshotStays(s, a);
    VersionsStay(s, a, t);
    CreatesOwned(s, a);
    SteadyLeaves(s, a, t);
    hide Next, Sites, Makes, Deletes, Skipped, Missed, Inv;
  }

  lemma SnapshotStays(s: State, a: Action)
    ensures var o := SnapshotOf(Next(s, a).pc);
      o.Some? ==> o == Hold.View(s.versions) || o == SnapshotOf(s.pc) || o == Stored(s)
  {
    hide Makes, Deletes, Skipped, Missed;
  }

  lemma VersionsStay(s: State, a: Action, t: Target)
    requires (forall v <- s.versions :: v.Some? ==> v.value.target == t) && Steady(a, t)
    ensures forall v <- Next(s, a).versions :: v.Some? ==> v.value.target == t
    ensures Hold.View(s.versions).Some? ==> Hold.View(s.versions).value.target == t
    ensures Stored(s).Some? ==> Stored(s).value.target == t
  {
    hide Makes, Deletes, Skipped, Missed;
  }

  lemma CreatesOwned(s: State, a: Action)
    ensures s.pc.Creating? ==> Makes(s, a) <= Sites(s.kind, s.pc.o.target)
    ensures !s.pc.Creating? ==> Makes(s, a) == {}
  {
    var ds, t := DeleteCalls(s.kind), if s.pc.Creating? then s.pc.o.target else Target("", "");
    assert ds[0] in ds && (s.kind.Engine? ==> ds[1] in ds);
    assert SiteOf(ds[0], t) in Sites(s.kind, t) && (s.kind.Engine? ==> SiteOf(ds[1], t) in Sites(s.kind, t));
  }

  lemma SteadyLeaves(s: State, a: Action, t: Target)
    requires OneTarget(s, t) && !Skips(s, a)
    ensures Skipped(s, a) == {} && Missed(s, a) == {}
  {
  }

  /** If the spec always points to the same place and no finalizer skips, nothing is ever left
      behind. */
  lemma SteadyRunsLeaveNothing(kind: Kind, acts: seq<Action>, t: Target)
    requires AllSteady(kind, acts, t)
    ensures AlwaysHeldOrClean(kind, acts)
  {
    NothingLeftBehind(kind, acts);
    forall n | 0 <= n < |acts| ensures After(Init(kind), acts[..n]).leftover == {} {
      SteadyUpTo(kind, acts, t, n);
    }
    hide After, Releases;
  }

  lemma {:induction false} SteadyUpTo(kind: Kind, acts: seq<Action>, t: Target, n: nat)
    requires n <= |acts| && AllSteady(kind, acts, t)
    ensures OneTarget(After(Init(kind), acts[..n]), t)
  {
    hide Next, OneTarget, Inv, Skips, Steady;
    if n == 0 {
      TargetAtStart(kind, acts, t);
    } else {
      SteadyUpTo(kind, acts, t, n - 1);
      InvHolds(kind, acts[..n - 1]);
      AfterNext(Init(kind), acts, n - 1);
      OneTargetStep(After(Init(kind), acts[..n - 1]), acts[n - 1], t);
    }
  }

  lemma TargetAtStart(kind: Kind, acts: seq<Action>, t: Target)
    ensures OneTarget(After(Init(kind), acts[..0]), t)
  {
  }

  // ----- the edit that leaves a role behind -----

  const HERE := Target("vault", "aws")
  const THERE := Target("vault", "aws2")

  function RoleAt(t: Target): Site {
    SiteOf(VaultRole, t)
  }

  function Ok(): Action {
    Answer(Done, false)
  }

  lemma Append4(s: State, acts: seq<Action>, a: Action, b: Action, c: Action, d: Action)
    ensures After(s, acts + [a, b, c, d]) == Next(Next(Next(Next(After(s, acts), a), b), c), d)
  {
    hide After, Next;
    AfterOneMore(s, acts, a);
    AfterOneMore(s, acts + [a], b);
    AfterOneMore(s, acts + [a] + [b], c);
    AfterOneMore(s, acts + [a] + [b] + [c], d);
    assert acts + [a] + [b] + [c] + [d] == acts + [a, b, c, d];
  }

  /** The role is created and reconciled, edited and reconciled, deleted and finalized; the
      cache keeps up and every call succeeds. */
  function RetargetActs(): seq<Action> {
    [UserCreates(HERE), CacheCatchesUp, Begin, Ok()] + [Ok(), Ok(), Ok(), Ok()] +
    [EditTarget(THERE), CacheCatchesUp, CacheCatchesUp, CacheCatchesUp] + [CacheCatchesUp, Begin, Ok(), Ok()] +
    [Ok(), UserDeletes, CacheCatchesUp, CacheCatchesUp] + [Begin, Ok(), Ok(), Ok()]
  }

  function Version(deleting: bool, finalizer: bool, noted: bool, t: Target): Option<Object> {
    Some(Object(deleting, finalizer, noted, t))
  }

  /** The states of that run, every four steps. */
  function RetargetState(n: nat): State {
    var o0, o1 := Version(false, false, false, HERE), Version(false, true, false, HERE);
    var o2, o3, o4 := Version(false, true, true, HERE), Version(false, true, true, THERE), Version(true, true, true, THERE);
    match n
    case 0 => Init(Role)
    case 1 => State(Role, [o0, o1], {}, {}, WritePhase(o0.value))
    case 2 => State(Role, [o0, o1, o1, o2], {RoleAt(HERE)}, {}, Idle)
    case 3 => State(Role, [o2, o3], {RoleAt(HERE)}, {}, Idle)
    case 4 => State(Role, [o3], {RoleAt(HERE), RoleAt(THERE)}, {}, Note(o3.value))
    case 5 => State(Role, [o4], {RoleAt(HERE), RoleAt(THERE)}, {}, Idle)
    case _ => State(Role, [o4, None], {RoleAt(HERE)}, {RoleAt(HERE)}, Idle)
  }

  lemma RetargetFirst()
    ensures Next(Next(Next(Next(RetargetState(0), UserCreates(HERE)), CacheCatchesUp), Begin), Ok()) == RetargetState(1)
    ensures Next(Next(Next(Next(RetargetState(1), Ok()), Ok()), Ok()), Ok()) == RetargetState(2)
  {
    var s1 := Next(Next(RetargetState(1), Ok()), Ok());
    assert s1.pc == Creating(Object(false, true, false, HERE), 0);
    assert Next(s1, Ok()).vault == {RoleAt(HERE)};
  }

  lemma RetargetEdit()
    ensures Next(Next(Next(Next(RetargetState(2), EditTarget(THERE)), CacheCatchesUp), CacheCatchesUp), CacheCatchesUp)
         == RetargetState(3)
  {
  }

  lemma RetargetSecond()
    ensures Next(Next(Next(Next(RetargetState(3), CacheCatchesUp), Begin), Ok()), Ok()) == RetargetState(4)
  {
    var s1 := Next(Next(RetargetState(3), CacheCatchesUp), Begin);
    assert s1.pc == Prepare(Object(false, true, true, THERE));
  }

  lemma RetargetDeletion()
    ensures Next(Next(Next(Next(RetargetState(4), Ok()), UserDeletes), CacheCatchesUp), CacheCatchesUp) == RetargetState(5)
  {
    var s1 := Next(RetargetState(4), Ok());
    assert s1.versions == RetargetState(4).versions + RetargetState(4).versions;
  }

  lemma RetargetFinalizer()
    ensures Next(Next(Next(Next(RetargetState(5), Begin), Ok()), Ok()), Ok()) == RetargetState(6)
  {
    var o := Object(true, true, true, THERE);
    var s2 := Next(Next(RetargetState(5), Begin), Ok());
    assert s2 == RetargetState(5).(pc := Deleting(o, 0));
    SitesUpToAll(Role, THERE);
    SitesUpToNext(Role, THERE, 0);
    assert Missed(s2, Ok()) == {RoleAt(HERE)};
    hide Sites;
    assert Next(s2, Ok()) == State(Role, s2.versions, {RoleAt(HERE)}, {RoleAt(HERE)}, RemoveFinalizer(o));
  }

  lemma RetargetRun()
    ensures After(Init(Role), RetargetActs()) == RetargetState(6)
  {
    var i := Init(Role);
    var a1 := [UserCreates(HERE), CacheCatchesUp, Begin, Ok()];
    var a2 := a1 + [Ok(), Ok(), Ok(), Ok()];
    var a3 := a2 + [EditTarget(THERE), CacheCatchesUp, CacheCatchesUp, CacheCatchesUp];
    var a4 := a3 + [CacheCatchesUp, Begin, Ok(), Ok()];
    var a5 := a4 + [Ok(), UserDeletes, CacheCatchesUp, CacheCatchesUp];
    assert [] + a1 == a1 && After(i, []) == RetargetState(0);
    hide After, Next, RetargetState, Ok;
    RetargetFirst();
    RetargetEdit();
    RetargetSecond();
    RetargetDeletion();
    RetargetFinalizer();
    Append4(i, [], UserCreates(HERE), CacheCatchesUp, Begin, Ok());
    Append4(i, a1, Ok(), Ok(), Ok(), Ok());
    Append4(i, a2, EditTarget(THERE), CacheCatchesUp, CacheCatchesUp, CacheCatchesUp);
    Append4(i, a3, CacheCatchesUp, Begin, Ok(), Ok());
    Append4(i, a4, Ok(), UserDeletes, CacheCatchesUp, CacheCatchesUp);
    Append4(i, a5, Begin, Ok(), Ok(), Ok());
    assert RetargetActs() == a5 + [Begin, Ok(), Ok(), Ok()];
  }

  /** All calls succeed and nothing is skipped; the object is gone, and the role at the path of
      the first spec stays. */
  lemma RetargetLeaks()
    ensures var s := After(Init(Role), RetargetActs());
      Stored(s).None? && s.vault == {RoleAt(HERE)} && !AlwaysHeldOrClean(Role, RetargetActs())
  {
    RetargetRun();
    hide After, RetargetActs;
    assert RetargetActs()[..|RetargetActs()|] == RetargetActs();
    assert RoleAt(HERE) in RetargetState(6).vault && !HeldOrClean(RetargetState(6));
  }
}
