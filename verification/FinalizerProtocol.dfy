/** The finalizer protocol of the role, policy and secret-engine controllers, one call at a
    time. Users create, edit and delete the object at any moment, the worker reads a cache
    that lags behind the API server, a call may fail, or succeed and lose its answer, and
    every call to Vault goes where the spec that was read says. */
module FinalizerProtocol {
  import opened Results
  import opened Ledgers
  import Hold = FinalizerHold

  datatype Kind = Role | Policy | Engine

  /** What a controller creates in Vault for its object. */
  datatype Artifact = VaultRole | VaultPolicy | EnginePolicy | EngineMount

  /** The calls of a reconcile in order, each with the artifact it creates. The secret engine
      also updates an auth role and writes a configuration. */
  function CreateCalls(kind: Kind): seq<Option<Artifact>> {
    match kind
    case Role => [Some(VaultRole)]
    case Policy => [Some(VaultPolicy)]
    case Engine => [Some(EnginePolicy), None, Some(EngineMount), None]
  }

  /** The calls of the finalizer in order. */
  function DeleteCalls(kind: Kind): seq<Artifact> {
    match kind
    case Role => [VaultRole]
    case Policy => [VaultPolicy]
    case Engine => [EnginePolicy, EngineMount]
  }

  /** Where the spec points: the Vault that it references, and the path of the engine or the
      name of the policy. */
  datatype Target = Target(vault: string, place: string)

  /** An artifact in Vault. The policy of an engine is named after the object, not the path. */
  datatype Site = Site(artifact: Artifact, vault: string, place: string)

  function SiteOf(x: Artifact, t: Target): Site {
    Site(x, t.vault, if x.EnginePolicy? then "" else t.place)
  }

  /** What the finalizer of an object with target `t` deletes. */
  function Sites(kind: Kind, t: Target): set<Site> {
    set x | x in DeleteCalls(kind) :: SiteOf(x, t)
  }

  /** A version of the object; `noted` tells whether the status has conditions. */
  datatype Object = Object(deleting: bool, finalizer: bool, noted: bool, target: Target)

  /** Where the one worker of the object stands, with the version it works from. */
  datatype Pc =
    | Idle
    | AddFinalizer(o: Object)
    | WritePhase(o: Object)           // the first status update, which reads the object again
    | Prepare(o: Object)              // builds the Vault client
    | Creating(o: Object, k: nat)
    | Note(o: Object)                 // the last status update
    | BuildClient(o: Object)          // the finalizer, from here on
    | Deleting(o: Object, k: nat)
    | RemoveFinalizer(o: Object)

  /** `versions` are the versions that the cache has not gone past: the first is what it shows,
      the last is what the API server stores. `leftover` keeps account of what finalizers
      left behind and nobody deleted since. */
  datatype State = State(
    kind: Kind, versions: seq<Option<Object>>, vault: set<Site>, leftover: set<Site>, pc: Pc)

  datatype Action =
    | UserCreates(target: Target)
    | UserDeletes
    | EditTarget(target: Target)
    | CacheCatchesUp
    | Begin
    | Answer(c: CallResult, is4xx: bool)

  predicate ByOthers(a: Action) {
    !a.Begin? && !a.Answer?
  }

  function Init(kind: Kind): State {
    State(kind, [None], {}, {}, Idle)
  }

  function Stored(s: State): Option<Object> {
    Hold.Last(s.versions)
  }

  /** Writes a version; a deleted object that nothing holds is dropped. */
  function Store(s: State, o: Object): State {
    s.(versions := s.versions + [if o.deleting && !o.finalizer then None else Some(o)])
  }

  /** The controller's writes: of the finalizer, and of the status. */
  datatype Update = SetFinalizer(on: bool) | SetPhase | SetNoted

  function Apply(u: Update, o: Object): Object {
    match u
    case SetFinalizer(on) => o.(finalizer := on)
    case SetPhase => o
    case SetNoted => o.(noted := true)
  }

  function Patch(s: State, u: Update, c: CallResult): State {
    if c.Failed? || Stored(s).None? then s else Store(s, Apply(u, Stored(s).value))
  }

  predicate Acknowledged(s: State, c: CallResult) {
    c.Done? && Stored(s).Some?
  }

  /** The injector once the finalizer is set: a new role or engine gets its first phase. */
  function Started(kind: Kind, o: Object): Pc {
    if kind.Policy? || o.noted then Prepare(o) else WritePhase(o)
  }

  /** What the injector does with the object that the cache shows. */
  function Dispatch(kind: Kind, view: Option<Object>): Pc {
    match view
    case None => Idle
    case Some(o) =>
      if o.deleting then (if o.finalizer then BuildClient(o) else Idle)
      else if o.finalizer then Started(kind, o)
      else AddFinalizer(o)
  }

  /** A delete error that the finalizer tolerates: only roles have the 4xx rule. */
  predicate Tolerated(kind: Kind, c: CallResult, is4xx: bool) {
    c.Done? || (kind.Role? && is4xx)
  }

  // ----- what a step does to Vault -----

  /** What a step creates. */
  function Makes(s: State, a: Action): set<Site> {
    if a.Answer? && !a.c.Failed? && s.pc.Creating? && s.pc.k < |CreateCalls(s.kind)| && CreateCalls(s.kind)[s.pc.k].Some?
    then {SiteOf(CreateCalls(s.kind)[s.pc.k].value, s.pc.o.target)}
    else {}
  }

  /** What a step deletes. */
  function Deletes(s: State, a: Action): set<Site> {
    if a.Answer? && !a.c.Failed? && s.pc.Deleting? && s.pc.k < |DeleteCalls(s.kind)|
    then {SiteOf(DeleteCalls(s.kind)[s.pc.k], s.pc.o.target)}
    else {}
  }

  /** What a finalizer step explicitly skips: everything if there is no client, and the role
      whose deletion failed with a 4xx code. */
  function Skipped(s: State, a: Action): set<Site> {
    if !a.Answer? then {}
    else if s.pc.BuildClient? && !a.c.Done? then s.vault
    else if s.pc.Deleting? && s.pc.k < |DeleteCalls(s.kind)| && a.c.Failed? && Tolerated(s.kind, a.c, a.is4xx)
      then s.vault * {SiteOf(DeleteCalls(s.kind)[s.pc.k], s.pc.o.target)}
    else {}
  }

  /** What a finalizer misses that gets through its deletes: all that lies elsewhere than where
      the spec it read points. */
  function Missed(s: State, a: Action): set<Site> {
    if a.Answer? && s.pc.Deleting? && s.pc.k + 1 == |DeleteCalls(s.kind)| && Tolerated(s.kind, a.c, a.is4xx)
    then s.vault - Sites(s.kind, s.pc.o.target)
    else {}
  }

  /** The worker's call at its position, with its answer. */
  function Work(s: State, c: CallResult, is4xx: bool): State {
    var a := Answer(c, is4xx);
    var t := s.(vault := (s.vault + Makes(s, a)) - Deletes(s, a),
                leftover := (s.leftover + Skipped(s, a) + Missed(s, a)) - Deletes(s, a));
    match s.pc
    case Idle => s
    case AddFinalizer(o) =>
      Patch(s, SetFinalizer(true), c).(pc := if Acknowledged(s, c) then Started(s.kind, o) else Idle)
    case WritePhase(_) =>
      Patch(s, SetPhase, c).(pc := if Acknowledged(s, c) then Prepare(Stored(s).value) else Idle)
    case Prepare(o) => s.(pc := if c.Done? then Creating(o, 0) else Idle)
    case Creating(o, k) => t.(pc := if c.Done? && k + 1 < |CreateCalls(s.kind)| then Creating(o, k + 1) else Note(o))
    case Note(_) => Patch(s, SetNoted, c).(pc := Idle)
    case BuildClient(o) => t.(pc := if c.Done? then Deleting(o, 0) else RemoveFinalizer(o))
    case Deleting(o, k) =>
      t.(pc := if !Tolerated(s.kind, c, is4xx) then Idle
               else if k + 1 < |DeleteCalls(s.kind)| then Deleting(o, k + 1)
               else RemoveFinalizer(o))
    case RemoveFinalizer(_) => Patch(s, SetFinalizer(false), c).(pc := Idle)
  }

  function ByUsers(s: State, a: Action): State {
    var o := Stored(s);
    match a
    case UserCreates(t) => if o.Some? then s else s.(versions := s.versions + [Some(Object(false, false, false, t))])
    case UserDeletes => if o.None? then s else Store(s, o.value.(deleting := true))
    case EditTarget(t) => if o.None? then s else Store(s, o.value.(target := t))
    case CacheCatchesUp => if |s.versions| > 1 then s.(versions := s.versions[1..]) else s
    case _ => s
  }

  /** One step. */
  function Next(s: State, a: Action): State {
    match a
    case Begin => if s.pc.Idle? then s.(pc := Dispatch(s.kind, Hold.View(s.versions))) else s
    case Answer(c, is4xx) => Work(s, c, is4xx)
    case _ => ByUsers(s, a)
  }

  function After(s: State, acts: seq<Action>): State {
    if acts == [] then s else Next(After(s, acts[..|acts| - 1]), acts[|acts| - 1])
  }

  lemma AfterOneMore(s: State, acts: seq<Action>, a: Action)
    ensures After(s, acts + [a]) == Next(After(s, acts), a)
  {
    hide Next;
    assert (acts + [a])[..|acts|] == acts;
  }

  lemma AfterNext(s: State, acts: seq<Action>, n: nat)
    requires n < |acts|
    ensures After(s, acts[..n + 1]) == Next(After(s, acts[..n]), acts[n])
  {
    hide Next;
    assert acts[..n + 1] == acts[..n] + [acts[n]];
    AfterOneMore(s, acts[..n], acts[n]);
  }

  // ----- the finalizer holds the object -----

  function MarkOf(o: Object): Hold.Mark {
    Hold.Mark(o.deleting, o.finalizer)
  }

  function Marks(s: State): seq<Option<Hold.Mark>> {
    Hold.Marks(s.versions, MarkOf)
  }

  function Phase(pc: Pc): Hold.Phase {
    match pc
    case Idle => Hold.Idle
    case AddFinalizer(_) => Hold.Adding
    case BuildClient(_) => Hold.Finalizing
    case Deleting(_, _) => Hold.Finalizing
    case RemoveFinalizer(_) => Hold.Finalizing
    case _ => Hold.Working
  }

  predicate Held(s: State) {
    Stored(s).Some? && Stored(s).value.finalizer
  }

  predicate HeldInv(s: State) {
    Hold.AllSettled(s.versions, MarkOf) && Hold.WorkerInv(Marks(s), Phase(s.pc))
  }

  lemma MarksEnds(s: State)
    ensures Hold.Last(Marks(s)) == Hold.MarkOne(Stored(s), MarkOf)
    ensures Hold.View(Marks(s)) == Hold.MarkOne(Hold.View(s.versions), MarkOf)
    ensures Hold.Carries(Hold.Last(Marks(s))) <==> Held(s)
  {
    Hold.MarksEnds(s.versions, MarkOf);
    hide Hold.Marks;
  }

  /** Storing a version with the marks of the last one. */
  lemma StoreKeepsHeld(s: State, o: Object)
    requires HeldInv(s) && Stored(s).Some? && MarkOf(o) == MarkOf(Stored(s).value)
    ensures Store(s, o) == s.(versions := s.versions + [Some(o)])
    ensures HeldInv(Store(s, o)) && Held(Store(s, o)) == Held(s)
  {
    MarksEnds(s);
    Hold.MarksAppend(s.versions, Some(o), MarkOf);
    Hold.Stutter(Marks(s), Phase(s.pc));
    hide Hold.Marks, Hold.WorkerInv;
    assert Stored(s) in s.versions;
  }

  lemma FinalizerPatchKeepsHeld(s: State, on: bool, c: CallResult)
    requires HeldInv(s) && s.versions != []
    ensures Marks(Patch(s, SetFinalizer(on), c)) == Hold.Patched(Marks(s), on, c)
    ensures Hold.AllSettled(Patch(s, SetFinalizer(on), c).versions, MarkOf)
  {
    MarksEnds(s);
    hide Hold.Marks, Hold.WorkerInv;
    if Stored(s).Some? && !c.Failed? {
      var o := Stored(s).value.(finalizer := on);
      Hold.MarksAppend(s.versions, if o.deleting && !on then None else Some(o), MarkOf);
    }
  }

  lemma OthersKeepHeld(s: State, a: Action)
    requires HeldInv(s) && ByOthers(a)
    ensures HeldInv(Next(s, a)) && Held(Next(s, a)) == Held(s)
  {
    hide HeldInv;
    match a
    case UserCreates(_) => ExistenceKeepsHeld(s, a, Hold.Creation);
    case UserDeletes => ExistenceKeepsHeld(s, a, Hold.Deletion);
    case CacheCatchesUp => CatchUpKeepsHeld(s);
    case EditTarget(x) =>
      if Stored(s).Some? { StoreKeepsHeld(s, Stored(s).value.(target := x)); }
  }

  lemma ExistenceKeepsHeld(s: State, a: Action, change: Hold.Change)
    requires HeldInv(s)
    requires (a.UserCreates? && change.Creation?) || (a.UserDeletes? && change.Deletion?)
    ensures HeldInv(Next(s, a)) && Held(Next(s, a)) == Held(s)
  {
    var t := Next(s, a);
    MarksEnds(s);
    MarksEnds(t);
    Hold.MarksAppend(s.versions, Stored(t), MarkOf);
    Hold.ChangesKeepWorkerInv(Marks(s), Phase(s.pc), change);
    hide Hold.Marks, Hold.WorkerInv;
    assert Stored(s) in s.versions || s.versions == [];
  }

  lemma CatchUpKeepsHeld(s: State)
    requires HeldInv(s)
    ensures HeldInv(Next(s, CacheCatchesUp)) && Held(Next(s, CacheCatchesUp)) == Held(s)
  {
    if |s.versions| > 1 {
      Hold.MarksTail(s.versions, MarkOf);
      MarksEnds(s);
      MarksEnds(Next(s, CacheCatchesUp));
      Hold.ChangesKeepWorkerInv(Marks(s), Phase(s.pc), Hold.CatchUp);
      assert |Marks(s)| == |s.versions|;
      hide Hold.Marks, Hold.WorkerInv;
    }
  }

  // ----- the account of what is left behind -----

  /** What the finalizer has dealt with when it is about to make delete call `k`. */
  predicate DealtWith(s: State, t: Target, k: nat) {
    forall i | 0 <= i < k && i < |DeleteCalls(s.kind)| ::
      SiteOf(DeleteCalls(s.kind)[i], t) in s.vault ==> SiteOf(DeleteCalls(s.kind)[i], t) in s.leftover
  }

  predicate VaultInv(s: State) {
    && s.leftover <= s.vault && (!Held(s) ==> s.vault == s.leftover)
    && (s.pc.Creating? ==> s.pc.k < |CreateCalls(s.kind)|)
    && (s.pc.Deleting? ==> s.pc.k < |DeleteCalls(s.kind)| && DealtWith(s, s.pc.o.target, s.pc.k))
    && (s.pc.RemoveFinalizer? ==> s.vault == s.leftover)
  }

  /** The inductive invariant. */
  predicate Inv(s: State) {
    HeldInv(s) && VaultInv(s)
  }

  lemma PatchKeepsInv(s: State, u: Update, c: CallResult)
    requires HeldInv(s) && !u.SetFinalizer?
    ensures HeldInv(Patch(s, u, c)) && Held(Patch(s, u, c)) == Held(s)
    ensures var t := Patch(s, u, c); t == s.(versions := t.versions)
    ensures Patch(s, u, c).versions != [] ==> s.versions != []
  {
    hide HeldInv;
    if Stored(s).Some? {
      StoreKeepsHeld(s, Apply(u, Stored(s).value));
    }
  }

  predicate WritesStatus(pc: Pc) {
    pc.WritePhase? || pc.Note?
  }

  lemma InvStatus(s: State, c: CallResult, is4xx: bool)
    requires Inv(s) && WritesStatus(s.pc)
    ensures Inv(Work(s, c, is4xx))
  {
    var u := if s.pc.Note? then SetNoted else SetPhase;
    PatchKeepsInv(s, u, c);
    MarksEnds(s);
    Hold.PhaseMoves(Marks(s));
    MarksEnds(Patch(s, u, c));
    Hold.PhaseMoves(Marks(Patch(s, u, c)));
    hide Hold.WorkerInv, Hold.Marks, Hold.AllSettled, Patch, CreateCalls;
  }

  lemma InvFinalizerPatch(s: State, c: CallResult, is4xx: bool)
    requires Inv(s) && (s.pc.AddFinalizer? || s.pc.RemoveFinalizer?)
    ensures Inv(Work(s, c, is4xx))
  {
    var on := s.pc.AddFinalizer?;
    var t := Patch(s, SetFinalizer(on), c);
    FinalizerPatchKeepsHeld(s, on, c);
    Hold.PatchKeepsWorkerInv(Marks(s), c);
    MarksEnds(s);
    MarksEnds(t);
    Hold.PhaseMoves(Marks(t));
    assert Hold.WorkerInv(Marks(t), if on then Hold.Adding else Hold.Finalizing);
    assert t == s.(versions := t.versions);
    hide Hold.WorkerInv, Hold.Marks, Hold.Patched, Hold.AllSettled, Patch, Makes, Deletes, Skipped, Missed, Started;
    StartsHeld(s.kind, if on then s.pc.o else Object(false, false, false, Target("", "")));
  }

  lemma StartsHeld(kind: Kind, o: Object)
    ensures Started(kind, o).Prepare? || Started(kind, o).WritePhase?
  {
  }

  lemma SiteInjective(kind: Kind, t: Target, i: nat, j: nat)
    requires i < j < |DeleteCalls(kind)|
    ensures SiteOf(DeleteCalls(kind)[i], t) != SiteOf(DeleteCalls(kind)[j], t)
  {
  }

  /** Once the last delete is tolerated, everything is deleted, skipped or missed. */
  lemma DeleteDeals(s: State, c: CallResult, is4xx: bool)
    requires VaultInv(s) && s.pc.Deleting? && Tolerated(s.kind, c, is4xx)
    ensures var t := Work(s, c, is4xx);
      DealtWith(t, s.pc.o.target, s.pc.k + 1) && (t.pc.RemoveFinalizer? ==> t.vault == t.leftover)
  {
    var ds, k, tg, t := DeleteCalls(s.kind), s.pc.k, s.pc.o.target, Work(s, c, is4xx);
    forall i | 0 <= i < k + 1 && i < |ds| && SiteOf(ds[i], tg) in t.vault ensures SiteOf(ds[i], tg) in t.leftover {
      if i < k { SiteInjective(s.kind, tg, i, k); }
    }
    if t.pc.RemoveFinalizer? {
      forall x | x in t.vault ensures x in t.leftover {
        if x in Sites(s.kind, tg) {
          var y :| y in ds && SiteOf(y, tg) == x;
          var i :| 0 <= i < |ds| && ds[i] == y;
        }
      }
    }
  }

  lemma InvCall(s: State, c: CallResult, is4xx: bool)
    requires Inv(s) && !WritesStatus(s.pc) && !s.pc.AddFinalizer? && !s.pc.RemoveFinalizer?
    ensures Inv(Work(s, c, is4xx))
  {
    MarksEnds(s);
    Hold.PhaseMoves(Marks(s));
    if s.pc.Deleting? && Tolerated(s.kind, c, is4xx) {
      DeleteDeals(s, c, is4xx);
    }
    hide Hold.WorkerInv, Hold.Marks, Hold.AllSettled, DealtWith, Sites;
    CallKeepsVault(s, c, is4xx);
    CallPhase(s, c, is4xx);
    hide Work;
  }

  lemma CallPhase(s: State, c: CallResult, is4xx: bool)
    requires !WritesStatus(s.pc) && !s.pc.AddFinalizer? && !s.pc.RemoveFinalizer?
    ensures var t := Work(s, c, is4xx);
      && t.versions == s.versions && t.kind == s.kind
      && (Phase(t.pc) == Phase(s.pc) || Phase(t.pc).Idle?)
  {
    hide Makes, Deletes, Skipped, Missed;
  }

  lemma CallKeepsVault(s: State, c: CallResult, is4xx: bool)
    requires VaultInv(s) && !WritesStatus(s.pc) && !s.pc.AddFinalizer? && !s.pc.RemoveFinalizer?
    requires s.pc.Creating? ==> Held(s)
    requires s.pc.Deleting? && Tolerated(s.kind, c, is4xx) ==>
      var t := Work(s, c, is4xx);
      DealtWith(t, s.pc.o.target, s.pc.k + 1) && (t.pc.RemoveFinalizer? ==> t.vault == t.leftover)
    ensures VaultInv(Work(s, c, is4xx))
  {
    hide Sites;
    if !s.pc.Deleting? {
      assert Deletes(s, Answer(c, is4xx)) == {};
      assert DealtWith(Work(s, c, is4xx), if s.pc.BuildClient? then s.pc.o.target else Target("", ""), 0);
    }
    hide DealtWith;
  }

  lemma InvOthers(s: State, a: Action)
    requires Inv(s) && ByOthers(a)
    ensures Inv(Next(s, a))
  {
    OthersKeepHeld(s, a);
    hide HeldInv;
    assert Next(s, a) == s.(versions := Next(s, a).versions);
  }

  lemma InvNext(s: State, a: Action)
    requires Inv(s)
    ensures Inv(Next(s, a))
  {
    match a
    case Begin => InvBegin(s);
    case Answer(c, is4xx) =>
      hide Inv, Work;
      if s.pc.AddFinalizer? || s.pc.RemoveFinalizer? {
        InvFinalizerPatch(s, c, is4xx);
      } else if WritesStatus(s.pc) {
        InvStatus(s, c, is4xx);
      } else {
        InvCall(s, c, is4xx);
      }
    case _ => InvOthers(s, a);
  }

  lemma InvBegin(s: State)
    requires Inv(s)
    ensures Inv(Next(s, Begin))
  {
    if s.pc.Idle? {
      MarksEnds(s);
      Hold.DispatchKeepsWorkerInv(Marks(s));
      hide Hold.WorkerInv, Hold.Marks, Hold.AllSettled;
    }
  }

  lemma {:induction false} InvHolds(kind: Kind, acts: seq<Action>)
    ensures Inv(After(Init(kind), acts)) && After(Init(kind), acts).kind == kind
  {
    if acts == [] {
      InvInit(kind);
    } else {
      var before := acts[..|acts| - 1];
      InvHolds(kind, before);
      InvNext(After(Init(kind), before), acts[|acts| - 1]);
      KindStays(After(Init(kind), before), acts[|acts| - 1]);
      hide Inv, Next;
    }
  }

  lemma InvInit(kind: Kind)
    ensures Inv(Init(kind))
  {
    assert Marks(Init(kind)) == [None];
  }

  lemma KindStays(s: State, a: Action)
    ensures Next(s, a).kind == s.kind
  {
    hide Makes, Deletes, Skipped, Missed;
  }

  // ----- over runs -----

  function Creations(s: State, acts: seq<Action>): seq<set<Site>> {
    seq(|acts|, n requires 0 <= n < |acts| => Makes(After(s, acts[..n]), acts[n]))
  }

  function Deletions(s: State, acts: seq<Action>): seq<set<Site>> {
    seq(|acts|, n requires 0 <= n < |acts| => Deletes(After(s, acts[..n]), acts[n]))
  }

  /** What finalizers explicitly skip, and what they miss. */
  function Leavings(s: State, acts: seq<Action>): seq<set<Site>> {
    seq(|acts|, n requires 0 <= n < |acts| =>
      Skipped(After(s, acts[..n]), acts[n]) + Missed(After(s, acts[..n]), acts[n]))
  }

  lemma StepBalance(s: State, a: Action)
    ensures var t := Next(s, a);
      && t.vault == (s.vault + Makes(s, a)) - Deletes(s, a) && Makes(s, a) !! Deletes(s, a)
      && t.leftover == (s.leftover + (Skipped(s, a) + Missed(s, a))) - Deletes(s, a)
      && (Skipped(s, a) + Missed(s, a)) !! Deletes(s, a)
  {
    if s.pc.Deleting? && s.pc.k < |DeleteCalls(s.kind)| {
      assert SiteOf(DeleteCalls(s.kind)[s.pc.k], s.pc.o.target) in Sites(s.kind, s.pc.o.target);
    }
    hide Sites, Started, Dispatch, Tolerated;
    if !a.Answer? || (!s.pc.Creating? && !s.pc.Deleting? && !s.pc.BuildClient?) {
      StepElsewhere(s, a);
    }
  }

  lemma StepElsewhere(s: State, a: Action)
    requires !a.Answer? || (!s.pc.Creating? && !s.pc.Deleting? && !s.pc.BuildClient?)
    ensures Next(s, a).vault == s.vault && Next(s, a).leftover == s.leftover
    ensures Makes(s, a) == Deletes(s, a) == Skipped(s, a) == Missed(s, a) == {}
  {
  }

  /** What is in Vault is what was created and not deleted since, wherever it lies. */
  lemma VaultExactly(kind: Kind, acts: seq<Action>, x: Site)
    ensures x in After(Init(kind), acts).vault <==>
            exists n: nat :: LeftAt(Creations(Init(kind), acts), Deletions(Init(kind), acts), n, x)
  {
    var s := Init(kind);
    hide Makes, Deletes, After, LeftAt;
    var balance := seq(|acts| + 1, n requires 0 <= n <= |acts| => After(s, acts[..n]).vault);
    var taken, given := Creations(s, acts), Deletions(s, acts);
    forall n | 0 <= n < |acts| ensures balance[n + 1] == (balance[n] + taken[n]) - given[n] && taken[n] !! given[n] {
      AfterNext(s, acts, n);
      StepBalance(After(s, acts[..n]), acts[n]);
    }
    AtStart(kind, acts);
    assert acts[..|acts|] == acts;
    Ledger(balance, taken, given, x);
  }

  lemma AtStart(kind: Kind, acts: seq<Action>)
    ensures After(Init(kind), acts[..0]) == Init(kind)
  {
  }

  lemma LeftoverExactly(kind: Kind, acts: seq<Action>, x: Site)
    ensures x in After(Init(kind), acts).leftover <==>
            exists n: nat :: LeftAt(Leavings(Init(kind), acts), Deletions(Init(kind), acts), n, x)
  {
    var s := Init(kind);
    hide Skipped, Missed, Deletes, After, LeftAt;
    var balance := seq(|acts| + 1, n requires 0 <= n <= |acts| => After(s, acts[..n]).leftover);
    var taken, given := Leavings(s, acts), Deletions(s, acts);
    forall n | 0 <= n < |acts| ensures balance[n + 1] == (balance[n] + taken[n]) - given[n] && taken[n] !! given[n] {
      AfterNext(s, acts, n);
      StepBalance(After(s, acts[..n]), acts[n]);
    }
    AtStart(kind, acts);
    assert acts[..|acts|] == acts;
    Ledger(balance, taken, given, x);
  }

  /** Whatever the users do, however far the cache lags, whichever calls fail or lose their
      answers: while the object does not carry the finalizer, Vault holds exactly what some
      finalizer explicitly skipped, or missed because the spec it read points elsewhere, and
      no finalizer deleted since. */
  lemma FinalizerSafety(kind: Kind, acts: seq<Action>, x: Site)
    requires !Held(After(Init(kind), acts))
    ensures x in After(Init(kind), acts).vault <==>
            exists n: nat :: LeftAt(Leavings(Init(kind), acts), Deletions(Init(kind), acts), n, x)
  {
    InvHolds(kind, acts);
    LeftoverExactly(kind, acts, x);
    hide After, HeldInv, LeftAt;
  }
}
