/** The cancellable contexts of a VaultServer's goroutines. The worker of a key and the status
    monitors share the registries, and every access to a registry is a step of its own. */
module Contexts {
  type Key = string

  datatype Role = Monitor | Auth

  datatype Context = Context(key: Key, role: Role, cancelled: bool)

  /** A monitor's round that found its object missing, holding the registry entry it looked up. */
  datatype Round = LookedUp(entry: nat) | Cancelled(entry: nat)

  /** What the worker of a key is about to do: the end of a successful reconcile, and the
      handling of a missing object. */
  datatype Job =
    | StoreMonitor
    | CreateAuth
    | CancelAuth(ctx: nat)
    | StoreAuth(ctx: nat)
    | CancelGone(entry: nat)
    | DeleteGone(entry: nat)
    | LookUpGoneAuth
    | CancelGoneAuth(entry: nat)
    | DeleteGoneAuth(entry: nat)

  /** `contexts` are all contexts ever created; the registries name them by position. */
  datatype State = State(
    contexts: seq<Context>, ctxCancels: map<Key, nat>, authMethodCtx: map<Key, nat>,
    jobs: map<Key, Job>, rounds: map<nat, Round>)

  datatype Action =
    | Reconciled(key: Key)      // reconcileVault got past its status update, and looks for a monitor
    | ObjectMissing(key: Key)   // the injector finds no object, and looks for a monitor
    | Continue(key: Key)        // the worker's next step
    | MonitorLooksUp(m: nat)
    | MonitorCancels(m: nat)
    | MonitorDeletes(m: nat)

  const INIT: State := State([], map[], map[], map[], map[])

  function CancelAt(cs: seq<Context>, i: nat): seq<Context> {
    if i < |cs| then cs[i := cs[i].(cancelled := true)] else cs
  }

  function Cancel(cs: seq<Context>, entries: map<Key, nat>, key: Key): seq<Context> {
    if key in entries then CancelAt(cs, entries[key]) else cs
  }

  /** The job belongs to the end of a successful reconcile. */
  predicate Starting(job: Job) {
    job.StoreMonitor? || job.CreateAuth? || job.CancelAuth? || job.StoreAuth?
  }

  /** One step of the worker of `key`. */
  function Work(s: State, key: Key, job: Job): State {
    if Starting(job) then Start(s, key, job) else Stop(s, key, job)
  }

  function Start(s: State, key: Key, job: Job): State
    requires Starting(job)
  {
    var new_ := |s.contexts|;
    match job
    case StoreMonitor =>
      s.(contexts := s.contexts + [Context(key, Monitor, false)], ctxCancels := s.ctxCancels[key := new_],
         jobs := s.jobs[key := CreateAuth])
    case CreateAuth =>
      s.(contexts := s.contexts + [Context(key, Auth, false)], jobs := s.jobs[key := CancelAuth(new_)])
    case CancelAuth(ctx) =>
      s.(contexts := Cancel(s.contexts, s.authMethodCtx, key), jobs := s.jobs[key := StoreAuth(ctx)])
    case StoreAuth(ctx) => s.(authMethodCtx := s.authMethodCtx[key := ctx], jobs := s.jobs - {key})
  }

  function Stop(s: State, key: Key, job: Job): State
    requires !Starting(job)
  {
    match job
    case CancelGone(e) => s.(contexts := CancelAt(s.contexts, e), jobs := s.jobs[key := DeleteGone(e)])
    case DeleteGone(_) => s.(ctxCancels := s.ctxCancels - {key}, jobs := s.jobs[key := LookUpGoneAuth])
    case LookUpGoneAuth =>
      s.(jobs := if key in s.authMethodCtx then s.jobs[key := CancelGoneAuth(s.authMethodCtx[key])] else s.jobs - {key})
    case CancelGoneAuth(e) => s.(contexts := CancelAt(s.contexts, e), jobs := s.jobs[key := DeleteGoneAuth(e)])
    case DeleteGoneAuth(_) => s.(authMethodCtx := s.authMethodCtx - {key}, jobs := s.jobs - {key})
  }

  /** A monitor that found its object missing. */
  function MonitorStep(s: State, a: Action): State {
    match a
    case MonitorLooksUp(m) =>
      if m < |s.contexts| && s.contexts[m].role.Monitor? && m !in s.rounds && s.contexts[m].key in s.ctxCancels
      then s.(rounds := s.rounds[m := LookedUp(s.ctxCancels[s.contexts[m].key])])
      else s
    case MonitorCancels(m) =>
      if m in s.rounds && s.rounds[m].LookedUp?
      then s.(contexts := CancelAt(s.contexts, s.rounds[m].entry), rounds := s.rounds[m := Cancelled(s.rounds[m].entry)])
      else s
    case MonitorDeletes(m) =>
      if m in s.rounds && s.rounds[m].Cancelled? && m < |s.contexts|
      then s.(ctxCancels := s.ctxCancels - {s.contexts[m].key}, rounds := s.rounds - {m})
      else s
    case _ => s
  }

  function Next(s: State, a: Action): State {
    match a
    case Reconciled(key) =>
      if key in s.jobs then s
      else s.(jobs := s.jobs[key := if key in s.ctxCancels then CreateAuth else StoreMonitor])
    case ObjectMissing(key) =>
      if key in s.jobs then s
      else s.(jobs := s.jobs[key := if key in s.ctxCancels then CancelGone(s.ctxCancels[key]) else LookUpGoneAuth])
    case Continue(key) => if key in s.jobs then Work(s, key, s.jobs[key]) else s
    case _ => MonitorStep(s, a)
  }

  function After(acts: seq<Action>): State {
    if acts == [] then INIT else Next(After(acts[..|acts| - 1]), acts[|acts| - 1])
  }

  // ----- the registries -----

  function Entries(s: State, role: Role): map<Key, nat> {
    match role
    case Monitor => s.ctxCancels
    case Auth => s.authMethodCtx
  }

  predicate Registered(s: State, i: nat) {
    i < |s.contexts| && s.contexts[i].key in Entries(s, s.contexts[i].role) &&
    Entries(s, s.contexts[i].role)[s.contexts[i].key] == i
  }

  predicate Live(s: State, i: nat) {
    i < |s.contexts| && !s.contexts[i].cancelled
  }

  /** The worker of its key has created the context and not yet stored it and started its
      goroutine. */
  predicate InHand(s: State, i: nat) {
    i < |s.contexts| && s.contexts[i].key in s.jobs && Creates(s.jobs[s.contexts[i].key], i)
  }

  predicate Creates(job: Job, i: nat) {
    job == CancelAuth(i) || job == StoreAuth(i)
  }

  predicate IsContext(s: State, i: nat, key: Key, role: Role) {
    i < |s.contexts| && s.contexts[i].key == key && s.contexts[i].role == role
  }

  predicate EntryIs(entries: map<Key, nat>, key: Key, e: nat) {
    key in entries ==> entries[key] == e
  }

  /** What the worker knows at each step, whatever the monitors do. */
  predicate JobInv(s: State, key: Key, job: Job) {
    match job
    case StoreMonitor => key !in s.ctxCancels
    case CreateAuth => true
    case CancelAuth(ctx) => IsContext(s, ctx, key, Auth)
    case StoreAuth(ctx) =>
      IsContext(s, ctx, key, Auth) && (key in s.authMethodCtx ==> !Live(s, s.authMethodCtx[key]))
    case CancelGone(e) => IsContext(s, e, key, Monitor) && EntryIs(s.ctxCancels, key, e)
    case DeleteGone(e) => IsContext(s, e, key, Monitor) && EntryIs(s.ctxCancels, key, e) && !Live(s, e)
    case LookUpGoneAuth => key !in s.ctxCancels
    case CancelGoneAuth(e) =>
      key !in s.ctxCancels && IsContext(s, e, key, Auth) && EntryIs(s.authMethodCtx, key, e)
    case DeleteGoneAuth(e) =>
      key !in s.ctxCancels && IsContext(s, e, key, Auth) && EntryIs(s.authMethodCtx, key, e) && !Live(s, e)
  }

  predicate RoundInv(s: State, m: nat, r: Round) {
    && m < |s.contexts| && IsContext(s, r.entry, s.contexts[m].key, Monitor)
    && (r.Cancelled? ==> !Live(s, r.entry))
  }

  /** Entries, jobs and rounds name contexts of their own key and role. */
  predicate WellFormed(s: State) {
    && (forall k <- s.ctxCancels :: IsContext(s, s.ctxCancels[k], k, Monitor))
    && (forall k <- s.authMethodCtx :: IsContext(s, s.authMethodCtx[k], k, Auth))
    && (forall k <- s.jobs :: JobInv(s, k, s.jobs[k]))
    && (forall m <- s.rounds :: RoundInv(s, m, s.rounds[m]))
  }

  /** No goroutine is lost: every context is cancelled, or the registered one of its key, or
      in the hands of the worker that is about to register it. */
  ghost predicate Accounted(s: State) {
    forall i: nat | Live(s, i) :: Registered(s, i) || InHand(s, i)
  }

  /** Contexts are only added and cancelled; what named a context still does. */
  predicate Grows(s: State, t: State) {
    && |s.contexts| <= |t.contexts|
    && forall i | 0 <= i < |s.contexts| ::
         t.contexts[i].key == s.contexts[i].key && t.contexts[i].role == s.contexts[i].role &&
         (s.contexts[i].cancelled ==> t.contexts[i].cancelled)
  }

  lemma StepGrows(s: State, a: Action)
    ensures Grows(s, Next(s, a))
  {
  }

  lemma GrownRound(s: State, t: State, m: nat, r: Round)
    requires Grows(s, t) && RoundInv(s, m, r)
    ensures RoundInv(t, m, r)
  {
  }

  /** A job is not disturbed when its key's entries only disappear. */
  lemma GrownJob(s: State, t: State, key: Key, job: Job)
    requires Grows(s, t) && JobInv(s, key, job)
    requires key in t.ctxCancels ==> key in s.ctxCancels && t.ctxCancels[key] == s.ctxCancels[key]
    requires key in t.authMethodCtx ==>
      key in s.authMethodCtx && t.authMethodCtx[key] == s.authMethodCtx[key] && s.authMethodCtx[key] < |s.contexts|
    ensures JobInv(t, key, job)
  {
  }

  /** What the worker's step relies on. */
  predicate Ready(s: State, key: Key) {
    && key in s.jobs && JobInv(s, key, s.jobs[key])
    && (key in s.authMethodCtx ==> IsContext(s, s.authMethodCtx[key], key, Auth))
    && (key in s.ctxCancels ==> IsContext(s, s.ctxCancels[key], key, Monitor))
  }

  lemma WellFormedIsReady(s: State, key: Key)
    requires WellFormed(s) && key in s.jobs
    ensures Ready(s, key)
  {
    hide JobInv, RoundInv, IsContext;
  }

  lemma WorkKeepsOwn(s: State, key: Key)
    requires Ready(s, key)
    ensures var t := Work(s, key, s.jobs[key]);
      && t.rounds == s.rounds && (key in t.jobs ==> JobInv(t, key, t.jobs[key]))
      && (key in t.ctxCancels ==> IsContext(t, t.ctxCancels[key], key, Monitor))
      && (key in t.authMethodCtx ==> IsContext(t, t.authMethodCtx[key], key, Auth))
  {
    if Starting(s.jobs[key]) {
      StartKeepsOwn(s, key);
    } else {
      StopKeepsOwn(s, key);
    }
    hide Start, Stop, JobInv, IsContext;
  }

  lemma StartKeepsOwn(s: State, key: Key)
    requires Ready(s, key) && Starting(s.jobs[key])
    ensures var t := Start(s, key, s.jobs[key]);
      && t.rounds == s.rounds && (key in t.jobs ==> JobInv(t, key, t.jobs[key]))
      && (key in t.ctxCancels ==> IsContext(t, t.ctxCancels[key], key, Monitor))
      && (key in t.authMethodCtx ==> IsContext(t, t.authMethodCtx[key], key, Auth))
  {
  }

  lemma CancelAtOnly(cs: seq<Context>, i: nat)
    ensures |CancelAt(cs, i)| == |cs|
    ensures forall j | 0 <= j < |cs| :: CancelAt(cs, i)[j] == cs[j].(cancelled := cs[j].cancelled || j == i)
  {
  }

  lemma StopKeepsOwn(s: State, key: Key)
    requires Ready(s, key) && !Starting(s.jobs[key])
    ensures var t := Stop(s, key, s.jobs[key]);
      && t.rounds == s.rounds && (key in t.jobs ==> JobInv(t, key, t.jobs[key]))
      && (key in t.ctxCancels ==> IsContext(t, t.ctxCancels[key], key, Monitor))
      && (key in t.authMethodCtx ==> IsContext(t, t.authMethodCtx[key], key, Auth))
  {
    hide CancelAt;
    match s.jobs[key]
    case CancelGone(e) => CancelAtOnly(s.contexts, e);
    case CancelGoneAuth(e) => CancelAtOnly(s.contexts, e);
    case _ =>
  }

  lemma WorkElsewhere(s: State, key: Key, k: Key)
    requires key in s.jobs && k != key
    ensures var t := Work(s, key, s.jobs[key]);
      && (k in t.ctxCancels <==> k in s.ctxCancels) && (k in s.ctxCancels ==> t.ctxCancels[k] == s.ctxCancels[k])
      && (k in t.authMethodCtx <==> k in s.authMethodCtx)
      && (k in s.authMethodCtx ==> t.authMethodCtx[k] == s.authMethodCtx[k])
      && (k in t.jobs <==> k in s.jobs) && (k in s.jobs ==> t.jobs[k] == s.jobs[k])
  {
    if Starting(s.jobs[key]) {
      hide Stop;
    } else {
      hide Start;
    }
  }

  lemma WorkWellFormed(s: State, key: Key)
    requires WellFormed(s) && key in s.jobs
    ensures WellFormed(Work(s, key, s.jobs[key]))
  {
    var t := Work(s, key, s.jobs[key]);
    StepGrows(s, Continue(key));
    WellFormedIsReady(s, key);
    WorkKeepsOwn(s, key);
    hide Work, JobInv, RoundInv, Grows, IsContext;
    forall k <- t.ctxCancels ensures IsContext(t, t.ctxCancels[k], k, Monitor) {
      if k != key {
        WorkElsewhere(s, key, k);
        GrownContext(s, t, s.ctxCancels[k], k, Monitor);
      }
    }
    forall k <- t.authMethodCtx ensures IsContext(t, t.authMethodCtx[k], k, Auth) {
      if k != key {
        WorkElsewhere(s, key, k);
        GrownContext(s, t, s.authMethodCtx[k], k, Auth);
      }
    }
    forall k <- t.jobs ensures JobInv(t, k, t.jobs[k]) {
      if k != key {
        WorkElsewhere(s, key, k);
        if k in s.authMethodCtx { InRange(s, s.authMethodCtx[k], k, Auth); }
        GrownJob(s, t, k, s.jobs[k]);
      }
    }
    forall m <- t.rounds ensures RoundInv(t, m, t.rounds[m]) {
      GrownRound(s, t, m, s.rounds[m]);
    }
  }

  lemma GrownContext(s: State, t: State, i: nat, key: Key, role: Role)
    requires Grows(s, t) && IsContext(s, i, key, role)
    ensures IsContext(t, i, key, role)
  {
  }

  lemma InRange(s: State, i: nat, key: Key, role: Role)
    requires IsContext(s, i, key, role)
    ensures i < |s.contexts|
  {
  }

  lemma MonitorWellFormed(s: State, a: Action)
    requires WellFormed(s) && (a.MonitorLooksUp? || a.MonitorCancels? || a.MonitorDeletes?)
    ensures WellFormed(Next(s, a))
  {
    var t := Next(s, a);
    StepGrows(s, a);
    MonitorEntries(s, a);
    hide MonitorStep, Next, JobInv, Grows;
    forall k <- t.jobs ensures JobInv(t, k, t.jobs[k]) {
      GrownJob(s, t, k, s.jobs[k]);
    }
    forall m <- t.rounds ensures RoundInv(t, m, t.rounds[m]) {
      if m in s.rounds && s.rounds[m] == t.rounds[m] {
        GrownRound(s, t, m, s.rounds[m]);
      }
    }
  }

  lemma MonitorEntries(s: State, a: Action)
    requires WellFormed(s) && (a.MonitorLooksUp? || a.MonitorCancels? || a.MonitorDeletes?)
    ensures var t := Next(s, a);
      && t.jobs == s.jobs && t.authMethodCtx == s.authMethodCtx
      && (forall k <- t.ctxCancels :: k in s.ctxCancels && t.ctxCancels[k] == s.ctxCancels[k])
      && (forall k <- t.ctxCancels :: IsContext(t, t.ctxCancels[k], k, Monitor))
      && (forall k <- t.authMethodCtx :: IsContext(t, t.authMethodCtx[k], k, Auth))
      && (forall m <- t.rounds :: (m in s.rounds && s.rounds[m] == t.rounds[m]) || RoundInv(t, m, t.rounds[m]))
  {
    var t := Next(s, a);
    StepGrows(s, a);
    MonitorShape(s, a);
    hide JobInv, RoundInv, IsContext, MonitorStep, Next, Grows;
    forall k <- t.ctxCancels ensures IsContext(t, t.ctxCancels[k], k, Monitor) {
      GrownContext(s, t, s.ctxCancels[k], k, Monitor);
    }
    forall k <- t.authMethodCtx ensures IsContext(t, t.authMethodCtx[k], k, Auth) {
      GrownContext(s, t, s.authMethodCtx[k], k, Auth);
    }
    if a.m in t.rounds && !(a.m in s.rounds && s.rounds[a.m] == t.rounds[a.m]) {
      if a.MonitorLooksUp? {
        LooksUpInv(s, a.m);
      } else {
        assert RoundInv(s, a.m, s.rounds[a.m]);
        CancelsInv(s, a.m);
      }
    }
  }

  /** A monitor's step concerns its own round only. */
  lemma MonitorShape(s: State, a: Action)
    requires a.MonitorLooksUp? || a.MonitorCancels? || a.MonitorDeletes?
    ensures var t := Next(s, a);
      && t.jobs == s.jobs && t.authMethodCtx == s.authMethodCtx
      && (forall k <- t.ctxCancels :: k in s.ctxCancels && t.ctxCancels[k] == s.ctxCancels[k])
      && (forall m <- t.rounds :: m == a.m || (m in s.rounds && s.rounds[m] == t.rounds[m]))
      && (a.m in t.rounds && !(a.m in s.rounds && s.rounds[a.m] == t.rounds[a.m]) ==>
            if a.MonitorLooksUp? then a.m < |s.contexts| && s.contexts[a.m].key in s.ctxCancels && a.m !in s.rounds
            else a.MonitorCancels? && a.m in s.rounds && s.rounds[a.m].LookedUp?)
  {
  }

  lemma LooksUpInv(s: State, m: nat)
    requires m < |s.contexts| && s.contexts[m].key in s.ctxCancels && m !in s.rounds
    requires IsContext(s, s.ctxCancels[s.contexts[m].key], s.contexts[m].key, Monitor)
    ensures var t := Next(s, MonitorLooksUp(m)); m in t.rounds ==> RoundInv(t, m, t.rounds[m])
  {
  }

  lemma CancelsInv(s: State, m: nat)
    requires m in s.rounds && s.rounds[m].LookedUp? && RoundInv(s, m, s.rounds[m])
    ensures var t := Next(s, MonitorCancels(m)); m in t.rounds && RoundInv(t, m, t.rounds[m])
  {
  }

  lemma WellFormedNext(s: State, a: Action)
    requires WellFormed(s)
    ensures WellFormed(Next(s, a))
  {
    match a
    case Continue(key) =>
      if key in s.jobs { WorkWellFormed(s, key); }
    case Reconciled(key) => StartWellFormed(s, a);
    case ObjectMissing(key) => StartWellFormed(s, a);
    case _ => MonitorWellFormed(s, a);
  }

  lemma StartWellFormed(s: State, a: Action)
    requires WellFormed(s) && (a.Reconciled? || a.ObjectMissing?)
    ensures WellFormed(Next(s, a))
  {
    hide RoundInv;
    var t := Next(s, a);
    forall m <- t.rounds ensures RoundInv(t, m, t.rounds[m]) {
      GrownRound(s, t, m, s.rounds[m]);
    }
  }

  /** The failing step: a round deletes an entry other than the one it looked up and cancelled. */
  predicate Overtaken(s: State, a: Action) {
    && a.MonitorDeletes? && a.m in s.rounds && s.rounds[a.m].Cancelled? && a.m < |s.contexts|
    && var key := s.contexts[a.m].key;
       key in s.ctxCancels && s.ctxCancels[key] != s.rounds[a.m].entry && Live(s, s.ctxCancels[key])
  }

  lemma WorkAccounts(s: State, key: Key)
    requires WellFormed(s) && Accounted(s) && key in s.jobs
    ensures Accounted(Work(s, key, s.jobs[key]))
  {
    WellFormedIsReady(s, key);
    hide WellFormed, Work, JobInv;
    var t := Work(s, key, s.jobs[key]);
    forall i: nat | Live(t, i) ensures Registered(t, i) || InHand(t, i) {
      WorkAccountsOne(s, key, i);
    }
  }

  lemma WorkAccountsOne(s: State, key: Key, i: nat)
    requires Ready(s, key) && Live(Work(s, key, s.jobs[key]), i)
    requires Live(s, i) ==> Registered(s, i) || InHand(s, i)
    ensures var t := Work(s, key, s.jobs[key]); Registered(t, i) || InHand(t, i)
  {
    if i < |s.contexts| && s.contexts[i].key != key {
      WorkElsewhere(s, key, s.contexts[i].key);
      ContextElsewhere(s, key, i);
      hide Work, JobInv, Creates;
    } else if Starting(s.jobs[key]) {
      if key in s.authMethodCtx { CancelAtOnly(s.contexts, s.authMethodCtx[key]); }
      hide Stop, CancelAt;
    } else {
      StopAccountsOne(s, key, i);
      hide Start, Stop;
    }
  }

  lemma StopAccountsOne(s: State, key: Key, i: nat)
    requires Ready(s, key) && !Starting(s.jobs[key]) && Live(Stop(s, key, s.jobs[key]), i)
    requires Live(s, i) ==> Registered(s, i) || InHand(s, i)
    requires i < |s.contexts| ==> s.contexts[i].key == key
    ensures var t := Stop(s, key, s.jobs[key]); Registered(t, i) || InHand(t, i)
  {
    hide CancelAt;
    match s.jobs[key]
    case CancelGone(e) => CancelAtOnly(s.contexts, e);
    case CancelGoneAuth(e) => CancelAtOnly(s.contexts, e);
    case _ =>
  }

  lemma DeleteAccounts(s: State, m: nat)
    requires WellFormed(s) && Accounted(s)
    ensures Accounted(Next(s, MonitorDeletes(m))) <==> !Overtaken(s, MonitorDeletes(m))
  {
    hide JobInv;
    var t := Next(s, MonitorDeletes(m));
    if Overtaken(s, MonitorDeletes(m)) {
      var i := s.ctxCancels[s.contexts[m].key];
      if InHand(t, i) {
        assert JobInv(s, s.contexts[m].key, s.jobs[s.contexts[m].key]);
        HandIsAuth(s, s.contexts[m].key, i);
      }
      assert Live(t, i) && !Registered(t, i);
    } else {
      forall i: nat | Live(t, i) ensures Registered(t, i) || InHand(t, i) {
        assert Live(s, i);
      }
    }
  }

  lemma HandIsAuth(s: State, key: Key, i: nat)
    requires key in s.jobs && JobInv(s, key, s.jobs[key]) && Creates(s.jobs[key], i)
    ensures IsContext(s, i, key, Auth)
  {
  }

  /** A step loses a goroutine exactly when it is a delete that was overtaken. */
  lemma AccountedStep(s: State, a: Action)
    requires WellFormed(s) && Accounted(s)
    ensures Accounted(Next(s, a)) <==> !Overtaken(s, a)
  {
    hide WellFormed, Work;
    match a
    case Continue(key) => if key in s.jobs { WorkAccounts(s, key); }
    case MonitorDeletes(m) => DeleteAccounts(s, m);
    case _ =>
      forall i: nat | Live(Next(s, a), i) ensures Registered(Next(s, a), i) || InHand(Next(s, a), i) {
        assert Live(s, i);
      }
  }

  // ----- over runs -----

  ghost predicate AlwaysAccounted(acts: seq<Action>) {
    forall n | 0 <= n <= |acts| :: Accounted(After(acts[..n]))
  }

  ghost predicate NeverOvertaken(acts: seq<Action>) {
    forall n | 0 <= n < |acts| :: !Overtaken(After(acts[..n]), acts[n])
  }

  lemma {:induction false} AlwaysWellFormed(acts: seq<Action>)
    ensures WellFormed(After(acts))
  {
    if acts != [] {
      hide WellFormed, Next;
      AlwaysWellFormed(acts[..|acts| - 1]);
      WellFormedNext(After(acts[..|acts| - 1]), acts[|acts| - 1]);
    }
  }

  lemma AfterOneMore(acts: seq<Action>, n: nat)
    requires n < |acts|
    ensures After(acts[..n + 1]) == Next(After(acts[..n]), acts[n])
  {
    hide Next;
    assert acts[..n + 1][..n] == acts[..n];
  }

  /** In every state of a run each context is cancelled or accounted for, if and only if no
      monitor's delete is overtaken in that run. */
  lemma {:induction false} AccountedOverRuns(acts: seq<Action>)
    ensures AlwaysAccounted(acts) <==> NeverOvertaken(acts)
  {
    hide Next, Accounted, Overtaken, WellFormed, After;
    if NeverOvertaken(acts) {
      AccountedUpTo(acts, |acts|);
    }
    if AlwaysAccounted(acts) {
      forall n | 0 <= n < |acts| ensures !Overtaken(After(acts[..n]), acts[n]) {
        assert Accounted(After(acts[..n])) && Accounted(After(acts[..n + 1]));
        AlwaysWellFormed(acts[..n]);
        AfterOneMore(acts, n);
        AccountedStep(After(acts[..n]), acts[n]);
      }
    }
  }

  lemma AtStart(acts: seq<Action>)
    ensures After(acts[..0]) == INIT && Accounted(INIT) && Current(INIT)
  {
  }

  lemma {:induction false} AccountedUpTo(acts: seq<Action>, n: nat)
    requires n <= |acts| && NeverOvertaken(acts)
    ensures forall j | 0 <= j <= n :: Accounted(After(acts[..j]))
  {
    hide Next, Accounted, Overtaken, WellFormed, After;
    if n == 0 {
      AtStart(acts);
    } else {
      AccountedUpTo(acts, n - 1);
      AlwaysWellFormed(acts[..n - 1]);
      AfterOneMore(acts, n - 1);
      AccountedStep(After(acts[..n - 1]), acts[n - 1]);
    }
  }

  /** The goroutine of the context was started and not told to stop. */
  predicate Running(s: State, i: nat) {
    Live(s, i) && !InHand(s, i)
  }

  /** So there is at most one running goroutine of each role per VaultServer ... */
  lemma AtMostOneRuns(acts: seq<Action>, i: nat, j: nat)
    requires NeverOvertaken(acts) && Running(After(acts), i) && Running(After(acts), j)
    requires After(acts).contexts[i].key == After(acts).contexts[j].key
    requires After(acts).contexts[i].role == After(acts).contexts[j].role
    ensures i == j
  {
    hide After, Next;
    AccountedOverRuns(acts);
    assert acts[..|acts|] == acts;
    assert Registered(After(acts), i) && Registered(After(acts), j);
  }

  /** The step with which the worker has dealt with a missing object. */
  predicate FinishesMissing(s: State, key: Key) {
    key in s.jobs && (s.jobs[key].DeleteGoneAuth? || (s.jobs[key].LookUpGoneAuth? && key !in s.authMethodCtx))
  }

  /** ... and none, nor one about to start, once its disappearance has been handled. */
  lemma NoneAfterMissing(acts: seq<Action>, key: Key, i: nat)
    requires NeverOvertaken(acts) && FinishesMissing(After(acts), key)
    requires Live(Next(After(acts), Continue(key)), i)
    ensures Next(After(acts), Continue(key)).contexts[i].key != key
  {
    hide After;
    var s := After(acts);
    AccountedOverRuns(acts);
    assert acts[..|acts|] == acts;
    AlwaysWellFormed(acts);
    assert JobInv(s, key, s.jobs[key]);
    WorkAccounts(s, key);
  }

  // ----- when a delete cannot be overtaken -----

  predicate PendingFor(s: State, m: nat, key: Key) {
    m in s.rounds && m < |s.contexts| && s.contexts[m].key == key
  }

  predicate StartsMonitor(s: State, a: Action) {
    a.Continue? && a.key in s.jobs && s.jobs[a.key].StoreMonitor?
  }

  /** No monitor is started for a key while an earlier one is inside its three steps. */
  ghost predicate RoundsUndisturbed(acts: seq<Action>) {
    forall n, m: nat | 0 <= n < |acts| && StartsMonitor(After(acts[..n]), acts[n]) ::
      !PendingFor(After(acts[..n]), m, acts[n].key)
  }

  /** The entry of a pending round's key is the one it looked up, or gone. */
  predicate Current(s: State) {
    forall m <- s.rounds :: m < |s.contexts| && EntryIs(s.ctxCancels, s.contexts[m].key, s.rounds[m].entry)
  }

  lemma CurrentStep(s: State, a: Action)
    requires WellFormed(s) && Current(s)
    requires StartsMonitor(s, a) ==> forall m: nat :: !PendingFor(s, m, a.key)
    ensures Current(Next(s, a)) && !Overtaken(s, a)
  {
    var t := Next(s, a);
    StepGrows(s, a);
    if a.Continue? && a.key in s.jobs {
      WorkEntries(s, a.key);
      hide JobInv, Work;
      forall m <- t.rounds ensures m < |t.contexts| && EntryIs(t.ctxCancels, t.contexts[m].key, t.rounds[m].entry) {
        if StartsMonitor(s, a) {
          assert !PendingFor(s, m, a.key);
        }
      }
    } else {
      hide JobInv, Work;
    }
  }

  lemma WorkEntries(s: State, key: Key)
    requires key in s.jobs
    ensures var t := Work(s, key, s.jobs[key]);
      && t.rounds == s.rounds
      && (forall k <- t.ctxCancels ::
            (k == key && s.jobs[key].StoreMonitor?) || (k in s.ctxCancels && t.ctxCancels[k] == s.ctxCancels[k]))
  {
  }

  lemma {:induction false} UndisturbedIsCurrent(acts: seq<Action>, n: nat)
    requires RoundsUndisturbed(acts) && n <= |acts|
    ensures Current(After(acts[..n]))
    ensures forall j | 0 <= j < n :: !Overtaken(After(acts[..j]), acts[j])
  {
    hide Next, Current, Overtaken, WellFormed, After;
    if n > 0 {
      UndisturbedIsCurrent(acts, n - 1);
      AlwaysWellFormed(acts[..n - 1]);
      AfterOneMore(acts, n - 1);
      CurrentStep(After(acts[..n - 1]), acts[n - 1]);
    } else {
      AtStart(acts);
    }
  }

  /** Monitors whose three steps are not interleaved with the start of their successor lose
      nothing. */
  lemma {:induction false} UndisturbedRunsAreAccounted(acts: seq<Action>)
    requires RoundsUndisturbed(acts)
    ensures AlwaysAccounted(acts)
  {
    UndisturbedIsCurrent(acts, |acts|);
    AccountedOverRuns(acts);
  }

  // ----- the race -----

  /** Nobody can reach the context any more. */
  predicate Unreachable(s: State, i: nat) {
    && Live(s, i) && !Registered(s, i)
    && (forall m <- s.rounds :: s.rounds[m].entry != i)
    && (s.contexts[i].key in s.jobs ==> !Names(s.jobs[s.contexts[i].key], i))
  }

  predicate Names(job: Job, i: nat) {
    Creates(job, i) || job == CancelGone(i) || job == DeleteGone(i) || job == CancelGoneAuth(i) || job == DeleteGoneAuth(i)
  }

  lemma LostWork(s: State, key: Key, i: nat)
    requires Ready(s, key) && Unreachable(s, i)
    ensures Unreachable(Work(s, key, s.jobs[key]), i)
  {
    if s.contexts[i].key != key {
      LostElsewhere(s, key, i);
    } else if Starting(s.jobs[key]) {
      if key in s.authMethodCtx { CancelAtOnly(s.contexts, s.authMethodCtx[key]); }
      hide Stop, CancelAt;
    } else {
      LostStop(s, key, i);
      hide Start, Stop;
    }
  }

  lemma LostStop(s: State, key: Key, i: nat)
    requires Ready(s, key) && Unreachable(s, i) && s.contexts[i].key == key && !Starting(s.jobs[key])
    ensures Unreachable(Stop(s, key, s.jobs[key]), i)
  {
    hide CancelAt, JobInv;
    match s.jobs[key]
    case CancelGone(e) => CancelAtOnly(s.contexts, e);
    case CancelGoneAuth(e) => CancelAtOnly(s.contexts, e);
    case _ =>
  }

  lemma LostElsewhere(s: State, key: Key, i: nat)
    requires Ready(s, key) && Unreachable(s, i) && s.contexts[i].key != key
    ensures Unreachable(Work(s, key, s.jobs[key]), i)
  {
    WorkElsewhere(s, key, s.contexts[i].key);
    ContextElsewhere(s, key, i);
    hide Start, Stop, Work, JobInv, Names, InHand;
  }

  lemma ContextElsewhere(s: State, key: Key, i: nat)
    requires Ready(s, key) && i < |s.contexts| && s.contexts[i].key != key
    ensures var t := Work(s, key, s.jobs[key]);
      i < |t.contexts| && t.contexts[i] == s.contexts[i] && t.rounds == s.rounds
  {
  }

  lemma LostStep(s: State, a: Action, i: nat)
    requires WellFormed(s) && Unreachable(s, i)
    ensures Unreachable(Next(s, a), i)
  {
    match a
    case Continue(key) =>
      if key in s.jobs {
        WellFormedIsReady(s, key);
        LostWork(s, key, i);
      }
    case _ => hide JobInv, RoundInv, Work;
  }

  /** A goroutine lost this way runs for ever: no later step cancels it. */
  lemma {:induction false} LostForever(acts: seq<Action>, n: nat, i: nat)
    requires n <= |acts| && Unreachable(After(acts[..n]), i)
    ensures Unreachable(After(acts), i)
    decreases |acts| - n
  {
    hide Next, Unreachable, WellFormed, After;
    if n == |acts| {
      assert acts[..n] == acts;
    } else {
      AlwaysWellFormed(acts[..n]);
      AfterOneMore(acts, n);
      LostStep(After(acts[..n]), acts[n], i);
      LostForever(acts, n + 1, i);
    }
  }

  /** An uninterrupted reconcile, and an uninterrupted handling of a missing object. */
  function Reconcile(key: Key): seq<Action> {
    [Reconciled(key), Continue(key), Continue(key), Continue(key), Continue(key)]
  }

  function Missing(key: Key): seq<Action> {
    [ObjectMissing(key), Continue(key), Continue(key), Continue(key), Continue(key), Continue(key)]
  }

  lemma Append(acts: seq<Action>, a: Action)
    ensures After(acts + [a]) == Next(After(acts), a)
  {
    AfterOneMore(acts + [a], |acts|);
    hide After;
    assert (acts + [a])[..|acts|] == acts && (acts + [a])[..|acts| + 1] == acts + [a];
  }

  lemma Steps5(acts: seq<Action>, a: Action, b: Action, c: Action, d: Action, e: Action)
    ensures After(acts + [a, b, c, d, e]) == Next(Next(Next(Next(Next(After(acts), a), b), c), d), e)
  {
    hide After, Next;
    Append(acts, a);
    Append(acts + [a], b);
    Append(acts + [a] + [b], c);
    Append(acts + [a] + [b] + [c], d);
    Append(acts + [a] + [b] + [c] + [d], e);
    assert acts + [a] + [b] + [c] + [d] + [e] == acts + [a, b, c, d, e];
  }

  /** Without a registered monitor, a reconcile starts one and a new auth goroutine. */
  lemma ReconcileAlone(acts: seq<Action>, key: Key)
    requires var s := After(acts); key !in s.jobs && key !in s.ctxCancels && key !in s.authMethodCtx
    ensures var s := After(acts); var n := |s.contexts|;
      After(acts + Reconcile(key)) == s.(
        contexts := s.contexts + [Context(key, Monitor, false), Context(key, Auth, false)],
        ctxCancels := s.ctxCancels[key := n], authMethodCtx := s.authMethodCtx[key := n + 1])
  {
    var s := After(acts);
    Steps5(acts, Reconciled(key), Continue(key), Continue(key), Continue(key), Continue(key));
    hide After;
    var s1 := Next(s, Reconciled(key));
    var s2 := Next(s1, Continue(key));
    var s3 := Next(s2, Continue(key));
    var s5 := Next(Next(s3, Continue(key)), Continue(key));
    assert s2.contexts == s.contexts + [Context(key, Monitor, false)];
    assert s3.jobs == s.jobs[key := CancelAuth(|s.contexts| + 1)];
    assert s5.jobs == s.jobs;
  }

  /** The handling of a missing object cancels and removes both entries. */
  lemma MissingAlone(acts: seq<Action>, key: Key)
    requires var s := After(acts); key !in s.jobs && key in s.ctxCancels && key in s.authMethodCtx
    ensures var s := After(acts);
      After(acts + Missing(key)) == s.(
        contexts := CancelAt(CancelAt(s.contexts, s.ctxCancels[key]), s.authMethodCtx[key]),
        ctxCancels := s.ctxCancels - {key}, authMethodCtx := s.authMethodCtx - {key})
  {
    var s := After(acts);
    Steps5(acts, ObjectMissing(key), Continue(key), Continue(key), Continue(key), Continue(key));
    Append(acts + [ObjectMissing(key), Continue(key), Continue(key), Continue(key), Continue(key)], Continue(key));
    hide After;
    assert acts + [ObjectMissing(key), Continue(key), Continue(key), Continue(key), Continue(key)] + [Continue(key)]
        == acts + Missing(key);
    var s3 := Next(Next(Next(s, ObjectMissing(key)), Continue(key)), Continue(key));
    assert s3 == s.(contexts := CancelAt(s.contexts, s.ctxCancels[key]), ctxCancels := s.ctxCancels - {key},
                    jobs := s.jobs[key := LookUpGoneAuth]);
    var s6 := Next(Next(Next(s3, Continue(key)), Continue(key)), Continue(key));
    assert s6.jobs == s.jobs;
  }

  /** The race: a monitor looks up its entry, the object is deleted and created again, and the
      monitor deletes the entry of its successor. The next reconcile starts a second monitor. */
  function Race(key: Key): seq<Action> {
    Reconcile(key) + [MonitorLooksUp(0)] + Missing(key) + Reconcile(key) + [MonitorCancels(0)] + [MonitorDeletes(0)]
  }

  function AfterRace(key: Key): State {
    State([Context(key, Monitor, true), Context(key, Auth, true), Context(key, Monitor, false), Context(key, Auth, false)],
          map[], map[key := 3], map[], map[])
  }

  lemma RaceRun(key: Key)
    ensures After(Race(key)) == AfterRace(key)
  {
    var a1 := Reconcile(key);
    var a2 := a1 + [MonitorLooksUp(0)];
    var a3 := a2 + Missing(key);
    var a4 := a3 + Reconcile(key);
    assert After([]) == INIT && [] + a1 == a1;
    hide After, Reconcile, Missing;
    ReconcileAlone([], key);
    Append(a1, MonitorLooksUp(0));
    MissingAlone(a2, key);
    ReconcileAlone(a3, key);
    RaceEnd(a4, key);
  }

  lemma RaceEnd(acts: seq<Action>, key: Key)
    requires After(acts) == AfterRace(key).(ctxCancels := map[key := 2], rounds := map[0 := LookedUp(0)])
    ensures After(acts + [MonitorCancels(0)] + [MonitorDeletes(0)]) == AfterRace(key)
  {
    Append(acts, MonitorCancels(0));
    Append(acts + [MonitorCancels(0)], MonitorDeletes(0));
    hide After;
  }

  lemma RaceLosesMonitor(key: Key)
    ensures Unreachable(After(Race(key)), 2)
    ensures var s := After(Race(key) + Reconcile(key));
      Running(s, 2) && Running(s, 4) && s.contexts[2] == s.contexts[4] == Context(key, Monitor, false)
  {
    RaceRun(key);
    SecondMonitor(Race(key), key);
    hide After, Reconcile;
  }

  lemma SecondMonitor(acts: seq<Action>, key: Key)
    requires After(acts) == AfterRace(key)
    ensures var s := After(acts + Reconcile(key));
      Running(s, 2) && Running(s, 4) && s.contexts[2] == s.contexts[4] == Context(key, Monitor, false)
  {
    var s := After(acts);
    Steps5(acts, Reconciled(key), Continue(key), Continue(key), Continue(key), Continue(key));
    hide After;
    var s2 := Next(Next(s, Reconciled(key)), Continue(key));
    assert s2.contexts == s.contexts + [Context(key, Monitor, false)] && s2.jobs == map[key := CreateAuth];
    var s5 := Next(Next(Next(s2, Continue(key)), Continue(key)), Continue(key));
    assert s5.jobs == map[] && s5.contexts[..3] == s.contexts[..3] && s5.contexts[4] == s2.contexts[4];
  }
}
