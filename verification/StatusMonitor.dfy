/** The status of a VaultServer: the monitor that polls the pods and works on a local copy, and
    the three goroutines that write the stored status concurrently. */
module StatusMonitor {
  import opened Results
  import AuthMethods

  datatype Health = Health(initialized: bool, isSealed: bool, standby: bool)

  /** A listed pod and the answer to the health request, if one came back. */
  datatype Observation = Observation(name: string, running: bool, terminating: bool, image: string, health: Option<Health>)

  datatype Phase = NoPhase | Processing | Uninitialized | Running | Sealed

  datatype CondType = ConditionFailed | ConditionReady

  datatype Status = Status(
    observedGeneration: int, phase: Phase, initialized: bool, serviceName: string, clientPort: int,
    active: string, standby: seq<string>, isSealed: seq<string>, unsealed: seq<string>,
    updatedNodes: seq<string>, conditions: map<CondType, string>, authMethodStatus: seq<AuthMethods.Entry>)

  // ----- one round of the monitor -----

  predicate Responds(o: Observation) {
    o.running && !o.terminating && o.health.Some?
  }

  predicate IsActive(o: Observation) {
    Responds(o) && o.health.value.initialized && !o.health.value.isSealed && !o.health.value.standby
  }

  predicate IsStandby(o: Observation) {
    Responds(o) && o.health.value.initialized && !o.health.value.isSealed && o.health.value.standby
  }

  predicate IsSealed(o: Observation) {
    Responds(o) && o.health.value.isSealed
  }

  predicate IsUnsealed(o: Observation) {
    Responds(o) && !o.health.value.isSealed
  }

  predicate IsInitialized(o: Observation) {
    Responds(o) && o.health.value.initialized
  }

  predicate AtVersion(o: Observation, image: string) {
    Responds(o) && o.image == image
  }

  predicate Any(pods: seq<Observation>, f: Observation -> bool) {
    exists i | 0 <= i < |pods| :: f(pods[i])
  }

  /** The names of the pods that meet `f`, in the order of the list. */
  function Names(pods: seq<Observation>, f: Observation -> bool): seq<string> {
    if pods == [] then []
    else
      var last := pods[|pods| - 1];
      Names(pods[..|pods| - 1], f) + if f(last) then [last.name] else []
  }

  /** The last active pod of the list. */
  function ActiveName(pods: seq<Observation>): string {
    if pods == [] then ""
    else if IsActive(pods[|pods| - 1]) then pods[|pods| - 1].name
    else ActiveName(pods[..|pods| - 1])
  }

  /** The phase that a round reports, if it reports one. */
  function Verdict(pods: seq<Observation>): Option<Phase> {
    if !Any(pods, Responds) then None
    else if !Any(pods, IsInitialized) then Some(Uninitialized)
    else if ActiveName(pods) != "" then Some(Running)
    else if Any(pods, IsSealed) then Some(Sealed)
    else None
  }

  /** What a round makes of the local status; `image` and `pods` are absent when the version or
      the pods could not be read. */
  function LocalRound(s: Status, image: Option<string>, pods: Option<seq<Observation>>): Status {
    if image.None? || pods.None? || !Any(pods.value, Responds) then s
    else
      s.(active := ActiveName(pods.value),
         standby := Names(pods.value, IsStandby),
         isSealed := Names(pods.value, IsSealed),
         unsealed := Names(pods.value, IsUnsealed),
         initialized := Any(pods.value, IsInitialized),
         updatedNodes := Names(pods.value, o => AtVersion(o, image.value)),
         phase := if Verdict(pods.value).Some? then Verdict(pods.value).value else s.phase)
  }

  /** Kubernetes names the pods of a namespace. */
  predicate Named(pods: seq<Observation>) {
    && (forall i | 0 <= i < |pods| :: pods[i].name != "")
    && (forall i, j | 0 <= i < j < |pods| :: pods[i].name != pods[j].name)
  }

  lemma {:induction false} NamesMember(pods: seq<Observation>, f: Observation -> bool, n: string)
    ensures n in Names(pods, f) <==> exists i :: 0 <= i < |pods| && f(pods[i]) && pods[i].name == n
  {
    if pods != [] {
      var before := pods[..|pods| - 1];
      NamesMember(before, f, n);
      assert pods == before + [pods[|pods| - 1]];
    }
  }

  lemma {:induction false} ActiveMember(pods: seq<Observation>)
    requires Named(pods)
    ensures ActiveName(pods) == "" <==> !Any(pods, IsActive)
    ensures ActiveName(pods) != "" ==> exists i :: 0 <= i < |pods| && IsActive(pods[i]) && pods[i].name == ActiveName(pods)
  {
    if pods != [] {
      var before := pods[..|pods| - 1];
      ActiveMember(before);
      assert pods == before + [pods[|pods| - 1]];
    }
  }

  /** Sealed and Unsealed partition the responding pods, with multiplicity. */
  lemma {:induction false} SealedAndUnsealedPartition(pods: seq<Observation>)
    ensures multiset(Names(pods, IsSealed)) + multiset(Names(pods, IsUnsealed)) == multiset(Names(pods, Responds))
  {
    if pods != [] {
      SealedAndUnsealedPartition(pods[..|pods| - 1]);
    }
  }

  /** What holds of the pod lists of a status. */
  predicate Consistent(s: Status) {
    && (forall n | n in s.isSealed :: n !in s.unsealed)
    && (forall n | n in s.standby :: n in s.unsealed)
    && (s.active != "" ==> s.active in s.unsealed && s.active !in s.standby)
  }

  lemma NameIsConsistent(pods: seq<Observation>, n: string)
    requires Named(pods)
    ensures n in Names(pods, IsSealed) ==> n !in Names(pods, IsUnsealed)
    ensures n in Names(pods, IsStandby) ==> n in Names(pods, IsUnsealed)
  {
    hide Names;
    NamesMember(pods, IsSealed, n);
    NamesMember(pods, IsUnsealed, n);
    NamesMember(pods, IsStandby, n);
  }

  lemma ActiveIsConsistent(pods: seq<Observation>)
    requires Named(pods) && ActiveName(pods) != ""
    ensures ActiveName(pods) in Names(pods, IsUnsealed) && ActiveName(pods) !in Names(pods, IsStandby)
  {
    ActiveMember(pods);
    hide Names, ActiveName;
    NamesMember(pods, IsUnsealed, ActiveName(pods));
    NamesMember(pods, IsStandby, ActiveName(pods));
  }

  lemma RoundIsConsistent(s: Status, image: Option<string>, pods: Option<seq<Observation>>)
    requires pods.Some? ==> Named(pods.value)
    requires Consistent(s)
    ensures Consistent(LocalRound(s, image, pods))
  {
    if image.Some? && pods.Some? && Any(pods.value, Responds) {
      var ps := pods.value;
      hide Named, Names, ActiveName, Verdict;
      if ActiveName(ps) != "" {
        ActiveIsConsistent(ps);
      }
      forall n
        ensures n in Names(ps, IsSealed) ==> n !in Names(ps, IsUnsealed)
        ensures n in Names(ps, IsStandby) ==> n in Names(ps, IsUnsealed)
      {
        NameIsConsistent(ps, n);
      }
    }
  }

  /** A responding round may leave the phase Running although it saw no active pod: exactly
      when the phase was Running, every initialized pod that responds is an unsealed standby,
      at least one is, and none is sealed. */
  lemma RunningWithoutActive(s: Status, image: string, pods: seq<Observation>)
    requires Named(pods) && Any(pods, Responds)
    ensures var r := LocalRound(s, Some(image), Some(pods));
      r.phase.Running? && !Any(pods, IsActive) <==>
      s.phase.Running? && Any(pods, IsStandby) && !Any(pods, IsSealed) && !Any(pods, IsActive)
  {
    ActiveMember(pods);
    var r := LocalRound(s, Some(image), Some(pods));
    if !Any(pods, IsActive) {
      if r.phase.Running? {
        var i :| 0 <= i < |pods| && IsInitialized(pods[i]);
        assert !IsActive(pods[i]) && !IsSealed(pods[i]);
        assert IsStandby(pods[i]);
      }
      if Any(pods, IsStandby) {
        var i :| 0 <= i < |pods| && IsStandby(pods[i]);
        assert IsInitialized(pods[i]) && Responds(pods[i]);
      }
    }
  }

  /** Two rounds that do it: the only pod is active, then an unsealed standby. */
  lemma StaysRunning(s: Status)
    ensures var up := Observation("vault-0", true, false, "vault:1.2.3", Some(Health(true, false, false)));
      var down := up.(health := Some(Health(true, false, true)));
      var s1 := LocalRound(s, Some("vault:1.2.3"), Some([up]));
      var s2 := LocalRound(s1, Some("vault:1.2.3"), Some([down]));
      s1.phase.Running? && s1.active == "vault-0" && s2.phase.Running? && s2.active == "" && s2.standby == ["vault-0"]
  {
    var up := Observation("vault-0", true, false, "vault:1.2.3", Some(Health(true, false, false)));
    var down := up.(health := Some(Health(true, false, true)));
    OnePod(up);
    OnePod(down);
    hide Names, ActiveName, Any;
  }

  lemma OnePod(o: Observation)
    ensures forall f: Observation -> bool :: (Any([o], f) <==> f(o)) && Names([o], f) == if f(o) then [o.name] else []
    ensures ActiveName([o]) == if IsActive(o) then o.name else ""
  {
    assert [o][..0] == [] && [o][0] == o;
    forall f: Observation -> bool
      ensures (Any([o], f) <==> f(o)) && Names([o], f) == if f(o) then [o.name] else []
    {
      OneMorePod([o], 0, f);
      assert [o][..1] == [o] && Names([], f) == [] && !Any([], f);
    }
  }

  // ----- the writers -----

  /** What reconcileVault writes: a failed step, or the completion for a generation. */
  datatype Outcome = StepFailed(reason: string) | Provisioned(generation: int)

  /** `local` is the monitor's copy. */
  datatype World = World(stored: Status, local: Status)

  datatype Event =
    | MonitorRound(image: Option<string>, pods: Option<seq<Observation>>)
    | MonitorWrites(c: CallResult)
    | AuthWrites(entries: seq<AuthMethods.Entry>, c: CallResult)
    | ReconcileWrites(o: Outcome, c: CallResult)

  datatype Writer = Monitor | Auth | Reconcile

  function WriterOf(e: Event): Writer {
    match e
    case MonitorRound(_, _) => Monitor
    case MonitorWrites(_) => Monitor
    case AuthWrites(_, _) => Auth
    case ReconcileWrites(_, _) => Reconcile
  }

  /** The monitor copies nine fields of its local status into the stored one. */
  function MonitorUpdate(stored: Status, local: Status): Status {
    stored.(active := local.active, standby := local.standby, isSealed := local.isSealed,
            unsealed := local.unsealed, initialized := local.initialized, updatedNodes := local.updatedNodes,
            phase := local.phase, serviceName := local.serviceName, clientPort := local.clientPort)
  }

  function ReconcileUpdate(stored: Status, o: Outcome): Status {
    match o
    case StepFailed(reason) => stored.(conditions := stored.conditions[ConditionFailed := reason])
    case Provisioned(g) => stored.(observedGeneration := g, conditions := stored.conditions[ConditionReady := "Provisioned"])
  }

  function Next(w: World, e: Event): World {
    match e
    case MonitorRound(image, pods) => w.(local := LocalRound(w.local, image, pods))
    case MonitorWrites(c) =>
      if c.Failed? then w
      else
        var stored := MonitorUpdate(w.stored, w.local);
        World(stored, if c.Done? then stored else w.local)
    case AuthWrites(entries, c) => if c.Failed? then w else w.(stored := w.stored.(authMethodStatus := entries))
    case ReconcileWrites(o, c) => if c.Failed? then w else w.(stored := ReconcileUpdate(w.stored, o))
  }

  function After(w: World, es: seq<Event>): World {
    if es == [] then w else Next(After(w, es[..|es| - 1]), es[|es| - 1])
  }

  /** The status with which a monitor starts. */
  function Started(serviceName: string, clientPort: int): Status {
    Status(0, Processing, false, serviceName, clientPort, "", [], [], [], [], map[], [])
  }

  // ----- no writer disturbs another -----

  /** Two statuses agree on the fields of one writer. */
  predicate SameFields(a: Status, b: Status, x: Writer) {
    match x
    case Monitor => MonitorUpdate(b, a) == b
    case Auth => a.authMethodStatus == b.authMethodStatus
    case Reconcile => a.conditions == b.conditions && a.observedGeneration == b.observedGeneration
  }

  /** The events of one writer alone. */
  function Only(es: seq<Event>, x: Writer): seq<Event> {
    if es == [] then []
    else
      var rest := Only(es[..|es| - 1], x);
      if WriterOf(es[|es| - 1]) == x then rest + [es[|es| - 1]] else rest
  }

  lemma AfterOneMore(w: World, es: seq<Event>, e: Event)
    ensures After(w, es + [e]) == Next(After(w, es), e)
  {
    hide Next;
    assert (es + [e])[..|es|] == es;
  }

  /** However the writers interleave, and although the monitor takes the whole stored status
      back into its copy, each writer's fields are what that writer alone would have left. */
  lemma {:induction false} WritersAreIndependent(w: World, es: seq<Event>, x: Writer)
    ensures SameFields(After(w, es).stored, After(w, Only(es, x)).stored, x)
    ensures x.Monitor? ==> SameFields(After(w, es).local, After(w, Only(es, x)).local, x)
  {
    if es != [] {
      var before, e := es[..|es| - 1], es[|es| - 1];
      WritersAreIndependent(w, before, x);
      IndependentStep(After(w, before), After(w, Only(before, x)), e, x);
      AfterOneMore(w, Only(before, x), e);
      hide Next, SameFields;
    }
  }

  lemma IndependentStep(a: World, b: World, e: Event, x: Writer)
    requires SameFields(a.stored, b.stored, x) && (x.Monitor? ==> SameFields(a.local, b.local, x))
    ensures var b' := if WriterOf(e) == x then Next(b, e) else b;
      SameFields(Next(a, e).stored, b'.stored, x) && (x.Monitor? ==> SameFields(Next(a, e).local, b'.local, x))
  {
  }

  predicate Applied(e: Event) {
    match e
    case MonitorRound(_, _) => false
    case MonitorWrites(c) => !c.Failed?
    case AuthWrites(_, c) => !c.Failed?
    case ReconcileWrites(_, c) => !c.Failed?
  }

  /** The auth status is the last one written. */
  lemma {:induction false} LastAuthWriteStands(w: World, es: seq<Event>, n: nat)
    requires n < |es| && es[n].AuthWrites? && Applied(es[n])
    requires forall i | n < i < |es| :: !(es[i].AuthWrites? && Applied(es[i]))
    ensures After(w, es).stored.authMethodStatus == es[n].entries
  {
    if n < |es| - 1 {
      LastAuthWriteStands(w, es[..|es| - 1], n);
    }
  }

  /** The monitor's fields are those of the monitor's copy at its last write. */
  lemma {:induction false} LastMonitorWriteStands(w: World, es: seq<Event>, n: nat)
    requires n < |es| && es[n].MonitorWrites? && Applied(es[n])
    requires forall i | n < i < |es| :: !(es[i].MonitorWrites? && Applied(es[i]))
    ensures SameFields(After(w, es[..n]).local, After(w, es).stored, Monitor)
    ensures var s, l := After(w, es).stored, After(w, es[..n]).local;
      && s.phase == l.phase && s.initialized == l.initialized && s.active == l.active
      && s.standby == l.standby && s.isSealed == l.isSealed && s.unsealed == l.unsealed
      && s.updatedNodes == l.updatedNodes && s.serviceName == l.serviceName && s.clientPort == l.clientPort
  {
    if n < |es| - 1 {
      var before := es[..|es| - 1];
      LastMonitorWriteStands(w, before, n);
      assert before[..n] == es[..n];
    }
  }

  /** The generation and the conditions are those of the last reconcile of their kind; a Failed
      condition survives a later success. */
  lemma {:induction false} LastReconcileStands(w: World, es: seq<Event>, n: nat)
    requires n < |es| && es[n].ReconcileWrites? && Applied(es[n])
    requires forall i | n < i < |es| && es[i].ReconcileWrites? && Applied(es[i]) :: es[i].o.Provisioned? != es[n].o.Provisioned?
    ensures var s := After(w, es).stored;
      match es[n].o
      case StepFailed(reason) => ConditionFailed in s.conditions && s.conditions[ConditionFailed] == reason
      case Provisioned(g) => s.observedGeneration == g && ConditionReady in s.conditions && s.conditions[ConditionReady] == "Provisioned"
  {
    if n < |es| - 1 {
      LastReconcileStands(w, es[..|es| - 1], n);
    }
  }

  // ----- the phase over runs -----

  function RoundVerdict(e: Event): Option<Phase> {
    if e.MonitorRound? && e.image.Some? && e.pods.Some? then Verdict(e.pods.value) else None
  }

  /** Whatever is written in between, the monitor's phase is the verdict of the last round that
      reported one. */
  lemma {:induction false} LocalPhaseIsLastVerdict(w: World, es: seq<Event>, n: nat)
    requires n < |es| && RoundVerdict(es[n]).Some?
    requires forall i | n < i < |es| :: RoundVerdict(es[i]).None?
    ensures After(w, es).local.phase == RoundVerdict(es[n]).value
  {
    if n < |es| - 1 {
      LocalPhaseIsLastVerdict(w, es[..|es| - 1], n);
      KeepsPhase(After(w, es[..|es| - 1]), es[|es| - 1]);
    } else {
      SetsPhase(After(w, es[..n]), es[n]);
    }
  }

  lemma KeepsPhase(w: World, e: Event)
    requires RoundVerdict(e).None?
    ensures Next(w, e).local.phase == w.local.phase
  {
  }

  lemma SetsPhase(w: World, e: Event)
    requires RoundVerdict(e).Some?
    ensures Next(w, e).local.phase == RoundVerdict(e).value
  {
  }

  lemma {:induction false} LocalPhaseWithoutVerdict(w: World, es: seq<Event>)
    requires forall i | 0 <= i < |es| :: RoundVerdict(es[i]).None?
    ensures After(w, es).local.phase == w.local.phase
  {
    if es != [] {
      LocalPhaseWithoutVerdict(w, es[..|es| - 1]);
      KeepsPhase(After(w, es[..|es| - 1]), es[|es| - 1]);
    }
  }

  /** The last round that reported a phase, or |es|. */
  function LastVerdict(es: seq<Event>): (n: nat)
    ensures n <= |es| && (n < |es| ==> RoundVerdict(es[n]).Some?)
    ensures forall i | 0 <= i < |es| && (i > n || n == |es|) :: RoundVerdict(es[i]).None?
  {
    if es == [] then 0
    else if RoundVerdict(es[|es| - 1]).Some? then |es| - 1
    else
      var n := LastVerdict(es[..|es| - 1]);
      if n == |es| - 1 then |es| else n
  }

  /** Once a monitor has written, the stored phase is Running only if the last round before
      that write that reported a phase saw an active pod; before any report it is Processing. */
  lemma {:induction false} StoredPhase(w: World, es: seq<Event>, n: nat)
    requires w.local.phase.Processing?
    requires n < |es| && es[n].MonitorWrites? && Applied(es[n])
    requires forall i | n < i < |es| :: !(es[i].MonitorWrites? && Applied(es[i]))
    ensures var k := LastVerdict(es[..n]); var phase := After(w, es).stored.phase;
      if k == n then phase.Processing? else phase == RoundVerdict(es[k]).value
    ensures After(w, es).stored.phase.Running? ==>
      exists k :: 0 <= k < n && SawActive(es[k]) && forall i | k < i < n :: RoundVerdict(es[i]).None?
  {
    LastMonitorWriteStands(w, es, n);
    var before := es[..n];
    var k := LastVerdict(before);
    if k == n {
      LocalPhaseWithoutVerdict(w, before);
    } else {
      LocalPhaseIsLastVerdict(w, before, k);
      assert before[k] == es[k] && forall i | k < i < n :: before[i] == es[i];
      if RoundVerdict(es[k]).value.Running? {
        RunningSawActive(es[k]);
      }
    }
  }

  predicate SawActive(e: Event) {
    e.MonitorRound? && e.pods.Some? && Any(e.pods.value, IsActive)
  }

  lemma RunningSawActive(e: Event)
    requires RoundVerdict(e) == Some(Running)
    ensures SawActive(e)
  {
    ActiveNameFound(e.pods.value);
  }

  lemma {:induction false} ActiveNameFound(pods: seq<Observation>)
    requires ActiveName(pods) != ""
    ensures Any(pods, IsActive)
  {
    if !IsActive(pods[|pods| - 1]) {
      ActiveNameFound(pods[..|pods| - 1]);
      var i :| 0 <= i < |pods| - 1 && IsActive(pods[..|pods| - 1][i]);
      assert IsActive(pods[i]);
    }
  }

  predicate WellNamed(es: seq<Event>) {
    forall i | 0 <= i < |es| && es[i].MonitorRound? && es[i].pods.Some? :: Named(es[i].pods.value)
  }

  /** The monitor's copy is consistent in every run, and so is every status it stores. */
  lemma {:induction false} ConsistentOverRuns(w: World, es: seq<Event>)
    requires Consistent(w.local) && WellNamed(es)
    ensures Consistent(After(w, es).local)
    ensures Consistent(w.stored) || (exists i :: 0 <= i < |es| && es[i].MonitorWrites? && Applied(es[i])) ==>
      Consistent(After(w, es).stored)
  {
    if es != [] {
      var before, e := es[..|es| - 1], es[|es| - 1];
      ConsistentOverRuns(w, before);
      hide LocalRound, Named;
      if e.MonitorRound? {
        RoundIsConsistent(After(w, before).local, e.image, e.pods);
      }
      if i :| 0 <= i < |es| && es[i].MonitorWrites? && Applied(es[i]) && i < |before| {
        assert before[i].MonitorWrites? && Applied(before[i]);
      }
    }
  }

  // ----- the monitor's code -----

  /** What happens in one turn of the monitor's loop: what the other writers do, how the status
      write ends, and what the round then reads. */
  datatype Turn = Turn(others: seq<Event>, write: CallResult, image: Option<string>, pods: Option<seq<Observation>>)

  predicate ByOthers(es: seq<Event>) {
    forall i | 0 <= i < |es| :: !WriterOf(es[i]).Monitor?
  }

  /** The loop over the pods: what it collects is what the pods' own answers define. */
  method PollPods(ps: seq<Observation>, image: string)
    returns (active: string, initiated: bool, changed: bool,
             isSealed: seq<string>, unsealed: seq<string>, standby: seq<string>, updated: seq<string>)
    ensures active == ActiveName(ps)
    ensures initiated == Any(ps, IsInitialized) && changed == Any(ps, Responds)
    ensures isSealed == Names(ps, IsSealed) && unsealed == Names(ps, IsUnsealed)
    ensures standby == Names(ps, IsStandby) && updated == Names(ps, o => AtVersion(o, image))
  {
    active, initiated, changed := "", false, false;
    isSealed, unsealed, standby, updated := [], [], [], [];
    var atVersion := o => AtVersion(o, image);
    for n := 0 to |ps|
      invariant active == ActiveName(ps[..n])
      invariant initiated == Any(ps[..n], IsInitialized) && changed == Any(ps[..n], Responds)
      invariant isSealed == Names(ps[..n], IsSealed) && unsealed == Names(ps[..n], IsUnsealed)
      invariant standby == Names(ps[..n], IsStandby) && updated == Names(ps[..n], atVersion)
    {
      hide Names, ActiveName, Any;
      var p := ps[n];
      OneMorePod(ps, n, IsSealed);
      OneMorePod(ps, n, IsUnsealed);
      OneMorePod(ps, n, IsStandby);
      OneMorePod(ps, n, atVersion);
      OneMorePod(ps, n, IsInitialized);
      OneMorePod(ps, n, Responds);
      OneMoreActive(ps, n);
      if !p.running || p.terminating || p.health.None? {
        continue;
      }
      var hr := p.health.value;
      changed := true;
      if p.image == image { updated := updated + [p.name]; }
      if hr.initialized && !hr.isSealed && !hr.standby { active := p.name; }
      if hr.initialized && !hr.isSealed && hr.standby { standby := standby + [p.name]; }
      if hr.isSealed {
        isSealed := isSealed + [p.name];
      } else {
        unsealed := unsealed + [p.name];
      }
      if hr.initialized { initiated := true; }
    }
    assert ps[..|ps|] == ps;
  }

  class VaultServerMonitor {
    var stored: Status
    var local: Status
    ghost var start: World
    ghost var events: seq<Event>

    constructor (stored: Status, serviceName: string, clientPort: int)
      ensures Valid() && events == [] && start == World(stored, Started(serviceName, clientPort))
    {
      this.stored := stored;
      local := Started(serviceName, clientPort);
      start, events := World(stored, Started(serviceName, clientPort)), [];
    }

    ghost predicate Valid()
      reads this
    {
      World(stored, local) == After(start, events) && start.local.phase.Processing? && Consistent(start.local)
    }

    ghost method Record(e: Event)
      requires Valid()
      modifies this`events
      ensures events == old(events) + [e] && After(start, events) == Next(World(stored, local), e)
    {
      AfterOneMore(start, events, e);
      hide After, Next, Consistent;
      events := events + [e];
    }

    /** Polls the pods and updates the local status in place. */
    method UpdateLocalStatus(image: Option<string>, pods: Option<seq<Observation>>)
      requires Valid()
      modifies this`local, this`events
      ensures Valid() && events == old(events) + [MonitorRound(image, pods)]
      ensures local == LocalRound(old(local), image, pods)
    {
      Record(MonitorRound(image, pods));
      if image.None? || pods.None? || |pods.value| == 0 {
        return;
      }
      var ps := pods.value;
      var active, initiated, changed, isSealed, unsealed, standby, updated := PollPods(ps, image.value);
      hide After, Names, ActiveName, Any;
      if !changed {
        return;
      }
      local := local.(active := active, standby := standby, isSealed := isSealed, unsealed := unsealed,
                      initialized := initiated, updatedNodes := updated);
      NoneNamed(ps, IsSealed);
      if !initiated {
        local := local.(phase := Uninitialized);
      } else if active != "" {
        local := local.(phase := Running);
      } else if |isSealed| > 0 {
        local := local.(phase := Sealed);
      }
    }

    /** Writes the nine fields of the monitor and takes the stored status back. */
    method UpdateStoredStatus(c: CallResult)
      requires Valid()
      modifies this`stored, this`local, this`events
      ensures Valid() && events == old(events) + [MonitorWrites(c)]
      ensures !c.Failed? ==> stored == MonitorUpdate(old(stored), old(local))
    {
      Record(MonitorWrites(c));
      if c.Failed? {
        return;
      }
      stored := stored.(active := local.active, standby := local.standby, isSealed := local.isSealed,
                        unsealed := local.unsealed, initialized := local.initialized,
                        updatedNodes := local.updatedNodes, phase := local.phase,
                        serviceName := local.serviceName, clientPort := local.clientPort);
      if c.Done? {
        local := stored;
      }
    }

    /** The other two writers. */
    method OthersWrite(es: seq<Event>)
      requires Valid() && ByOthers(es)
      modifies this`stored, this`events
      ensures Valid() && events == old(events) + es
    {
      hide After, Consistent, LocalRound;
      for n := 0 to |es|
        invariant Valid() && events == old(events) + es[..n]
      {
        Record(es[n]);
        stored := Next(World(stored, local), es[n]).stored;
      }
    }

    /** The monitor until its context is done: it writes, and then polls and writes once per turn. */
    method MonitorAndUpdateStatus(first: CallResult, turns: seq<Turn>)
      requires Valid() && events == []
      requires forall i | 0 <= i < |turns| :: ByOthers(turns[i].others) && (turns[i].pods.Some? ==> Named(turns[i].pods.value))
      modifies this
      ensures Valid() && start == old(start) && events == [MonitorWrites(first)] + EventsOf(turns)
      ensures Consistent(local) && (Consistent(start.stored) || !first.Failed? ==> Consistent(stored))
    {
      hide After, Next, Consistent, LocalRound, MonitorUpdate, Named;
      UpdateStoredStatus(first);
      for n := 0 to |turns|
        invariant Valid() && start == old(start) && events == [MonitorWrites(first)] + EventsOf(turns[..n])
      {
        var t := turns[n];
        OthersWrite(t.others);
        UpdateLocalStatus(t.image, t.pods);
        UpdateStoredStatus(t.write);
        assert turns[..n + 1][..n] == turns[..n];
      }
      assert turns[..|turns|] == turns;
      EventsWellNamed(turns);
      ConsistentOverRuns(start, events);
      assert events[0] == MonitorWrites(first);
    }
  }

  /** The events of the monitor's turns and of those who write in between. */
  function EventsOf(turns: seq<Turn>): seq<Event> {
    if turns == [] then []
    else
      var t := turns[|turns| - 1];
      EventsOf(turns[..|turns| - 1]) + t.others + [MonitorRound(t.image, t.pods)] + [MonitorWrites(t.write)]
  }

  lemma {:induction false} EventsWellNamed(turns: seq<Turn>)
    requires forall i | 0 <= i < |turns| :: ByOthers(turns[i].others) && (turns[i].pods.Some? ==> Named(turns[i].pods.value))
    ensures WellNamed(EventsOf(turns))
  {
    hide Named;
    if turns != [] {
      EventsWellNamed(turns[..|turns| - 1]);
    }
  }

  lemma OneMorePod(ps: seq<Observation>, n: nat, f: Observation -> bool)
    requires n < |ps|
    ensures Names(ps[..n + 1], f) == Names(ps[..n], f) + if f(ps[n]) then [ps[n].name] else []
    ensures Any(ps[..n + 1], f) <==> Any(ps[..n], f) || f(ps[n])
  {
    assert ps[..n + 1][..n] == ps[..n] && ps[..n + 1][n] == ps[n];
    if Any(ps[..n], f) {
      var i :| 0 <= i < n && f(ps[..n][i]);
      assert f(ps[..n + 1][i]);
    }
    if Any(ps[..n + 1], f) && !f(ps[n]) {
      var i :| 0 <= i < n + 1 && f(ps[..n + 1][i]);
      assert f(ps[..n][i]);
    }
  }

  lemma OneMoreActive(ps: seq<Observation>, n: nat)
    requires n < |ps|
    ensures ActiveName(ps[..n + 1]) == if IsActive(ps[n]) then ps[n].name else ActiveName(ps[..n])
  {
    assert ps[..n + 1][..n] == ps[..n];
  }

  lemma {:induction false} NoneNamed(pods: seq<Observation>, f: Observation -> bool)
    ensures Names(pods, f) == [] <==> !Any(pods, f)
  {
    if pods != [] {
      NoneNamed(pods[..|pods| - 1], f);
      OneMorePod(pods, |pods| - 1, f);
      assert pods[..|pods|] == pods;
    }
  }
}
