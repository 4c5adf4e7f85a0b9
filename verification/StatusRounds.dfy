/** The monitor's rounds and writes, told by what the single pods answer and by the names of the
    status fields. */
module StatusRounds {
  import opened Results
  import opened StatusMonitor

  // ----- what the pods answer -----

  /** Pod `i` is running, is not being deleted, and answered the health request. */
  predicate Answered(pods: seq<Observation>, i: int) {
    0 <= i < |pods| && pods[i].running && !pods[i].terminating && pods[i].health.Some?
  }

  predicate Initialized(pods: seq<Observation>, i: int) {
    Answered(pods, i) && pods[i].health.value.initialized
  }

  /** It serves requests. */
  predicate Active(pods: seq<Observation>, i: int) {
    Initialized(pods, i) && !pods[i].health.value.isSealed && !pods[i].health.value.standby
  }

  predicate Standby(pods: seq<Observation>, i: int) {
    Initialized(pods, i) && !pods[i].health.value.isSealed && pods[i].health.value.standby
  }

  predicate SealedPod(pods: seq<Observation>, i: int) {
    Answered(pods, i) && pods[i].health.value.isSealed
  }

  predicate UnsealedPod(pods: seq<Observation>, i: int) {
    Answered(pods, i) && !pods[i].health.value.isSealed
  }

  predicate Updated(pods: seq<Observation>, image: string, i: int) {
    Answered(pods, i) && pods[i].image == image
  }

  predicate SomeAnswered(pods: seq<Observation>) { exists i | 0 <= i < |pods| :: Answered(pods, i) }

  predicate SomeInitialized(pods: seq<Observation>) { exists i | 0 <= i < |pods| :: Initialized(pods, i) }

  predicate SomeActive(pods: seq<Observation>) { exists i | 0 <= i < |pods| :: Active(pods, i) }

  predicate SomeSealed(pods: seq<Observation>) { exists i | 0 <= i < |pods| :: SealedPod(pods, i) }

  lemma AnswersAre(pods: seq<Observation>)
    ensures Any(pods, Responds) <==> SomeAnswered(pods)
    ensures Any(pods, IsInitialized) <==> SomeInitialized(pods)
    ensures Any(pods, IsActive) <==> SomeActive(pods)
    ensures Any(pods, IsSealed) <==> SomeSealed(pods)
  {
    assert forall i | 0 <= i < |pods| :: Responds(pods[i]) <==> Answered(pods, i);
    assert forall i | 0 <= i < |pods| :: IsInitialized(pods[i]) <==> Initialized(pods, i);
    assert forall i | 0 <= i < |pods| :: IsActive(pods[i]) <==> Active(pods, i);
    assert forall i | 0 <= i < |pods| :: IsSealed(pods[i]) <==> SealedPod(pods, i);
  }

  // ----- the phase -----

  /** The round decides the phase. */
  predicate Settles(pods: seq<Observation>) {
    SomeAnswered(pods) && (!SomeInitialized(pods) || SomeActive(pods) || SomeSealed(pods))
  }

  /** Of a round that somebody answered: without an initialized pod Uninitialized, with an active
      one Running, with a sealed one but none active Sealed, and otherwise the phase stays. A
      round that nobody answered, or that could not read the pods, changes nothing at all. */
  lemma PhaseOfRound(s: Status, image: string, pods: seq<Observation>)
    requires Named(pods)
    ensures var r := LocalRound(s, Some(image), Some(pods));
      && (SomeAnswered(pods) && !SomeInitialized(pods) ==> r.phase == Uninitialized)
      && (SomeInitialized(pods) && SomeActive(pods) ==> r.phase == Running)
      && (SomeInitialized(pods) && !SomeActive(pods) && SomeSealed(pods) ==> r.phase == Sealed)
      && (!Settles(pods) ==> r.phase == s.phase)
      && (!SomeAnswered(pods) ==> r == s)
    ensures LocalRound(s, None, Some(pods)) == s && LocalRound(s, Some(image), None) == s
  {
    AnswersAre(pods);
    InitializedAnswer(pods);
    ActiveMember(pods);
    hide Any, Names, ActiveName, Named, SomeAnswered, SomeInitialized, SomeActive, SomeSealed;
  }

  lemma InitializedAnswer(pods: seq<Observation>)
    ensures SomeInitialized(pods) ==> SomeAnswered(pods)
    ensures SomeActive(pods) ==> SomeInitialized(pods)
    ensures SomeSealed(pods) ==> SomeAnswered(pods)
  {
    if i :| 0 <= i < |pods| && Initialized(pods, i) { assert Answered(pods, i); }
    if i :| 0 <= i < |pods| && Active(pods, i) { assert Initialized(pods, i); }
    if i :| 0 <= i < |pods| && SealedPod(pods, i) { assert Answered(pods, i); }
  }

  lemma VerdictOfRound(e: Event)
    requires e.MonitorRound? && e.pods.Some? ==> Named(e.pods.value)
    ensures RoundVerdict(e) ==
      if e.MonitorRound? && e.image.Some? && e.pods.Some? && Settles(e.pods.value) then
        Some(if !SomeInitialized(e.pods.value) then Uninitialized
             else if SomeActive(e.pods.value) then Running else Sealed)
      else None
  {
    if e.MonitorRound? && e.pods.Some? {
      AnswersAre(e.pods.value);
      InitializedAnswer(e.pods.value);
      ActiveMember(e.pods.value);
    }
    hide Any, Names, ActiveName, Named, SomeAnswered, SomeInitialized, SomeActive, SomeSealed;
  }

  /** Round `k` settles the phase and no later one before `n` does. */
  predicate LastSettled(es: seq<Event>, k: nat, n: nat) {
    && k < n <= |es| && SettledBy(es[k])
    && forall i | k < i < n :: !SettledBy(es[i])
  }

  predicate SettledBy(e: Event) {
    e.MonitorRound? && e.image.Some? && e.pods.Some? && Settles(e.pods.value)
  }

  /** The stored phase, whoever else writes: what the pods answered in the last round before the
      monitor's last write that settled it, and Processing if none did. */
  lemma StoredPhaseIsWhatPodsSaid(w: World, es: seq<Event>, n: nat, k: nat)
    requires w.local.phase.Processing? && WellNamed(es)
    requires n < |es| && es[n].MonitorWrites? && Applied(es[n])
    requires forall i | n < i < |es| :: !(es[i].MonitorWrites? && Applied(es[i]))
    ensures LastSettled(es, k, n) ==>
      After(w, es).stored.phase ==
        if !SomeInitialized(es[k].pods.value) then Uninitialized
        else if SomeActive(es[k].pods.value) then Running else Sealed
    ensures (forall i | 0 <= i < n :: !SettledBy(es[i])) ==> After(w, es).stored.phase == Processing
  {
    LastMonitorWriteStands(w, es, n);
    var before := es[..n];
    forall i | 0 <= i < n
      ensures before[i] == es[i] && (RoundVerdict(before[i]).Some? <==> SettledBy(es[i]))
    {
      VerdictOfRound(es[i]);
    }
    hide After, Settles, SomeInitialized, SomeActive, RoundVerdict, Applied;
    if LastSettled(es, k, n) {
      LocalPhaseIsLastVerdict(w, before, k);
      VerdictOfRound(es[k]);
    }
    if forall i | 0 <= i < n :: !SettledBy(es[i]) {
      LocalPhaseWithoutVerdict(w, before);
    }
  }

  // ----- the lists -----

  /** `idx` are the pods among the first `n` that meet `f`, in order. */
  predicate Picks(pods: seq<Observation>, f: Observation -> bool, n: nat, idx: seq<nat>) {
    && (forall j | 0 <= j < |idx| :: idx[j] < n <= |pods| && f(pods[idx[j]]))
    && (forall j, k | 0 <= j < k < |idx| :: idx[j] < idx[k])
    && (forall i: nat | i < n <= |pods| && f(pods[i]) :: i in idx)
  }

  /** `names` are the names of the pods `idx`. */
  predicate NamesOf(pods: seq<Observation>, idx: seq<nat>, names: seq<string>) {
    |names| == |idx| && forall j | 0 <= j < |idx| :: idx[j] < |pods| && names[j] == pods[idx[j]].name
  }

  /** A list of names is that of the pods that qualify, in the order of the pods. */
  lemma {:induction false} NamesInOrder(pods: seq<Observation>, f: Observation -> bool, n: nat) returns (idx: seq<nat>)
    requires n <= |pods|
    ensures Picks(pods, f, n, idx) && NamesOf(pods, idx, Names(pods[..n], f))
  {
    hide Names, Picks, NamesOf;
    if n == 0 {
      idx := [];
      NoNames(pods, f);
    } else {
      idx := NamesInOrder(pods, f, n - 1);
      OneMorePod(pods, n - 1, f);
      PickOne(pods, f, n - 1, idx);
      NameOne(pods, idx, Names(pods[..n - 1], f), n - 1);
      if f(pods[n - 1]) {
        idx := idx + [n - 1];
      }
      assert Names(pods[..n - 1], f) + [] == Names(pods[..n - 1], f);
    }
  }

  lemma NoNames(pods: seq<Observation>, f: Observation -> bool)
    ensures Picks(pods, f, 0, []) && NamesOf(pods, [], Names(pods[..0], f))
  {
    assert pods[..0] == [];
  }

  lemma NameOne(pods: seq<Observation>, idx: seq<nat>, names: seq<string>, n: nat)
    requires n < |pods| && NamesOf(pods, idx, names)
    ensures NamesOf(pods, idx + [n], names + [pods[n].name])
  {
    var idx', names' := idx + [n], names + [pods[n].name];
    assert forall j | 0 <= j < |idx| :: idx'[j] == idx[j] && names'[j] == names[j];
  }

  lemma PickOne(pods: seq<Observation>, f: Observation -> bool, n: nat, idx: seq<nat>)
    requires n < |pods| && Picks(pods, f, n, idx)
    ensures Picks(pods, f, n + 1, if f(pods[n]) then idx + [n] else idx)
    ensures forall j | 0 <= j < |idx| :: idx[j] < n
  {
    if f(pods[n]) {
      var idx' := idx + [n];
      assert idx'[|idx|] == n;
      assert forall j | 0 <= j < |idx| :: idx'[j] == idx[j];
    }
  }

  /** Who is on which list after a round that somebody answered. */
  lemma ListsOfRound(s: Status, image: string, pods: seq<Observation>, n: string)
    requires SomeAnswered(pods)
    ensures var r := LocalRound(s, Some(image), Some(pods));
      && (n in r.standby <==> exists i | 0 <= i < |pods| :: Standby(pods, i) && pods[i].name == n)
      && (n in r.isSealed <==> exists i | 0 <= i < |pods| :: SealedPod(pods, i) && pods[i].name == n)
      && (n in r.unsealed <==> exists i | 0 <= i < |pods| :: UnsealedPod(pods, i) && pods[i].name == n)
      && (n in r.updatedNodes <==> exists i | 0 <= i < |pods| :: Updated(pods, image, i) && pods[i].name == n)
      && (r.initialized <==> SomeInitialized(pods))
  {
    hide Names, ActiveName, Verdict, Any, SomeAnswered, SomeInitialized;
    AnswersAre(pods);
    Member(pods, IsStandby, i => Standby(pods, i), n);
    Member(pods, IsSealed, i => SealedPod(pods, i), n);
    Member(pods, IsUnsealed, i => UnsealedPod(pods, i), n);
    var atVersion := o => AtVersion(o, image);
    Member(pods, atVersion, i => Updated(pods, image, i), n);
    SameNames(pods, atVersion, o => AtVersion(o, image));
    hide Answered, Standby, SealedPod, UnsealedPod, Updated;
  }

  lemma {:induction false} SameNames(pods: seq<Observation>, f: Observation -> bool, g: Observation -> bool)
    requires forall o :: f(o) <==> g(o)
    ensures Names(pods, f) == Names(pods, g)
  {
    if pods != [] { SameNames(pods[..|pods| - 1], f, g); }
  }

  lemma Member(pods: seq<Observation>, f: Observation -> bool, at: int -> bool, n: string)
    requires forall i | 0 <= i < |pods| :: f(pods[i]) <==> at(i)
    ensures n in Names(pods, f) <==> exists i | 0 <= i < |pods| :: at(i) && pods[i].name == n
  {
    NamesMember(pods, f, n);
  }

  /** The active pod of a round is the last one on the list that is active. */
  lemma {:induction false} ActiveIsLast(pods: seq<Observation>, i: nat)
    requires Active(pods, i) && forall j | i < j < |pods| :: !Active(pods, j)
    ensures ActiveName(pods) == pods[i].name
  {
    var n := |pods| - 1;
    assert Active(pods, n) <==> IsActive(pods[n]);
    if i < n {
      var before := pods[..n];
      assert forall j | 0 <= j < n :: Active(before, j) <==> Active(pods, j);
      ActiveIsLast(before, i);
    }
  }

  // ----- the writes -----

  /** A monitor's write copies exactly nine fields, and an acknowledged one leaves the monitor
      with the whole status that it stored. */
  lemma MonitorWriteFields(w: World, c: CallResult)
    requires !c.Failed?
    ensures var s, o, l := Next(w, MonitorWrites(c)).stored, w.stored, w.local;
      && s.phase == l.phase && s.initialized == l.initialized && s.active == l.active
      && s.standby == l.standby && s.isSealed == l.isSealed && s.unsealed == l.unsealed
      && s.updatedNodes == l.updatedNodes && s.serviceName == l.serviceName && s.clientPort == l.clientPort
      && s.observedGeneration == o.observedGeneration && s.conditions == o.conditions
      && s.authMethodStatus == o.authMethodStatus
    ensures Next(w, MonitorWrites(c)).local == if c.Done? then Next(w, MonitorWrites(c)).stored else w.local
  {
  }

  /** A run in which the monitor never writes leaves its nine fields alone. */
  lemma {:induction false} OthersLeaveMonitorFields(w: World, es: seq<Event>)
    requires forall i | 0 <= i < |es| :: !(es[i].MonitorWrites? && Applied(es[i]))
    ensures var s, o := After(w, es).stored, w.stored;
      && s.phase == o.phase && s.initialized == o.initialized && s.active == o.active
      && s.standby == o.standby && s.isSealed == o.isSealed && s.unsealed == o.unsealed
      && s.updatedNodes == o.updatedNodes && s.serviceName == o.serviceName && s.clientPort == o.clientPort
  {
    if es != [] { OthersLeaveMonitorFields(w, es[..|es| - 1]); }
  }

  /** A run without auth writes leaves the auth status alone, and one without reconcile writes
      the generation and the conditions. */
  lemma {:induction false} OthersLeaveTheRest(w: World, es: seq<Event>)
    ensures (forall e <- es :: !e.AuthWrites?) ==> After(w, es).stored.authMethodStatus == w.stored.authMethodStatus
    ensures (forall e <- es :: !e.ReconcileWrites?) ==>
      After(w, es).stored.observedGeneration == w.stored.observedGeneration && After(w, es).stored.conditions == w.stored.conditions
  {
    if es != [] {
      var before, e := es[..|es| - 1], es[|es| - 1];
      OthersLeaveTheRest(w, before);
      assert e in es && forall x <- before :: x in es;
    }
  }

  /** The first write of a monitor, before it has polled. */
  lemma FirstWrite(stored: Status, serviceName: string, clientPort: int, c: CallResult)
    requires !c.Failed?
    ensures var s := Next(World(stored, Started(serviceName, clientPort)), MonitorWrites(c)).stored;
      && s.phase == Processing && !s.initialized && s.serviceName == serviceName && s.clientPort == clientPort
      && s.active == "" && s.standby == s.isSealed == s.unsealed == s.updatedNodes == []
  {
  }
}
