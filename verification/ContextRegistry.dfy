/** The code that accesses the context registries, access by access, as a run of the machine. */
module ContextRegistry {
  import opened Results
  import opened Contexts

  /** An action of the worker of `key`, or of monitor `m`. */
  predicate IsWorker(a: Action, key: Key) {
    (a.Reconciled? || a.ObjectMissing? || a.Continue?) && a.key == key
  }

  predicate IsMonitor(a: Action, m: nat) {
    (a.MonitorLooksUp? || a.MonitorCancels? || a.MonitorDeletes?) && a.m == m
  }

  function JobOf(s: State, key: Key): Option<Job> {
    if key in s.jobs then Some(s.jobs[key]) else None
  }

  function RoundOf(s: State, m: nat): Option<Round> {
    if m in s.rounds then Some(s.rounds[m]) else None
  }

  lemma OthersKeepJob(s: State, a: Action, key: Key)
    requires !IsWorker(a, key)
    ensures JobOf(Next(s, a), key) == JobOf(s, key)
  {
    if a.Continue? && a.key in s.jobs {
      WorkElsewhere(s, a.key, key);
    }
    hide Work;
  }

  lemma OthersKeepRound(s: State, a: Action, m: nat)
    requires !IsMonitor(a, m)
    ensures RoundOf(Next(s, a), m) == RoundOf(s, m) && Grows(s, Next(s, a))
  {
    StepGrows(s, a);
    if a.Continue? && a.key in s.jobs {
      WorkEntries(s, a.key);
    }
    hide Work;
  }

  /** The registries, with `jobs` and `rounds` telling where the goroutines stand. Between two
      accesses of a method everybody else may act. */
  class Registry {
    var contexts: seq<Context>
    var ctxCancels: map<Key, nat>
    var authMethodCtx: map<Key, nat>
    var jobs: map<Key, Job>
    var rounds: map<nat, Round>
    ghost var acts: seq<Action>

    constructor ()
      ensures Valid() && acts == [] && jobs == map[] && rounds == map[]
    {
      contexts, ctxCancels, authMethodCtx, jobs, rounds, acts := [], map[], map[], map[], map[], [];
    }

    function Abs(): State
      reads this
    {
      State(contexts, ctxCancels, authMethodCtx, jobs, rounds)
    }

    /** The registries are what some run leads to. */
    ghost predicate Valid()
      reads this
    {
      Abs() == After(acts)
    }

    /** The goroutine that takes the step moves on. */
    method Advance(a: Action)
      requires Valid()
      modifies this`jobs, this`rounds, this`acts
      ensures acts == old(acts) + [a] && After(acts) == Next(old(Abs()), a)
      ensures jobs == Next(old(Abs()), a).jobs && rounds == Next(old(Abs()), a).rounds
    {
      Append(acts, a);
      var t := Next(Abs(), a);
      jobs, rounds, acts := t.jobs, t.rounds, acts + [a];
    }

    method Step(a: Action)
      requires Valid()
      modifies this
      ensures Valid() && acts == old(acts) + [a] && Abs() == Next(old(Abs()), a)
    {
      hide After, Next;
      var t := Next(Abs(), a);
      Advance(a);
      contexts, ctxCancels, authMethodCtx := t.contexts, t.ctxCancels, t.authMethodCtx;
    }

    /** Everybody but the worker of `key` acts. */
    method OthersThanWorkerAct(key: Key)
      requires Valid()
      modifies this
      ensures Valid() && old(acts) <= acts && JobOf(Abs(), key) == JobOf(old(Abs()), key)
    {
      var events: seq<Action> := *;
      for n := 0 to |events|
        invariant Valid() && old(acts) <= acts && JobOf(Abs(), key) == JobOf(old(Abs()), key)
      {
        hide After, Next, JobOf;
        if !IsWorker(events[n], key) {
          OthersKeepJob(Abs(), events[n], key);
          Step(events[n]);
        }
      }
    }

    /** Everybody but monitor `m` acts. */
    method OthersThanMonitorAct(m: nat)
      requires Valid()
      modifies this
      ensures Valid() && old(acts) <= acts && RoundOf(Abs(), m) == RoundOf(old(Abs()), m)
      ensures Grows(old(Abs()), Abs())
    {
      var events: seq<Action> := *;
      for n := 0 to |events|
        invariant Valid() && old(acts) <= acts && RoundOf(Abs(), m) == RoundOf(old(Abs()), m)
        invariant Grows(old(Abs()), Abs())
      {
        hide After, Next, RoundOf;
        if !IsMonitor(events[n], m) {
          OthersKeepRound(Abs(), events[n], m);
          Step(events[n]);
        }
      }
    }

    method CancelContext(ctx: nat)
      modifies this`contexts
      ensures contexts == CancelAt(old(contexts), ctx)
    {
      if ctx < |contexts| {
        contexts := contexts[ctx := contexts[ctx].(cancelled := true)];
      }
    }

    /** The missing-object branch of the injector. */
    method HandleMissing(key: Key)
      requires Valid() && key !in jobs
      modifies this
      ensures Valid() && key !in jobs && old(acts) <= acts && acts != []
      ensures NeverOvertaken(acts[..|acts| - 1]) ==> forall i: nat | Live(Abs(), i) :: contexts[i].key != key
    {
      hide After, NeverOvertaken;
      OthersThanWorkerAct(key);
      var found := key in ctxCancels;
      var entry := if found then ctxCancels[key] else 0;
      Advance(ObjectMissing(key));
      if found {
        RemoveMonitor(key, entry);
      }
      RemoveAuth(key);
    }

    /** The monitor's half. */
    method RemoveMonitor(key: Key, entry: nat)
      requires Valid() && JobOf(Abs(), key) == Some(CancelGone(entry))
      modifies this
      ensures Valid() && old(acts) <= acts && JobOf(Abs(), key) == Some(LookUpGoneAuth)
    {
      hide After;
      OthersThanWorkerAct(key);
      Advance(Continue(key));
      CancelContext(entry);
      OthersThanWorkerAct(key);
      Advance(Continue(key));
      ctxCancels := ctxCancels - {key};
    }

    /** The auth goroutine's half. */
    method RemoveAuth(key: Key)
      requires Valid() && JobOf(Abs(), key) == Some(LookUpGoneAuth)
      modifies this
      ensures Valid() && old(acts) <= acts && key !in jobs && acts != []
      ensures NeverOvertaken(acts[..|acts| - 1]) ==> forall i: nat | Live(Abs(), i) :: contexts[i].key != key
    {
      hide After, NeverOvertaken;
      OthersThanWorkerAct(key);
      if key in authMethodCtx {
        CancelAuthOf(key);
      }
      FinishMissing(key);
    }

    method CancelAuthOf(key: Key)
      requires Valid() && JobOf(Abs(), key) == Some(LookUpGoneAuth) && key in authMethodCtx
      modifies this
      ensures Valid() && old(acts) <= acts && FinishesMissing(Abs(), key)
    {
      hide After;
      var entry := authMethodCtx[key];
      Advance(Continue(key));
      OthersThanWorkerAct(key);
      Advance(Continue(key));
      CancelContext(entry);
      OthersThanWorkerAct(key);
    }

    /** Deletes the auth entry, if any: the worker is done with the object. */
    method FinishMissing(key: Key)
      requires Valid() && FinishesMissing(Abs(), key)
      modifies this
      ensures Valid() && old(acts) < acts && key !in jobs && acts[..|acts| - 1] == old(acts)
      ensures NeverOvertaken(old(acts)) ==> forall i: nat | Live(Abs(), i) :: contexts[i].key != key
    {
      hide After, NeverOvertaken;
      ghost var before, s := acts, Abs();
      Advance(Continue(key));
      authMethodCtx := authMethodCtx - {key};
      assert Abs() == Next(s, Continue(key));
      hide Next;
      if NeverOvertaken(before) {
        forall i: nat | Live(Abs(), i) ensures contexts[i].key != key {
          NoneAfterMissing(before, key, i);
        }
      }
    }

    /** The end of reconcileVault: starts a monitor unless one is registered, and the auth
        reconcile. */
    method StartGoroutines(key: Key)
      requires Valid() && key !in jobs
      modifies this
      ensures Valid() && key !in jobs && old(acts) <= acts && key in authMethodCtx
    {
      hide After;
      OthersThanWorkerAct(key);
      var found := key in ctxCancels;
      Advance(Reconciled(key));
      if !found {
        OthersThanWorkerAct(key);
        var ctx := |contexts|;
        Advance(Continue(key));
        contexts := contexts + [Context(key, Monitor, false)];
        ctxCancels := ctxCancels[key := ctx];
      }
      RunAuthMethodsReconcile(key);
    }

    /** `runAuthMethodsReconcile`. */
    method RunAuthMethodsReconcile(key: Key)
      requires Valid() && JobOf(Abs(), key) == Some(CreateAuth)
      modifies this
      ensures Valid() && key !in jobs && old(acts) <= acts && key in authMethodCtx
    {
      hide After;
      OthersThanWorkerAct(key);
      var ctx := |contexts|;
      Advance(Continue(key));
      contexts := contexts + [Context(key, Auth, false)];
      ReplaceAuth(key, ctx);
    }

    /** Cancels the previous auth goroutine, if any, and registers the new one. */
    method ReplaceAuth(key: Key, ctx: nat)
      requires Valid() && JobOf(Abs(), key) == Some(CancelAuth(ctx))
      modifies this
      ensures Valid() && key !in jobs && old(acts) <= acts && key in authMethodCtx
    {
      hide After;
      OthersThanWorkerAct(key);
      Advance(Continue(key));
      if key in authMethodCtx {
        CancelContext(authMethodCtx[key]);
      }
      OthersThanWorkerAct(key);
      Advance(Continue(key));
      authMethodCtx := authMethodCtx[key := ctx];
    }

    /** A monitor whose object is not found: look-up, cancel, delete. */
    method HandleNotFound(m: nat)
      requires Valid() && m < |contexts| && contexts[m].role.Monitor? && m !in rounds
      modifies this
      ensures Valid() && m !in rounds && old(acts) <= acts
    {
      hide After;
      var key := contexts[m].key;
      OthersThanMonitorAct(m);
      var found := key in ctxCancels;
      var entry := if found then ctxCancels[key] else 0;
      Advance(MonitorLooksUp(m));
      if found {
        CancelAndDelete(m, key, entry);
      }
    }

    method CancelAndDelete(m: nat, key: Key, entry: nat)
      requires Valid() && RoundOf(Abs(), m) == Some(LookedUp(entry)) && m < |contexts| && contexts[m].key == key
      modifies this
      ensures Valid() && m !in rounds && old(acts) <= acts && key !in ctxCancels
    {
      hide After;
      OthersThanMonitorAct(m);
      Advance(MonitorCancels(m));
      CancelContext(entry);
      CancelAtOnly(old(contexts), entry);
      OthersThanMonitorAct(m);
      Advance(MonitorDeletes(m));
      ctxCancels := ctxCancels - {key};
    }
  }
}
