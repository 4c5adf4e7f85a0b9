/** What a reconcile, a missing object and a monitor's own finding leave in the registries when
    nobody acts in between, context by context. */
module ContextOutcomes {
  import opened Contexts

  /** The contexts with number `i` cancelled. */
  function WithCancelled(cs: seq<Context>, i: nat): seq<Context>
    requires i < |cs|
  {
    cs[..i] + [Context(cs[i].key, cs[i].role, true)] + cs[i + 1..]
  }

  lemma CancelledAt(cs: seq<Context>, i: nat)
    requires i < |cs|
    ensures CancelAt(cs, i) == WithCancelled(cs, i)
  {
    assert forall j | 0 <= j < |cs| :: CancelAt(cs, i)[j] == WithCancelled(cs, i)[j];
  }

  lemma Steps3(acts: seq<Action>, a: Action, b: Action, c: Action)
    ensures After(acts + [a, b, c]) == Next(Next(Next(After(acts), a), b), c)
  {
    hide After, Next;
    Append(acts, a);
    Append(acts + [a], b);
    Append(acts + [a] + [b], c);
    assert acts + [a] + [b] + [c] == acts + [a, b, c];
  }

  lemma Steps4(acts: seq<Action>, a: Action, b: Action, c: Action, d: Action)
    ensures After(acts + [a, b, c, d]) == Next(Next(Next(Next(After(acts), a), b), c), d)
  {
    hide After, Next;
    Steps3(acts, a, b, c);
    Append(acts + [a, b, c], d);
    assert acts + [a, b, c] + [d] == acts + [a, b, c, d];
  }

  lemma AuthInRange(acts: seq<Action>, key: Key)
    requires key in After(acts).authMethodCtx
    ensures After(acts).authMethodCtx[key] < |After(acts).contexts|
  {
    AlwaysWellFormed(acts);
    hide After, JobInv, RoundInv;
  }

  /** With both goroutines registered, another reconcile leaves the monitor alone and replaces
      the auth goroutine: the old one is cancelled, a new one registered. */
  lemma ReconcileAgain(acts: seq<Action>, key: Key)
    requires var s := After(acts); key !in s.jobs && key in s.ctxCancels && key in s.authMethodCtx
    ensures var s := After(acts); var n, old_ := |s.contexts|, s.authMethodCtx[key];
      && old_ < n
      && After(acts + [Reconciled(key), Continue(key), Continue(key), Continue(key)]) == s.(
           contexts := WithCancelled(s.contexts, old_) + [Context(key, Auth, false)],
           authMethodCtx := s.authMethodCtx[key := n])
  {
    Steps4(acts, Reconciled(key), Continue(key), Continue(key), Continue(key));
    AuthInRange(acts, key);
    hide After, Next, WithCancelled;
    ReplacesAuth(After(acts), key);
  }

  lemma ReplacesAuth(s: State, key: Key)
    requires key !in s.jobs && key in s.ctxCancels && key in s.authMethodCtx && s.authMethodCtx[key] < |s.contexts|
    ensures Next(Next(Next(Next(s, Reconciled(key)), Continue(key)), Continue(key)), Continue(key)) == s.(
              contexts := WithCancelled(s.contexts, s.authMethodCtx[key]) + [Context(key, Auth, false)],
              authMethodCtx := s.authMethodCtx[key := |s.contexts|])
  {
    var n, e := |s.contexts|, s.authMethodCtx[key];
    var s1 := Next(s, Reconciled(key));
    assert s1 == s.(jobs := s.jobs[key := CreateAuth]);
    var cs := s.contexts + [Context(key, Auth, false)];
    var s2 := s.(contexts := cs, jobs := s.jobs[key := CancelAuth(n)]);
    CreatesAuth(s1, key);
    assert s1.jobs[key := CancelAuth(n)] == s2.jobs;
    CancelledAt(cs, e);
    assert WithCancelled(cs, e) == WithCancelled(s.contexts, e) + [Context(key, Auth, false)];
    CancelsAuth(s2, key, n);
    hide Next, WithCancelled, CancelAt;
    var s3 := s.(contexts := CancelAt(cs, e), jobs := s.jobs[key := StoreAuth(n)]);
    assert s2.jobs[key := StoreAuth(n)] == s3.jobs;
    StoresAuth(s3, key, n);
    assert s3.jobs - {key} == s.jobs;
  }

  lemma CreatesAuth(s: State, key: Key)
    requires key in s.jobs && s.jobs[key].CreateAuth?
    ensures Next(s, Continue(key)) ==
            s.(contexts := s.contexts + [Context(key, Auth, false)], jobs := s.jobs[key := CancelAuth(|s.contexts|)])
  {
  }

  lemma CancelsAuth(s: State, key: Key, n: nat)
    requires key in s.jobs && s.jobs[key] == CancelAuth(n) && key in s.authMethodCtx
    ensures Next(s, Continue(key)) ==
            s.(contexts := CancelAt(s.contexts, s.authMethodCtx[key]), jobs := s.jobs[key := StoreAuth(n)])
  {
    hide CancelAt;
  }

  lemma StoresAuth(s: State, key: Key, n: nat)
    requires key in s.jobs && s.jobs[key] == StoreAuth(n)
    ensures Next(s, Continue(key)) == s.(authMethodCtx := s.authMethodCtx[key := n], jobs := s.jobs - {key})
  {
  }

  /** A monitor that finds its object missing cancels the registered monitor, itself, and removes
      that entry; the auth goroutine is left to the worker. */
  lemma NotFoundAlone(acts: seq<Action>, m: nat)
    requires var s := After(acts); Registered(s, m) && s.contexts[m].role.Monitor? && m !in s.rounds
    ensures var s := After(acts); var key := s.contexts[m].key;
      After(acts + [MonitorLooksUp(m), MonitorCancels(m), MonitorDeletes(m)]) == s.(
        contexts := WithCancelled(s.contexts, m), ctxCancels := s.ctxCancels - {key})
  {
    Steps3(acts, MonitorLooksUp(m), MonitorCancels(m), MonitorDeletes(m));
    hide After, Next, WithCancelled;
    RemovesItself(After(acts), m);
  }

  lemma RemovesItself(s: State, m: nat)
    requires Registered(s, m) && s.contexts[m].role.Monitor? && m !in s.rounds
    ensures Next(Next(Next(s, MonitorLooksUp(m)), MonitorCancels(m)), MonitorDeletes(m)) == s.(
              contexts := WithCancelled(s.contexts, m), ctxCancels := s.ctxCancels - {s.contexts[m].key})
  {
    CancelledAt(s.contexts, m);
    hide WithCancelled, Work;
    var s1 := Next(s, MonitorLooksUp(m));
    assert s1 == s.(rounds := s.rounds[m := LookedUp(m)]);
    var s2 := s.(contexts := CancelAt(s.contexts, m), rounds := s.rounds[m := Cancelled(m)]);
    assert s1.rounds[m := Cancelled(m)] == s2.rounds;
    assert Next(s1, MonitorCancels(m)) == s2;
    assert s2.contexts[m].key == s.contexts[m].key && s2.rounds - {m} == s.rounds;
  }

  /** The handling of a missing object cancels exactly the two registered contexts. */
  lemma MissingCancelsBoth(acts: seq<Action>, key: Key)
    requires var s := After(acts); key !in s.jobs && key in s.ctxCancels && key in s.authMethodCtx
    ensures var s, t := After(acts), After(acts + Missing(key));
      && key !in t.ctxCancels && key !in t.authMethodCtx && |t.contexts| == |s.contexts|
      && forall i | 0 <= i < |s.contexts| ::
           t.contexts[i] == if i == s.ctxCancels[key] || i == s.authMethodCtx[key]
                            then Context(s.contexts[i].key, s.contexts[i].role, true) else s.contexts[i]
  {
    MissingAlone(acts, key);
    hide After;
  }

  /** Once a monitor has removed itself, the worker only has the auth goroutine to stop. */
  lemma MissingAuthOnly(acts: seq<Action>, key: Key)
    requires var s := After(acts); key !in s.jobs && key !in s.ctxCancels && key in s.authMethodCtx
    ensures var s := After(acts);
      && s.authMethodCtx[key] < |s.contexts|
      && After(acts + [ObjectMissing(key), Continue(key), Continue(key), Continue(key)]) == s.(
           contexts := WithCancelled(s.contexts, s.authMethodCtx[key]), authMethodCtx := s.authMethodCtx - {key})
  {
    Steps4(acts, ObjectMissing(key), Continue(key), Continue(key), Continue(key));
    AuthInRange(acts, key);
    hide After, Next, WithCancelled;
    StopsAuth(After(acts), key);
  }

  lemma StopsAuth(s: State, key: Key)
    requires key !in s.jobs && key !in s.ctxCancels && key in s.authMethodCtx && s.authMethodCtx[key] < |s.contexts|
    ensures Next(Next(Next(Next(s, ObjectMissing(key)), Continue(key)), Continue(key)), Continue(key)) == s.(
              contexts := WithCancelled(s.contexts, s.authMethodCtx[key]), authMethodCtx := s.authMethodCtx - {key})
  {
    var e := s.authMethodCtx[key];
    CancelledAt(s.contexts, e);
    hide WithCancelled, CancelAt, MonitorStep, Start;
    var s1 := Next(s, ObjectMissing(key));
    assert s1 == s.(jobs := s.jobs[key := LookUpGoneAuth]);
    var s2 := s.(jobs := s.jobs[key := CancelGoneAuth(e)]);
    assert s1.jobs[key := CancelGoneAuth(e)] == s2.jobs;
    assert Next(s1, Continue(key)) == s2;
    var s3 := s.(contexts := CancelAt(s.contexts, e), jobs := s.jobs[key := DeleteGoneAuth(e)]);
    assert s2.jobs[key := DeleteGoneAuth(e)] == s3.jobs;
    assert Next(s2, Continue(key)) == s3;
    assert s3.jobs - {key} == s.jobs;
  }
}
