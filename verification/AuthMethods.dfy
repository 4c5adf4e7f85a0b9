/** The auth-method controller: it enables the auth methods that a VaultServer lists,
    disables those it recorded earlier and that are no longer listed, and records the
    outcome in the status. Mounts are keyed by cleaned path; path cleaning is a parameter
    of every definition, so that the results hold for any cleaning function. */
module AuthMethods {
  import opened Results

  datatype AuthMethod = AuthMethod(typ: string, path: string)

  datatype EntryStatus = EnableSucceeded | EnableFailed | DisableFailed

  datatype Entry = Entry(typ: string, path: string, status: EntryStatus)

  type Mounts = map<string, string>

  type Cleaner = string -> string

  type Calls = nat -> CallResult

  /** `EnableAuthWithOptions`: Vault refuses a path in use. */
  function EnableAuth(mounts: Mounts, p: string, typ: string, c: CallResult): (Mounts, bool) {
    if p in mounts || c.Failed? then (mounts, false) else (mounts[p := typ], c.Done?)
  }

  /** `DisableAuth`. */
  function DisableAuth(mounts: Mounts, p: string, c: CallResult): (Mounts, bool) {
    if c.Failed? then (mounts, false) else (mounts - {p}, c.Done?)
  }

  datatype Outcome = Outcome(mounts: Mounts, entries: seq<Entry>)

  /** One round of the enabling loop; `list` is what ListAuth returned before the loop. */
  function EnableRound(clean: Cleaner, list: Mounts, before: Outcome, au: AuthMethod, c: CallResult): Outcome {
    var p := clean(au.path);
    if p in list then
      var status := if list[p] == au.typ then EnableSucceeded else EnableFailed;
      Outcome(before.mounts, before.entries + [Entry(au.typ, au.path, status)])
    else
      var (mounts, ok) := EnableAuth(before.mounts, p, au.typ, c);
      Outcome(mounts, before.entries + [Entry(au.typ, au.path, if ok then EnableSucceeded else EnableFailed)])
  }

  /** The first `n` rounds. */
  function Enable(clean: Cleaner, list: Mounts, auths: seq<AuthMethod>, c: Calls, n: nat): Outcome
    requires n <= |auths|
  {
    if n == 0 then Outcome(list, [])
    else EnableRound(clean, list, Enable(clean, list, auths, c, n - 1), auths[n - 1], c(n - 1))
  }

  function Cleaned(clean: Cleaner, auths: seq<AuthMethod>): set<string> {
    set i | 0 <= i < |auths| :: clean(auths[i].path)
  }

  /** A recorded entry whose mount has to go. */
  predicate Obsolete(clean: Cleaner, expected: seq<AuthMethod>, e: Entry) {
    e.status.EnableSucceeded? && clean(e.path) !in Cleaned(clean, expected)
  }

  /** One round of the disabling loop; an entry is added if it fails. */
  function DisableRound(clean: Cleaner, expected: seq<AuthMethod>, before: Outcome, e: Entry, c: CallResult): Outcome {
    if Obsolete(clean, expected, e) then
      var (mounts, ok) := DisableAuth(before.mounts, clean(e.path), c);
      Outcome(mounts, before.entries + if ok then [] else [Entry(e.typ, e.path, DisableFailed)])
    else before
  }

  /** The first `n` rounds of the disabling loop; the entries are those that failed. */
  function Disable(clean: Cleaner, expected: seq<AuthMethod>, has: seq<Entry>, c: Calls, m: Mounts, n: nat): Outcome
    requires n <= |has|
  {
    if n == 0 then Outcome(m, [])
    else DisableRound(clean, expected, Disable(clean, expected, has, c, m, n - 1), has[n - 1], c(n - 1))
  }

  /** The mount table of the Vault server, as the controller's client sees it. */
  class VaultSys {
    var mounts: Mounts

    constructor (m: Mounts)
      ensures mounts == m
    {
      mounts := m;
    }

    /** `enableAuthMethods`, after ListAuth succeeded. */
    method EnableAuthMethods(clean: Cleaner, auths: seq<AuthMethod>, c: Calls) returns (resp: seq<Entry>)
      modifies this
      ensures Outcome(mounts, resp) == Enable(clean, old(mounts), auths, c, |auths|)
    {
      var authList := mounts;
      resp := [];
      for k := 0 to |auths|
        invariant Outcome(mounts, resp) == Enable(clean, authList, auths, c, k)
      {
        var au := auths[k];
        var p := clean(au.path);
        if p in authList {
          if authList[p] != au.typ {
            resp := resp + [Entry(au.typ, au.path, EnableFailed)];
          } else {
            resp := resp + [Entry(au.typ, au.path, EnableSucceeded)];
          }
        } else {
          var (m, ok) := EnableAuth(mounts, p, au.typ, c(k));
          mounts := m;
          if !ok {
            resp := resp + [Entry(au.typ, au.path, EnableFailed)];
          } else {
            resp := resp + [Entry(au.typ, au.path, EnableSucceeded)];
          }
        }
      }
    }

    /** `disableAuthMethods`: returns the entries that failed to be disabled. */
    method DisableAuthMethods(clean: Cleaner, expected: seq<AuthMethod>, has: seq<Entry>, c: Calls)
      returns (failedToDisable: seq<Entry>)
      modifies this
      ensures Outcome(mounts, failedToDisable) == Disable(clean, expected, has, c, old(mounts), |has|)
      ensures forall i | 0 <= i < |has| && FailsToGo(clean, expected, has, c, i) ::
        Entry(has[i].typ, has[i].path, DisableFailed) in failedToDisable
    {
      var authMap := {};
      for k := 0 to |expected|
        invariant authMap == Cleaned(clean, expected[..k])
      {
        authMap := authMap + {clean(expected[k].path)};
        assert expected[..k + 1] == expected[..k] + [expected[k]];
      }
      assert expected[..|expected|] == expected;
      failedToDisable := [];
      for k := 0 to |has|
        invariant Outcome(mounts, failedToDisable) == Disable(clean, expected, has, c, old(mounts), k)
      {
        var p := clean(has[k].path);
        if p !in authMap && has[k].status.EnableSucceeded? {
          var (m, ok) := DisableAuth(mounts, p, c(k));
          mounts := m;
          if !ok {
            failedToDisable := failedToDisable + [Entry(has[k].typ, has[k].path, DisableFailed)];
          }
        }
      }
      FailureIsReported(clean, expected, has, c, old(mounts));
    }

    /** The part of `reconcileAuthMethods` that runs once the policy binding is ready: returns
        the AuthMethodStatus that the VaultServer has afterwards. */
    method ReconcileAuthMethods(clean: Cleaner, spec: seq<AuthMethod>, status: seq<Entry>, o: Oracle)
      returns (status': seq<Entry>)
      modifies this
      ensures var s := Reconcile(clean, State(old(mounts), spec, status, {}), spec, o);
        mounts == s.mounts && status' == s.status
    {
      if !o.list {
        return status;
      }
      var authStatus := EnableAuthMethods(clean, spec, o.enable);
      var authDisableStatus := DisableAuthMethods(clean, spec, status, o.disable);
      authStatus := authStatus + authDisableStatus;
      return if o.write then authStatus else status;
    }
  }

  // ----- one reconcile -----

  /** The oracle of one reconcile: whether ListAuth and the status update succeed, and what
      happens to each enable and disable call. */
  datatype Oracle = Oracle(list: bool, enable: Calls, disable: Calls, write: bool)

  /** The system between reconciles; `owned` are the mounts that the operator added and that
      nobody removed since. */
  datatype State = State(mounts: Mounts, spec: seq<AuthMethod>, status: seq<Entry>, owned: set<string>)

  function AfterEnable(clean: Cleaner, s: State, spec: seq<AuthMethod>, o: Oracle): Outcome {
    Enable(clean, s.mounts, spec, o.enable, |spec|)
  }

  function AfterDisable(clean: Cleaner, s: State, spec: seq<AuthMethod>, o: Oracle): Outcome {
    Disable(clean, spec, s.status, o.disable, AfterEnable(clean, s, spec, o).mounts, |s.status|)
  }

  /** The entries that the reconcile reports. */
  function Reported(clean: Cleaner, s: State, spec: seq<AuthMethod>, o: Oracle): seq<Entry> {
    AfterEnable(clean, s, spec, o).entries + AfterDisable(clean, s, spec, o).entries
  }

  /** One reconcile of the spec `spec`. A failed ListAuth ends it before any effect. */
  function Reconcile(clean: Cleaner, s: State, spec: seq<AuthMethod>, o: Oracle): State {
    if !o.list then s.(spec := spec)
    else
      var enabled, disabled := AfterEnable(clean, s, spec, o).mounts, AfterDisable(clean, s, spec, o).mounts;
      State(disabled, spec,
            if o.write then Reported(clean, s, spec, o) else s.status,
            (s.owned + (enabled.Keys - s.mounts.Keys)) * disabled.Keys)
  }

  // ----- the enabling loop -----

  /** `p` carries the type `typ`. */
  predicate Mounted(m: Mounts, p: string, typ: string) {
    p in m && m[p] == typ
  }

  /** `b` has every mount of `a`, unchanged. */
  predicate Extends(a: Mounts, b: Mounts) {
    forall p | p in a :: Mounted(b, p, a[p])
  }

  lemma {:induction false} EnableExtends(clean: Cleaner, list: Mounts, auths: seq<AuthMethod>, c: Calls, n: nat)
    requires n <= |auths|
    ensures Extends(list, Enable(clean, list, auths, c, n).mounts)
    ensures |Enable(clean, list, auths, c, n).entries| == n
  {
    if n > 0 {
      EnableExtends(clean, list, auths, c, n - 1);
    }
  }

  /** Round `i` reports its own entry; success means mounted with that type, whichever calls
      fail, and for a path that was listed success depends on the listed type alone. */
  lemma {:induction false} EnableEntry(clean: Cleaner, list: Mounts, auths: seq<AuthMethod>, c: Calls, n: nat, i: nat)
    requires i < n <= |auths|
    ensures |Enable(clean, list, auths, c, n).entries| == n
    ensures var out := Enable(clean, list, auths, c, n); var e := out.entries[i]; var p := clean(auths[i].path);
      && e.typ == auths[i].typ && e.path == auths[i].path && !e.status.DisableFailed?
      && (e.status.EnableSucceeded? ==> Mounted(out.mounts, p, e.typ))
      && (p in list ==> (e.status.EnableSucceeded? <==> list[p] == e.typ))
  {
    EnableExtends(clean, list, auths, c, n);
    EnableExtends(clean, list, auths, c, n - 1);
    if i < n - 1 {
      EnableEntry(clean, list, auths, c, n - 1, i);
    }
  }

  /** Round `k` mounts its path: it was free, and the earlier attempts on it failed. */
  predicate MountsAt(clean: Cleaner, list: Mounts, auths: seq<AuthMethod>, c: Calls, k: nat) {
    && k < |auths| && clean(auths[k].path) !in list && !c(k).Failed?
    && forall i: nat | i < k && clean(auths[i].path) == clean(auths[k].path) :: c(i).Failed?
  }

  lemma {:induction false} NotMountedYet(clean: Cleaner, list: Mounts, auths: seq<AuthMethod>, c: Calls, n: nat, p: string)
    requires n <= |auths| && p !in list
    requires forall i: nat | i < n && clean(auths[i].path) == p :: c(i).Failed?
    ensures p !in Enable(clean, list, auths, c, n).mounts && |Enable(clean, list, auths, c, n).entries| == n
    ensures forall i | 0 <= i < n && clean(auths[i].path) == p ::
      !Enable(clean, list, auths, c, n).entries[i].status.EnableSucceeded?
  {
    if n > 0 {
      NotMountedYet(clean, list, auths, c, n - 1, p);
    }
  }

  /** The round that mounts a path decides its type, and is the only one that can report
      success for it: it does if its call was acknowledged. */
  lemma {:induction false} EnableNew(clean: Cleaner, list: Mounts, auths: seq<AuthMethod>, c: Calls, n: nat, k: nat)
    requires k < n <= |auths| && MountsAt(clean, list, auths, c, k)
    ensures var out := Enable(clean, list, auths, c, n); var p := clean(auths[k].path);
      && |out.entries| == n && Mounted(out.mounts, p, auths[k].typ)
      && forall i | 0 <= i < n && clean(auths[i].path) == p ::
           out.entries[i].status.EnableSucceeded? <==> i == k && c(k).Done?
  {
    if k == n - 1 {
      NotMountedYet(clean, list, auths, c, k, clean(auths[k].path));
    } else {
      EnableNew(clean, list, auths, c, n - 1, k);
    }
  }

  /** Every mount that the loop adds was mounted by one of its rounds. */
  lemma {:induction false} EnableAdds(clean: Cleaner, list: Mounts, auths: seq<AuthMethod>, c: Calls, n: nat, p: string)
    returns (k: nat)
    requires n <= |auths| && p in Enable(clean, list, auths, c, n).mounts && p !in list
    ensures k < n && clean(auths[k].path) == p && MountsAt(clean, list, auths, c, k)
  {
    if p in Enable(clean, list, auths, c, n - 1).mounts {
      k := EnableAdds(clean, list, auths, c, n - 1, p);
    } else {
      k := n - 1;
      forall i: nat | i < k && clean(auths[i].path) == p ensures c(i).Failed? {
        if !c(i).Failed? {
          var first := FirstMount(clean, list, auths, c, i);
          EnableNew(clean, list, auths, c, n - 1, first);
        }
      }
    }
  }

  lemma {:induction false} FirstMount(clean: Cleaner, list: Mounts, auths: seq<AuthMethod>, c: Calls, i: nat) returns (k: nat)
    requires i < |auths| && clean(auths[i].path) !in list && !c(i).Failed?
    ensures k <= i && clean(auths[k].path) == clean(auths[i].path) && MountsAt(clean, list, auths, c, k)
  {
    if j: nat :| j < i && clean(auths[j].path) == clean(auths[i].path) && !c(j).Failed? {
      k := FirstMount(clean, list, auths, c, j);
    } else {
      k := i;
    }
  }

  // ----- the disabling loop -----

  /** Only mounts of obsolete entries disappear, and what stays is unchanged. */
  lemma {:induction false} DisableFrame(clean: Cleaner, expected: seq<AuthMethod>, has: seq<Entry>, c: Calls, m: Mounts, n: nat)
    requires n <= |has|
    ensures Extends(Disable(clean, expected, has, c, m, n).mounts, m)
    ensures forall p | p in m && p !in Disable(clean, expected, has, c, m, n).mounts ::
      exists i | 0 <= i < n :: Obsolete(clean, expected, has[i]) && clean(has[i].path) == p
    ensures forall e | e in Disable(clean, expected, has, c, m, n).entries :: e.status.DisableFailed?
  {
    if n > 0 {
      DisableFrame(clean, expected, has, c, m, n - 1);
    }
  }

  /** Some disable call for `p` is carried out. */
  predicate Disables(clean: Cleaner, expected: seq<AuthMethod>, has: seq<Entry>, c: Calls, n: nat, p: string)
    requires n <= |has|
  {
    exists i | 0 <= i < n :: Obsolete(clean, expected, has[i]) && clean(has[i].path) == p && !c(i).Failed?
  }

  /** A mount goes if and only if some disable call for it is carried out. */
  lemma {:induction false} DisableExactly(clean: Cleaner, expected: seq<AuthMethod>, has: seq<Entry>, c: Calls, m: Mounts, n: nat, p: string)
    requires n <= |has| && p in m
    ensures p in Disable(clean, expected, has, c, m, n).mounts <==> !Disables(clean, expected, has, c, n, p)
  {
    if n > 0 {
      DisableExactly(clean, expected, has, c, m, n - 1, p);
      DisableFrame(clean, expected, has, c, m, n - 1);
    }
  }

  /** Recorded entry `i` should go and its disable call does not report success. */
  predicate FailsToGo(clean: Cleaner, expected: seq<AuthMethod>, has: seq<Entry>, c: Calls, i: int) {
    && 0 <= i < |has| && has[i].status == EnableSucceeded && !c(i).Done?
    && forall j | 0 <= j < |expected| :: clean(expected[j].path) != clean(has[i].path)
  }

  /** The reported entries, in order: the failed ones, each with the type and path on record. */
  lemma {:induction false} DisableReports(clean: Cleaner, expected: seq<AuthMethod>, has: seq<Entry>, c: Calls, m: Mounts, n: nat)
    returns (failing: seq<nat>)
    requires n <= |has|
    ensures var entries := Disable(clean, expected, has, c, m, n).entries;
      && |entries| == |failing|
      && (forall j | 0 <= j < |failing| :: failing[j] < n && FailsToGo(clean, expected, has, c, failing[j]))
      && (forall j | 0 <= j < |failing| :: entries[j] == Entry(has[failing[j]].typ, has[failing[j]].path, DisableFailed))
    ensures forall i: nat | i < n && FailsToGo(clean, expected, has, c, i) :: i in failing
    ensures forall j, k | 0 <= j < k < |failing| :: failing[j] < failing[k]
  {
    if n == 0 {
      failing := [];
    } else {
      failing := DisableReports(clean, expected, has, c, m, n - 1);
      UnlistedPath(clean, expected, has[n - 1].path);
      if FailsToGo(clean, expected, has, c, n - 1) {
        failing := failing + [n - 1];
      }
    }
  }

  lemma UnlistedPath(clean: Cleaner, expected: seq<AuthMethod>, path: string)
    ensures clean(path) !in Cleaned(clean, expected) <==> forall j | 0 <= j < |expected| :: clean(expected[j].path) != clean(path)
  {
  }

  /** A recorded entry that fails to go is reported. */
  lemma FailureIsReported(clean: Cleaner, expected: seq<AuthMethod>, has: seq<Entry>, c: Calls, m: Mounts)
    ensures forall i | 0 <= i < |has| && FailsToGo(clean, expected, has, c, i) ::
      Entry(has[i].typ, has[i].path, DisableFailed) in Disable(clean, expected, has, c, m, |has|).entries
  {
    var failing := DisableReports(clean, expected, has, c, m, |has|);
    hide Disable, FailsToGo;
    forall i | 0 <= i < |has| && FailsToGo(clean, expected, has, c, i)
      ensures Entry(has[i].typ, has[i].path, DisableFailed) in Disable(clean, expected, has, c, m, |has|).entries
    {
      assert i in failing;
      var j :| 0 <= j < |failing| && failing[j] == i;
      assert Disable(clean, expected, has, c, m, |has|).entries[j] == Entry(has[i].typ, has[i].path, DisableFailed);
    }
  }

  /** When the enabling loop reports success for its method `i`: if the path was listed, with
      that type, and otherwise if this is the first attempt on it that was carried out, and it
      was acknowledged. */
  lemma EnableReports(clean: Cleaner, list: Mounts, auths: seq<AuthMethod>, c: Calls, i: nat)
    requires i < |auths|
    ensures var entries := Enable(clean, list, auths, c, |auths|).entries; var p := clean(auths[i].path);
      && |entries| == |auths|
      && entries[i] == Entry(auths[i].typ, auths[i].path,
           if (if p in list then list[p] == auths[i].typ
               else c(i).Done? && forall j: nat | j < i && clean(auths[j].path) == p :: c(j).Failed?)
           then EnableSucceeded else EnableFailed)
  {
    EnableEntry(clean, list, auths, c, |auths|, i);
    var p := clean(auths[i].path);
    if p !in list {
      if k: nat :| k < |auths| && clean(auths[k].path) == p && !c(k).Failed? {
        var first := FirstMount(clean, list, auths, c, k);
        EnableNew(clean, list, auths, c, |auths|, first);
        assert i < first ==> c(i).Failed?;
      } else {
        NotMountedYet(clean, list, auths, c, |auths|, p);
      }
    }
  }

  /** The status after a reconcile: unless a call to the API server or the listing failed, an
      entry for each listed method and then one for each that could not be disabled. */
  lemma WrittenStatus(clean: Cleaner, s: State, spec: seq<AuthMethod>, o: Oracle) returns (failing: seq<nat>)
    ensures forall j | 0 <= j < |failing| :: failing[j] < |s.status|
    ensures var status := Reconcile(clean, s, spec, o).status;
      && (!o.list ==> Reconcile(clean, s, spec, o).mounts == s.mounts)
      && (!o.list || !o.write ==> status == s.status)
      && (o.list && o.write ==> |status| == |spec| + |failing|)
      && (o.list && o.write ==> forall i | 0 <= i < |spec| ::
            status[i].typ == spec[i].typ && status[i].path == spec[i].path && !status[i].status.DisableFailed?)
      && (o.list && o.write ==> forall j | 0 <= j < |failing| ::
            status[|spec| + j] == Entry(s.status[failing[j]].typ, s.status[failing[j]].path, DisableFailed))
    ensures forall i: nat | i < |s.status| :: i in failing <==> FailsToGo(clean, spec, s.status, o.disable, i)
    ensures forall j, k | 0 <= j < k < |failing| :: failing[j] < failing[k]
  {
    var mid := AfterEnable(clean, s, spec, o);
    failing := DisableReports(clean, spec, s.status, o.disable, mid.mounts, |s.status|);
    EnableExtends(clean, s.mounts, spec, o.enable, |spec|);
    forall i | 0 <= i < |spec|
      ensures var e := mid.entries[i]; e.typ == spec[i].typ && e.path == spec[i].path && !e.status.DisableFailed?
    {
      EnableEntry(clean, s.mounts, spec, o.enable, |spec|, i);
    }
    hide Enable, Disable, FailsToGo;
  }

  // ----- what every reconcile guarantees -----

  /** The path of a recorded success. */
  predicate Recorded(clean: Cleaner, status: seq<Entry>, p: string) {
    exists i | 0 <= i < |status| :: status[i].status.EnableSucceeded? && clean(status[i].path) == p
  }

  /** Whatever calls fail: an entry reported as enabled is mounted with its type, and a mount
      that is neither listed in the spec nor recorded as enabled is left alone. */
  lemma ReconcileSafety(clean: Cleaner, s: State, spec: seq<AuthMethod>, o: Oracle)
    requires o.list
    ensures var s' := Reconcile(clean, s, spec, o);
      && (forall e | e in Reported(clean, s, spec, o) && e.status.EnableSucceeded? ::
            Mounted(s'.mounts, clean(e.path), e.typ))
      && (forall p | p !in Cleaned(clean, spec) && !Recorded(clean, s.status, p) ::
            (p in s.mounts <==> p in s'.mounts) && (p in s.mounts ==> s.mounts[p] == s'.mounts[p]))
  {
    hide Reconcile;
    var s', enabled := Reconcile(clean, s, spec, o), AfterEnable(clean, s, spec, o).mounts;
    ReconcileMounts(clean, s, spec, o);
    EnableExtends(clean, s.mounts, spec, o.enable, |spec|);
    DisableFrame(clean, spec, s.status, o.disable, enabled, |s.status|);
    forall e | e in Reported(clean, s, spec, o) && e.status.EnableSucceeded?
      ensures Mounted(s'.mounts, clean(e.path), e.typ)
    {
      var i :| 0 <= i < |spec| && AfterEnable(clean, s, spec, o).entries[i] == e;
      EnableEntry(clean, s.mounts, spec, o.enable, |spec|, i);
    }
    forall p | p !in Cleaned(clean, spec) && p in enabled && p !in s.mounts ensures false {
      var i := EnableAdds(clean, s.mounts, spec, o.enable, |spec|, p);
    }
  }

  lemma ReconcileMounts(clean: Cleaner, s: State, spec: seq<AuthMethod>, o: Oracle)
    requires o.list
    ensures Reconcile(clean, s, spec, o).mounts == AfterDisable(clean, s, spec, o).mounts
  {
  }

  // ----- ownership over runs -----

  /** `p` is listed with type `typ`. */
  predicate Lists(clean: Cleaner, auths: seq<AuthMethod>, p: string, typ: string) {
    exists i | 0 <= i < |auths| :: clean(auths[i].path) == p && auths[i].typ == typ
  }

  /** `p` is recorded as enabled with type `typ`. */
  predicate Records(clean: Cleaner, status: seq<Entry>, p: string, typ: string) {
    exists i | 0 <= i < |status| :: status[i] == Entry(typ, status[i].path, EnableSucceeded) && clean(status[i].path) == p
  }

  /** Every mount that the operator added and that still exists is recorded as enabled. */
  predicate Tracked(clean: Cleaner, s: State) {
    forall p | p in s.owned :: p in s.mounts && Records(clean, s.status, p, s.mounts[p])
  }

  /** ... and listed in the spec. */
  predicate Accounted(clean: Cleaner, s: State) {
    Tracked(clean, s) && forall p | p in s.owned :: p in Cleaned(clean, s.spec)
  }

  /** Every mount of the operator that is no longer listed is disabled by some call. */
  predicate DisablesOwned(clean: Cleaner, s: State, spec: seq<AuthMethod>, o: Oracle) {
    forall p | p in s.owned && p !in Cleaned(clean, spec) ::
      Disables(clean, spec, s.status, o.disable, |s.status|, p)
  }

  /** No mount of the operator is relisted with another type. */
  predicate KeepsTypes(clean: Cleaner, s: State, spec: seq<AuthMethod>) {
    forall p | p in s.owned && p in s.mounts && p in Cleaned(clean, spec) :: Lists(clean, spec, p, s.mounts[p])
  }

  /** Every call that mounts something is acknowledged. */
  ghost predicate Acknowledges(clean: Cleaner, s: State, spec: seq<AuthMethod>, o: Oracle) {
    forall k: nat | MountsAt(clean, s.mounts, spec, o.enable, k) :: o.enable(k).Done?
  }

  /** Everything newly mounted happens to be recorded already. */
  ghost predicate RecordedBefore(clean: Cleaner, s: State, spec: seq<AuthMethod>, o: Oracle) {
    forall k: nat | MountsAt(clean, s.mounts, spec, o.enable, k) ::
      Records(clean, s.status, clean(spec[k].path), spec[k].typ)
  }

  /** The reconciles that lose no record: those that never get to Vault; those whose status
      write succeeds, if no mount is retyped, none that must go stays, and none comes
      unacknowledged; those whose status write fails, if they mount nothing unrecorded. */
  ghost predicate KeepsTrack(clean: Cleaner, s: State, spec: seq<AuthMethod>, o: Oracle) {
    if !o.list then true
    else if o.write then
      DisablesOwned(clean, s, spec, o) && KeepsTypes(clean, s, spec) && Acknowledges(clean, s, spec, o)
    else RecordedBefore(clean, s, spec, o)
  }

  /** The reconciles after which nothing unlisted is left. */
  predicate KeepsListed(clean: Cleaner, s: State, spec: seq<AuthMethod>, o: Oracle) {
    if o.list then DisablesOwned(clean, s, spec, o) else forall p | p in s.owned :: p in Cleaned(clean, spec)
  }

  /** What becomes of an owned mount. */
  lemma OwnedMount(clean: Cleaner, s: State, spec: seq<AuthMethod>, o: Oracle, p: string)
    requires o.list && p in s.owned && p in s.mounts
    ensures var s' := Reconcile(clean, s, spec, o);
      && (p in s'.mounts <==> !Disables(clean, spec, s.status, o.disable, |s.status|, p))
      && (p in s'.owned <==> p in s'.mounts) && (p in s'.mounts ==> s'.mounts[p] == s.mounts[p])
      && (Disables(clean, spec, s.status, o.disable, |s.status|, p) ==> p !in Cleaned(clean, spec))
  {
    var out := AfterEnable(clean, s, spec, o);
    EnableExtends(clean, s.mounts, spec, o.enable, |spec|);
    DisableExactly(clean, spec, s.status, o.disable, out.mounts, |s.status|, p);
    DisableFrame(clean, spec, s.status, o.disable, out.mounts, |s.status|);
  }

  /** What is newly owned. */
  lemma NewMount(clean: Cleaner, s: State, spec: seq<AuthMethod>, o: Oracle, k: nat)
    requires o.list && MountsAt(clean, s.mounts, spec, o.enable, k)
    ensures var s' := Reconcile(clean, s, spec, o); var p := clean(spec[k].path);
      p in s'.owned && Mounted(s'.mounts, p, spec[k].typ)
  {
    var out, p := AfterEnable(clean, s, spec, o), clean(spec[k].path);
    EnableNew(clean, s.mounts, spec, o.enable, |spec|, k);
    DisableExactly(clean, spec, s.status, o.disable, out.mounts, |s.status|, p);
    DisableFrame(clean, spec, s.status, o.disable, out.mounts, |s.status|);
  }

  lemma OwnedAfter(clean: Cleaner, s: State, spec: seq<AuthMethod>, o: Oracle, p: string) returns (k: nat)
    requires o.list && p in Reconcile(clean, s, spec, o).owned && (p in s.owned ==> p in s.mounts)
    ensures p in Reconcile(clean, s, spec, o).mounts
    ensures p !in s.owned ==> MountsAt(clean, s.mounts, spec, o.enable, k) && clean(spec[k].path) == p
  {
    k := 0;
    if p !in s.owned {
      k := EnableAdds(clean, s.mounts, spec, o.enable, |spec|, p);
    }
  }

  /** What a written status records of a path. */
  lemma WrittenRecords(clean: Cleaner, s: State, spec: seq<AuthMethod>, o: Oracle, p: string, typ: string)
    requires o.list && o.write
    ensures |AfterEnable(clean, s, spec, o).entries| == |spec|
    ensures Records(clean, Reconcile(clean, s, spec, o).status, p, typ) <==>
      exists i | 0 <= i < |spec| :: AfterEnable(clean, s, spec, o).entries[i].status.EnableSucceeded? &&
        clean(spec[i].path) == p && spec[i].typ == typ
  {
    var s', out := Reconcile(clean, s, spec, o), AfterEnable(clean, s, spec, o);
    EnableExtends(clean, s.mounts, spec, o.enable, |spec|);
    DisableFrame(clean, spec, s.status, o.disable, out.mounts, |s.status|);
    forall i | 0 <= i < |spec| ensures out.entries[i].typ == spec[i].typ && out.entries[i].path == spec[i].path {
      EnableEntry(clean, s.mounts, spec, o.enable, |spec|, i);
    }
    hide Reconcile, Enable, Disable;
    StatusParts(clean, s, spec, o);
    if i :| 0 <= i < |spec| && out.entries[i].status.EnableSucceeded? && clean(spec[i].path) == p && spec[i].typ == typ {
      assert s'.status[i] == out.entries[i];
    }
  }

  lemma StatusParts(clean: Cleaner, s: State, spec: seq<AuthMethod>, o: Oracle)
    requires o.list && o.write
    ensures Reconcile(clean, s, spec, o).status ==
            AfterEnable(clean, s, spec, o).entries + AfterDisable(clean, s, spec, o).entries
  {
  }

  /** For an owned mount that is still listed, the record survives if its type is listed. */
  lemma ListedRecord(clean: Cleaner, s: State, spec: seq<AuthMethod>, o: Oracle, p: string)
    requires o.list && o.write && p in s.mounts
    ensures Records(clean, Reconcile(clean, s, spec, o).status, p, s.mounts[p]) <==> Lists(clean, spec, p, s.mounts[p])
  {
    WrittenRecords(clean, s, spec, o, p, s.mounts[p]);
    hide Reconcile;
    forall i | 0 <= i < |spec| && clean(spec[i].path) == p
      ensures AfterEnable(clean, s, spec, o).entries[i].status.EnableSucceeded? <==> s.mounts[p] == spec[i].typ
    {
      EnableEntry(clean, s.mounts, spec, o.enable, |spec|, i);
    }
  }

  /** For a new mount, the record is there if the call was acknowledged. */
  lemma NewRecord(clean: Cleaner, s: State, spec: seq<AuthMethod>, o: Oracle, k: nat)
    requires o.list && o.write && MountsAt(clean, s.mounts, spec, o.enable, k)
    ensures Records(clean, Reconcile(clean, s, spec, o).status, clean(spec[k].path), spec[k].typ) <==> o.enable(k).Done?
  {
    WrittenRecords(clean, s, spec, o, clean(spec[k].path), spec[k].typ);
    EnableNew(clean, s.mounts, spec, o.enable, |spec|, k);
    hide Reconcile;
  }

  lemma UnlistedHasNoRecord(clean: Cleaner, spec: seq<AuthMethod>, p: string, typ: string)
    ensures p !in Cleaned(clean, spec) ==> !Lists(clean, spec, p, typ)
  {
  }

  /** A reconcile, whatever calls fail or lose their answers, leaves every mount of the operator
      recorded if and only if it keeps track. */
  lemma TrackedExactly(clean: Cleaner, s: State, spec: seq<AuthMethod>, o: Oracle)
    requires Tracked(clean, s)
    ensures Tracked(clean, Reconcile(clean, s, spec, o)) <==> KeepsTrack(clean, s, spec, o)
  {
    if !o.list {
      NoListNoChange(clean, s, spec, o);
    } else if o.write {
      if KeepsTrack(clean, s, spec, o) {
        KeptTrackWritten(clean, s, spec, o);
      } else {
        LostTrackWritten(clean, s, spec, o);
      }
    } else {
      TrackedUnwritten(clean, s, spec, o);
    }
  }

  lemma NoListNoChange(clean: Cleaner, s: State, spec: seq<AuthMethod>, o: Oracle)
    requires !o.list
    ensures Reconcile(clean, s, spec, o) == s.(spec := spec)
  {
  }

  lemma KeptTrackWritten(clean: Cleaner, s: State, spec: seq<AuthMethod>, o: Oracle)
    requires Tracked(clean, s) && o.list && o.write && KeepsTrack(clean, s, spec, o)
    ensures Tracked(clean, Reconcile(clean, s, spec, o))
  {
    hide Reconcile, Records, Lists, MountsAt, Disables;
    var s' := Reconcile(clean, s, spec, o);
    forall p | p in s'.owned ensures p in s'.mounts && Records(clean, s'.status, p, s'.mounts[p]) {
      var k := OwnedAfter(clean, s, spec, o, p);
      if p in s.owned {
        OwnedMount(clean, s, spec, o, p);
        ListedRecord(clean, s, spec, o, p);
      } else {
        NewMount(clean, s, spec, o, k);
        NewRecord(clean, s, spec, o, k);
      }
    }
  }

  lemma LostTrackWritten(clean: Cleaner, s: State, spec: seq<AuthMethod>, o: Oracle)
    requires Tracked(clean, s) && o.list && o.write && !KeepsTrack(clean, s, spec, o)
    ensures !Tracked(clean, Reconcile(clean, s, spec, o))
  {
    hide Reconcile, Records, Lists, MountsAt, Disables, Cleaned;
    var s' := Reconcile(clean, s, spec, o);
    if !Acknowledges(clean, s, spec, o) {
      var k: nat :| MountsAt(clean, s.mounts, spec, o.enable, k) && !o.enable(k).Done?;
      NewMount(clean, s, spec, o, k);
      NewRecord(clean, s, spec, o, k);
    } else {
      var p :| p in s.owned && if p in Cleaned(clean, spec)
        then !Lists(clean, spec, p, s.mounts[p])
        else !Disables(clean, spec, s.status, o.disable, |s.status|, p);
      OwnedMount(clean, s, spec, o, p);
      ListedRecord(clean, s, spec, o, p);
      UnlistedHasNoRecord(clean, spec, p, s.mounts[p]);
    }
  }

  lemma TrackedUnwritten(clean: Cleaner, s: State, spec: seq<AuthMethod>, o: Oracle)
    requires Tracked(clean, s) && o.list && !o.write
    ensures Tracked(clean, Reconcile(clean, s, spec, o)) <==> RecordedBefore(clean, s, spec, o)
  {
    var s' := Reconcile(clean, s, spec, o);
    assert s'.status == s.status;
    hide Reconcile, Records, Lists, MountsAt, Disables;
    if RecordedBefore(clean, s, spec, o) {
      forall p | p in s'.owned ensures p in s'.mounts && Records(clean, s'.status, p, s'.mounts[p]) {
        var k := OwnedAfter(clean, s, spec, o, p);
        if p in s.owned {
          OwnedMount(clean, s, spec, o, p);
        } else {
          NewMount(clean, s, spec, o, k);
        }
      }
    } else {
      var k: nat :| MountsAt(clean, s.mounts, spec, o.enable, k) &&
                    !Records(clean, s.status, clean(spec[k].path), spec[k].typ);
      NewMount(clean, s, spec, o, k);
    }
  }

  /** It leaves every such mount also listed if and only if what is no longer listed goes. */
  lemma AccountedExactly(clean: Cleaner, s: State, spec: seq<AuthMethod>, o: Oracle)
    requires Accounted(clean, s)
    ensures Accounted(clean, Reconcile(clean, s, spec, o)) <==>
            KeepsTrack(clean, s, spec, o) && KeepsListed(clean, s, spec, o)
  {
    TrackedExactly(clean, s, spec, o);
    hide KeepsTrack, Tracked, Records, MountsAt, Disables, Reconcile;
    TrackedIsMounted(clean, s);
    var s' := Reconcile(clean, s, spec, o);
    ReconcileSpec(clean, s, spec, o);
    if !o.list {
      NoListNoChange(clean, s, spec, o);
    } else {
      forall p | p in s'.owned && DisablesOwned(clean, s, spec, o) ensures p in Cleaned(clean, spec) {
        var k := OwnedAfter(clean, s, spec, o, p);
        if p in s.owned {
          OwnedMount(clean, s, spec, o, p);
        } else {
          MountsListed(clean, s.mounts, spec, o.enable, k);
        }
      }
      if !DisablesOwned(clean, s, spec, o) {
        var p :| p in s.owned && p !in Cleaned(clean, spec) && !Disables(clean, spec, s.status, o.disable, |s.status|, p);
        OwnedMount(clean, s, spec, o, p);
      }
    }
  }

  lemma TrackedIsMounted(clean: Cleaner, s: State)
    requires Tracked(clean, s)
    ensures forall p | p in s.owned :: p in s.mounts
  {
  }

  lemma ReconcileSpec(clean: Cleaner, s: State, spec: seq<AuthMethod>, o: Oracle)
    ensures Reconcile(clean, s, spec, o).spec == spec
  {
  }

  lemma MountsListed(clean: Cleaner, list: Mounts, auths: seq<AuthMethod>, c: Calls, k: nat)
    requires MountsAt(clean, list, auths, c, k)
    ensures clean(auths[k].path) in Cleaned(clean, auths)
  {
  }

  /** A mount of the operator relisted with another type stays, but its record is gone. */
  lemma RetypedLosesItsRecord(clean: Cleaner, s: State, spec: seq<AuthMethod>, o: Oracle, p: string)
    requires Tracked(clean, s) && o.list && o.write
    requires p in s.owned && p in Cleaned(clean, spec) && !Lists(clean, spec, p, s.mounts[p])
    ensures p in Reconcile(clean, s, spec, o).owned
    ensures !Recorded(clean, Reconcile(clean, s, spec, o).status, p)
  {
    var s', out := Reconcile(clean, s, spec, o), AfterEnable(clean, s, spec, o);
    OwnedMount(clean, s, spec, o, p);
    EnableExtends(clean, s.mounts, spec, o.enable, |spec|);
    DisableFrame(clean, spec, s.status, o.disable, out.mounts, |s.status|);
    forall i | 0 <= i < |s'.status| && s'.status[i].status.EnableSucceeded?
      ensures clean(s'.status[i].path) != p
    {
      if i < |spec| {
        EnableEntry(clean, s.mounts, spec, o.enable, |spec|, i);
      }
    }
  }

  /** Reconciles interleaved with arbitrary changes that others make to the mounts. */
  datatype Event = Run(spec: seq<AuthMethod>, o: Oracle) | Outside(mounts: Mounts)

  function Step(clean: Cleaner, s: State, e: Event): State {
    match e
    case Run(spec, o) => Reconcile(clean, s, spec, o)
    case Outside(m) =>
      s.(mounts := m, owned := set p | p in s.owned && p in s.mounts && Mounted(m, p, s.mounts[p]))
  }

  function After(clean: Cleaner, s: State, es: seq<Event>): State
    decreases |es|
  {
    if es == [] then s else After(clean, Step(clean, s, es[0]), es[1..])
  }

  ghost predicate AllKeepTrack(clean: Cleaner, s: State, es: seq<Event>)
    decreases |es|
  {
    es == [] ||
    ((es[0].Run? ==> KeepsTrack(clean, s, es[0].spec, es[0].o)) && AllKeepTrack(clean, Step(clean, s, es[0]), es[1..]))
  }

  ghost predicate AllKeepListed(clean: Cleaner, s: State, es: seq<Event>)
    decreases |es|
  {
    es == [] ||
    ((es[0].Run? ==> KeepsListed(clean, s, es[0].spec, es[0].o)) && AllKeepListed(clean, Step(clean, s, es[0]), es[1..]))
  }

  predicate AlwaysTracked(clean: Cleaner, s: State, es: seq<Event>)
    decreases |es|
  {
    Tracked(clean, s) && (es == [] || AlwaysTracked(clean, Step(clean, s, es[0]), es[1..]))
  }

  predicate AlwaysAccounted(clean: Cleaner, s: State, es: seq<Event>)
    decreases |es|
  {
    Accounted(clean, s) && (es == [] || AlwaysAccounted(clean, Step(clean, s, es[0]), es[1..]))
  }

  /** Over every run, in any environment and with any failures: the mounts of the operator are
      recorded throughout if and only if every reconcile keeps track. */
  lemma {:induction false} TrackedOverRuns(clean: Cleaner, s: State, es: seq<Event>)
    requires Tracked(clean, s)
    ensures AlwaysTracked(clean, s, es) <==> AllKeepTrack(clean, s, es)
    decreases |es|
  {
    if es != [] {
      var s' := Step(clean, s, es[0]);
      match es[0] {
        case Run(spec, o) => TrackedExactly(clean, s, spec, o);
        case Outside(m) => OutsideKeepsAccounted(clean, s, m);
      }
      hide Step, Tracked, KeepsTrack;
      StepOf(clean, s, es[0]);
      if Tracked(clean, s') {
        TrackedOverRuns(clean, s', es[1..]);
      }
    }
  }

  /** They are also listed throughout if and only if, in addition, every reconcile removes what
      is no longer listed. */
  lemma {:induction false} OwnershipOverRuns(clean: Cleaner, s: State, es: seq<Event>)
    requires Accounted(clean, s)
    ensures AlwaysAccounted(clean, s, es) <==> AllKeepTrack(clean, s, es) && AllKeepListed(clean, s, es)
    decreases |es|
  {
    if es != [] {
      var s' := Step(clean, s, es[0]);
      match es[0] {
        case Run(spec, o) => AccountedExactly(clean, s, spec, o);
        case Outside(m) => OutsideKeepsAccounted(clean, s, m);
      }
      hide Step, Accounted, KeepsTrack, KeepsListed;
      StepOf(clean, s, es[0]);
      if Accounted(clean, s') {
        OwnershipOverRuns(clean, s', es[1..]);
      }
    }
  }

  lemma StepOf(clean: Cleaner, s: State, e: Event)
    ensures e.Run? ==> Step(clean, s, e) == Reconcile(clean, s, e.spec, e.o)
  {
  }

  lemma OutsideKeepsAccounted(clean: Cleaner, s: State, m: Mounts)
    requires Tracked(clean, s)
    ensures Tracked(clean, Step(clean, s, Outside(m)))
    ensures Accounted(clean, s) ==> Accounted(clean, Step(clean, s, Outside(m)))
  {
  }

  /** An unrecorded mount is a leak: no later run, successful or not, removes it while no
      spec lists its path. */
  lemma {:induction false} LeakIsPermanent(clean: Cleaner, s: State, es: seq<Event>, p: string)
    requires p in s.owned && p in s.mounts && !Recorded(clean, s.status, p)
    requires forall i | 0 <= i < |es| :: es[i].Run? && p !in Cleaned(clean, es[i].spec)
    ensures var s' := After(clean, s, es); p in s'.owned && p in s'.mounts && !Recorded(clean, s'.status, p)
    decreases |es|
  {
    if es != [] {
      assert es[0].Run? && p !in Cleaned(clean, es[0].spec);
      UnrecordedStays(clean, s, es[0].spec, es[0].o, p);
      hide Step, Recorded, Cleaned;
      StepOf(clean, s, es[0]);
      LeakIsPermanent(clean, Step(clean, s, es[0]), es[1..], p);
    }
  }

  lemma UnrecordedStays(clean: Cleaner, s: State, spec: seq<AuthMethod>, o: Oracle, p: string)
    requires p in s.owned && p in s.mounts && !Recorded(clean, s.status, p) && p !in Cleaned(clean, spec)
    ensures var s' := Reconcile(clean, s, spec, o);
      p in s'.owned && p in s'.mounts && !Recorded(clean, s'.status, p)
  {
    if o.list {
      var out := AfterEnable(clean, s, spec, o);
      EnableExtends(clean, s.mounts, spec, o.enable, |spec|);
      DisableFrame(clean, spec, s.status, o.disable, out.mounts, |s.status|);
      var s' := Reconcile(clean, s, spec, o);
      forall i | 0 <= i < |s'.status| && s'.status[i].status.EnableSucceeded?
        ensures clean(s'.status[i].path) != p
      {
        if o.write && i < |spec| {
          EnableEntry(clean, s.mounts, spec, o.enable, |spec|, i);
        }
      }
    }
  }

  lemma FirstEnable(clean: Cleaner, ok: Oracle)
    requires clean("a") == "a" && ok.list && ok.write && ok.enable(0).Done?
    ensures var spec := [AuthMethod("approle", "a")]; var s := Reconcile(clean, State(map[], [], [], {}), spec, ok);
      Accounted(clean, s) &&
      s == State(map["a" := "approle"], spec, [Entry("approle", "a", EnableSucceeded)], {"a"})
  {
    var s0, spec := State(map[], [], [], {}), [AuthMethod("approle", "a")];
    var s1 := Reconcile(clean, s0, spec, ok);
    assert Enable(clean, s0.mounts, spec, ok.enable, 0) == Outcome(map[], []);
    assert Enable(clean, s0.mounts, spec, ok.enable, 1) ==
           Outcome(map["a" := "approle"], [Entry("approle", "a", EnableSucceeded)]);
    assert s1 == State(map["a" := "approle"], spec, [Entry("approle", "a", EnableSucceeded)], {"a"});
    assert Accounted(clean, s1) by {
      assert clean(spec[0].path) == "a";
      assert s1.status[0] == Entry("approle", s1.status[0].path, EnableSucceeded);
    }
  }

  /** The leak happens: list approle at "a", relist it as userpass, and drop it. All calls
      succeed, and the mount stays with neither a record nor a listing. */
  lemma RetypeLeaks()
    ensures var clean := (p: string) => p;
      var ok := Oracle(true, (k: nat) => Done, (k: nat) => Done, true);
      var s := After(clean, State(map[], [], [], {}),
        [Run([AuthMethod("approle", "a")], ok), Run([AuthMethod("userpass", "a")], ok), Run([], ok)]);
      "a" in s.mounts && "a" in s.owned && s.spec == [] && !Recorded(clean, s.status, "a")
  {
    var clean := (p: string) => p;
    var ok := Oracle(true, (k: nat) => Done, (k: nat) => Done, true);
    var s0 := State(map[], [], [], {});
    var e1, e2, e3 := Run([AuthMethod("approle", "a")], ok), Run([AuthMethod("userpass", "a")], ok), Run([], ok);
    var s1 := Reconcile(clean, s0, e1.spec, ok);
    FirstEnable(clean, ok);
    assert clean(e2.spec[0].path) == "a";
    RetypedLosesItsRecord(clean, s1, e2.spec, ok, "a");
    ReconcileSafety(clean, s1, e2.spec, ok);
    var s2 := Reconcile(clean, s1, e2.spec, ok);
    LeakIsPermanent(clean, s2, [e3], "a");
    hide Reconcile;
    assert [e1, e2, e3][1..] == [e2, e3] && [e2, e3][1..] == [e3];
    assert After(clean, s0, [e1, e2, e3]) == After(clean, s2, [e3]);
  }

  /** The other leak, with all types kept: list approle at "a", drop it while DisableAuth fails
      once. The entry becomes DisableFailed, which is never retried; later reconciles in which
      all calls succeed leave the mount. */
  lemma FailedDisableLeaks()
    ensures var clean := (p: string) => p;
      var ok := Oracle(true, (k: nat) => Done, (k: nat) => Done, true);
      var s1 := After(clean, State(map[], [], [], {}), [Run([AuthMethod("approle", "a")], ok)]);
      var s := After(clean, s1, [Run([], ok.(disable := (k: nat) => Failed)), Run([], ok)]);
      KeepsTypes(clean, s1, []) && "a" in s.mounts && "a" in s.owned && !Recorded(clean, s.status, "a")
  {
    var clean := (p: string) => p;
    var ok := Oracle(true, (k: nat) => Done, (k: nat) => Done, true);
    var bad := ok.(disable := (k: nat) => Failed);
    var s0, spec := State(map[], [], [], {}), [AuthMethod("approle", "a")];
    FirstEnable(clean, ok);
    var s1 := Reconcile(clean, s0, spec, ok);
    assert After(clean, s0, [Run(spec, ok)]) == s1 by {
      assert [Run(spec, ok)][1..] == [];
    }
    OwnedMount(clean, s1, [], bad, "a");
    ListedRecord(clean, s1, [], bad, "a");
    var s2 := Reconcile(clean, s1, [], bad);
    NothingRecorded(clean, s1, bad, "a");
    LeakIsPermanent(clean, s2, [Run([], ok)], "a");
    hide Reconcile;
    assert [Run([], bad), Run([], ok)][1..] == [Run([], ok)];
  }

  lemma NothingRecorded(clean: Cleaner, s: State, o: Oracle, p: string)
    requires o.list && o.write
    ensures !Recorded(clean, Reconcile(clean, s, [], o).status, p)
  {
    DisableFrame(clean, [], s.status, o.disable, AfterEnable(clean, s, [], o).mounts, |s.status|);
  }
}
