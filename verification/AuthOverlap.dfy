/** Auth reconciles of one VaultServer that overlap: the context of a goroutine is watched only
    while it waits, so a cancelled one that is past its waits goes on beside its successor.
    Every call is a step of its own. */
module AuthOverlap {
  import opened Results
  import opened Ledgers
  import opened AuthMethods

  datatype Stage = Listing | Enabling(k: nat) | Disabling(k: nat) | Writing

  /** A goroutine past its waits: the spec and the recorded status that it read, what ListAuth
      returned, and the entries that it will write. */
  datatype Worker = Worker(spec: seq<AuthMethod>, status: seq<Entry>, list: Mounts, entries: seq<Entry>, stage: Stage)

  /** `owned` are the mounts that the operator added and that nobody removed since. */
  datatype Shared = Shared(mounts: Mounts, status: seq<Entry>, owned: set<string>, workers: map<nat, Worker>)

  datatype Action =
    | Start(w: nat, spec: seq<AuthMethod>)
    | Step(w: nat, c: CallResult)
    | Others(mounts: Mounts)        // somebody else changes the mounts

  /** Vault after a call of the operator. */
  function Remount(s: Shared, mounts: Mounts): Shared {
    s.(mounts := mounts, owned := (s.owned + (mounts.Keys - s.mounts.Keys)) * mounts.Keys)
  }

  /** One step of worker `w`. */
  function Work(clean: Cleaner, s: Shared, w: nat, x: Worker, c: CallResult): Shared {
    match x.stage
    case Listing =>
      if !c.Done? then s.(workers := s.workers - {w})
      else s.(workers := s.workers[w := x.(list := s.mounts, stage := Enabling(0))])
    case Enabling(k) =>
      if k >= |x.spec| then s.(workers := s.workers[w := x.(stage := Disabling(0))])
      else
        var out := EnableRound(clean, x.list, Outcome(s.mounts, x.entries), x.spec[k], c);
        Remount(s, out.mounts).(workers := s.workers[w := x.(entries := out.entries, stage := Enabling(k + 1))])
    case Disabling(k) =>
      if k >= |x.status| then s.(workers := s.workers[w := x.(stage := Writing)])
      else
        var out := DisableRound(clean, x.spec, Outcome(s.mounts, x.entries), x.status[k], c);
        Remount(s, out.mounts).(workers := s.workers[w := x.(entries := out.entries, stage := Disabling(k + 1))])
    case Writing => s.(status := if c.Failed? then s.status else x.entries, workers := s.workers - {w})
  }

  function Next(clean: Cleaner, s: Shared, a: Action): Shared {
    match a
    case Start(w, spec) =>
      if w in s.workers then s else s.(workers := s.workers[w := Worker(spec, s.status, map[], [], Listing)])
    case Step(w, c) => if w in s.workers then Work(clean, s, w, s.workers[w], c) else s
    case Others(m) =>
      s.(mounts := m, owned := set p | p in s.owned && p in s.mounts && Mounted(m, p, s.mounts[p]))
  }

  const INITIAL: Shared := Shared(map[], [], {}, map[])

  function Run(clean: Cleaner, s: Shared, acts: seq<Action>): Shared {
    if acts == [] then s else Next(clean, Run(clean, s, acts[..|acts| - 1]), acts[|acts| - 1])
  }

  lemma RunOneMore(clean: Cleaner, s: Shared, acts: seq<Action>, a: Action)
    ensures Run(clean, s, acts + [a]) == Next(clean, Run(clean, s, acts), a)
  {
    hide Next;
    assert (acts + [a])[..|acts|] == acts;
  }

  lemma RunNext(clean: Cleaner, s: Shared, acts: seq<Action>, n: nat)
    requires n < |acts|
    ensures Run(clean, s, acts[..n + 1]) == Next(clean, Run(clean, s, acts[..n]), acts[n])
  {
    hide Next;
    assert acts[..n + 1] == acts[..n] + [acts[n]];
    RunOneMore(clean, s, acts[..n], acts[n]);
  }

  // ----- which step loses which record -----

  /** Some worker other than `w` is going to record the mount. */
  predicate HeldByOther(clean: Cleaner, s: Shared, w: nat, p: string, typ: string) {
    exists v <- s.workers :: v != w && Records(clean, s.workers[v].entries, p, typ)
  }

  /** Some worker is going to record the mount. */
  predicate HeldBySome(clean: Cleaner, s: Shared, p: string, typ: string) {
    exists v <- s.workers :: Records(clean, s.workers[v].entries, p, typ)
  }

  /** The mount is recorded, or some worker is going to record it. */
  predicate Known(clean: Cleaner, s: Shared, p: string, typ: string) {
    Records(clean, s.status, p, typ) || HeldBySome(clean, s, p, typ)
  }

  /** Mounts of the operator that nobody has a record of. */
  function Untracked(clean: Cleaner, s: Shared): set<string> {
    set p | p in s.owned && p in s.mounts && !Known(clean, s, p, s.mounts[p])
  }

  /** What the step with which `x` leaves loses: a write loses what the status had and neither
      the writer nor another worker has; a failed write, what only the writer had. */
  function LostByWrite(clean: Cleaner, s: Shared, w: nat, x: Worker, c: CallResult): set<string> {
    set p | p in s.owned && p in s.mounts && !HeldByOther(clean, s, w, p, s.mounts[p]) &&
      if c.Failed?
      then Records(clean, x.entries, p, s.mounts[p]) && !Records(clean, s.status, p, s.mounts[p])
      else Records(clean, s.status, p, s.mounts[p]) && !Records(clean, x.entries, p, s.mounts[p])
  }

  /** What a step loses: besides writes, a mount whose acknowledgement is lost, unless somebody
      has an old record of it. */
  function Lost(clean: Cleaner, s: Shared, a: Action): set<string> {
    if !a.Step? || a.w !in s.workers then {}
    else
      var x := s.workers[a.w];
      match x.stage
      case Listing => {}
      case Enabling(k) =>
        if k < |x.spec| && a.c.Lost? && clean(x.spec[k].path) !in x.list && clean(x.spec[k].path) !in s.mounts &&
           !Known(clean, s, clean(x.spec[k].path), x.spec[k].typ)
        then {clean(x.spec[k].path)} else {}
      case Disabling(_) => {}
      case Writing => LostByWrite(clean, s, a.w, x, a.c)
  }

  /** What a step finds again or removes: a listed mount of the right type, a mount that is
      disabled, and what others change. */
  function Settled(clean: Cleaner, s: Shared, a: Action): set<string> {
    match a
    case Start(_, _) => {}
    case Others(_) => s.owned - Next(clean, s, a).owned
    case Step(w, c) =>
      if w !in s.workers then {}
      else
        var x := s.workers[w];
        match x.stage
        case Enabling(k) =>
          if k < |x.spec| then
            var p := clean(x.spec[k].path);
            if Mounted(x.list, p, x.spec[k].typ) && Mounted(s.mounts, p, x.spec[k].typ) then {p} else {}
          else {}
        case Disabling(k) =>
          if k < |x.status| && Obsolete(clean, x.spec, x.status[k]) && !c.Failed? then {clean(x.status[k].path)} else {}
        case _ => {}
  }

  predicate Inv(s: Shared) {
    && (forall p <- s.owned :: p in s.mounts)
    && (forall w <- s.workers :: s.workers[w].stage.Listing? ==> s.workers[w].entries == [])
  }

  lemma InvNext(clean: Cleaner, s: Shared, a: Action)
    requires Inv(s)
    ensures Inv(Next(clean, s, a))
  {
    hide EnableRound, DisableRound;
  }

  lemma RecordsMore(clean: Cleaner, es: seq<Entry>, e: Entry, p: string, typ: string)
    ensures Records(clean, es + [e], p, typ) <==>
            Records(clean, es, p, typ) || (e.status.EnableSucceeded? && clean(e.path) == p && e.typ == typ)
  {
    var all := es + [e];
    assert all[|es|] == e;
    if i :| 0 <= i < |es| && es[i] == Entry(typ, es[i].path, EnableSucceeded) && clean(es[i].path) == p {
      assert all[i] == es[i];
    }
  }

  /** What a round adds to the entries. */
  lemma EnableRoundRecords(clean: Cleaner, list: Mounts, before: Outcome, au: AuthMethod, c: CallResult, p: string, typ: string)
    ensures var out := EnableRound(clean, list, before, au, c); var q := clean(au.path);
      && (Records(clean, out.entries, p, typ) <==>
            || Records(clean, before.entries, p, typ)
            || (p == q && typ == au.typ && if q in list then list[q] == typ else q !in before.mounts && c.Done?))
      && out.mounts == if q !in list && q !in before.mounts && !c.Failed? then before.mounts[q := au.typ] else before.mounts
  {
    var out := EnableRound(clean, list, before, au, c);
    var e := out.entries[|before.entries|];
    assert out.entries == before.entries + [e];
    RecordsMore(clean, before.entries, e, p, typ);
    hide Records;
  }

  lemma DisableRoundRecords(clean: Cleaner, expected: seq<AuthMethod>, before: Outcome, e: Entry, c: CallResult, p: string, typ: string)
    ensures var out := DisableRound(clean, expected, before, e, c);
      && (Records(clean, out.entries, p, typ) <==> Records(clean, before.entries, p, typ))
      && out.mounts == if Obsolete(clean, expected, e) && !c.Failed? then before.mounts - {clean(e.path)} else before.mounts
  {
    RecordsMore(clean, before.entries, Entry(e.typ, e.path, DisableFailed), p, typ);
    assert before.entries + [] == before.entries;
    hide Records;
  }

  /** Another worker's records are not touched by a step of `w`. */
  lemma OthersKeepEntries(clean: Cleaner, s: Shared, t: Shared, w: nat, p: string, typ: string)
    requires w in s.workers && (forall v | v != w :: v in t.workers <==> v in s.workers)
    requires forall v <- t.workers :: v != w ==> t.workers[v] == s.workers[v]
    ensures HeldBySome(clean, s, p, typ) <==>
            HeldByOther(clean, s, w, p, typ) || Records(clean, s.workers[w].entries, p, typ)
    ensures HeldBySome(clean, t, p, typ) <==>
            HeldByOther(clean, s, w, p, typ) || (w in t.workers && Records(clean, t.workers[w].entries, p, typ))
  {
    hide Records;
    if v :| v in s.workers && v != w && Records(clean, s.workers[v].entries, p, typ) {
      assert t.workers[v] == s.workers[v];
    }
  }

  lemma NothingRecorded(clean: Cleaner, p: string, typ: string)
    ensures !Records(clean, [], p, typ)
  {
  }

  /** Membership in the balance, one mount at a time. */
  lemma BalanceAt(clean: Cleaner, s: Shared, a: Action, p: string)
    requires Inv(s)
    ensures p in Untracked(clean, Next(clean, s, a)) <==>
            (p in Untracked(clean, s) || p in Lost(clean, s, a)) && p !in Settled(clean, s, a)
    ensures !(p in Lost(clean, s, a) && p in Settled(clean, s, a))
  {
    match a
    case Start(w, spec) => StartBalance(clean, s, w, spec, p);
    case Others(m) =>
      hide Records, HeldBySome;
      OthersBalance(clean, s, m, p);
    case Step(w, c) =>
      if w in s.workers {
        match s.workers[w].stage
        case Listing => ListBalance(clean, s, w, c, p);
        case Enabling(k) => EnableBalance(clean, s, w, c, p);
        case Disabling(k) => DisableBalance(clean, s, w, c, p);
        case Writing => WriteBalance(clean, s, w, c, p);
      }
  }

  lemma OthersBalance(clean: Cleaner, s: Shared, m: Mounts, p: string)
    requires Inv(s)
    ensures forall q, typ :: Known(clean, Next(clean, s, Others(m)), q, typ) == Known(clean, s, q, typ)
  {
    hide Records;
  }

  lemma StartBalance(clean: Cleaner, s: Shared, w: nat, spec: seq<AuthMethod>, p: string)
    requires Inv(s)
    ensures p in Untracked(clean, Next(clean, s, Start(w, spec))) <==> p in Untracked(clean, s)
  {
    if w !in s.workers && p in s.owned {
      var t := Next(clean, s, Start(w, spec));
      NothingRecorded(clean, p, s.mounts[p]);
      hide Records;
      assert t.workers[w].entries == [];
      if v :| v in s.workers && Records(clean, s.workers[v].entries, p, s.mounts[p]) {
        assert t.workers[v] == s.workers[v];
      }
    }
  }

  lemma ListBalance(clean: Cleaner, s: Shared, w: nat, c: CallResult, p: string)
    requires Inv(s) && w in s.workers && s.workers[w].stage.Listing?
    ensures p in Untracked(clean, Next(clean, s, Step(w, c))) <==> p in Untracked(clean, s)
  {
    if p in s.owned {
      NothingRecorded(clean, p, s.mounts[p]);
      OthersKeepEntries(clean, s, Next(clean, s, Step(w, c)), w, p, s.mounts[p]);
      hide Records, HeldByOther, HeldBySome;
    }
  }

  lemma EnableBalance(clean: Cleaner, s: Shared, w: nat, c: CallResult, p: string)
    requires Inv(s) && w in s.workers && s.workers[w].stage.Enabling?
    ensures var a := Step(w, c);
      p in Untracked(clean, Next(clean, s, a)) <==>
      (p in Untracked(clean, s) || p in Lost(clean, s, a)) && p !in Settled(clean, s, a)
    ensures !(p in Lost(clean, s, Step(w, c)) && p in Settled(clean, s, Step(w, c)))
  {
    var x, t := s.workers[w], Next(clean, s, Step(w, c));
    if p in t.mounts {
      OthersKeepEntries(clean, s, t, w, p, t.mounts[p]);
      if x.stage.k < |x.spec| {
        EnableRoundRecords(clean, x.list, Outcome(s.mounts, x.entries), x.spec[x.stage.k], c, p, t.mounts[p]);
      }
    }
    hide Records, HeldByOther, HeldBySome, EnableRound;
    if x.stage.k < |x.spec| {
      MountsAfter(clean, x.list, Outcome(s.mounts, x.entries), x.spec[x.stage.k], c);
    }
  }

  lemma MountsAfter(clean: Cleaner, list: Mounts, before: Outcome, au: AuthMethod, c: CallResult)
    ensures var out, q := EnableRound(clean, list, before, au, c), clean(au.path);
      out.mounts == if q !in list && q !in before.mounts && !c.Failed? then before.mounts[q := au.typ] else before.mounts
  {
  }

  lemma DisableBalance(clean: Cleaner, s: Shared, w: nat, c: CallResult, p: string)
    requires Inv(s) && w in s.workers && s.workers[w].stage.Disabling?
    ensures p in Untracked(clean, Next(clean, s, Step(w, c))) <==>
            p in Untracked(clean, s) && p !in Settled(clean, s, Step(w, c))
  {
    var x, t := s.workers[w], Next(clean, s, Step(w, c));
    if p in s.mounts {
      OthersKeepEntries(clean, s, t, w, p, s.mounts[p]);
      if x.stage.k < |x.status| {
        DisableRoundRecords(clean, x.spec, Outcome(s.mounts, x.entries), x.status[x.stage.k], c, p, s.mounts[p]);
      }
    }
    hide Records, HeldByOther, HeldBySome, DisableRound;
    if x.stage.k < |x.status| {
      DismountsAfter(clean, x.spec, Outcome(s.mounts, x.entries), x.status[x.stage.k], c);
    }
  }

  lemma DismountsAfter(clean: Cleaner, expected: seq<AuthMethod>, before: Outcome, e: Entry, c: CallResult)
    ensures DisableRound(clean, expected, before, e, c).mounts ==
            if Obsolete(clean, expected, e) && !c.Failed? then before.mounts - {clean(e.path)} else before.mounts
  {
  }

  lemma WriteBalance(clean: Cleaner, s: Shared, w: nat, c: CallResult, p: string)
    requires Inv(s) && w in s.workers && s.workers[w].stage.Writing?
    ensures p in Untracked(clean, Next(clean, s, Step(w, c))) <==>
            p in Untracked(clean, s) || p in Lost(clean, s, Step(w, c))
  {
    if p in s.mounts {
      OthersKeepEntries(clean, s, Next(clean, s, Step(w, c)), w, p, s.mounts[p]);
    }
    hide Records, HeldByOther, HeldBySome;
  }

  // ----- over runs -----

  lemma {:induction false} InvHolds(clean: Cleaner, acts: seq<Action>)
    ensures Inv(Run(clean, INITIAL, acts))
  {
    if acts != [] {
      InvHolds(clean, acts[..|acts| - 1]);
      InvNext(clean, Run(clean, INITIAL, acts[..|acts| - 1]), acts[|acts| - 1]);
      hide Inv, Next;
    }
  }

  function Losses(clean: Cleaner, acts: seq<Action>): seq<set<string>> {
    seq(|acts|, n requires 0 <= n < |acts| => Lost(clean, Run(clean, INITIAL, acts[..n]), acts[n]))
  }

  function Settlements(clean: Cleaner, acts: seq<Action>): seq<set<string>> {
    seq(|acts|, n requires 0 <= n < |acts| => Settled(clean, Run(clean, INITIAL, acts[..n]), acts[n]))
  }

  lemma BalanceStep(clean: Cleaner, s: Shared, a: Action)
    requires Inv(s)
    ensures Untracked(clean, Next(clean, s, a)) == (Untracked(clean, s) + Lost(clean, s, a)) - Settled(clean, s, a)
    ensures Lost(clean, s, a) !! Settled(clean, s, a)
  {
    var u, v, l, g := Untracked(clean, s), Untracked(clean, Next(clean, s, a)), Lost(clean, s, a), Settled(clean, s, a);
    hide Untracked, Lost, Settled, Next, Inv;
    forall p ensures (p in v <==> (p in u || p in l) && p !in g) && !(p in l && p in g) {
      BalanceAt(clean, s, a, p);
    }
  }

  /** However many reconciles overlap, and whatever calls fail or lose their answers: the mounts
      of the operator that nobody has a record of are exactly those that some step lost, in a
      write that overtakes another one in particular, and that were not settled since. */
  lemma UntrackedExactly(clean: Cleaner, acts: seq<Action>, p: string)
    ensures p in Untracked(clean, Run(clean, INITIAL, acts)) <==>
            exists n: nat :: LeftAt(Losses(clean, acts), Settlements(clean, acts), n, p)
  {
    hide Untracked, Lost, Settled, Run, LeftAt, Inv;
    var balance := seq(|acts| + 1, n requires 0 <= n <= |acts| => Untracked(clean, Run(clean, INITIAL, acts[..n])));
    var taken, given := Losses(clean, acts), Settlements(clean, acts);
    forall n | 0 <= n < |acts|
      ensures balance[n + 1] == (balance[n] + taken[n]) - given[n] && taken[n] !! given[n]
    {
      InvHolds(clean, acts[..n]);
      RunNext(clean, INITIAL, acts, n);
      BalanceStep(clean, Run(clean, INITIAL, acts[..n]), acts[n]);
    }
    AtStart(clean, acts);
    assert acts[..|acts|] == acts;
    Ledger(balance, taken, given, p);
  }

  lemma AtStart(clean: Cleaner, acts: seq<Action>)
    ensures Untracked(clean, Run(clean, INITIAL, acts[..0])) == {}
  {
  }

  ghost predicate AlwaysTracked(clean: Cleaner, acts: seq<Action>) {
    forall n | 0 <= n <= |acts| :: Untracked(clean, Run(clean, INITIAL, acts[..n])) == {}
  }

  ghost predicate NeverLoses(clean: Cleaner, acts: seq<Action>) {
    forall n | 0 <= n < |acts| :: Lost(clean, Run(clean, INITIAL, acts[..n]), acts[n]) == {}
  }

  /** Every mount of the operator is known throughout if and only if no step loses one. */
  lemma TrackedIffNothingLost(clean: Cleaner, acts: seq<Action>)
    ensures AlwaysTracked(clean, acts) <==> NeverLoses(clean, acts)
  {
    hide Untracked, Lost, Settled, Run, Inv, Next;
    forall n | 0 <= n < |acts|
      ensures var s, t, a := Run(clean, INITIAL, acts[..n]), Run(clean, INITIAL, acts[..n + 1]), acts[n];
        && Untracked(clean, t) == (Untracked(clean, s) + Lost(clean, s, a)) - Settled(clean, s, a)
        && Lost(clean, s, a) !! Settled(clean, s, a)
    {
      InvHolds(clean, acts[..n]);
      RunNext(clean, INITIAL, acts, n);
      BalanceStep(clean, Run(clean, INITIAL, acts[..n]), acts[n]);
    }
    AtStart(clean, acts);
    if NeverLoses(clean, acts) {
      for n := 0 to |acts|
        invariant forall j | 0 <= j <= n :: Untracked(clean, Run(clean, INITIAL, acts[..j])) == {}
      {
        assert Lost(clean, Run(clean, INITIAL, acts[..n]), acts[n]) == {};
        assert Untracked(clean, Run(clean, INITIAL, acts[..n + 1])) == {};
      }
    }
    if AlwaysTracked(clean, acts) {
      forall n | 0 <= n < |acts| ensures Lost(clean, Run(clean, INITIAL, acts[..n]), acts[n]) == {} {
        assert Untracked(clean, Run(clean, INITIAL, acts[..n + 1])) == {};
      }
    }
  }

  // ----- a reconcile that is alone -----

  /** Worker `w` alone after `k` rounds of the enabling loop. */
  function EnabledAlone(clean: Cleaner, s: Shared, w: nat, spec: seq<AuthMethod>, o: Oracle, k: nat): Shared
    requires k <= |spec|
  {
    var out := Enable(clean, s.mounts, spec, o.enable, k);
    s.(mounts := out.mounts, owned := s.owned + (out.mounts.Keys - s.mounts.Keys),
       workers := map[w := Worker(spec, s.status, s.mounts, out.entries, Enabling(k))])
  }

  /** Worker `w` alone after `k` rounds of the disabling loop. */
  function DisabledAlone(clean: Cleaner, s: Shared, w: nat, spec: seq<AuthMethod>, o: Oracle, k: nat): Shared
    requires k <= |s.status|
  {
    var on := Enable(clean, s.mounts, spec, o.enable, |spec|);
    var off := Disable(clean, spec, s.status, o.disable, on.mounts, k);
    s.(mounts := off.mounts, owned := (s.owned + (on.mounts.Keys - s.mounts.Keys)) * off.mounts.Keys,
       workers := map[w := Worker(spec, s.status, s.mounts, on.entries + off.entries, Disabling(k))])
  }

  lemma EnableAloneStep(clean: Cleaner, s: Shared, w: nat, spec: seq<AuthMethod>, o: Oracle, k: nat)
    requires Inv(s) && s.workers == map[] && k < |spec|
    ensures Next(clean, EnabledAlone(clean, s, w, spec, o, k), Step(w, o.enable(k))) ==
            EnabledAlone(clean, s, w, spec, o, k + 1)
  {
    var here, there := Enable(clean, s.mounts, spec, o.enable, k), Enable(clean, s.mounts, spec, o.enable, k + 1);
    var t := EnabledAlone(clean, s, w, spec, o, k);
    assert there == EnableRound(clean, s.mounts, here, spec[k], o.enable(k));
    MountsAfter(clean, s.mounts, here, spec[k], o.enable(k));
    EnableExtends(clean, s.mounts, spec, o.enable, k);
    hide Enable, EnableRound;
    assert t.workers[w].stage == Enabling(k);
    var next := Next(clean, t, Step(w, o.enable(k)));
    assert next.owned == EnabledAlone(clean, s, w, spec, o, k + 1).owned;
    assert next.workers == EnabledAlone(clean, s, w, spec, o, k + 1).workers;
  }

  lemma DisableAloneStep(clean: Cleaner, s: Shared, w: nat, spec: seq<AuthMethod>, o: Oracle, k: nat)
    requires Inv(s) && s.workers == map[] && k < |s.status|
    ensures Next(clean, DisabledAlone(clean, s, w, spec, o, k), Step(w, o.disable(k))) ==
            DisabledAlone(clean, s, w, spec, o, k + 1)
  {
    var on := Enable(clean, s.mounts, spec, o.enable, |spec|);
    var here := Disable(clean, spec, s.status, o.disable, on.mounts, k);
    var there := Disable(clean, spec, s.status, o.disable, on.mounts, k + 1);
    var t := DisabledAlone(clean, s, w, spec, o, k);
    var e, c := s.status[k], o.disable(k);
    assert there == DisableRound(clean, spec, here, e, c);
    RoundAfter(clean, spec, on.entries, here, e, c);
    DismountsAfter(clean, spec, here, e, c);
    hide Enable, Disable, DisableRound;
    assert t.workers[w].stage == Disabling(k);
    var next := Next(clean, t, Step(w, c));
    assert next.owned == DisabledAlone(clean, s, w, spec, o, k + 1).owned;
    assert next.workers == DisabledAlone(clean, s, w, spec, o, k + 1).workers;
  }

  /** The disabling loop appends to whatever entries there are. */
  lemma RoundAfter(clean: Cleaner, expected: seq<AuthMethod>, first: seq<Entry>, before: Outcome, e: Entry, c: CallResult)
    ensures var there, here := DisableRound(clean, expected, before, e, c),
                               DisableRound(clean, expected, Outcome(before.mounts, first + before.entries), e, c);
      here == Outcome(there.mounts, first + there.entries)
  {
    var there := DisableRound(clean, expected, before, e, c);
    assert (first + before.entries) + [Entry(e.typ, e.path, DisableFailed)]
        == first + (before.entries + [Entry(e.typ, e.path, DisableFailed)]);
    assert first + before.entries + [] == first + before.entries && before.entries + [] == before.entries;
  }

  lemma Extend(clean: Cleaner, s: Shared, acts: seq<Action>, a: Action) returns (more: seq<Action>)
    ensures more == acts + [a] && Run(clean, s, more) == Next(clean, Run(clean, s, acts), a)
  {
    more := acts + [a];
    RunOneMore(clean, s, acts, a);
  }

  lemma StartsEnabling(clean: Cleaner, s: Shared, w: nat, spec: seq<AuthMethod>, o: Oracle)
    requires Inv(s) && s.workers == map[]
    ensures Next(clean, Next(clean, s, Start(w, spec)), Step(w, Done)) == EnabledAlone(clean, s, w, spec, o, 0)
  {
    var t := Next(clean, Next(clean, s, Start(w, spec)), Step(w, Done));
    assert t.workers == EnabledAlone(clean, s, w, spec, o, 0).workers;
    assert t.owned == EnabledAlone(clean, s, w, spec, o, 0).owned;
  }

  lemma EnableAlone(clean: Cleaner, s: Shared, w: nat, spec: seq<AuthMethod>, o: Oracle) returns (acts: seq<Action>)
    requires Inv(s) && s.workers == map[] && o.list
    ensures Run(clean, s, acts) == EnabledAlone(clean, s, w, spec, o, |spec|)
  {
    acts := Extend(clean, s, [], Start(w, spec));
    acts := Extend(clean, s, acts, Step(w, Done));
    assert Run(clean, s, []) == s;
    hide Run;
    StartsEnabling(clean, s, w, spec, o);
    hide Next, EnabledAlone;
    for k := 0 to |spec|
      invariant Run(clean, s, acts) == EnabledAlone(clean, s, w, spec, o, k)
    {
      EnableAloneStep(clean, s, w, spec, o, k);
      acts := Extend(clean, s, acts, Step(w, o.enable(k)));
    }
  }

  lemma DisableAlone(clean: Cleaner, s: Shared, w: nat, spec: seq<AuthMethod>, o: Oracle) returns (acts: seq<Action>)
    requires Inv(s) && s.workers == map[] && o.list
    ensures Run(clean, s, acts) == DisabledAlone(clean, s, w, spec, o, |s.status|)
  {
    hide *;
    acts := EnableAlone(clean, s, w, spec, o);
    acts := Extend(clean, s, acts, Step(w, Done));
    StartsDisabling(clean, s, w, spec, o);
    for k := 0 to |s.status|
      invariant Run(clean, s, acts) == DisabledAlone(clean, s, w, spec, o, k)
    {
      DisableAloneStep(clean, s, w, spec, o, k);
      acts := Extend(clean, s, acts, Step(w, o.disable(k)));
    }
  }

  lemma StartsDisabling(clean: Cleaner, s: Shared, w: nat, spec: seq<AuthMethod>, o: Oracle)
    requires Inv(s) && s.workers == map[]
    ensures Next(clean, EnabledAlone(clean, s, w, spec, o, |spec|), Step(w, Done)) == DisabledAlone(clean, s, w, spec, o, 0)
  {
    var on, t := Enable(clean, s.mounts, spec, o.enable, |spec|), EnabledAlone(clean, s, w, spec, o, |spec|);
    EnableExtends(clean, s.mounts, spec, o.enable, |spec|);
    hide Enable;
    assert on.entries + [] == on.entries;
    var next := Next(clean, t, Step(w, Done));
    assert next.owned == DisabledAlone(clean, s, w, spec, o, 0).owned;
    assert next.workers == DisabledAlone(clean, s, w, spec, o, 0).workers;
  }

  /** A reconcile that nobody overlaps does what Reconcile says. */
  lemma AloneIsReconcile(clean: Cleaner, s: Shared, w: nat, spec: seq<AuthMethod>, o: Oracle) returns (acts: seq<Action>)
    requires Inv(s) && s.workers == map[]
    ensures var t := Run(clean, s, acts);
      var r := Reconcile(clean, State(s.mounts, spec, s.status, s.owned), spec, o);
      t == Shared(r.mounts, r.status, r.owned, map[])
  {
    if o.list {
      acts := DisableAlone(clean, s, w, spec, o);
      acts := Extend(clean, s, acts, Step(w, Done));
      acts := Extend(clean, s, acts, Step(w, if o.write then Done else Failed));
      hide Run, Enable, Disable;
    } else {
      acts := Extend(clean, s, [], Start(w, spec));
      acts := Extend(clean, s, acts, Step(w, Failed));
      assert Run(clean, s, []) == s;
    }
  }

  // ----- a write that overtakes another -----

  /** The identity, as a cleaner. */
  function AsIs(p: string): string {
    p
  }

  const METHOD_A := AuthMethod("approle", "a")
  const METHOD_B := AuthMethod("userpass", "b")

  /** What a worker that succeeds throughout reports of both methods. */
  function Success(au: AuthMethod): Entry {
    Entry(au.typ, au.path, EnableSucceeded)
  }

  /** The first reconcile is for METHOD_A alone. It is past its loops and about to write when the spec
      gets METHOD_B; the second one enables METHOD_B and writes first. */
  function OverlapActs(): seq<Action> {
    FirstActs() + SecondActs() + [Step(2, Done), Step(2, Done), Step(1, Done)]
  }

  function FirstActs(): seq<Action> {
    [Start(1, [METHOD_A]), Step(1, Done), Step(1, Done), Step(1, Done), Step(1, Done)]
  }

  function SecondActs(): seq<Action> {
    [Start(2, [METHOD_A, METHOD_B]), Step(2, Done), Step(2, Done), Step(2, Done), Step(2, Done)]
  }

  function OverlapState(n: nat): Shared {
    var a, ab := map["a" := "approle"], map["a" := "approle", "b" := "userpass"];
    var first := Worker([METHOD_A], [], map[], [Success(METHOD_A)], Writing);
    match n
    case 0 => INITIAL
    case 1 => Shared(a, [], {"a"}, map[1 := first])
    case 2 => Shared(ab, [], {"a", "b"}, map[1 := first, 2 := Worker([METHOD_A, METHOD_B], [], a, [Success(METHOD_A), Success(METHOD_B)], Disabling(0))])
    case _ => Shared(ab, [Success(METHOD_A)], {"a", "b"}, map[])
  }

  lemma Extend5(s: Shared, acts: seq<Action>, a: Action, b: Action, c: Action, d: Action, e: Action)
    ensures Run(AsIs, s, acts + [a, b, c, d, e]) ==
            Next(AsIs, Next(AsIs, Next(AsIs, Next(AsIs, Next(AsIs, Run(AsIs, s, acts), a), b), c), d), e)
  {
    hide Run, Next;
    RunOneMore(AsIs, s, acts, a);
    RunOneMore(AsIs, s, acts + [a], b);
    RunOneMore(AsIs, s, acts + [a] + [b], c);
    RunOneMore(AsIs, s, acts + [a] + [b] + [c], d);
    RunOneMore(AsIs, s, acts + [a] + [b] + [c] + [d], e);
    assert acts + [a] + [b] + [c] + [d] + [e] == acts + [a, b, c, d, e];
  }

  /** A successful round of worker `w`, for a free path and for one that was mounted before. */
  lemma EnablesNext(s: Shared, w: nat, k: nat)
    requires w in s.workers && s.workers[w].stage == Enabling(k) && k < |s.workers[w].spec|
    requires var x := s.workers[w]; var au := x.spec[k];
      if au.path in x.list then x.list[au.path] == au.typ else au.path !in s.mounts
    ensures var x := s.workers[w]; var au := x.spec[k];
      var t := if au.path in x.list then s.mounts else s.mounts[au.path := au.typ];
      Next(AsIs, s, Step(w, Done)) ==
      Remount(s, t).(workers := s.workers[w := x.(entries := x.entries + [Success(au)], stage := Enabling(k + 1))])
  {
  }

  lemma OverlapFirst()
    ensures var s := OverlapState(0);
      Next(AsIs, Next(AsIs, Next(AsIs, Next(AsIs, Next(AsIs, s, Start(1, [METHOD_A])), Step(1, Done)), Step(1, Done)),
           Step(1, Done)), Step(1, Done)) == OverlapState(1)
  {
    var s2 := Next(AsIs, Next(AsIs, INITIAL, Start(1, [METHOD_A])), Step(1, Done));
    assert s2.workers == map[1 := Worker([METHOD_A], [], map[], [], Enabling(0))];
    EnablesNext(s2, 1, 0);
    var s3 := Next(AsIs, s2, Step(1, Done));
    var none: seq<Entry> := [];
    assert none + [Success(METHOD_A)] == [Success(METHOD_A)];
    assert s3.workers == map[1 := Worker([METHOD_A], [], map[], [Success(METHOD_A)], Enabling(1))];
    assert s3.owned == {"a"};
    hide EnableRound;
    var s4 := Next(AsIs, s3, Step(1, Done));
    assert s4.workers == map[1 := Worker([METHOD_A], [], map[], [Success(METHOD_A)], Disabling(0))];
  }

  lemma OverlapSecond()
    ensures var s := OverlapState(1);
      Next(AsIs, Next(AsIs, Next(AsIs, Next(AsIs, Next(AsIs, s, Start(2, [METHOD_A, METHOD_B])), Step(2, Done)), Step(2, Done)),
           Step(2, Done)), Step(2, Done)) == OverlapState(2)
  {
    var s1, first := OverlapState(1), OverlapState(1).workers[1];
    var s2 := Next(AsIs, s1, Start(2, [METHOD_A, METHOD_B]));
    assert s2.workers == map[1 := first, 2 := Worker([METHOD_A, METHOD_B], [], map[], [], Listing)];
    var s3 := Next(AsIs, s2, Step(2, Done));
    assert s3.workers == map[1 := first, 2 := Worker([METHOD_A, METHOD_B], [], s1.mounts, [], Enabling(0))];
    SecondEnables(s3, first);
    hide EnableRound;
  }

  lemma SecondEnables(s: Shared, first: Worker)
    requires s.mounts == map["a" := "approle"] && s.owned == {"a"}
    requires s.workers == map[1 := first, 2 := Worker([METHOD_A, METHOD_B], [], map["a" := "approle"], [], Enabling(0))]
    ensures Next(AsIs, Next(AsIs, s, Step(2, Done)), Step(2, Done)) ==
            s.(mounts := map["a" := "approle", "b" := "userpass"], owned := {"a", "b"},
               workers := map[1 := first, 2 := Worker([METHOD_A, METHOD_B], [], s.mounts, [Success(METHOD_A), Success(METHOD_B)], Enabling(2))])
  {
    EnablesNext(s, 2, 0);
    var s1 := Next(AsIs, s, Step(2, Done));
    var none: seq<Entry> := [];
    assert none + [Success(METHOD_A)] == [Success(METHOD_A)];
    assert s1.workers == map[1 := first, 2 := Worker([METHOD_A, METHOD_B], [], s.mounts, [Success(METHOD_A)], Enabling(1))];
    assert s1.owned == {"a"};
    EnablesNext(s1, 2, 1);
    hide EnableRound, Work;
    var s2 := Next(AsIs, s1, Step(2, Done));
    assert [Success(METHOD_A)] + [Success(METHOD_B)] == [Success(METHOD_A), Success(METHOD_B)];
    assert s2.workers == map[1 := first, 2 := Worker([METHOD_A, METHOD_B], [], s.mounts, [Success(METHOD_A), Success(METHOD_B)], Enabling(2))];
    assert s2.mounts == map["a" := "approle", "b" := "userpass"];
    assert s2.owned == {"a", "b"};
  }

  lemma OverlapWrites()
    ensures var s := OverlapState(2);
      Next(AsIs, Next(AsIs, Next(AsIs, s, Step(2, Done)), Step(2, Done)), Step(1, Done)) == OverlapState(3)
  {
    var s1 := Next(AsIs, OverlapState(2), Step(2, Done));
    var s2 := Next(AsIs, s1, Step(2, Done));
    assert s2.workers == map[1 := OverlapState(2).workers[1]];
  }

  lemma OverlapRun()
    ensures Run(AsIs, INITIAL, OverlapActs()) == OverlapState(3)
  {
    var a1, a2 := FirstActs(), FirstActs() + SecondActs();
    assert [] + a1 == a1 && Run(AsIs, INITIAL, []) == OverlapState(0);
    OverlapFirst();
    OverlapSecond();
    OverlapWrites();
    hide *;
    Extend5(INITIAL, [], Start(1, [METHOD_A]), Step(1, Done), Step(1, Done), Step(1, Done), Step(1, Done));
    Extend5(INITIAL, a1, Start(2, [METHOD_A, METHOD_B]), Step(2, Done), Step(2, Done), Step(2, Done), Step(2, Done));
    RunOneMore(AsIs, INITIAL, a2, Step(2, Done));
    RunOneMore(AsIs, INITIAL, a2 + [Step(2, Done)], Step(2, Done));
    RunOneMore(AsIs, INITIAL, a2 + [Step(2, Done)] + [Step(2, Done)], Step(1, Done));
    ActsParts();
  }

  lemma ActsParts()
    ensures FirstActs() == [Start(1, [METHOD_A]), Step(1, Done), Step(1, Done), Step(1, Done), Step(1, Done)]
    ensures SecondActs() == [Start(2, [METHOD_A, METHOD_B]), Step(2, Done), Step(2, Done), Step(2, Done), Step(2, Done)]
    ensures FirstActs() + SecondActs() + [Step(2, Done)] + [Step(2, Done)] + [Step(1, Done)] == OverlapActs()
  {
  }

  /** All calls succeed and no mount changes its type; the older reconcile writes last, and the
      mount of METHOD_B is recorded nowhere, with no worker left to record it. */
  lemma OverlapLosesRecord()
    ensures var s := Run(AsIs, INITIAL, OverlapActs()); s.workers == map[] && "b" in s.mounts && Untracked(AsIs, s) == {"b"}
  {
    OverlapRun();
    hide Run, OverlapActs;
    var s := OverlapState(3);
    assert s.status[0] == Success(METHOD_A) && Success(METHOD_A) == Entry("approle", s.status[0].path, EnableSucceeded);
    assert Records(AsIs, s.status, "a", "approle") && !Records(AsIs, s.status, "b", "userpass");
  }
}
