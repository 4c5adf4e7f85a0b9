/** Where leases and secrets go: exactly which steps leave one behind that neither the request
    nor the worker knows about, over every run. */
module AccessLeases {
  import opened Results
  import opened AccessRequest
  import opened AccessLaws
  import opened Ledgers

  // ----- leases -----

  /** The live lease whose ID the stored request mentions. */
  function Mentioned(s: State): set<Lease> {
    set l | l in s.leases && Mentions(s, l.id)
  }

  predicate Mentions(s: State, id: string) {
    Stored(s).Some? && Stored(s).value.lease == Some(id) && id != ""
  }

  /** The new lease that only the worker knows. */
  function Hand(s: State): set<Lease> {
    match s.pc
    case CreateSecret(_, lease) => LeaseSet(s.client, Some(lease))
    case RevokeNew(_, lease) => LeaseSet(s.client, Some(lease))
    case Record(_, lease, _) => LeaseSet(s.client, Some(lease))
    case _ => {}
  }

  function Orphans(s: State): set<Lease> {
    s.leases - Mentioned(s) - Hand(s)
  }

  /** The leases that a step leaves behind. In this order: an issued credential whose answer is
      lost; a new lease that could not be revoked, or not be recorded; the lease that a newer
      one overwrites; the lease whose reference the cleanup clears, or whose object goes. */
  function Abandoned(s: State, a: Action): set<Lease> {
    var known := Mentioned(s);
    match a
    case Answer(c, id) => (
      match s.pc
      case Get(_) => if c.Lost? then LeaseSet(s.client, Some(id)) else {}
      case RevokeNew(_, _) => if c.Failed? then Hand(s) else {}
      case Record(_, _, _) => if c.Failed? || Stored(s).None? then Hand(s) else known
      case Clear(_) => if c.Failed? then {} else known
      case RemoveFinalizer(_, _) =>
        if c.Failed? || Stored(s).None? || !Stored(s).value.deleting then {} else known
      case _ => {})
    case UserDeletes => if Stored(s).None? || Stored(s).value.finalizer then {} else known
    case _ => {}
  }

  /** The leases that a step revokes. */
  function Revoked(s: State, a: Action): set<Lease> {
    if !a.Answer? || a.c.Failed? then {}
    else
      match s.pc
      case RevokeNew(_, _) => Hand(s)
      case RevokeOld(req) => LeaseSet(s.client, req.lease)
      case FinRevoke(req) => LeaseSet(s.client, req.lease)
      case _ => {}
  }

  /** Vault does not issue a lease ID twice. */
  predicate FreshLease(s: State, a: Action) {
    s.pc.Get? && a.Answer? ==> !Mentions(s, a.id) && forall l <- s.leases :: l.id != a.id
  }

  /** The worker's new lease is live and not yet mentioned. */
  predicate HandInv(s: State) {
    && Hand(s) <= s.leases
    && forall h <- Hand(s) :: !Mentions(s, h.id) && forall l <- s.leases :: l.id == h.id ==> l == h
  }

  lemma PatchMentions(s: State, u: Update, c: CallResult, id: string)
    ensures var t := Patch(s, u, c); t.leases == s.leases && t.pc == s.pc && t.client == s.client
    ensures Mentions(Patch(s, u, c), id) <==>
      if c.Failed? || Stored(s).None? then Mentions(s, id)
      else
        var o := Apply(u, Stored(s).value);
        (o.finalizer || !o.deleting) && o.lease == Some(id) && id != ""
  {
  }

  /** The effect of one step on the leases that nobody mentions. */
  lemma OrphansStep(s: State, a: Action)
    requires Inv(s) && HandInv(s) && FreshLease(s, a)
    ensures Orphans(Next(s, a)) == (Orphans(s) + Abandoned(s, a)) - Revoked(s, a)
    ensures HandInv(Next(s, a)) && Abandoned(s, a) !! Revoked(s, a)
  {
    match a
    case Answer(c, id) =>
      if UpdateOf(s.pc).Some? || s.pc.AddFinalizer? || s.pc.RemoveFinalizer? {
        OrphansWrite(s, c, id);
      } else {
        OrphansCall(s, c, id);
      }
    case Begin => DispatchHand(s);
    case _ => OrphansOthers(s, a);
  }

  /** With the worker reading or deciding, nothing changes hands. */
  lemma DispatchHand(s: State)
    ensures s.pc.Idle? ==> Hand(s.(pc := Dispatch(View(s)))) == {}
    ensures var t := Next(s, Begin);
      t.leases == s.leases && (forall id :: Mentions(t, id) == Mentions(s, id)) && Hand(t) == Hand(s)
    ensures Orphans(Next(s, Begin)) == Orphans(s) && (HandInv(s) ==> HandInv(Next(s, Begin)))
  {
    var t := Next(s, Begin);
    assert Mentioned(t) == Mentioned(s);
  }

  lemma HeldNotDying(s: State)
    requires Inv(s) && Stored(s).Some?
    ensures Stored(s).value.finalizer || !Stored(s).value.deleting
    ensures s.pc.Record? || s.pc.Clear? || s.pc.Note? || s.pc.Finish? ==> Stored(s).value.finalizer
  {
    assert Stored(s) in s.versions;
    if Phase(s.pc).Working? {
      PrepareIsHeld(s);
    }
  }

  lemma OrphansWrite(s: State, c: CallResult, id: string)
    requires Inv(s) && HandInv(s) && !s.pc.Idle?
    requires UpdateOf(s.pc).Some? || s.pc.AddFinalizer? || s.pc.RemoveFinalizer?
    ensures Orphans(Work(s, c, id)) == (Orphans(s) + Abandoned(s, Answer(c, id))) - Revoked(s, Answer(c, id))
    ensures HandInv(Work(s, c, id)) && Abandoned(s, Answer(c, id)) !! Revoked(s, Answer(c, id))
  {
    if Stored(s).Some? { HeldNotDying(s); }
    WriteAbandons(s, c, id);
    var t := Work(s, c, id);
    forall l <- s.leases
      ensures Mentions(t, l.id) <==>
        if !c.Failed? && Stored(s).Some? && s.pc.Record? then s.pc.lease == l.id != ""
        else if Drops(s, c) then false
        else Mentions(s, l.id)
    {
      WriteMentions(s, c, id, l.id);
    }
    WriteMentions(s, c, id, "");
    hide Inv, Work, Decide, UpdateOf, Abandoned, Revoked, Mentions;
    if s.pc.Record? {
      assert Hand(s) == LeaseSet(s.client, Some(s.pc.lease));
    }
  }

  /** The write clears the reference, or takes the object with it. */
  predicate Drops(s: State, c: CallResult) {
    !c.Failed? && Stored(s).Some? && (s.pc.Clear? || (s.pc.RemoveFinalizer? && Stored(s).value.deleting))
  }

  lemma WriteAbandons(s: State, c: CallResult, id: string)
    requires UpdateOf(s.pc).Some? || s.pc.AddFinalizer? || s.pc.RemoveFinalizer?
    ensures Revoked(s, Answer(c, id)) == {}
    ensures Abandoned(s, Answer(c, id)) ==
      if s.pc.Record? && (c.Failed? || Stored(s).None?) then Hand(s)
      else if s.pc.Record? || Drops(s, c) then Mentioned(s)
      else {}
  {
  }

  /** What a write makes the request mention. */
  lemma WriteMentions(s: State, c: CallResult, id: string, x: string)
    requires UpdateOf(s.pc).Some? || s.pc.AddFinalizer? || s.pc.RemoveFinalizer?
    requires Stored(s).Some? ==> Stored(s).value.finalizer || !Stored(s).value.deleting
    requires Stored(s).Some? && (s.pc.Record? || s.pc.Clear?) ==> Stored(s).value.finalizer
    ensures var t := Work(s, c, id);
      && t.leases == s.leases && Hand(t) == {}
      && (Mentions(t, x) <==>
            if !c.Failed? && Stored(s).Some? && s.pc.Record? then s.pc.lease == x != ""
            else if Drops(s, c) then false
            else Mentions(s, x))
  {
    var u := if UpdateOf(s.pc).Some? then UpdateOf(s.pc).value else SetFinalizer(s.pc.AddFinalizer?);
    PatchMentions(s, u, c, x);
    DecideHand(s.pc.req);
    hide Patch, Decide, SetCondition, RemoveCondition;
    assert Mentions(Work(s, c, id), x) == Mentions(Patch(s, u, c), x);
  }

  lemma DecideHand(req: Request)
    ensures var pc := Decide(req); !pc.CreateSecret? && !pc.RevokeNew? && !pc.Record?
  {
  }

  lemma OrphansCall(s: State, c: CallResult, id: string)
    requires CallAt(s.pc) && HandInv(s) && FreshLease(s, Answer(c, id))
    ensures Orphans(Work(s, c, id)) == (Orphans(s) + Abandoned(s, Answer(c, id))) - Revoked(s, Answer(c, id))
    ensures HandInv(Work(s, c, id)) && Abandoned(s, Answer(c, id)) !! Revoked(s, Answer(c, id))
  {
    CallWrites(s, c, id);
    assert forall x :: Mentions(Work(s, c, id), x) == Mentions(s, x);
    hide Mentions;
  }

  lemma OrphansOthers(s: State, a: Action)
    requires ByOthers(a) && HandInv(s) && Inv(s)
    ensures Orphans(Next(s, a)) == Orphans(s) + Abandoned(s, a) && Revoked(s, a) == {}
    ensures HandInv(Next(s, a))
  {
    if Stored(s).Some? { HeldNotDying(s); }
    OthersMention(s, a);
    var t := Next(s, a);
    hide Inv, Next, Mentions;
    if a.UserDeletes? && Stored(s).Some? && !Stored(s).value.finalizer {
      assert Mentioned(t) == {};
    } else {
      assert Mentioned(t) == Mentioned(s) && Abandoned(s, a) == {};
    }
  }

  lemma OthersMention(s: State, a: Action)
    requires ByOthers(a) && (Stored(s).Some? ==> Stored(s).value.finalizer || !Stored(s).value.deleting)
    ensures var t := Next(s, a);
      && t.leases == s.leases && t.pc == s.pc && t.client == s.client
      && forall id :: Mentions(t, id) <==>
           Mentions(s, id) && !(a.UserDeletes? && Stored(s).Some? && !Stored(s).value.finalizer)
  {
    hide Frozen;
  }

  /** When the cleanup loses a lease: it clears the reference to a live lease that its snapshot
      does not have, which is the one this same run, or a run the cache has not shown, recorded;
      or that lies in another Vault than the one its credential manager talks to. */
  lemma CleanupLosesLease(acts: seq<Action>, c: CallResult, id: string)
    requires After(Init(), acts).pc.Clear? && !c.Failed?
    ensures var s := After(Init(), acts); var req := s.pc.req;
      Abandoned(s, Answer(c, id)) != {} <==>
      exists l <- s.leases :: Mentions(s, l.id) && (req.lease != Some(l.id) || s.client != l.vault)
  {
    InvHolds(acts);
    var s := After(Init(), acts);
    hide After, HeldInv;
    if l :| l in Abandoned(s, Answer(c, id)) {
      assert l in s.leases && Mentions(s, l.id);
      assert l !in LeaseSet(s.client, s.pc.req.lease);
    }
    if l :| l in s.leases && Mentions(s, l.id) && (s.pc.req.lease != Some(l.id) || s.client != l.vault) {
      assert l in Abandoned(s, Answer(c, id));
    }
  }

  /** When the object goes with its lease live: the finalizer could build no credential manager,
      or its snapshot has another lease than the stored request, or the revocation went to
      another Vault. */
  lemma FinalizerLosesLease(acts: seq<Action>, c: CallResult, id: string)
    requires After(Init(), acts).pc.RemoveFinalizer? && !c.Failed?
    ensures var s := After(Init(), acts); var pc := s.pc;
      Abandoned(s, Answer(c, id)) != {} <==>
      && Stored(s).Some? && Stored(s).value.deleting
      && exists l <- s.leases :: Mentions(s, l.id) && (pc.skipped || pc.req.lease != Some(l.id) || s.client != l.vault)
  {
    InvHolds(acts);
    var s := After(Init(), acts);
    hide After, HeldInv;
    if l :| l in Abandoned(s, Answer(c, id)) {
      assert l in s.leases && Mentions(s, l.id);
      assert !s.pc.skipped ==> l !in LeaseSet(s.client, s.pc.req.lease);
    }
    if Stored(s).Some? && Stored(s).value.deleting {
      if l :| l in s.leases && Mentions(s, l.id) && (s.pc.skipped || s.pc.req.lease != Some(l.id) || s.client != l.vault) {
        assert l in Abandoned(s, Answer(c, id));
      }
    }
  }

  // ----- secrets -----

  function MentionedSecret(s: State): set<string> {
    if Stored(s).None? then {} else SecretSet(Stored(s).value.secret)
  }

  function HandSecret(pc: Pc): set<string> {
    if pc.Record? then {pc.secret} else {}
  }

  /** Secrets holding a credential that the request does not mention. */
  function Strays(s: State): set<string> {
    s.secrets - MentionedSecret(s) - HandSecret(s.pc)
  }

  /** The secrets that a step leaves behind: one whose creation was not acknowledged, one that
      could not be recorded, one that a newer one overwrites, and one whose reference is cleared. */
  function AbandonedSecrets(s: State, a: Action): set<string> {
    if !a.Answer? then {}
    else
      match s.pc
      case CreateSecret(req, _) => if a.c.Lost? && OwnerExists(s, req) then {a.id} else {}
      case Record(_, _, _) =>
        if a.c.Failed? || Stored(s).None? then HandSecret(s.pc) * s.secrets else MentionedSecret(s) * s.secrets
      case Clear(_) => if a.c.Failed? then {} else MentionedSecret(s) * s.secrets
      case _ => {}
  }

  /** The secrets that a step deletes: the cleanup's, and all with the object that owns them. */
  function DeletedSecrets(s: State, a: Action): set<string> {
    var o := Stored(s);
    match a
    case Answer(c, _) =>
      if c.Failed? then {}
      else if s.pc.DeleteOld? then SecretSet(s.pc.req.secret)
      else if s.pc.RemoveFinalizer? && o.Some? && o.value.deleting then s.secrets
      else {}
    case UserDeletes => if o.Some? && !o.value.finalizer then s.secrets else {}
    case _ => {}
  }

  /** The random suffix makes the name new. */
  predicate FreshSecret(s: State, a: Action) {
    s.pc.CreateSecret? && a.Answer? ==> a.id !in s.secrets + MentionedSecret(s)
  }

  predicate HandSecretInv(s: State) {
    HandSecret(s.pc) !! MentionedSecret(s)
  }

  lemma StraysStep(s: State, a: Action)
    requires Inv(s) && HandSecretInv(s) && FreshSecret(s, a)
    ensures Strays(Next(s, a)) == (Strays(s) + AbandonedSecrets(s, a)) - DeletedSecrets(s, a)
    ensures HandSecretInv(Next(s, a)) && AbandonedSecrets(s, a) !! DeletedSecrets(s, a)
  {
    match a
    case Answer(c, id) =>
      if UpdateOf(s.pc).Some? || s.pc.AddFinalizer? || s.pc.RemoveFinalizer? {
        StraysWrite(s, c, id);
      } else {
        CallWrites(s, c, id);
        assert MentionedSecret(Work(s, c, id)) == MentionedSecret(s);
      }
    case Begin => DispatchHandSecret(View(s));
    case _ => StraysOthers(s, a);
  }

  lemma DispatchHandSecret(v: Option<Request>)
    ensures HandSecret(Dispatch(v)) == {}
  {
  }

  lemma StraysWrite(s: State, c: CallResult, id: string)
    requires Inv(s) && HandSecretInv(s) && !s.pc.Idle?
    requires UpdateOf(s.pc).Some? || s.pc.AddFinalizer? || s.pc.RemoveFinalizer?
    ensures Strays(Work(s, c, id)) ==
            (Strays(s) + AbandonedSecrets(s, Answer(c, id))) - DeletedSecrets(s, Answer(c, id))
    ensures HandSecretInv(Work(s, c, id))
    ensures AbandonedSecrets(s, Answer(c, id)) !! DeletedSecrets(s, Answer(c, id))
  {
    if Stored(s).Some? { HeldNotDying(s); }
    WriteMentionsSecret(s, c, id);
    hide Inv, Work, UpdateOf, Decide, OwnerExists;
  }

  lemma WriteMentionsSecret(s: State, c: CallResult, id: string)
    requires UpdateOf(s.pc).Some? || s.pc.AddFinalizer? || s.pc.RemoveFinalizer?
    requires Stored(s).Some? ==> Stored(s).value.finalizer || !Stored(s).value.deleting
    requires Stored(s).Some? && (s.pc.Record? || s.pc.Clear?) ==> Stored(s).value.finalizer
    ensures var t := Work(s, c, id); var applied := !c.Failed? && Stored(s).Some?;
      var gone := applied && s.pc.RemoveFinalizer? && Stored(s).value.deleting;
      && t.secrets == (if gone then {} else s.secrets)
      && MentionedSecret(t) == (
         if applied && s.pc.Record? then {s.pc.secret}
         else if gone || (applied && s.pc.Clear?) then {}
         else MentionedSecret(s))
      && HandSecret(t.pc) == {}
  {
    var u := if UpdateOf(s.pc).Some? then UpdateOf(s.pc).value else SetFinalizer(s.pc.AddFinalizer?);
    PatchMentionsSecret(s, u, c);
    if s.pc.AddFinalizer? {
      DecideHandSecret(s.pc.req);
    }
    hide Decide, Patch;
    assert MentionedSecret(Work(s, c, id)) == MentionedSecret(Patch(s, u, c));
  }

  lemma PatchMentionsSecret(s: State, u: Update, c: CallResult)
    requires Stored(s).Some? ==> Stored(s).value.finalizer || !Stored(s).value.deleting
    ensures var t := Patch(s, u, c);
      var gone := !c.Failed? && Stored(s).Some? && u == SetFinalizer(false) && Stored(s).value.deleting;
      && t.pc == s.pc && t.secrets == (if gone then {} else s.secrets)
      && MentionedSecret(t) ==
         if c.Failed? || Stored(s).None? then MentionedSecret(s)
         else if gone then {} else SecretSet(Apply(u, Stored(s).value).secret)
  {
    hide SetCondition, RemoveCondition;
  }

  lemma DecideHandSecret(req: Request)
    ensures HandSecret(Decide(req)) == {}
  {
  }

  lemma StraysOthers(s: State, a: Action)
    requires ByOthers(a) && Inv(s) && HandSecretInv(s)
    ensures Strays(Next(s, a)) == Strays(s) - DeletedSecrets(s, a) && AbandonedSecrets(s, a) == {}
    ensures HandSecretInv(Next(s, a))
  {
    if Stored(s).Some? { HeldNotDying(s); }
    hide Inv, Frozen;
  }

  // ----- over runs -----

  ghost predicate AllFresh(acts: seq<Action>) {
    forall n | 0 <= n < |acts| ::
      FreshLease(After(Init(), acts[..n]), acts[n]) && FreshSecret(After(Init(), acts[..n]), acts[n])
  }

  ghost function Abandonments(acts: seq<Action>): seq<set<Lease>> {
    seq(|acts|, n requires 0 <= n < |acts| => Abandoned(After(Init(), acts[..n]), acts[n]))
  }

  ghost function Revocations(acts: seq<Action>): seq<set<Lease>> {
    seq(|acts|, n requires 0 <= n < |acts| => Revoked(After(Init(), acts[..n]), acts[n]))
  }

  ghost function SecretAbandonments(acts: seq<Action>): seq<set<string>> {
    seq(|acts|, n requires 0 <= n < |acts| => AbandonedSecrets(After(Init(), acts[..n]), acts[n]))
  }

  ghost function SecretDeletions(acts: seq<Action>): seq<set<string>> {
    seq(|acts|, n requires 0 <= n < |acts| => DeletedSecrets(After(Init(), acts[..n]), acts[n]))
  }

  lemma {:induction false} HandsHold(acts: seq<Action>, n: nat)
    requires n <= |acts| && AllFresh(acts)
    ensures HandInv(After(Init(), acts[..n])) && HandSecretInv(After(Init(), acts[..n]))
  {
    hide *;
    if n == 0 {
      HandsAtStart(acts);
    } else {
      HandsHold(acts, n - 1);
      FreshAt(acts, n - 1);
      InvHolds(acts[..n - 1]);
      AfterNext(Init(), acts, n - 1);
      OrphansStep(After(Init(), acts[..n - 1]), acts[n - 1]);
      StraysStep(After(Init(), acts[..n - 1]), acts[n - 1]);
    }
  }

  lemma HandsAtStart(acts: seq<Action>)
    ensures HandInv(After(Init(), acts[..0])) && HandSecretInv(After(Init(), acts[..0]))
  {
  }

  lemma FreshAt(acts: seq<Action>, n: nat)
    requires AllFresh(acts) && n < |acts|
    ensures FreshLease(After(Init(), acts[..n]), acts[n]) && FreshSecret(After(Init(), acts[..n]), acts[n])
  {
    hide FreshLease, FreshSecret, After;
  }

  lemma BalanceSteps(acts: seq<Action>, n: nat)
    requires n < |acts| && AllFresh(acts)
    ensures var s, t, a := After(Init(), acts[..n]), After(Init(), acts[..n + 1]), acts[n];
      && Orphans(t) == (Orphans(s) + Abandoned(s, a)) - Revoked(s, a) && Abandoned(s, a) !! Revoked(s, a)
      && Strays(t) == (Strays(s) + AbandonedSecrets(s, a)) - DeletedSecrets(s, a)
      && AbandonedSecrets(s, a) !! DeletedSecrets(s, a)
  {
    HandsHold(acts, n);
    InvHolds(acts[..n]);
    AfterNext(Init(), acts, n);
    OrphansStep(After(Init(), acts[..n]), acts[n]);
    StraysStep(After(Init(), acts[..n]), acts[n]);
  }

  /** Over every run, whatever the users do and however far the cache lags: the live leases
      that neither the request nor the worker mentions are exactly those that some step
      abandoned and no later step revoked. */
  lemma OrphansExactly(acts: seq<Action>, lease: Lease)
    requires AllFresh(acts)
    ensures lease in Orphans(After(Init(), acts)) <==>
            exists n: nat :: LeftAt(Abandonments(acts), Revocations(acts), n, lease)
  {
    hide Orphans, Abandoned, Revoked, After, LeftAt;
    var balance := seq(|acts| + 1, n requires 0 <= n <= |acts| => Orphans(After(Init(), acts[..n])));
    var taken, given := Abandonments(acts), Revocations(acts);
    forall n | 0 <= n < |acts|
      ensures balance[n + 1] == (balance[n] + taken[n]) - given[n] && taken[n] !! given[n]
    {
      BalanceSteps(acts, n);
    }
    AtStart(acts);
    assert acts[..|acts|] == acts;
    Ledger(balance, taken, given, lease);
  }

  /** Likewise the secrets that the request does not mention. */
  lemma StraysExactly(acts: seq<Action>, name: string)
    requires AllFresh(acts)
    ensures name in Strays(After(Init(), acts)) <==>
            exists n: nat :: LeftAt(SecretAbandonments(acts), SecretDeletions(acts), n, name)
  {
    hide Strays, AbandonedSecrets, DeletedSecrets, After, LeftAt;
    var balance := seq(|acts| + 1, n requires 0 <= n <= |acts| => Strays(After(Init(), acts[..n])));
    var taken, given := SecretAbandonments(acts), SecretDeletions(acts);
    forall n | 0 <= n < |acts|
      ensures balance[n + 1] == (balance[n] + taken[n]) - given[n] && taken[n] !! given[n]
    {
      BalanceSteps(acts, n);
    }
    AtStart(acts);
    assert acts[..|acts|] == acts;
    Ledger(balance, taken, given, name);
  }

  lemma AtStart(acts: seq<Action>)
    ensures Orphans(After(Init(), acts[..0])) == {} && Strays(After(Init(), acts[..0])) == {}
  {
  }
}
