/** Access-key requests: an approved request is turned into a Vault lease and a Kubernetes
    secret bound to the subjects of the request. One call at a time, from a cache that lags
    behind the API server, while users create, edit, approve and delete the request. The
    controllers for the four credential providers are this same machine. */
module AccessRequest {
  import opened Results

  datatype CondType = RequestApproved | RequestDenied | ConditionFailed | ConditionAvailable | Other(name: string)

  datatype Condition = Condition(typ: CondType, isTrue: bool)

  /** `.spec`: the subjects that will be able to read the credential, and the rest (role
      reference and provider parameters). */
  datatype Spec = Spec(subjects: seq<string>, rest: string)

  /** A version of the request. `phaseSet` tells whether `.status.phase` is non-empty. */
  datatype Request = Request(
    uid: nat, deleting: bool, finalizer: bool, spec: Spec, generation: int,
    conditions: seq<Condition>, lease: Option<string>, secret: Option<string>,
    phaseSet: bool, observedGeneration: int)

  // ----- conditions -----

  predicate IsDecision(t: CondType) {
    t.RequestApproved? || t.RequestDenied?
  }

  predicate Has(cs: seq<Condition>, t: CondType) {
    exists i | 0 <= i < |cs| :: cs[i].typ == t
  }

  /** The last approve or deny condition that is true. */
  function Decision(cs: seq<Condition>): Option<CondType> {
    if cs == [] then None
    else if Decision(cs[1..]).Some? then Decision(cs[1..])
    else if IsDecision(cs[0].typ) && cs[0].isTrue then Some(cs[0].typ)
    else None
  }

  /** `SetCondition(cs, t: True)`: replaces the condition of that type, or appends it. */
  function SetCondition(cs: seq<Condition>, t: CondType): seq<Condition> {
    if cs == [] then [Condition(t, true)]
    else if cs[0].typ == t then [Condition(t, true)] + cs[1..]
    else [cs[0]] + SetCondition(cs[1..], t)
  }

  /** `RemoveCondition(cs, t)`. */
  function RemoveCondition(cs: seq<Condition>, t: CondType): seq<Condition> {
    if cs == [] then []
    else if cs[0].typ == t then RemoveCondition(cs[1..], t)
    else [cs[0]] + RemoveCondition(cs[1..], t)
  }

  lemma {:induction false} HasCons(cs: seq<Condition>, t: CondType)
    requires cs != []
    ensures Has(cs, t) <==> cs[0].typ == t || Has(cs[1..], t)
  {
    if i :| 0 <= i < |cs| && cs[i].typ == t {
      assert i > 0 ==> cs[1..][i - 1].typ == t;
    }
    if i :| 0 <= i < |cs[1..]| && cs[1..][i].typ == t {
      assert cs[i + 1].typ == t;
    }
  }

  lemma {:induction false} HasAfterSet(cs: seq<Condition>, t: CondType, u: CondType)
    ensures Has(SetCondition(cs, t), u) <==> u == t || Has(cs, u)
    decreases |cs|
  {
    var r := SetCondition(cs, t);
    HasCons(r, u);
    if cs != [] {
      HasCons(cs, u);
      if cs[0].typ == t {
        assert r[1..] == cs[1..];
      } else {
        assert r[1..] == SetCondition(cs[1..], t);
        HasAfterSet(cs[1..], t, u);
      }
    }
  }

  lemma {:induction false} HasAfterRemove(cs: seq<Condition>, t: CondType, u: CondType)
    ensures Has(RemoveCondition(cs, t), u) <==> u != t && Has(cs, u)
    decreases |cs|
  {
    if cs != [] {
      var r := RemoveCondition(cs, t);
      HasCons(cs, u);
      HasAfterRemove(cs[1..], t, u);
      if cs[0].typ != t {
        assert r[1..] == RemoveCondition(cs[1..], t);
        HasCons(r, u);
      }
    }
  }

  lemma {:induction false} DecisionAfterSet(cs: seq<Condition>, t: CondType)
    requires !IsDecision(t)
    ensures Decision(SetCondition(cs, t)) == Decision(cs)
    decreases |cs|
  {
    if cs != [] {
      var r := SetCondition(cs, t);
      if cs[0].typ == t {
        assert r[1..] == cs[1..];
      } else {
        assert r[1..] == SetCondition(cs[1..], t);
        DecisionAfterSet(cs[1..], t);
      }
    } else {
      assert Decision([Condition(t, true)][1..]) == None;
    }
  }

  lemma {:induction false} DecisionAfterRemove(cs: seq<Condition>, t: CondType)
    requires !IsDecision(t)
    ensures Decision(RemoveCondition(cs, t)) == Decision(cs)
    decreases |cs|
  {
    if cs != [] {
      var r := RemoveCondition(cs, t);
      DecisionAfterRemove(cs[1..], t);
      if cs[0].typ != t {
        assert r[1..] == RemoveCondition(cs[1..], t);
      }
    }
  }

  lemma {:induction false} DecisionAppend(cs: seq<Condition>, c: Condition)
    ensures Decision(cs + [c]) == if IsDecision(c.typ) && c.isTrue then Some(c.typ) else Decision(cs)
    decreases |cs|
  {
    if cs == [] {
      assert [c][1..] == [] && cs + [c] == [c];
    } else {
      assert (cs + [c])[1..] == cs[1..] + [c];
      DecisionAppend(cs[1..], c);
    }
  }

  /** Condition `k` approves or denies. */
  predicate Decides(cs: seq<Condition>, k: int) {
    0 <= k < |cs| && cs[k].isTrue && (cs[k].typ == RequestApproved || cs[k].typ == RequestDenied)
  }

  /** The last condition that approves or denies is number `k`. */
  predicate LastDecides(cs: seq<Condition>, k: int) {
    Decides(cs, k) && forall j | k < j < |cs| :: !Decides(cs, j)
  }

  lemma LastDecidesAppend(cs: seq<Condition>, c: Condition)
    ensures var ds := cs + [c];
      && (c.isTrue && (c.typ == RequestApproved || c.typ == RequestDenied) ==> LastDecides(ds, |cs|))
      && (!(c.isTrue && (c.typ == RequestApproved || c.typ == RequestDenied)) ==>
            && (forall i | LastDecides(cs, i) :: LastDecides(ds, i))
            && ((forall i | 0 <= i < |cs| :: !Decides(cs, i)) ==> forall i | 0 <= i < |ds| :: !Decides(ds, i)))
  {
    var ds := cs + [c];
    assert forall i | 0 <= i < |cs| :: Decides(ds, i) <==> Decides(cs, i);
  }

  /** The loop of the injector that sets `condType`. */
  method DecisionLoop(cs: seq<Condition>) returns (condType: Option<CondType>)
    ensures condType == Decision(cs)
    ensures condType.Some? ==> exists k :: LastDecides(cs, k) && condType == Some(cs[k].typ)
    ensures condType.None? ==> forall k | 0 <= k < |cs| :: !Decides(cs, k)
  {
    condType := None;
    for k := 0 to |cs|
      invariant condType == Decision(cs[..k])
      invariant condType.Some? ==> exists i :: LastDecides(cs[..k], i) && condType == Some(cs[i].typ)
      invariant condType.None? ==> forall i | 0 <= i < k :: !Decides(cs[..k], i)
    {
      LastDecidesAppend(cs[..k], cs[k]);
      DecisionAppend(cs[..k], cs[k]);
      assert cs[..k + 1] == cs[..k] + [cs[k]];
      if (cs[k].typ.RequestApproved? && cs[k].isTrue) || (cs[k].typ.RequestDenied? && cs[k].isTrue) {
        condType := Some(cs[k].typ);
      }
    }
    assert cs[..|cs|] == cs;
  }

  /** `awsAccessKeyRequestSuccessfullyProcessed`. */
  predicate Processed(req: Request) {
    req.conditions != [] && req.secret.Some? && !Has(req.conditions, ConditionFailed)
  }

  method SuccessfullyProcessed(req: Request) returns (ok: bool)
    ensures ok == Processed(req)
  {
    if req.conditions == [] || req.secret.None? {
      return false;
    }
    for k := 0 to |req.conditions|
      invariant !Has(req.conditions[..k], ConditionFailed)
    {
      if req.conditions[k].typ == ConditionFailed {
        return false;
      }
    }
    assert req.conditions[..|req.conditions|] == req.conditions;
    return true;
  }

  // ----- the machine -----

  /** Where the one worker of the request stands, with the snapshot `req` that it read. */
  datatype Pc =
    | Idle
    | AddFinalizer(req: Request)
    | Wait(req: Request)                          // writes the waiting phase
    | BuildManager(req: Request)
    | NoteManager(req: Request)                   // notes that there is no credential manager
    | Get(req: Request)
    | CreateSecret(req: Request, lease: string)
    | RevokeNew(req: Request, lease: string)      // the secret could not be created
    | Record(req: Request, lease: string, secret: string)
    | CreateRole(req: Request, secret: string)
    | CreateBinding(req: Request, secret: string)
    | Finish(req: Request)
    | Note(req: Request)                          // notes a failed call
    | RevokeOld(req: Request)                     // the cleanup, from here on
    | DeleteOld(req: Request, revoked: bool)
    | Clear(req: Request)
    | FinManager(req: Request)                    // the finalizer, from here on
    | FinRevoke(req: Request)
    | RemoveFinalizer(req: Request, skipped: bool)

  /** `versions` are the versions that the cache has not gone past: the first is what it shows,
      the last is what the API server stores. `role` is the secret that the reader role points
      to, `binding` the subjects bound to it; `requests` counts the credentials asked for;
      `client` is the Vault that the worker's credential manager talks to. */
  datatype State = State(
    versions: seq<Option<Request>>, leases: set<Lease>, secrets: set<string>,
    role: Option<string>, binding: Option<seq<string>>, requests: nat, uids: nat, client: string, pc: Pc)

  /** A live lease. Which Vault a credential manager talks to depends on the role that the spec
      refers to, and that role can change: it is part of the answer when a manager is built. */
  datatype Lease = Lease(vault: string, id: string)

  /** `id` is the lease ID of an issued credential, possibly empty, the name of a created secret,
      or the Vault of a credential manager. */
  datatype Action =
    | UserCreates(spec: Spec)
    | UserDeletes
    | EditConditions(conditions: seq<Condition>)
    | EditSpec(spec: Spec)
    | CacheCatchesUp
    | Begin
    | Answer(c: CallResult, id: string)

  predicate ByOthers(a: Action) {
    !a.Begin? && !a.Answer?
  }

  function Init(): State {
    State([None], {}, {}, None, None, 0, 0, "", Idle)
  }

  function Stored(s: State): Option<Request> {
    if s.versions == [] then None else s.versions[|s.versions| - 1]
  }

  function View(s: State): Option<Request> {
    if s.versions == [] then None else s.versions[0]
  }

  function LeaseSet(vault: string, id: Option<string>): set<Lease> {
    if id.Some? && id.value != "" then {Lease(vault, id.value)} else {}
  }

  function SecretSet(name: Option<string>): set<string> {
    if name.Some? then {name.value} else {}
  }

  /** The status updates and finalizer patches of the controller, each an atomic read, modify
      and write of the object of that name. */
  datatype Update =
    | SetFinalizer(on: bool)
    | SetPhase
    | SetFailed
    | SetManagerFailed(generation: int)
    | SetRefs(lease: string, secret: string)
    | SetIssued(generation: int)
    | ClearRefs(generation: int)

  function Apply(u: Update, o: Request): Request {
    match u
    case SetFinalizer(on) => o.(finalizer := on)
    case SetPhase => o.(phaseSet := true)
    case SetFailed => o.(conditions := SetCondition(o.conditions, ConditionFailed))
    case SetManagerFailed(g) =>
      o.(conditions := SetCondition(o.conditions, ConditionFailed), observedGeneration := g)
    case SetRefs(lease, secret) => o.(lease := Some(lease), secret := Some(secret))
    case SetIssued(g) =>
      o.(conditions := SetCondition(RemoveCondition(o.conditions, ConditionFailed), ConditionAvailable),
         observedGeneration := g)
    case ClearRefs(g) => o.(secret := None, lease := None, observedGeneration := g)
  }

  /** A deleted object that nothing holds is dropped, and what it owns in the cluster with it. */
  function Store(s: State, o: Request): State {
    if o.deleting && !o.finalizer
    then s.(versions := s.versions + [None], secrets := {}, role := None, binding := None)
    else s.(versions := s.versions + [Some(o)])
  }

  function Patch(s: State, u: Update, c: CallResult): State {
    if c.Failed? || Stored(s).None? then s else Store(s, Apply(u, Stored(s).value))
  }

  /** The worker learns that its write succeeded. */
  predicate Acknowledged(s: State, c: CallResult) {
    c.Done? && Stored(s).Some?
  }

  /** What is created for `req` stays, since its owner exists. */
  predicate OwnerExists(s: State, req: Request) {
    Stored(s).Some? && Stored(s).value.uid == req.uid
  }

  predicate HasRefs(req: Request) {
    req.lease.Some? || req.secret.Some?
  }

  /** The injector once the finalizer is set. */
  function Decide(req: Request): Pc {
    match Decision(req.conditions)
    case None => Wait(req)
    case Some(t) => if t.RequestApproved? && !Processed(req) then BuildManager(req) else Idle
  }

  /** The injector on what the cache shows. */
  function Dispatch(view: Option<Request>): Pc {
    match view
    case None => Idle
    case Some(req) =>
      if req.deleting then (if req.finalizer then FinManager(req) else Idle)
      else if req.finalizer then Decide(req)
      else AddFinalizer(req)
  }

  /** The worker's call at its position, with its answer. */
  function Work(s: State, c: CallResult, id: string): State {
    var made, done := !c.Failed?, c.Done?;
    match s.pc
    case Idle => s
    case AddFinalizer(req) =>
      Patch(s, SetFinalizer(true), c).(pc := if Acknowledged(s, c) then Decide(req) else Idle)
    case Wait(_) => Patch(s, SetPhase, c).(pc := Idle)
    case BuildManager(req) =>
      s.(client := if done then id else s.client,
         pc := if !done then NoteManager(req) else if HasRefs(req) then RevokeOld(req) else Get(req))
    case NoteManager(req) => Patch(s, SetManagerFailed(req.generation), c).(pc := Idle)
    case Get(req) =>
      s.(requests := s.requests + 1,
         leases := if made then s.leases + LeaseSet(s.client, Some(id)) else s.leases,
         pc := if done then CreateSecret(req, id) else Note(req))
    case CreateSecret(req, lease) =>
      s.(secrets := if made && OwnerExists(s, req) then s.secrets + {id} else s.secrets,
         pc := if done then Record(req, lease, id) else if lease != "" then RevokeNew(req, lease) else Note(req))
    case RevokeNew(req, lease) =>
      s.(leases := if made then s.leases - LeaseSet(s.client, Some(lease)) else s.leases,
         pc := if done then Note(req) else RevokeOld(req))
    case Record(req, lease, secret) =>
      Patch(s, SetRefs(lease, secret), c).(pc := if Acknowledged(s, c) then CreateRole(req, secret) else RevokeOld(req))
    case CreateRole(req, secret) =>
      s.(role := if made && (OwnerExists(s, req) || s.role.Some?) then Some(secret) else s.role,
         pc := if done then CreateBinding(req, secret) else Note(req))
    case CreateBinding(req, _) =>
      s.(binding := if made && (OwnerExists(s, req) || s.binding.Some?) then Some(req.spec.subjects) else s.binding,
         pc := if done then Finish(req) else Note(req))
    case Finish(req) =>
      Patch(s, SetIssued(req.generation), c).(pc := if Acknowledged(s, c) then Idle else RevokeOld(req))
    case Note(req) => Patch(s, SetFailed, c).(pc := RevokeOld(req))
    case RevokeOld(req) =>
      s.(leases := if made then s.leases - LeaseSet(s.client, req.lease) else s.leases,
         pc := DeleteOld(req, done || LeaseSet(s.client, req.lease) == {}))
    case DeleteOld(req, revoked) =>
      s.(secrets := if made then s.secrets - SecretSet(req.secret) else s.secrets,
         pc := if revoked && (done || req.secret.None?) then Clear(req) else Idle)
    case Clear(req) => Patch(s, ClearRefs(req.generation), c).(pc := Idle)
    case FinManager(req) =>
      s.(client := if done then id else s.client, pc := if done then FinRevoke(req) else RemoveFinalizer(req, true))
    case FinRevoke(req) =>
      s.(leases := if made then s.leases - LeaseSet(s.client, req.lease) else s.leases,
         pc := if done || LeaseSet(s.client, req.lease) == {} then RemoveFinalizer(req, false) else Idle)
    case RemoveFinalizer(_, _) => Patch(s, SetFinalizer(false), c).(pc := Idle)
  }

  /** An approve or deny condition is present, true or not. */
  predicate Frozen(obj: Request) {
    Has(obj.conditions, RequestApproved) || Has(obj.conditions, RequestDenied)
  }

  /** The rule of the validating webhook for an update from `old_` to `new_`. */
  predicate Admissible(old_: Request, new_: Request) {
    Frozen(new_) ==> old_.spec == new_.spec
  }

  /** What users do: updates of the status subresource carry the stored spec; updates of the
      object itself carry the stored status and pass the webhook. */
  function ByUsers(s: State, a: Action): State {
    var o := Stored(s);
    match a
    case UserCreates(spec) =>
      if o.Some? then s
      else
        s.(versions := s.versions + [Some(Request(s.uids, false, false, spec, 1, [], None, None, false, 0))],
           uids := s.uids + 1)
    case UserDeletes => if o.None? then s else Store(s, o.value.(deleting := true))
    case EditConditions(cs) => if o.None? then s else Store(s, o.value.(conditions := cs))
    case EditSpec(spec) =>
      if o.None? then s
      else
        var new_ := o.value.(spec := spec, generation := o.value.generation + 1);
        if Admissible(o.value, new_) then Store(s, new_) else s
    case CacheCatchesUp => if |s.versions| > 1 then s.(versions := s.versions[1..]) else s
    case _ => s
  }

  function Next(s: State, a: Action): State {
    match a
    case Begin => if s.pc.Idle? then s.(pc := Dispatch(View(s))) else s
    case Answer(c, id) => Work(s, c, id)
    case _ => ByUsers(s, a)
  }

  function After(s: State, acts: seq<Action>): State {
    if acts == [] then s else Next(After(s, acts[..|acts| - 1]), acts[|acts| - 1])
  }

  lemma AfterOneMore(s: State, acts: seq<Action>, a: Action)
    ensures After(s, acts + [a]) == Next(After(s, acts), a)
  {
    hide Next;
    assert (acts + [a])[..|acts|] == acts;
  }

  lemma AfterNext(s: State, acts: seq<Action>, n: nat)
    requires n < |acts|
    ensures After(s, acts[..n + 1]) == Next(After(s, acts[..n]), acts[n])
  {
    assert acts[..n + 1] == acts[..n] + [acts[n]];
    AfterOneMore(s, acts[..n], acts[n]);
  }

  lemma {:induction false} AfterAppend(s: State, xs: seq<Action>, ys: seq<Action>)
    ensures After(s, xs + ys) == After(After(s, xs), ys)
    decreases |ys|
  {
    hide Next;
    if ys == [] {
      assert xs + ys == xs;
    } else {
      var ys' := ys[..|ys| - 1];
      AfterAppend(s, xs, ys');
      assert (xs + ys)[..|xs + ys| - 1] == xs + ys';
    }
  }
}
