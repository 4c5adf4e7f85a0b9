/** The code of the access-request controller, call by call, as a run of the machine. */
module AccessController {
  import opened Results
  import opened AccessRequest

  /** Vault, the cluster and the cache as one worker meets them. Every method that makes a call
      lets the others act first and then gets an arbitrary answer; it demands that the worker
      has come to that call. */
  class Controller {
    var versions: seq<Option<Request>>
    var leases: set<Lease>
    var secrets: set<string>
    var role: Option<string>
    var binding: Option<seq<string>>
    var requests: nat
    var uids: nat
    var client: string
    ghost var pc: Pc
    ghost var acts: seq<Action>

    constructor ()
      ensures Valid() && pc.Idle? && acts == []
    {
      versions, leases, secrets, role, binding, requests, uids, client := [None], {}, {}, None, None, 0, 0, "";
      pc, acts := Idle, [];
    }

    ghost function Abs(): State
      reads this
    {
      State(versions, leases, secrets, role, binding, requests, uids, client, pc)
    }

    /** Everything that happened so far is a run of the machine. */
    ghost predicate Valid()
      reads this
    {
      Abs() == After(Init(), acts)
    }

    ghost method Record(a: Action)
      requires Valid()
      modifies this`pc, this`acts
      ensures acts == old(acts) + [a] && After(Init(), acts) == Next(old(Abs()), a)
      ensures pc == Next(old(Abs()), a).pc
    {
      AfterOneMore(Init(), acts, a);
      pc, acts := Next(Abs(), a).pc, acts + [a];
    }

    /** Users and cache move arbitrarily. */
    method OthersAct()
      requires Valid()
      modifies this
      ensures Valid() && old(acts) <= acts && pc == old(pc) && leases == old(leases) && requests == old(requests) && client == old(client)
    {
      var events: seq<Action> := *;
      for n := 0 to |events|
        invariant Valid() && old(acts) <= acts && pc == old(pc) && leases == old(leases) && requests == old(requests) && client == old(client)
      {
        if ByOthers(events[n]) {
          hide After, Next;
          OthersKeepWorker(Abs(), events[n]);
          hide ByUsers;
          var t := ByUsers(State(versions, leases, secrets, role, binding, requests, uids, client, Idle), events[n]);
          Record(events[n]);
          versions, secrets, role, binding, uids := t.versions, t.secrets, t.role, t.binding, t.uids;
        }
      }
    }

    /** Reads the cache. */
    method Read() returns (o: Option<Request>)
      requires Valid() && pc.Idle?
      modifies this
      ensures Valid() && old(acts) <= acts && pc == Dispatch(o) && requests == old(requests)
    {
      OthersAct();
      o := View(State(versions, leases, secrets, role, binding, requests, uids, client, Idle));
      Record(Begin);
      hide After;
    }

    /** A status update or finalizer patch: one atomic read, modify and write of the stored object. */
    method UpdateStored(u: Update) returns (ok: bool)
      requires Valid() && Updates(pc, u)
      modifies this
      ensures Valid() && old(acts) <= acts && requests == old(requests) && pc == AfterWrite(old(pc), ok)
    {
      OthersAct();
      var c: CallResult := *;
      WriteStep(Abs(), u, c);
      var s := State(versions, leases, secrets, role, binding, requests, uids, client, Idle);
      ok := Acknowledged(s, c);
      var t := Patch(s, u, c);
      hide After, Work, Patch;
      Record(Answer(c, ""));
      versions, secrets, role, binding := t.versions, t.secrets, t.role, t.binding;
    }

    /** The credential manager, in the injector and in the finalizer. */
    method NewCredentialManager() returns (ok: bool)
      requires Valid() && (pc.BuildManager? || pc.FinManager?)
      modifies this
      ensures Valid() && old(acts) <= acts && requests == old(requests)
      ensures pc == match old(pc)
                    case BuildManager(req) =>
                      if !ok then NoteManager(req) else if HasRefs(req) then RevokeOld(req) else Get(req)
                    case _ => if ok then FinRevoke(old(pc).req) else RemoveFinalizer(old(pc).req, true)
    {
      hide After;
      OthersAct();
      var c: CallResult, vault: string := *, *;
      ok := c.Done?;
      Record(Answer(c, vault));
      client := if ok then vault else client;
    }

    method GetCredential() returns (ok: bool, id: string)
      requires Valid() && pc.Get?
      modifies this
      ensures Valid() && old(acts) <= acts && requests == old(requests) + 1
      ensures pc == if ok then CreateSecret(old(pc).req, id) else Note(old(pc).req)
    {
      hide After;
      OthersAct();
      var c: CallResult := *;
      ok, id := c.Done?, *;
      Record(Answer(c, id));
      requests := requests + 1;
      leases := if c.Failed? then leases else leases + LeaseSet(client, Some(id));
    }

    method CreateK8sSecret(req: Request, name: string) returns (ok: bool)
      requires Valid() && pc.CreateSecret? && pc.req == req
      modifies this
      ensures Valid() && old(acts) <= acts && requests == old(requests)
      ensures pc == if ok then AccessRequest.Record(req, old(pc).lease, name)
                    else if old(pc).lease != "" then RevokeNew(req, old(pc).lease) else Note(req)
    {
      hide After;
      OthersAct();
      var c: CallResult := *;
      ok := c.Done?;
      var s := State(versions, leases, secrets, role, binding, requests, uids, client, Idle);
      Record(Answer(c, name));
      secrets := if !c.Failed? && OwnerExists(s, req) then secrets + {name} else secrets;
    }

    /** Revokes the lease of a credential that could not be stored. */
    method RevokeNewLease(id: string) returns (ok: bool)
      requires Valid() && pc.RevokeNew? && pc.lease == id
      modifies this
      ensures Valid() && old(acts) <= acts && requests == old(requests)
      ensures pc == if ok then Note(old(pc).req) else RevokeOld(old(pc).req)
      ensures ok ==> leases == old(leases) - LeaseSet(client, Some(id))
    {
      hide After;
      OthersAct();
      var c: CallResult := *;
      ok := c.Done?;
      Record(Answer(c, ""));
      leases := if c.Failed? then leases else leases - LeaseSet(client, Some(id));
    }

    /** `revokeLease`: nothing to do without a lease ID. */
    method RevokeLease(lease: Option<string>) returns (ok: bool)
      requires Valid() && (pc.RevokeOld? || pc.FinRevoke?) && lease == pc.req.lease
      modifies this
      ensures Valid() && old(acts) <= acts && requests == old(requests)
      ensures pc == if old(pc).RevokeOld? then DeleteOld(old(pc).req, ok)
                    else if ok then RemoveFinalizer(old(pc).req, false) else Idle
      ensures ok ==> leases == old(leases) - LeaseSet(client, lease)
      ensures LeaseSet(client, lease) == {} ==> ok
    {
      hide After;
      if lease.None? {
        Record(Answer(Done, ""));
        return true;
      }
      if lease.value == "" {
        Record(Answer(Done, ""));
        return true;
      }
      ok := RevokeById(lease.value);
    }

    /** The credential manager's `RevokeLease`. */
    method RevokeById(id: string) returns (ok: bool)
      requires Valid() && (pc.RevokeOld? || pc.FinRevoke?) && id != "" && pc.req.lease == Some(id)
      modifies this
      ensures Valid() && old(acts) <= acts && requests == old(requests)
      ensures pc == if old(pc).RevokeOld? then DeleteOld(old(pc).req, ok)
                    else if ok then RemoveFinalizer(old(pc).req, false) else Idle
      ensures ok ==> leases == old(leases) - {Lease(client, id)}
    {
      hide After;
      OthersAct();
      var c: CallResult := *;
      ok := c.Done?;
      Record(Answer(c, ""));
      leases := if c.Failed? then leases else leases - {Lease(client, id)};
    }

    /** `deleteCredSecretForAWSAccessKeyRequest`. */
    method DeleteCredSecret(req: Request) returns (ok: bool)
      requires Valid() && pc.DeleteOld? && pc.req == req
      modifies this
      ensures Valid() && old(acts) <= acts && requests == old(requests)
      ensures pc == if old(pc).revoked && ok then AccessRequest.Clear(req) else Idle
      ensures ok ==> SecretSet(req.secret) !! secrets
      ensures req.secret.None? ==> ok
    {
      hide After;
      if req.secret.None? {
        Record(Answer(Done, ""));
        return true;
      }
      OthersAct();
      var c: CallResult := *;
      ok := c.Done?;
      Record(Answer(c, ""));
      secrets := if c.Failed? then secrets else secrets - {req.secret.value};
    }

    method CreateReaderRole(req: Request, secret: string) returns (ok: bool)
      requires Valid() && pc == CreateRole(req, secret)
      modifies this
      ensures Valid() && old(acts) <= acts && requests == old(requests)
      ensures pc == if ok then CreateBinding(req, secret) else Note(req)
    {
      hide After;
      OthersAct();
      var c: CallResult := *;
      ok := c.Done?;
      var s := State(versions, leases, secrets, role, binding, requests, uids, client, Idle);
      Record(Answer(c, ""));
      role := if !c.Failed? && (OwnerExists(s, req) || role.Some?) then Some(secret) else role;
    }

    method CreateReaderBinding(req: Request, subjects: seq<string>) returns (ok: bool)
      requires Valid() && pc.CreateBinding? && pc.req == req && subjects == req.spec.subjects
      modifies this
      ensures Valid() && old(acts) <= acts && requests == old(requests)
      ensures pc == if ok then Finish(req) else Note(req)
    {
      hide After;
      OthersAct();
      var c: CallResult := *;
      ok := c.Done?;
      var s := State(versions, leases, secrets, role, binding, requests, uids, client, Idle);
      Record(Answer(c, ""));
      binding := if !c.Failed? && (OwnerExists(s, req) || binding.Some?) then Some(subjects) else binding;
    }

    /** `runAWSAccessKeyRequestInjector`. A run asks for at most one credential. */
    method RunInjector()
      requires Valid() && pc.Idle?
      modifies this
      ensures Valid() && pc.Idle? && old(acts) <= acts
      ensures requests <= old(requests) + 1
    {
      hide After, Work, Init;
      var o := Read();
      if o.None? {
        return;
      }
      var req := o.value;
      if req.deleting {
        if req.finalizer {
          RunFinalizer(req);
        }
        return;
      }
      if !req.finalizer {
        var ok := UpdateStored(SetFinalizer(true));
        if !ok {
          return;
        }
      }
      var condType := DecisionLoop(req.conditions);
      if condType.None? {
        var _ := UpdateStored(SetPhase);
        return;
      }
      if condType.value.RequestApproved? {
        var processed := SuccessfullyProcessed(req);
        if processed {
          return;
        }
        RunApproved(req);
      }
    }

    /** The approved case: reconcile, and the cleanup after a failure, which knows only the
        snapshot. */
    method RunApproved(req: Request)
      requires Valid() && pc == BuildManager(req)
      modifies this
      ensures Valid() && pc.Idle? && old(acts) <= acts && requests <= old(requests) + 1
    {
      hide After, Work, Init;
      var manager := NewCredentialManager();
      if !manager {
        var _ := UpdateStored(SetManagerFailed(req.generation));
        return;
      }
      var err := ReconcileRequest(req);
      if err {
        var ok1 := RevokeLease(req.lease);
        var ok2 := DeleteCredSecret(req);
        if !ok1 || !ok2 {
          return;
        }
        var _ := UpdateStored(ClearRefs(req.generation));
      }
    }

    /** `reconcileAWSAccessKeyRequest`. */
    method ReconcileRequest(req: Request) returns (err: bool)
      requires Valid() && pc == if HasRefs(req) then RevokeOld(req) else Get(req)
      modifies this
      ensures Valid() && old(acts) <= acts && pc == if err then RevokeOld(req) else Idle
      ensures requests == old(requests) + if HasRefs(req) then 0 else 1
    {
      hide After, Work, Init;
      err := true;
      if req.lease.Some? || req.secret.Some? {
        return;
      }
      var ok, id := GetCredential();
      if !ok {
        ok := UpdateStored(SetFailed);
        return;
      }
      err := StoreCredential(req, id);
    }

    /** The first half of what follows the issue: the secret, and the references in the status. */
    method StoreCredential(req: Request, id: string) returns (err: bool)
      requires Valid() && pc == CreateSecret(req, id)
      modifies this
      ensures Valid() && old(acts) <= acts && requests == old(requests)
      ensures pc == if err then RevokeOld(req) else Idle
    {
      hide After, Work, Init;
      err := true;
      var name: string := *;
      var ok := CreateK8sSecret(req, name);
      if !ok {
        if |id| != 0 {
          ok := RevokeNewLease(id);
          if !ok {
            return;
          }
        }
        ok := UpdateStored(SetFailed);
        return;
      }
      ok := UpdateStored(SetRefs(id, name));
      if !ok {
        return;
      }
      err := GrantAccess(req, name);
    }

    /** The second half of the reconcile: reader role, binding, final status. */
    method GrantAccess(req: Request, name: string) returns (err: bool)
      requires Valid() && pc == CreateRole(req, name)
      modifies this
      ensures Valid() && old(acts) <= acts && requests == old(requests)
      ensures pc == if err then RevokeOld(req) else Idle
    {
      hide After, Work, Init;
      err := true;
      var ok := CreateReaderRole(req, name);
      if !ok {
        ok := UpdateStored(SetFailed);
        return;
      }
      ok := CreateReaderBinding(req, req.spec.subjects);
      if !ok {
        ok := UpdateStored(SetFailed);
        return;
      }
      ok := UpdateStored(SetIssued(req.generation));
      err := !ok;
    }

    /** `runAWSAccessKeyRequestFinalizer`. */
    method RunFinalizer(req: Request)
      requires Valid() && pc == FinManager(req)
      modifies this
      ensures Valid() && pc.Idle? && old(acts) <= acts && requests == old(requests)
    {
      hide After, Work, Init;
      var ok := NewCredentialManager();
      if ok {
        ok := RevokeLease(req.lease);
        if !ok {
          return;
        }
      }
      var _ := UpdateStored(SetFinalizer(false));
    }
  }

  // ----- what the steps amount to -----

  lemma OthersKeepWorker(s: State, a: Action)
    requires ByOthers(a)
    ensures var t := ByUsers(s.(pc := Idle), a);
      Next(s, a) == t.(pc := s.pc) && t.leases == s.leases && t.requests == s.requests && t.client == s.client
  {
  }

  /** The write that is due at a position. */
  predicate Updates(pc: Pc, u: Update) {
    match pc
    case AddFinalizer(_) => u == SetFinalizer(true)
    case RemoveFinalizer(_, _) => u == SetFinalizer(false)
    case Wait(_) => u == SetPhase
    case NoteManager(req) => u == SetManagerFailed(req.generation)
    case Record(_, lease, secret) => u == SetRefs(lease, secret)
    case Finish(req) => u == SetIssued(req.generation)
    case Note(_) => u == SetFailed
    case Clear(req) => u == ClearRefs(req.generation)
    case _ => false
  }

  function AfterWrite(pc: Pc, ok: bool): Pc {
    match pc
    case AddFinalizer(req) => if ok then Decide(req) else Idle
    case Record(req, _, secret) => if ok then CreateRole(req, secret) else RevokeOld(req)
    case Finish(req) => if ok then Idle else RevokeOld(req)
    case Note(req) => RevokeOld(req)
    case _ => Idle
  }

  lemma WriteStep(s: State, u: Update, c: CallResult)
    requires Updates(s.pc, u)
    ensures var t := Patch(s.(pc := Idle), u, c);
      && Work(s, c, "") == t.(pc := AfterWrite(s.pc, Acknowledged(s, c)))
      && t.leases == s.leases && t.requests == s.requests && t.uids == s.uids && t.client == s.client
      && Acknowledged(s, c) == Acknowledged(s.(pc := Idle), c)
  {
    PatchElsewhere(s, u, c);
    hide Patch, Decide;
  }

  lemma PatchElsewhere(s: State, u: Update, c: CallResult)
    ensures var t := Patch(s, u, c);
      && Patch(s.(pc := Idle), u, c) == t.(pc := Idle)
      && t.leases == s.leases && t.requests == s.requests && t.uids == s.uids && t.client == s.client
  {
    hide Apply;
  }
}
