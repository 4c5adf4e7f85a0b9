/** Concrete runs of the access-request machine in which a lease, a secret or an approval goes
    astray. */
module AccessExamples {
  import opened Results
  import opened AccessRequest
  import opened AccessLaws
  import opened AccessLeases
  import opened AccessRuns

  const BY_ALICE := Spec(["alice"], "")
  const BY_BOB := Spec(["bob"], "")
  const YES := [Condition(RequestApproved, true)]

  /** Alice's request as created and as approved. */
  const CREATED := Request(0, false, false, BY_ALICE, 1, [], None, None, false, 0)
  const APPROVED_FOR_ALICE := CREATED.(conditions := YES)

  /** The worker's calls from reading an approved version to binding the secret. */
  function IssueActs(lease: string, secret: string): seq<Action> {
    [Begin, Answer(Done, ""), Answer(Done, ""), Answer(Done, lease), Answer(Done, secret),
     Answer(Done, ""), Answer(Done, ""), Answer(Done, "")]
  }

  lemma ApprovedAlice()
    ensures Approved(APPROVED_FOR_ALICE) && !HasRefs(APPROVED_FOR_ALICE) && !APPROVED_FOR_ALICE.finalizer
    ensures Decide(APPROVED_FOR_ALICE) == BuildManager(APPROVED_FOR_ALICE)
  {
    assert YES[1..] == [];
    assert Decision(YES) == Some(RequestApproved);
  }

  lemma Issue(s: State, o: Request, lease: string, secret: string)
    requires s.pc.Idle? && View(s) == Some(APPROVED_FOR_ALICE) && Stored(s) == Some(o)
    requires o.uid == 0 && !o.deleting && lease != ""
    ensures var o1 := o.(finalizer := true); var o2 := o1.(lease := Some(lease), secret := Some(secret));
      After(s, IssueActs(lease, secret)) ==
      State(s.versions + [Some(o1)] + [Some(o2)], s.leases + {Lease("", lease)}, s.secrets + {secret},
            Some(secret), Some(["alice"]), s.requests + 1, s.uids, "", Finish(APPROVED_FOR_ALICE))
  {
    var acts := IssueFirst(s, o, lease, secret);
    IssueRest(s, acts, o, lease, secret);
    hide After;
    assert acts + [Answer(Done, ""), Answer(Done, ""), Answer(Done, "")] == IssueActs(lease, secret);
  }

  lemma IssueFirst(s: State, o: Request, lease: string, secret: string) returns (acts: seq<Action>)
    requires s.pc.Idle? && View(s) == Some(APPROVED_FOR_ALICE) && Stored(s) == Some(o)
    requires o.uid == 0 && !o.deleting && lease != ""
    ensures acts == [Begin, Answer(Done, ""), Answer(Done, ""), Answer(Done, lease), Answer(Done, secret)]
    ensures After(s, acts) == s.(versions := s.versions + [Some(o.(finalizer := true))],
                                 leases := s.leases + {Lease("", lease)}, secrets := s.secrets + {secret},
                                 requests := s.requests + 1, client := "", pc := Record(APPROVED_FOR_ALICE, lease, secret))
  {
    ApprovedAlice();
    AfterOneMore(s, [], Begin);
    assert [] + [Begin] == [Begin] && After(s, []) == s;
    hide After, Decide, Approved;
    acts := [Begin];
    acts := Proceed(s, acts, "");
    acts := Proceed(s, acts, "");
    acts := Proceed(s, acts, lease);
    acts := Proceed(s, acts, secret);
  }

  lemma IssueRest(s: State, acts: seq<Action>, o: Request, lease: string, secret: string)
    requires After(s, acts).pc == Record(APPROVED_FOR_ALICE, lease, secret)
    requires o.uid == 0 && !o.deleting && Stored(After(s, acts)) == Some(o.(finalizer := true))
    ensures var t, o2 := After(s, acts), o.(finalizer := true, lease := Some(lease), secret := Some(secret));
      After(s, acts + [Answer(Done, ""), Answer(Done, ""), Answer(Done, "")]) ==
      t.(versions := t.versions + [Some(o2)], role := Some(secret), binding := Some(["alice"]),
         pc := Finish(APPROVED_FOR_ALICE))
  {
    hide After;
    var more := Proceed(s, acts, "");
    more := Proceed(s, more, "");
    more := Proceed(s, more, "");
    assert more == acts + [Answer(Done, ""), Answer(Done, ""), Answer(Done, "")];
  }

  /** The users create and approve; the cache follows. */
  function ApproveActs(): seq<Action> {
    [UserCreates(BY_ALICE), EditConditions(YES), CacheCatchesUp, CacheCatchesUp]
  }

  function AfterApproval(): State {
    Init().(versions := [Some(APPROVED_FOR_ALICE)], uids := 1)
  }

  lemma ApproveRun()
    ensures After(Init(), ApproveActs()) == AfterApproval()
  {
    var a := ApproveActs();
    assert a[..0] == [];
    AfterNext(Init(), a, 0);
    AfterNext(Init(), a, 1);
    AfterNext(Init(), a, 2);
    AfterNext(Init(), a, 3);
    hide After;
    assert a[..4] == a;
  }

  /** Alice's request with the credential recorded. */
  function Recorded(lease: string, secret: string): Request {
    APPROVED_FOR_ALICE.(finalizer := true, lease := Some(lease), secret := Some(secret))
  }

  /** The first issue, up to the last status update. */
  function FirstIssue(): State {
    State([Some(APPROVED_FOR_ALICE), Some(APPROVED_FOR_ALICE.(finalizer := true)), Some(Recorded("lease", "secret"))],
          {Lease("", "lease")}, {"secret"}, Some("secret"), Some(["alice"]), 1, 1, "", Finish(APPROVED_FOR_ALICE))
  }

  lemma FirstIssueRun()
    ensures After(Init(), ApproveActs() + IssueActs("lease", "secret")) == FirstIssue()
  {
    ApproveRun();
    Issue(AfterApproval(), APPROVED_FOR_ALICE, "lease", "secret");
    AfterAppend(Init(), ApproveActs(), IssueActs("lease", "secret"));
    hide After, ApproveActs, IssueActs;
  }

  /** An approved request whose last status update fails: the cleanup clears the references it
      does not know to be new. The lease stays live and the secret readable by Alice, and the
      request mentions neither. */
  lemma LateFailureLeavesCredential()
    ensures var s := After(Init(), ApproveActs() + IssueActs("lease", "secret") +
                                   [Answer(Failed, ""), Answer(Done, ""), Answer(Done, ""), Answer(Done, "")]);
      && s.pc.Idle? && Orphans(s) == {Lease("", "lease")} && Strays(s) == {"secret"}
      && s.role == Some("secret") && s.binding == Some(["alice"])
  {
    var acts := ApproveActs() + IssueActs("lease", "secret");
    FirstIssueRun();
    AfterOneMore(Init(), acts, Answer(Failed, ""));
    hide After, ApproveActs, IssueActs;
    var more := acts + [Answer(Failed, "")];
    more := Proceed(Init(), more, "");
    more := Proceed(Init(), more, "");
    more := Proceed(Init(), more, "");
    FailedFinish();
    assert more == acts + [Answer(Failed, ""), Answer(Done, ""), Answer(Done, ""), Answer(Done, "")];
    hide Work;
  }

  lemma FailedFinish()
    ensures var s := FirstIssue();
      Work(Work(Work(Work(s, Failed, ""), Done, ""), Done, ""), Done, "") ==
      s.(versions := s.versions + [Some(Recorded("", "").(lease := None, secret := None, observedGeneration := 1))],
         pc := Idle)
  {
    var s1 := Work(FirstIssue(), Failed, "");
    var s2 := Work(Work(s1, Done, ""), Done, "");
    assert s2 == FirstIssue().(pc := Clear(APPROVED_FOR_ALICE));
    hide SetCondition, RemoveCondition, Has;
  }

  /** After a successful issue, a worker whose cache still shows the approved version as it was
      before asks for a second credential and overwrites the first. */
  lemma StaleSnapshotIssuesAgain()
    ensures var acts := ApproveActs() + IssueActs("lease", "secret") + [Answer(Done, "")];
      var s := After(Init(), acts); var t := After(Init(), acts + IssueActs("lease-2", "secret-2") + [Answer(Done, "")]);
      && s.pc.Idle? && Stored(s).Some? && Settled(Stored(s).value) && Orphans(s) == {}
      && t.pc.Idle? && t.requests == 2 && Orphans(t) == {Lease("", "lease")} && Strays(t) == {"secret"}
  {
    var acts := ApproveActs() + IssueActs("lease", "secret");
    FirstIssueRun();
    AfterOneMore(Init(), acts, Answer(Done, ""));
    IssuedIsSettled(acts, Done, "");
    hide After, Settled, ApproveActs, IssueActs;
    var more := acts + [Answer(Done, "")];
    var s1 := After(Init(), more);
    SuccessfulFinish();
    Issue(s1, Stored(s1).value, "lease-2", "secret-2");
    AfterAppend(Init(), more, IssueActs("lease-2", "secret-2"));
    AfterOneMore(Init(), more + IssueActs("lease-2", "secret-2"), Answer(Done, ""));
    SecondFinish(After(s1, IssueActs("lease-2", "secret-2")));
    hide Work;
  }

  lemma SuccessfulFinish()
    ensures var s, t := FirstIssue(), Work(FirstIssue(), Done, "");
      && t.pc.Idle? && View(t) == View(s) && t.versions[..3] == s.versions && t.leases == s.leases && t.secrets == s.secrets
      && t.requests == 1 && Stored(t).Some? && Stored(t).value.uid == 0 && !Stored(t).value.deleting
      && Mentioned(t) == {Lease("", "lease")}
  {
  }

  lemma SecondFinish(s: State)
    requires s.pc == Finish(APPROVED_FOR_ALICE) && Stored(s).Some? && !Stored(s).value.deleting
    ensures var t := Work(s, Done, "");
      && t.pc.Idle? && t.requests == s.requests && t.leases == s.leases && t.secrets == s.secrets && Stored(t).Some?
      && Stored(t).value.lease == Stored(s).value.lease && Stored(t).value.secret == Stored(s).value.secret
  {
  }

  /** The approval is withdrawn, the spec changed to Bob, and approved again; the cache still
      shows the first approval. The secret is bound to Alice, while the approved and frozen
      spec names Bob. */
  function ReapproveActs(): seq<Action> {
    [EditConditions([]), EditSpec(BY_BOB), EditConditions(YES)]
  }

  lemma ReapproveRun()
    ensures var o := CREATED.(spec := BY_BOB, generation := 2);
      After(AfterApproval(), ReapproveActs()) ==
      AfterApproval().(versions := [Some(APPROVED_FOR_ALICE), Some(CREATED), Some(o), Some(o.(conditions := YES))])
  {
    var a, s := ReapproveActs(), AfterApproval();
    assert a[..0] == [];
    AfterNext(s, a, 0);
    AfterNext(s, a, 1);
    AfterNext(s, a, 2);
    hide After;
    assert a[..3] == a;
    assert !Frozen(CREATED.(spec := BY_BOB, generation := 2));
  }

  lemma StaleApprovalBindsOthers()
    ensures var s := After(Init(), ApproveActs() + ReapproveActs() + IssueActs("lease", "secret"));
      && s.binding == Some(["alice"])
      && FrozenAt(s) && Decision(Stored(s).value.conditions) == Some(RequestApproved)
      && Stored(s).value.spec == BY_BOB
  {
    var o := CREATED.(spec := BY_BOB, generation := 2, conditions := YES);
    ApproveRun();
    ReapproveRun();
    AfterAppend(Init(), ApproveActs(), ReapproveActs());
    var s := After(Init(), ApproveActs() + ReapproveActs());
    Issue(s, o, "lease", "secret");
    AfterAppend(Init(), ApproveActs() + ReapproveActs(), IssueActs("lease", "secret"));
    hide After, ApproveActs, IssueActs, ReapproveActs;
    assert YES[0].typ == RequestApproved;
    assert Decision(YES) == Some(RequestApproved) by {
      assert YES[1..] == [];
    }
  }

  /** A finalizer whose role refers to another Vault by now: every call succeeds, the object
      goes, and the lease stays where it was issued. */
  lemma EditedRoleLosesLease(s: State, lease: Lease, other: string)
    requires s.pc.FinManager? && s.pc.req.lease == Some(lease.id) && Stored(s).Some?
    requires Stored(s).value.deleting && Stored(s).value.finalizer && Mentions(s, lease.id)
    requires lease in s.leases && lease.vault != other
    ensures var t := Work(Work(Work(s, Done, other), Done, ""), Done, "");
      && t.pc.Idle? && Stored(t).None? && lease in t.leases && lease in Orphans(t)
  {
  }
}
