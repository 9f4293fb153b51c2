/**
 The audit trail as a history of a wallet's policy.

 An update reads the old policy, writes the new one and records both, in separate steps.
 A write is stale when the policy stored at that instant is no longer the one its update
 has read. Recording is in order when every write of a wallet is recorded, in the order of
 the writes.
 */
module WalletHistory {
  import opened Results
  import opened Identifiers
  import opened Policies
  import opened WalletTables
  import opened WalletRuns

  /** Replays the recorded changes of one wallet; fails where an event does not start from what the last one left. */
  function Replayed(audit: seq<Audit>, id: Id, initial: Policy): Option<Policy>
  {
    if audit == [] then Some(initial)
    else
      var n := |audit| - 1;
      var sofar := Replayed(audit[..n], id, initial);
      if audit[n].PolicyChanged? && audit[n].wallet == id then
        if sofar == Some(audit[n].before) then Some(Rounded(audit[n].after)) else None
      else sofar
  }

  predicate Written(p: Process, id: Id) {
    p.PolicyWritten? && p.wallet == id
  }

  /** Some update of this wallet is between its write and its record. */
  ghost predicate Recording(s: World, id: Id)
  {
    exists pid :: pid in s.procs && Written(s.procs[pid], id)
  }

  /** The step is a successful write of this wallet's policy. */
  predicate Writes(s: World, step: Step, id: Id)
  {
    && step.PolicyWrite? && step.pid in s.procs && s.procs[step.pid].PolicySeen? && s.procs[step.pid].wallet == id
    && UpdatePolicyTx(s.t, id, s.procs[step.pid].policy).1.Ok?
  }

  /** A write over a policy that its update has not seen. */
  predicate Stale(s: World, step: Step, id: Id) {
    Writes(s, step, id) && !(id in s.t.policies && s.procs[step.pid].before == s.t.policies[id])
  }

  /** The step ends an update of this wallet after its write and before its record. */
  predicate LosesRecord(s: World, step: Step, id: Id)
  {
    && (step.Crash? || (step.PolicyAudit? && !step.audited))
    && step.pid in s.procs && Written(s.procs[step.pid], id)
  }

  /** The step puts a write of this wallet on record. */
  predicate Records(s: World, step: Step, id: Id) {
    step.PolicyAudit? && step.audited && step.pid in s.procs && Written(s.procs[step.pid], id)
  }

  /** The updates of this wallet that have written and are not on record, in the order of their writes. */
  function Queue(c: Service, users: set<string>, steps: seq<Step>, id: Id): seq<Pid>
  {
    if steps == [] then []
    else
      var n := |steps| - 1;
      var s, q := Exec(c, Start(users), steps[..n]), Queue(c, users, steps[..n], id);
      Queued(s, steps[n], id, q)
  }

  function Queued(s: World, step: Step, id: Id, q: seq<Pid>): seq<Pid>
  {
    if Writes(s, step, id) then q + [step.pid]
    else if Records(s, step, id) && q != [] then q[1..]
    else q
  }

  /** The step loses no record of this wallet and records no write before an earlier one. */
  predicate KeepsOrder(s: World, step: Step, id: Id, q: seq<Pid>) {
    !LosesRecord(s, step, id) && (Records(s, step, id) ==> q != [] && step.pid == q[0])
  }

  /** Every write of this wallet is recorded, in the order of the writes. */
  ghost predicate InOrder(c: Service, users: set<string>, steps: seq<Step>, id: Id)
  {
    steps == [] ||
    var n := |steps| - 1;
    && InOrder(c, users, steps[..n], id)
    && KeepsOrder(Exec(c, Start(users), steps[..n]), steps[n], id, Queue(c, users, steps[..n], id))
  }

  /** Some write of this wallet in the run was stale. */
  predicate WroteStale(c: Service, users: set<string>, steps: seq<Step>, id: Id)
  {
    steps != [] &&
    var n := |steps| - 1;
    WroteStale(c, users, steps[..n], id) || Stale(Exec(c, Start(users), steps[..n]), steps[n], id)
  }

  /** The queue holds exactly the updates that have written and are not on record. */
  ghost predicate QueueOk(s: World, id: Id, q: seq<Pid>)
  {
    && (forall pid :: pid in q <==> pid in s.procs && Written(s.procs[pid], id))
    && (forall i, j :: 0 <= i < j < |q| ==> q[i] != q[j])
  }

  /** The records still to come. */
  function Due(s: World, id: Id, q: seq<Pid>): seq<Audit>
    requires forall pid <- q :: pid in s.procs && s.procs[pid].PolicyWritten?
  {
    seq(|q|, i requires 0 <= i < |q| => PolicyChanged(id, s.procs[q[i]].before, s.procs[q[i]].policy))
  }

  /** With the records still to come, the trail leads to the stored policy exactly if no write was stale. */
  ghost predicate InStep(s: World, id: Id, initial: Policy, stale: bool, q: seq<Pid>)
  {
    && QueueOk(s, id, q)
    && if id !in s.t.policies then Replayed(s.audit, id, initial) == Some(initial) && !stale && q == []
       else Replayed(s.audit + Due(s, id, q), id, initial) == if stale then None else Some(s.t.policies[id])
  }

  lemma ReplayedSnoc(audit: seq<Audit>, e: Audit, id: Id, initial: Policy)
    ensures Replayed(audit + [e], id, initial) ==
              (var sofar := Replayed(audit, id, initial);
               if e.PolicyChanged? && e.wallet == id then
                 if sofar == Some(e.before) then Some(Rounded(e.after)) else None
               else sofar)
  {
    assert (audit + [e])[..|audit|] == audit;
  }

  predicate ChangeOf(e: Audit, id: Id) {
    e.PolicyChanged? && e.wallet == id
  }

  lemma {:induction false} ReplayedSkips(a: seq<Audit>, e: Audit, b: seq<Audit>, id: Id, initial: Policy)
    requires !ChangeOf(e, id)
    ensures Replayed(a + [e] + b, id, initial) == Replayed(a + b, id, initial)
  {
    hide Rounded;
    if b == [] {
      assert a + [e] + b == a + [e] && a + b == a;
      ReplayedSnoc(a, e, id, initial);
    } else {
      var n := |b| - 1;
      ReplayedSkips(a, e, b[..n], id, initial);
      assert a + [e] + b == (a + [e] + b[..n]) + [b[n]] && a + b == (a + b[..n]) + [b[n]];
      ReplayedSnoc(a + [e] + b[..n], b[n], id, initial);
      ReplayedSnoc(a + b[..n], b[n], id, initial);
    }
  }

  /** A step that neither changes this wallet's policy nor touches an update of it that has written. */
  ghost predicate Neutral(s: World, s': World, id: Id)
  {
    && (id in s.t.policies ==> id in s'.t.policies && s'.t.policies[id] == s.t.policies[id])
    && (forall pid <- s'.procs :: Written(s'.procs[pid], id) ==> pid in s.procs && s.procs[pid] == s'.procs[pid])
    && (forall pid <- s.procs :: Written(s.procs[pid], id) ==> pid in s'.procs && s'.procs[pid] == s.procs[pid])
    && (s'.audit == s.audit ||
        (|s'.audit| == |s.audit| + 1 && s.audit <= s'.audit
         && !ChangeOf(s'.audit[|s.audit|], id)))
  }

  lemma NeutralKeeps(s: World, s': World, id: Id, initial: Policy, stale: bool, q: seq<Pid>)
    requires InStep(s, id, initial, stale, q) && Neutral(s, s', id) && id in s.t.policies
    ensures InStep(s', id, initial, stale, q)
  {
    hide Rounded, Replayed;
    assert QueueOk(s', id, q);
    var due := Due(s, id, q);
    assert Due(s', id, q) == due;
    if s'.audit != s.audit {
      var e := s'.audit[|s.audit|];
      assert s'.audit == s.audit + [e];
      ReplayedSkips(s.audit, e, due, id, initial);
    }
  }

  /** A step that leaves the wallet without a policy leaves it without recorded changes. */
  ghost predicate Unseen(s: World, s': World, id: Id)
  {
    && (forall pid <- s'.procs :: !Written(s'.procs[pid], id))
    && (s'.audit == s.audit ||
        (|s'.audit| == |s.audit| + 1 && s.audit <= s'.audit
         && !ChangeOf(s'.audit[|s.audit|], id)))
  }

  lemma CommitIsUnseen(c: Service, s: World, step: Step, id: Id)
    requires step.LinkCommit? && id !in s.t.policies && StagedOk(c, s)
    requires forall pid <- s.procs :: s.procs[pid].wallet == id ==> Linking(s.procs[pid])
    ensures var s' := Apply(c, s, step);
            Unseen(s, s', id) && (id in s'.t.policies ==> s'.t.policies[id] == Rounded(LinkPolicy(c)))
  {
    hide Rounded, ParseAddress, LinkPolicy, WalletOk, PolicyOk;
    if step.pid in s.procs && Linking(s.procs[step.pid]) {
      assert LinkOk(c, s.t, s.procs[step.pid]);
    }
  }

  lemma QuietIsUnseen(c: Service, s: World, step: Step, id: Id)
    requires Quiet(step) && id !in s.t.policies
    requires forall pid <- s.procs :: s.procs[pid].wallet == id ==> Linking(s.procs[pid])
    ensures Unseen(s, Apply(c, s, step), id) && id !in Apply(c, s, step).t.policies
  {
    hide Valid, PutWallet, NewWallet, Store, IdTaken, AddressHeld, RowOk, LinkPolicy;
  }

  lemma WorkIsUnseen(c: Service, s: World, step: Step, id: Id)
    requires !step.LinkCommit? && !Quiet(step) && id !in s.t.policies
    requires forall pid <- s.procs :: s.procs[pid].wallet == id ==> Linking(s.procs[pid])
    ensures Unseen(s, Apply(c, s, step), id) && id !in Apply(c, s, step).t.policies
  {
    hide RowOk, Clashes, Rounded, Valid, Fits;
  }

  /** The first step that gives this wallet a policy is its link. */
  lemma LinkStarts(c: Service, s: World, step: Step, id: Id)
    requires Inv(c, s) && id !in s.t.policies
    requires InStep(s, id, Rounded(LinkPolicy(c)), false, [])
    ensures InStep(Apply(c, s, step), id, Rounded(LinkPolicy(c)), false, [])
  {
    hide Inv, Apply, Rounded, LinkPolicy;
    StrangerHasNoProcess(c, s, id);
    var s' := Apply(c, s, step);
    if step.LinkCommit? {
      InvStaged(c, s);
      CommitIsUnseen(c, s, step, id);
    } else if Quiet(step) {
      QuietIsUnseen(c, s, step, id);
    } else {
      WorkIsUnseen(c, s, step, id);
    }
    if s'.audit != s.audit {
      assert s'.audit == s.audit + [s'.audit[|s.audit|]];
      ReplayedSnoc(s.audit, s'.audit[|s.audit|], id, Rounded(LinkPolicy(c)));
    }
    if id in s'.t.policies {
      assert s'.audit + Due(s', id, []) == s'.audit;
    }
  }

  lemma StrangerHasNoProcess(c: Service, s: World, id: Id)
    requires Inv(c, s) && id !in s.t.policies
    ensures id !in s.t.wallets
    ensures forall pid <- s.procs :: s.procs[pid].wallet == id ==> Linking(s.procs[pid])
  {
    hide Rounded, RowOk, NoClash, StagedOk, FactsOk, OnceEach, ProofsOnRecord, PoliciesOnRecord, Checked, SawChain;
    forall pid | pid in s.procs
      ensures s.procs[pid].wallet == id ==> Linking(s.procs[pid])
    {
      assert ProcOk(s.t, s.trace, pid, s.procs[pid]);
    }
  }

  predicate TouchesPolicy(s: World, step: Step, id: Id)
  {
    (step.PolicyWrite? || step.PolicyAudit?) && step.pid in s.procs && s.procs[step.pid].wallet == id
  }

  lemma InvStaged(c: Service, s: World)
    requires Inv(c, s)
    ensures StagedOk(c, s)
  {
    hide TablesOk, ProcsOk, StagedOk, FactsOk, OnceEach, ProofsOnRecord, PoliciesOnRecord, Rounded;
  }

  lemma CommitIsNeutral(c: Service, s: World, step: Step, id: Id)
    requires step.LinkCommit? && StagedOk(c, s) && id in s.t.policies && id in s.t.wallets
    ensures Neutral(s, Apply(c, s, step), id)
  {
    hide Rounded, ParseAddress, LinkPolicy, WalletOk, PolicyOk;
    if step.pid in s.procs && Linking(s.procs[step.pid]) {
      assert LinkOk(c, s.t, s.procs[step.pid]);
    }
  }

  lemma QuietIsNeutral(c: Service, s: World, step: Step, id: Id)
    requires Quiet(step) && !TouchesPolicy(s, step, id) && !LosesRecord(s, step, id)
    requires step.pid in s.procs ==> step.pid in s.started
    ensures Neutral(s, Apply(c, s, step), id)
  {
    hide Valid, PutWallet, NewWallet, Store, IdTaken, AddressHeld, RowOk, LinkPolicy;
  }

  lemma WorkIsNeutral(c: Service, s: World, step: Step, id: Id)
    requires !step.LinkCommit? && !Quiet(step) && !TouchesPolicy(s, step, id)
    ensures Neutral(s, Apply(c, s, step), id)
  {
    hide RowOk, Clashes, Rounded, Valid, Fits;
  }

  lemma MostStepsAreNeutral(c: Service, s: World, step: Step, id: Id)
    requires Inv(c, s) && id in s.t.policies && id in s.t.wallets
    requires !TouchesPolicy(s, step, id) && !LosesRecord(s, step, id)
    ensures Neutral(s, Apply(c, s, step), id)
  {
    hide Inv, Neutral, Apply;
    if step.LinkCommit? {
      InvStaged(c, s);
      CommitIsNeutral(c, s, step, id);
    } else if Quiet(step) {
      StartedProcess(c, s, step.pid);
      QuietIsNeutral(c, s, step, id);
    } else {
      WorkIsNeutral(c, s, step, id);
    }
  }

  lemma StartedProcess(c: Service, s: World, pid: Pid)
    requires Inv(c, s)
    ensures pid in s.procs ==> pid in s.started
  {
    hide TablesOk, StagedOk, FactsOk, OnceEach, ProofsOnRecord, PoliciesOnRecord, ProcOk, Rounded;
  }

  lemma WriteKeeps(s: World, step: Step, id: Id, initial: Policy, stale: bool, q: seq<Pid>)
    requires InStep(s, id, initial, stale, q) && id in s.t.policies && step.PolicyWrite?
    requires step.pid in s.procs && s.procs[step.pid].wallet == id
    ensures InStep(PolicyWriteStep(s, step.pid, step.audited), id, initial, stale || Stale(s, step, id),
                   Queued(s, step, id, q))
  {
    hide Rounded, Valid, Fits, Store, Replayed;
    var pid := step.pid;
    var s' := PolicyWriteStep(s, pid, step.audited);
    if Writes(s, step, id) {
      var p := s.procs[pid];
      UpdateStores(s.t, id, p.policy);
      assert pid !in q;
      assert QueueOk(s', id, q + [pid]);
      var e := PolicyChanged(id, p.before, p.policy);
      assert Due(s', id, q + [pid]) == Due(s, id, q) + [e];
      assert s'.audit + Due(s', id, q + [pid]) == (s.audit + Due(s, id, q)) + [e];
      ReplayedSnoc(s.audit + Due(s, id, q), e, id, initial);
    } else {
      assert s.audit <= s'.audit;
      assert Neutral(s, s', id);
      NeutralKeeps(s, s', id, initial, stale, q);
    }
  }

  lemma UpdateStores(t: Tables, id: Id, p: Policy)
    requires UpdatePolicyTx(t, id, p).1.Ok?
    ensures UpdatePolicyTx(t, id, p).0 == t.(policies := t.policies[id := Rounded(p)])
  {
    hide Rounded, Valid, Fits;
  }

  lemma RecordKeeps(s: World, step: Step, id: Id, initial: Policy, stale: bool, q: seq<Pid>)
    requires InStep(s, id, initial, stale, q) && id in s.t.policies && step.PolicyAudit? && KeepsOrder(s, step, id, q)
    requires step.pid in s.procs && s.procs[step.pid].wallet == id
    ensures InStep(PolicyAuditStep(s, step.pid, step.audited), id, initial, stale, Queued(s, step, id, q))
  {
    hide Rounded, Replayed;
    var s' := PolicyAuditStep(s, step.pid, step.audited);
    if Records(s, step, id) {
      var p := s.procs[step.pid];
      HeadLeaves(s, s', id, q);
      hide QueueOk, Due;
      var e := PolicyChanged(id, p.before, p.policy);
      assert s'.audit + Due(s', id, q[1..]) == s.audit + ([e] + Due(s', id, q[1..]));
    }
  }

  lemma HeadLeaves(s: World, s': World, id: Id, q: seq<Pid>)
    requires QueueOk(s, id, q) && q != [] && s'.procs == s.procs - {q[0]}
    ensures QueueOk(s', id, q[1..])
    ensures q[0] in s.procs && s.procs[q[0]].PolicyWritten?
    ensures Due(s, id, q) == [PolicyChanged(id, s.procs[q[0]].before, s.procs[q[0]].policy)] + Due(s', id, q[1..])
  {
    assert q[0] in q;
    assert forall pid :: pid in q <==> pid == q[0] || pid in q[1..];
    assert QueueOk(s', id, q[1..]);
  }

  lemma StepKeepsInStep(c: Service, s: World, step: Step, id: Id, stale: bool, q: seq<Pid>)
    requires Inv(c, s) && InStep(s, id, Rounded(LinkPolicy(c)), stale, q) && KeepsOrder(s, step, id, q)
    ensures InStep(Apply(c, s, step), id, Rounded(LinkPolicy(c)), stale || Stale(s, step, id), Queued(s, step, id, q))
  {
    hide Inv, InStep, Rounded, LinkPolicy, Neutral, PolicyWriteStep, PolicyAuditStep, UpdatePolicyTx;
    var initial := Rounded(LinkPolicy(c));
    if id !in s.t.policies {
      NothingBeforeLink(c, s, step, id, stale, q);
      LinkStarts(c, s, step, id);
    } else if TouchesPolicy(s, step, id) {
      match step
      case PolicyWrite(pid, audited) => WriteKeeps(s, step, id, initial, stale, q);
      case PolicyAudit(pid, audited) => RecordKeeps(s, step, id, initial, stale, q);
    } else {
      HasWallet(c, s, id);
      MostStepsAreNeutral(c, s, step, id);
      NeutralKeeps(s, Apply(c, s, step), id, initial, stale, q);
    }
  }

  lemma NothingBeforeLink(c: Service, s: World, step: Step, id: Id, stale: bool, q: seq<Pid>)
    requires InStep(s, id, Rounded(LinkPolicy(c)), stale, q) && id !in s.t.policies
    ensures !stale && !Stale(s, step, id) && q == [] && Queued(s, step, id, q) == []
  {
    hide Rounded, Valid, Store;
  }

  lemma HasWallet(c: Service, s: World, id: Id)
    requires Inv(c, s) && id in s.t.policies
    ensures id in s.t.wallets
  {
    hide Rounded, RowOk, NoClash, StagedOk, FactsOk, OnceEach, ProofsOnRecord, PoliciesOnRecord, ProcsOk;
  }

  lemma {:induction false} RunKeepsInStep(c: Service, users: set<string>, steps: seq<Step>, id: Id)
    requires InOrder(c, users, steps, id)
    ensures InStep(Exec(c, Start(users), steps), id, Rounded(LinkPolicy(c)), WroteStale(c, users, steps, id),
                   Queue(c, users, steps, id))
  {
    hide Inv, InStep, Rounded, LinkPolicy, Apply, KeepsOrder, Queued, Stale;
    if steps == [] {
      Beginning(users, id, Rounded(LinkPolicy(c)));
    } else {
      var n := |steps| - 1;
      RunKeepsInStep(c, users, steps[..n], id);
      RunKeepsInv(c, users, steps[..n]);
      StepKeepsInStep(c, Exec(c, Start(users), steps[..n]), steps[n], id, WroteStale(c, users, steps[..n], id),
                      Queue(c, users, steps[..n], id));
    }
  }

  lemma Beginning(users: set<string>, id: Id, initial: Policy)
    ensures InStep(Start(users), id, initial, false, [])
  {
  }

  lemma QueueRecords(s: World, id: Id, q: seq<Pid>)
    requires QueueOk(s, id, q) && q != []
    ensures Recording(s, id)
  {
    assert q[0] in q;
  }

  /**
   With recording in order the audit trail reproduces the policy exactly when no write was
   stale: then every recorded change starts from the rounding of what the previous one
   asked for, the first from the link-time policy, and the last one leads to the stored
   policy. One stale write makes the trail fail to replay, for good.
   */
  lemma AuditTrailIsExact(c: Service, users: set<string>, steps: seq<Step>, id: Id)
    requires InOrder(c, users, steps, id)
    requires var s := Exec(c, Start(users), steps); id in s.t.policies && !Recording(s, id)
    ensures var s := Exec(c, Start(users), steps);
            var trail := Replayed(s.audit, id, Rounded(LinkPolicy(c)));
            && (trail == Some(s.t.policies[id]) <==> !WroteStale(c, users, steps, id))
            && (trail == None <==> WroteStale(c, users, steps, id))
  {
    hide Exec, Rounded, LinkPolicy, InOrder, WroteStale, Queue, Replayed, Recording;
    RunKeepsInStep(c, users, steps, id);
    var s, q := Exec(c, Start(users), steps), Queue(c, users, steps, id);
    if q != [] {
      QueueRecords(s, id, q);
    }
    assert s.audit + Due(s, id, q) == s.audit;
  }

  // ---- Updates that do not overlap ----

  predicate Changing(p: Process, id: Id) {
    (p.PolicySeen? || p.PolicyWritten?) && p.wallet == id
  }

  /** No two updates of this wallet are, at the same time, between reading the old policy and recording the change. */
  ghost predicate NoOverlap(s: World, id: Id)
  {
    forall p, q :: p in s.procs && q in s.procs && Changing(s.procs[p], id) && Changing(s.procs[q], id) ==> p == q
  }

  ghost predicate Orderly(c: Service, users: set<string>, steps: seq<Step>, id: Id)
  {
    steps == [] ||
    var n := |steps| - 1;
    var s := Exec(c, Start(users), steps[..n]);
    Orderly(c, users, steps[..n], id) && NoOverlap(s, id) && !LosesRecord(s, steps[n], id)
  }

  /** What an update has read is still stored. */
  ghost predicate Current(s: World, id: Id)
  {
    forall pid <- s.procs :: s.procs[pid].PolicySeen? && s.procs[pid].wallet == id ==>
      id in s.t.policies && s.procs[pid].before == s.t.policies[id]
  }

  lemma CurrentStays(c: Service, s: World, step: Step, id: Id)
    requires Inv(c, s) && Current(s, id) && NoOverlap(s, id)
    ensures Current(Apply(c, s, step), id) && !Stale(s, step, id)
  {
    var s' := Apply(c, s, step);
    forall pid | pid in s'.procs && s'.procs[pid].PolicySeen? && s'.procs[pid].wallet == id
      ensures id in s'.t.policies && s'.procs[pid].before == s'.t.policies[id]
    {
      CurrentStaysFor(c, s, step, id, pid);
    }
  }

  /** A process that has read the policy either had done so before or has just done so. */
  lemma SeenProcess(c: Service, s: World, step: Step, pid: Pid)
    requires pid in Apply(c, s, step).procs && Apply(c, s, step).procs[pid].PolicySeen?
    ensures pid in s.procs
    ensures var s', p := Apply(c, s, step), Apply(c, s, step).procs[pid];
            || (s.procs[pid] == p && !(step.PolicyWrite? && step.pid == pid))
            || (s'.t == s.t && p.wallet in s.t.policies && p.before == s.t.policies[p.wallet])
  {
    hide RowOk, Clashes, Rounded, Valid, Fits, ParseAddress, Store;
  }

  lemma CurrentStaysFor(c: Service, s: World, step: Step, id: Id, pid: Pid)
    requires Inv(c, s) && Current(s, id) && NoOverlap(s, id)
    requires var s' := Apply(c, s, step); pid in s'.procs && s'.procs[pid].PolicySeen? && s'.procs[pid].wallet == id
    ensures var s' := Apply(c, s, step); id in s'.t.policies && s'.procs[pid].before == s'.t.policies[id]
  {
    hide Inv, Apply;
    SeenProcess(c, s, step, pid);
    if s.procs[pid] == Apply(c, s, step).procs[pid] {
      HasWallet(c, s, id);
      OnlyOwnerChangesPolicy(c, s, step, id);
      if Apply(c, s, step).t.policies[id] != s.t.policies[id] {
        assert false;
      }
    }
  }

  /** A single update under way is the head of the queue when it records. */
  lemma AloneIsInOrder(s: World, step: Step, id: Id, q: seq<Pid>)
    requires QueueOk(s, id, q) && NoOverlap(s, id) && !LosesRecord(s, step, id)
    ensures KeepsOrder(s, step, id, q)
  {
    if Records(s, step, id) {
      assert step.pid in q && q[0] in q;
      assert Changing(s.procs[q[0]], id) && Changing(s.procs[step.pid], id);
    }
  }

  lemma {:induction false} OrderlyIsInOrder(c: Service, users: set<string>, steps: seq<Step>, id: Id)
    requires Orderly(c, users, steps, id)
    ensures InOrder(c, users, steps, id) && !WroteStale(c, users, steps, id)
    ensures Current(Exec(c, Start(users), steps), id)
  {
    hide Inv, Apply, LosesRecord, Records, Writes, Stale, NoOverlap, Queue, QueueOk, Due, KeepsOrder, Rounded,
         LinkPolicy;
    if steps != [] {
      var n := |steps| - 1;
      OrderlyIsInOrder(c, users, steps[..n], id);
      RunKeepsInv(c, users, steps[..n]);
      RunKeepsInStep(c, users, steps[..n], id);
      AloneIsInOrder(Exec(c, Start(users), steps[..n]), steps[n], id, Queue(c, users, steps[..n], id));
      CurrentStays(c, Exec(c, Start(users), steps[..n]), steps[n], id);
    }
  }

  /** So updates that do not overlap and are all recorded leave a trail that reproduces the policy. */
  lemma AuditTrailReproducesPolicy(c: Service, users: set<string>, steps: seq<Step>, id: Id)
    requires Orderly(c, users, steps, id)
    requires var s := Exec(c, Start(users), steps); id in s.t.policies && !Recording(s, id)
    ensures var s := Exec(c, Start(users), steps);
            Replayed(s.audit, id, Rounded(LinkPolicy(c))) == Some(s.t.policies[id])
  {
    hide Exec, Rounded, LinkPolicy, Orderly, InOrder, WroteStale, Recording;
    OrderlyIsInOrder(c, users, steps, id);
    AuditTrailIsExact(c, users, steps, id);
  }

  /** Reading a successful replay: each event's `before` is what the events ahead of it lead to. */
  lemma {:induction false} ReplayedMeans(audit: seq<Audit>, id: Id, initial: Policy, k: nat)
    requires Replayed(audit, id, initial).Some? && k < |audit|
    ensures Replayed(audit[..k], id, initial).Some?
    ensures audit[k].PolicyChanged? && audit[k].wallet == id ==>
              && Replayed(audit[..k], id, initial) == Some(audit[k].before)
              && Replayed(audit[..k + 1], id, initial) == Some(Rounded(audit[k].after))
  {
    hide Rounded;
    var n := |audit| - 1;
    if k < n {
      ReplayedMeans(audit[..n], id, initial, k);
      assert audit[..n][..k] == audit[..k] && audit[..n][..k + 1] == audit[..k + 1];
    } else {
      assert audit[..k + 1] == audit;
    }
  }

  // ---- Why updates must not overlap ----

  lemma FirstHalf(c: Service, s: World, pid: Pid, user: string, id: Id, p: Policy)
    requires pid !in s.started && id in s.t.wallets && id in s.t.policies && s.t.wallets[id].user == user && Valid(p)
    ensures Exec(c, s, [PolicyGet(pid, user, id, p, true), PolicyRead(pid)])
         == Spawn(s, pid, PolicySeen(id, user, p, s.t.policies[id]))
  {
    hide Exec, Valid;
    ExecTwo(c, s, PolicyGet(pid, user, id, p, true), PolicyRead(pid));
    assert s.procs[pid := PolicyOwned(id, user, p)][pid := PolicySeen(id, user, p, s.t.policies[id])]
        == s.procs[pid := PolicySeen(id, user, p, s.t.policies[id])];
  }

  lemma SecondHalf(c: Service, s: World, pid: Pid, user: string, id: Id, p: Policy, before: Policy)
    requires pid in s.procs && s.procs[pid] == PolicySeen(id, user, p, before)
    requires id in s.t.policies && Valid(p) && Store(p).Ok?
    ensures var s' := Exec(c, s, [PolicyWrite(pid, true), PolicyAudit(pid, true)]);
            && s'.t == s.t.(policies := s.t.policies[id := Rounded(p)])
            && s'.audit == s.audit + [PolicyChanged(id, before, p)]
            && s'.procs == s.procs - {pid}
  {
    hide Exec, Valid, Fits, Rounded;
    ExecTwo(c, s, PolicyWrite(pid, true), PolicyAudit(pid, true));
  }

  /**
   Two updates of one wallet that both read before either writes leave a trail that does
   not replay, whenever the first of them changed anything.
   */
  lemma OverlapBreaksTrail(c: Service, s: World, a: Pid, b: Pid, user: string, id: Id, p: Policy, q: Policy,
                           initial: Policy)
    requires a != b && a !in s.started && b !in s.started
    requires id in s.t.wallets && id in s.t.policies && s.t.wallets[id].user == user
    requires Valid(p) && Valid(q) && Store(p).Ok? && Store(q).Ok?
    requires Replayed(s.audit, id, initial) == Some(s.t.policies[id]) && Rounded(p) != s.t.policies[id]
    ensures var steps := [PolicyGet(a, user, id, p, true), PolicyRead(a)]
                       + [PolicyGet(b, user, id, q, true), PolicyRead(b)]
                       + [PolicyWrite(a, true), PolicyAudit(a, true)]
                       + [PolicyWrite(b, true), PolicyAudit(b, true)];
            Replayed(Exec(c, s, steps).audit, id, initial) == None
  {
    hide Exec, Apply, Valid, Store, Rounded, Replayed;
    var was := s.t.policies[id];
    var x1 := [PolicyGet(a, user, id, p, true), PolicyRead(a)];
    var x2 := [PolicyGet(b, user, id, q, true), PolicyRead(b)];
    var x3 := [PolicyWrite(a, true), PolicyAudit(a, true)];
    var x4 := [PolicyWrite(b, true), PolicyAudit(b, true)];
    FirstHalf(c, s, a, user, id, p);
    var s1 := Exec(c, s, x1);
    FirstHalf(c, s1, b, user, id, q);
    var s2 := Exec(c, s1, x2);
    SecondHalf(c, s2, a, user, id, p, was);
    var s3 := Exec(c, s2, x3);
    SecondHalf(c, s3, b, user, id, q, was);
    ExecAppend(c, s, x1, x2);
    ExecAppend(c, s, x1 + x2, x3);
    ExecAppend(c, s, x1 + x2 + x3, x4);
    ReplayedSnoc(s.audit, PolicyChanged(id, was, p), id, initial);
    ReplayedSnoc(s3.audit, PolicyChanged(id, was, q), id, initial);
  }
}
