/**
 Every interleaving of the wallet use cases.

 Each call of the service is a process that takes one step per statement it sends to the
 database or read it makes of the chain; between two steps of one process any others may
 run, and a process may crash anywhere. A verification task may be delivered any number
 of times, so any number of verifications of one wallet may be under way.

 `trace` is a history variable: it records what happened, and no step reads it.
 */
module WalletRuns {
  import opened Results
  import opened Transactions
  import opened Identifiers
  import opened Policies
  import opened WalletTables

  type Pid = nat

  /** The configured service: its chain and the policy a new wallet starts from. */
  datatype Service = Service(chainID: int, defaults: Policy)

  datatype Reason = ChainMismatch | BalanceUnread

  datatype Audit =
    | LinkDone(wallet: Id, address: string)
    | LinkRejected(user: string)
    | LinkFailed(user: string)
    | VerifyDone(wallet: Id)
    | VerifyFailed(wallet: Id, reason: Reason)
    | DisableDone(wallet: Id)
    | PolicyRejected(wallet: Id)
    | PolicyChanged(wallet: Id, before: Policy, after: Policy)

  datatype Fact =
    | Linked(wallet: Id, user: string, chainID: int, written: string)
    | ChainMatched(pid: Pid, wallet: Id, chainID: int)
    | BalanceRead(pid: Pid, wallet: Id)
    | Activated(pid: Pid, wallet: Id, at: int)
    | PolicyStored(wallet: Id, user: string, stored: Policy)

  /**
   Where a running call has got to, with what it has read so far. `LinkStaged` has
   inserted its wallet row and `LinkFull` its policy row too, in a transaction that nobody
   else can see into.
   */
  datatype Process =
    | LinkStaged(wallet: Id, row: Wallet, written: string)
    | LinkFull(wallet: Id, row: Wallet, written: string, stored: Policy)
    | VerifyLoaded(wallet: Id, chainID: int)
    | VerifyOnChain(wallet: Id, chainID: int)
    | VerifyFunded(wallet: Id, chainID: int)
    | DisableOwned(wallet: Id)
    | DisableSeen(wallet: Id)
    | PolicyOwned(wallet: Id, user: string, policy: Policy)
    | PolicySeen(wallet: Id, user: string, policy: Policy, before: Policy)
    | PolicyWritten(wallet: Id, user: string, policy: Policy, before: Policy)

  datatype World = World(t: Tables, procs: map<Pid, Process>, started: set<Pid>,
                         audit: seq<Audit>, trace: seq<Fact>)

  /** `audited` says whether the audit write of the step succeeds, `up` whether the database takes the statement. */
  datatype Step =
    | LinkInsert(pid: Pid, wallet: Id, user: string, written: string, role: Role, title: string, up: bool,
                 audited: bool)
    | LinkLimit(pid: Pid, up: bool, audited: bool)
    | LinkCommit(pid: Pid, ending: Ending, audited: bool)
    | VerifyGet(pid: Pid, wallet: Id)
    | VerifyChain(pid: Pid, reply: Option<int>, audited: bool)
    | VerifyBalance(pid: Pid, ok: bool, audited: bool)
    | VerifyMark(pid: Pid, at: int, audited: bool)
    | DisableGet(pid: Pid, user: string, wallet: Id)
    | DisableRead(pid: Pid, audited: bool)
    | DisableWrite(pid: Pid, audited: bool)
    | PolicyGet(pid: Pid, user: string, wallet: Id, policy: Policy, audited: bool)
    | PolicyRead(pid: Pid)
    | PolicyWrite(pid: Pid, audited: bool)
    | PolicyAudit(pid: Pid, audited: bool)
    | Crash(pid: Pid)

  function Start(users: set<string>): World {
    World(Tables(users, map[], map[]), map[], {}, [], [])
  }

  // ---- Steps ----

  function Record(audit: seq<Audit>, e: Audit, audited: bool): seq<Audit> {
    if audited then audit + [e] else audit
  }

  function Spawn(s: World, pid: Pid, p: Process): World {
    s.(procs := s.procs[pid := p], started := s.started + {pid})
  }

  function Move(s: World, pid: Pid, p: Process): World {
    s.(procs := s.procs[pid := p])
  }

  function Stop(s: World, pid: Pid): World {
    s.(procs := s.procs - {pid})
  }

  /** Trading is never enabled by linking, whatever the defaults say. */
  function LinkPolicy(c: Service): Policy {
    c.defaults.(tradingEnabled := false)
  }

  predicate Linking(p: Process) {
    p.LinkStaged? || p.LinkFull?
  }

  /** Generated identifiers do not repeat. */
  predicate IdTaken(s: World, id: Id)
  {
    id in s.t.wallets || exists q <- s.procs :: Linking(s.procs[q]) && s.procs[q].wallet == id
  }

  /** Another open transaction has inserted this address; the insert waits for it to end. */
  predicate AddressHeld(s: World, row: Wallet)
  {
    exists q <- s.procs :: Linking(s.procs[q]) && SameAddress(s.procs[q].row, row)
  }

  function LinkInsertStep(c: Service, s: World, pid: Pid, id: Id, user: string, written: string, role: Role,
                          title: string, up: bool, audited: bool): World
  {
    if pid in s.started || IdTaken(s, id) then s
    else match NewWallet(user, written, c.chainID, role, title)
      case Err(_) => s.(audit := Record(s.audit, LinkRejected(user), audited))
      case Ok(w) =>
        var row := PendingRow(w);
        if !Valid(LinkPolicy(c)) || !up then s.(audit := Record(s.audit, LinkFailed(user), audited))
        else if RowOk(row) && AddressHeld(s, row) then s
        else match PutWallet(s.t, id, row)
          case Err(UniqueFailed) => s.(audit := Record(s.audit, LinkRejected(user), audited))
          case Err(_) => s.(audit := Record(s.audit, LinkFailed(user), audited))
          case Ok(_) => Spawn(s, pid, LinkStaged(id, row, written))
  }

  function LinkLimitStep(c: Service, s: World, pid: Pid, up: bool, audited: bool): World
  {
    if pid !in s.procs || !s.procs[pid].LinkStaged? then s
    else
      var p := s.procs[pid];
      var stored := Store(LinkPolicy(c));
      if !up || p.wallet in s.t.policies || stored.Err? then
        Stop(s, pid).(audit := Record(s.audit, LinkFailed(p.row.user), audited))
      else Move(s, pid, LinkFull(p.wallet, p.row, p.written, stored.value))
  }

  /** The commit publishes both rows; if its answer is lost the caller is told of a failure. */
  function LinkCommitStep(s: World, pid: Pid, ending: Ending, audited: bool): World
  {
    if pid !in s.procs || !s.procs[pid].LinkFull? then s
    else
      var p := s.procs[pid];
      var e := if ending == Committed then LinkDone(p.wallet, p.row.address) else LinkFailed(p.row.user);
      var s' := Stop(s, pid).(audit := Record(s.audit, e, audited));
      if ending == RolledBack then s'
      else
        s'.(t := s.t.(wallets := s.t.wallets[p.wallet := p.row], policies := s.t.policies[p.wallet := p.stored]),
            trace := s.trace + [Linked(p.wallet, p.row.user, p.row.chainID, p.written)])
  }

  function VerifyGetStep(s: World, pid: Pid, id: Id): World
  {
    if pid in s.started || id !in s.t.wallets then s
    else Spawn(s, pid, VerifyLoaded(id, s.t.wallets[id].chainID))
  }

  function VerifyChainStep(s: World, pid: Pid, reply: Option<int>, audited: bool): World
  {
    if pid !in s.procs || !s.procs[pid].VerifyLoaded? then s
    else
      var p := s.procs[pid];
      if reply == None then Stop(s, pid)
      else if reply.value != p.chainID then
        Stop(s, pid).(audit := Record(s.audit, VerifyFailed(p.wallet, ChainMismatch), audited))
      else
        Move(s, pid, VerifyOnChain(p.wallet, p.chainID))
          .(trace := s.trace + [ChainMatched(pid, p.wallet, reply.value)])
  }

  function VerifyBalanceStep(s: World, pid: Pid, ok: bool, audited: bool): World
  {
    if pid !in s.procs || !s.procs[pid].VerifyOnChain? then s
    else
      var p := s.procs[pid];
      if !ok then Stop(s, pid).(audit := Record(s.audit, VerifyFailed(p.wallet, BalanceUnread), audited))
      else
        Move(s, pid, VerifyFunded(p.wallet, p.chainID)).(trace := s.trace + [BalanceRead(pid, p.wallet)])
  }

  function VerifyMarkStep(s: World, pid: Pid, at: int, audited: bool): World
  {
    if pid !in s.procs || !s.procs[pid].VerifyFunded? then s
    else
      var id := s.procs[pid].wallet;
      match MarkVerifiedTx(s.t, id, at)
      case (_, Err(_)) => Stop(s, pid)
      case (t', Ok(_)) =>
        Stop(s, pid).(t := t', audit := Record(s.audit, VerifyDone(id), audited),
                      trace := if t' == s.t then s.trace else s.trace + [Activated(pid, id, at)])
  }

  function DisableGetStep(s: World, pid: Pid, user: string, id: Id): World
  {
    if pid in s.started || id !in s.t.wallets || s.t.wallets[id].user != user then s
    else Spawn(s, pid, DisableOwned(id))
  }

  /** SetStatus reads the row: an already disabled wallet ends the call, successfully. */
  function DisableReadStep(s: World, pid: Pid, audited: bool): World
  {
    if pid !in s.procs || !s.procs[pid].DisableOwned? then s
    else
      var id := s.procs[pid].wallet;
      if id !in s.t.wallets then Stop(s, pid)
      else if s.t.wallets[id].status == Disabled then
        Stop(s, pid).(audit := Record(s.audit, DisableDone(id), audited))
      else if !CanTransition(s.t.wallets[id].status, Disabled) then Stop(s, pid)
      else Move(s, pid, DisableSeen(id))
  }

  function DisableWriteStep(s: World, pid: Pid, audited: bool): World
  {
    if pid !in s.procs || !s.procs[pid].DisableSeen? then s
    else
      var id := s.procs[pid].wallet;
      match SetStatusTx(s.t, id, Disabled)
      case (_, Err(_)) => Stop(s, pid)
      case (t', Ok(_)) => Stop(s, pid).(t := t', audit := Record(s.audit, DisableDone(id), audited))
  }

  function PolicyGetStep(s: World, pid: Pid, user: string, id: Id, p: Policy, audited: bool): World
  {
    if pid in s.started || id !in s.t.wallets || s.t.wallets[id].user != user then s
    else if !Valid(p) then s.(audit := Record(s.audit, PolicyRejected(id), audited))
    else Spawn(s, pid, PolicyOwned(id, user, p))
  }

  function PolicyReadStep(s: World, pid: Pid): World
  {
    if pid !in s.procs || !s.procs[pid].PolicyOwned? then s
    else
      var p := s.procs[pid];
      if p.wallet !in s.t.policies then Stop(s, pid)
      else Move(s, pid, PolicySeen(p.wallet, p.user, p.policy, s.t.policies[p.wallet]))
  }

  function PolicyWriteStep(s: World, pid: Pid, audited: bool): World
  {
    if pid !in s.procs || !s.procs[pid].PolicySeen? then s
    else
      var p := s.procs[pid];
      match UpdatePolicyTx(s.t, p.wallet, p.policy)
      case (_, Err(_)) => Stop(s, pid).(audit := Record(s.audit, PolicyRejected(p.wallet), audited))
      case (t', Ok(_)) =>
        Move(s, pid, PolicyWritten(p.wallet, p.user, p.policy, p.before))
          .(t := t', trace := s.trace + [PolicyStored(p.wallet, p.user, t'.policies[p.wallet])])
  }

  function PolicyAuditStep(s: World, pid: Pid, audited: bool): World
  {
    if pid !in s.procs || !s.procs[pid].PolicyWritten? then s
    else
      var p := s.procs[pid];
      Stop(s, pid).(audit := Record(s.audit, PolicyChanged(p.wallet, p.before, p.policy), audited))
  }

  function Apply(c: Service, s: World, step: Step): World
  {
    match step
    case LinkInsert(pid, id, user, written, role, title, up, audited) =>
      LinkInsertStep(c, s, pid, id, user, written, role, title, up, audited)
    case LinkLimit(pid, up, audited) => LinkLimitStep(c, s, pid, up, audited)
    case LinkCommit(pid, ending, audited) => LinkCommitStep(s, pid, ending, audited)
    case VerifyGet(pid, id) => VerifyGetStep(s, pid, id)
    case VerifyChain(pid, reply, audited) => VerifyChainStep(s, pid, reply, audited)
    case VerifyBalance(pid, ok, audited) => VerifyBalanceStep(s, pid, ok, audited)
    case VerifyMark(pid, at, audited) => VerifyMarkStep(s, pid, at, audited)
    case DisableGet(pid, user, id) => DisableGetStep(s, pid, user, id)
    case DisableRead(pid, audited) => DisableReadStep(s, pid, audited)
    case DisableWrite(pid, audited) => DisableWriteStep(s, pid, audited)
    case PolicyGet(pid, user, id, p, audited) => PolicyGetStep(s, pid, user, id, p, audited)
    case PolicyRead(pid) => PolicyReadStep(s, pid)
    case PolicyWrite(pid, audited) => PolicyWriteStep(s, pid, audited)
    case PolicyAudit(pid, audited) => PolicyAuditStep(s, pid, audited)
    case Crash(pid) => Stop(s, pid)
  }

  function Exec(c: Service, s: World, steps: seq<Step>): World
  {
    if steps == [] then s
    else Apply(c, Exec(c, s, steps[..|steps| - 1]), steps[|steps| - 1])
  }

  lemma ExecSnoc(c: Service, s: World, steps: seq<Step>, step: Step)
    ensures Exec(c, s, steps + [step]) == Apply(c, Exec(c, s, steps), step)
  {
    assert (steps + [step])[..|steps|] == steps;
  }

  lemma ExecTwo(c: Service, s: World, a: Step, b: Step)
    ensures Exec(c, s, [a, b]) == Apply(c, Apply(c, s, a), b)
  {
    hide Apply;
    assert [a, b] == [a] + [b] && [a] == [] + [a];
    ExecSnoc(c, s, [a], b);
    ExecSnoc(c, s, [], a);
  }

  lemma ExecThree(c: Service, s: World, a: Step, b: Step, d: Step)
    ensures Exec(c, s, [a, b, d]) == Apply(c, Apply(c, Apply(c, s, a), b), d)
  {
    hide Apply;
    assert [a, b, d] == [a, b] + [d];
    ExecSnoc(c, s, [a, b], d);
    ExecTwo(c, s, a, b);
  }

  // ---- The invariant ----

  /** This very process saw the wallet's chain and then its balance, before position n. */
  ghost predicate Checked(trace: seq<Fact>, n: nat, pid: Pid, id: Id, chainID: int)
  {
    exists i, j ::
      0 <= i < j < n <= |trace| && trace[i] == ChainMatched(pid, id, chainID) && trace[j] == BalanceRead(pid, id)
  }

  ghost predicate SawChain(trace: seq<Fact>, pid: Pid, id: Id, chainID: int)
  {
    exists i :: 0 <= i < |trace| && trace[i] == ChainMatched(pid, id, chainID)
  }

  ghost predicate ProcOk(t: Tables, trace: seq<Fact>, pid: Pid, p: Process)
  {
    if Linking(p) then true
    else
      && p.wallet in t.wallets
      && match p
         case VerifyLoaded(id, chainID) => chainID == t.wallets[id].chainID
         case VerifyOnChain(id, chainID) => chainID == t.wallets[id].chainID && SawChain(trace, pid, id, chainID)
         case VerifyFunded(id, chainID) =>
           chainID == t.wallets[id].chainID && Checked(trace, |trace|, pid, id, chainID)
         case PolicyOwned(id, user, _) => user == t.wallets[id].user
         case PolicySeen(id, user, _, _) => user == t.wallets[id].user
         case PolicyWritten(id, user, _, _) => user == t.wallets[id].user
         case _ => true
  }

  /** An open link transaction could commit: its rows are in order and clash with nothing that is visible. */
  ghost predicate LinkOk(c: Service, t: Tables, p: Process)
    requires Linking(p)
  {
    && p.wallet !in t.wallets && WalletOk(t.users, p.row) && p.row.status == Pending
    && ParseAddress(p.written) == Some(p.row.address)
    && (forall k <- t.wallets :: !SameAddress(t.wallets[k], p.row))
    && (p.LinkFull? ==> p.stored == Rounded(LinkPolicy(c)) && PolicyOk(p.stored))
  }

  /** Nor do two open transactions clash. */
  ghost predicate StagedOk(c: Service, s: World)
  {
    && (forall pid <- s.procs :: Linking(s.procs[pid]) ==> LinkOk(c, s.t, s.procs[pid]))
    && (forall p, q :: p in s.procs && q in s.procs && p != q && Linking(s.procs[p]) && Linking(s.procs[q]) ==>
          s.procs[p].wallet != s.procs[q].wallet && !SameAddress(s.procs[p].row, s.procs[q].row))
  }

  /** What one recorded fact says about the tables of now. */
  ghost predicate FactOk(t: Tables, trace: seq<Fact>, n: nat)
    requires n < |trace|
  {
    trace[n].wallet in t.wallets
    && var w := t.wallets[trace[n].wallet];
       match trace[n]
       case Linked(_, user, chainID, written) =>
         w.user == user && w.chainID == chainID && ParseAddress(written) == Some(w.address)
       case ChainMatched(_, _, _) => true
       case BalanceRead(_, _) => true
       case Activated(pid, id, at) =>
         w.status != Pending && w.verifiedAt == Some(at) && Checked(trace, n, pid, id, w.chainID)
       case PolicyStored(_, user, _) => user == w.user
  }

  /** The policy a wallet has after the stores on record. */
  function LastPolicy(trace: seq<Fact>, id: Id, initial: Policy): Policy
  {
    if trace == [] then initial
    else
      var n := |trace| - 1;
      if trace[n].PolicyStored? && trace[n].wallet == id then trace[n].stored
      else LastPolicy(trace[..n], id, initial)
  }

  ghost predicate WasActivated(trace: seq<Fact>, id: Id)
  {
    exists i :: 0 <= i < |trace| && trace[i].Activated? && trace[i].wallet == id
  }

  ghost predicate ProcsOk(s: World)
  {
    s.procs.Keys <= s.started && forall pid <- s.procs :: ProcOk(s.t, s.trace, pid, s.procs[pid])
  }

  ghost predicate FactsOk(s: World)
  {
    forall n :: 0 <= n < |s.trace| ==> FactOk(s.t, s.trace, n)
  }

  /** No wallet is linked or activated a second time. */
  ghost predicate OnceEach(trace: seq<Fact>)
  {
    forall i, j :: 0 <= i < j < |trace| && trace[i].wallet == trace[j].wallet ==>
      !(trace[i].Activated? && trace[j].Activated?) && !(trace[i].Linked? && trace[j].Linked?)
  }

  ghost predicate ProofsOnRecord(s: World)
  {
    forall id <- s.t.wallets :: s.t.wallets[id].verifiedAt.Some? ==> WasActivated(s.trace, id)
  }

  ghost predicate PoliciesOnRecord(s: World, initial: Policy)
  {
    forall id <- s.t.policies :: s.t.policies[id] == LastPolicy(s.trace, id, initial)
  }

  ghost predicate Inv(c: Service, s: World)
  {
    && TablesOk(s.t) && ProcsOk(s) && StagedOk(c, s) && FactsOk(s) && OnceEach(s.trace)
    && ProofsOnRecord(s) && PoliciesOnRecord(s, Rounded(LinkPolicy(c)))
  }

  // ---- The tables ----

  lemma LinkCommitTables(c: Service, s: World, pid: Pid, ending: Ending, audited: bool)
    requires TablesOk(s.t) && StagedOk(c, s)
    ensures var t' := LinkCommitStep(s, pid, ending, audited).t; TablesOk(t') && Grows(s.t, t')
  {
    hide TablesOk, Grows, WalletOk, PolicyOk, Rounded, ParseAddress;
    GrowsReflexive(s.t);
    if pid in s.procs && s.procs[pid].LinkFull? {
      var p := s.procs[pid];
      assert LinkOk(c, s.t, p);
      InsertKeepsTables(s.t, p.wallet, p.row, p.stored);
    }
  }

  lemma VerifyMarkTables(s: World, pid: Pid, at: int, audited: bool)
    requires TablesOk(s.t)
    ensures var t' := VerifyMarkStep(s, pid, at, audited).t; TablesOk(t') && Grows(s.t, t')
  {
    hide TablesOk, Grows;
    GrowsReflexive(s.t);
    if pid in s.procs {
      MarkKeepsTables(s.t, s.procs[pid].wallet, at);
    }
  }

  lemma DisableWriteTables(s: World, pid: Pid, audited: bool)
    requires TablesOk(s.t)
    ensures var t' := DisableWriteStep(s, pid, audited).t; TablesOk(t') && Grows(s.t, t')
  {
    hide TablesOk, Grows;
    GrowsReflexive(s.t);
    if pid in s.procs {
      DisableKeepsTables(s.t, s.procs[pid].wallet);
    }
  }

  lemma PolicyWriteTables(s: World, pid: Pid, audited: bool)
    requires TablesOk(s.t)
    ensures var t' := PolicyWriteStep(s, pid, audited).t; TablesOk(t') && Grows(s.t, t')
  {
    hide TablesOk, Grows;
    GrowsReflexive(s.t);
    if pid in s.procs && s.procs[pid].PolicySeen? {
      UpdateKeepsTables(s.t, s.procs[pid].wallet, s.procs[pid].policy);
    }
  }

  lemma StepKeepsTables(c: Service, s: World, step: Step)
    requires TablesOk(s.t) && StagedOk(c, s)
    ensures TablesOk(Apply(c, s, step).t) && Grows(s.t, Apply(c, s, step).t)
  {
    hide TablesOk, Grows;
    GrowsReflexive(s.t);
    match step
    case LinkCommit(pid, ending, audited) => LinkCommitTables(c, s, pid, ending, audited);
    case VerifyMark(pid, at, audited) => VerifyMarkTables(s, pid, at, audited);
    case DisableWrite(pid, audited) => DisableWriteTables(s, pid, audited);
    case PolicyWrite(pid, audited) => PolicyWriteTables(s, pid, audited);
    case _ => assert Apply(c, s, step).t == s.t;
  }

  // ---- The processes ----

  lemma CheckedStays(trace: seq<Fact>, trace': seq<Fact>, n: nat, m: nat, pid: Pid, id: Id, chainID: int)
    requires Checked(trace, n, pid, id, chainID) && trace <= trace' && n <= m <= |trace'|
    ensures Checked(trace', m, pid, id, chainID)
  {
    var i, j :| 0 <= i < j < n <= |trace|
                && trace[i] == ChainMatched(pid, id, chainID) && trace[j] == BalanceRead(pid, id);
    assert trace'[i] == trace[i] && trace'[j] == trace[j];
  }

  lemma ProcStays(t: Tables, t': Tables, trace: seq<Fact>, trace': seq<Fact>, pid: Pid, p: Process)
    requires ProcOk(t, trace, pid, p) && Grows(t, t') && trace <= trace'
    ensures ProcOk(t', trace', pid, p)
  {
    hide Checked;
    assert !Linking(p) ==> Evolves(t.wallets[p.wallet], t'.wallets[p.wallet]);
    match p
    case VerifyOnChain(id, chainID) =>
      var i :| 0 <= i < |trace| && trace[i] == ChainMatched(pid, id, chainID);
      assert trace'[i] == trace[i];
    case VerifyFunded(id, chainID) =>
      CheckedStays(trace, trace', |trace|, |trace'|, pid, id, chainID);
    case _ =>
  }

  /** Only the stepping process differs, and it is all right. */
  ghost predicate OnlyMoved(s: World, s': World, pid: Pid)
  {
    && s.started <= s'.started && s.trace <= s'.trace
    && (forall q <- s'.procs :: q != pid ==> q in s.procs && s'.procs[q] == s.procs[q])
    && (pid in s'.procs ==> pid in s'.started && ProcOk(s'.t, s'.trace, pid, s'.procs[pid]))
  }

  lemma MovingKeepsProcs(s: World, s': World, pid: Pid)
    requires ProcsOk(s) && Grows(s.t, s'.t) && OnlyMoved(s, s', pid)
    ensures ProcsOk(s')
  {
    hide ProcOk, Grows;
    forall q | q in s'.procs
      ensures ProcOk(s'.t, s'.trace, q, s'.procs[q])
    {
      if q != pid {
        ProcStays(s.t, s'.t, s.trace, s'.trace, q, s.procs[q]);
      }
    }
  }

  lemma VerifyChainMoves(s: World, pid: Pid, reply: Option<int>, audited: bool)
    requires ProcsOk(s)
    ensures OnlyMoved(s, VerifyChainStep(s, pid, reply, audited), pid)
  {
    var s' := VerifyChainStep(s, pid, reply, audited);
    if pid in s.procs {
      var p := s.procs[pid];
      assert ProcOk(s.t, s.trace, pid, p);
      if s'.trace != s.trace {
        assert s'.trace[|s.trace|] == ChainMatched(pid, p.wallet, p.chainID);
      }
    }
  }

  lemma VerifyBalanceMoves(s: World, pid: Pid, ok: bool, audited: bool)
    requires ProcsOk(s)
    ensures OnlyMoved(s, VerifyBalanceStep(s, pid, ok, audited), pid)
  {
    var s' := VerifyBalanceStep(s, pid, ok, audited);
    if pid in s.procs {
      var p := s.procs[pid];
      assert ProcOk(s.t, s.trace, pid, p);
      if s'.trace != s.trace {
        var n := |s.trace|;
        var i :| 0 <= i < n && s.trace[i] == ChainMatched(pid, p.wallet, p.chainID);
        assert s'.trace[i] == s.trace[i] && s'.trace[n] == BalanceRead(pid, p.wallet);
        assert Checked(s'.trace, n + 1, pid, p.wallet, p.chainID);
      }
    }
  }

  /** Steps that load a fresh process, advance one without a new fact, or end it. */
  predicate Quiet(step: Step)
  {
    || step.LinkInsert? || step.LinkLimit? || step.VerifyGet? || step.DisableGet? || step.DisableRead?
    || step.PolicyGet? || step.PolicyRead? || step.PolicyAudit? || step.Crash?
  }

  lemma QuietMoves(c: Service, s: World, step: Step)
    requires ProcsOk(s) && Quiet(step)
    ensures OnlyMoved(s, Apply(c, s, step), step.pid)
  {
    hide Checked, SawChain, Valid, PutWallet, NewWallet, Store, IdTaken, AddressHeld, RowOk, LinkPolicy;
    var pid := step.pid;
    if pid in s.procs {
      assert ProcOk(s.t, s.trace, pid, s.procs[pid]);
    }
  }

  lemma LinkCommitMoves(s: World, pid: Pid, ending: Ending, audited: bool)
    ensures OnlyMoved(s, LinkCommitStep(s, pid, ending, audited), pid) || LinkCommitStep(s, pid, ending, audited) == s
  {
    hide ProcOk;
  }

  lemma VerifyMarkMoves(s: World, pid: Pid, at: int, audited: bool)
    ensures OnlyMoved(s, VerifyMarkStep(s, pid, at, audited), pid) || VerifyMarkStep(s, pid, at, audited) == s
  {
    hide MarkVerifiedTx, ProcOk;
  }

  lemma DisableWriteMoves(s: World, pid: Pid, audited: bool)
    ensures OnlyMoved(s, DisableWriteStep(s, pid, audited), pid) || DisableWriteStep(s, pid, audited) == s
  {
    hide SetStatusTx, ProcOk;
  }

  lemma PolicyWriteMoves(s: World, pid: Pid, audited: bool)
    requires ProcsOk(s) && Grows(s.t, PolicyWriteStep(s, pid, audited).t)
    ensures OnlyMoved(s, PolicyWriteStep(s, pid, audited), pid)
  {
    hide UpdatePolicyTx, Checked, SawChain;
    if pid in s.procs {
      var p := s.procs[pid];
      assert ProcOk(s.t, s.trace, pid, p);
      assert !Linking(p) ==> Evolves(s.t.wallets[p.wallet], PolicyWriteStep(s, pid, audited).t.wallets[p.wallet]);
    }
  }

  lemma WritingKeepsProcs(c: Service, s: World, step: Step)
    requires ProcsOk(s) && (step.LinkCommit? || step.VerifyMark? || step.DisableWrite? || step.PolicyWrite?)
    requires Grows(s.t, Apply(c, s, step).t)
    ensures ProcsOk(Apply(c, s, step))
  {
    hide ProcsOk, Grows, OnlyMoved, LinkCommitStep, VerifyMarkStep, DisableWriteStep, PolicyWriteStep;
    var s' := Apply(c, s, step);
    match step {
      case LinkCommit(pid, ending, audited) => LinkCommitMoves(s, pid, ending, audited);
      case VerifyMark(pid, at, audited) => VerifyMarkMoves(s, pid, at, audited);
      case DisableWrite(pid, audited) => DisableWriteMoves(s, pid, audited);
      case PolicyWrite(pid, audited) => PolicyWriteMoves(s, pid, audited);
    }
    if s' != s {
      MovingKeepsProcs(s, s', step.pid);
    }
  }

  lemma StepKeepsProcs(c: Service, s: World, step: Step)
    requires ProcsOk(s) && Grows(s.t, Apply(c, s, step).t)
    ensures ProcsOk(Apply(c, s, step))
  {
    hide ProcsOk, Grows, OnlyMoved, VerifyChainStep, VerifyBalanceStep;
    match step
    case VerifyChain(pid, reply, audited) =>
      VerifyChainMoves(s, pid, reply, audited);
      MovingKeepsProcs(s, Apply(c, s, step), pid);
    case VerifyBalance(pid, ok, audited) =>
      VerifyBalanceMoves(s, pid, ok, audited);
      MovingKeepsProcs(s, Apply(c, s, step), pid);
    case _ =>
      if Quiet(step) {
        QuietMoves(c, s, step);
        MovingKeepsProcs(s, Apply(c, s, step), step.pid);
      } else {
        WritingKeepsProcs(c, s, step);
      }
  }

  // ---- The open link transactions ----

  /** Nothing new is visible and no new transaction is open. */
  ghost predicate LinksLeft(s: World, s': World)
  {
    && s'.t.wallets.Keys == s.t.wallets.Keys
    && forall pid <- s'.procs :: Linking(s'.procs[pid]) ==> pid in s.procs && s'.procs[pid] == s.procs[pid]
  }

  lemma StagedStays(c: Service, s: World, s': World)
    requires StagedOk(c, s) && Grows(s.t, s'.t) && LinksLeft(s, s')
    ensures StagedOk(c, s')
  {
    hide WalletOk, PolicyOk, Rounded, ParseAddress, LinkPolicy;
    forall pid | pid in s'.procs && Linking(s'.procs[pid])
      ensures LinkOk(c, s'.t, s'.procs[pid])
    {
      var p := s.procs[pid];
      assert LinkOk(c, s.t, p);
      forall k | k in s'.t.wallets
        ensures !SameAddress(s'.t.wallets[k], p.row)
      {
        assert Evolves(s.t.wallets[k], s'.t.wallets[k]);
      }
    }
  }

  lemma InsertKeepsStaged(c: Service, s: World, step: Step)
    requires StagedOk(c, s) && step.LinkInsert?
    ensures StagedOk(c, Apply(c, s, step))
  {
    hide ParseAddress, Rounded, Valid, PolicyOk, LinkPolicy, IsZero, CanonicalHex;
    var s' := Apply(c, s, step);
    var pid := step.pid;
    if s'.procs != s.procs {
      assert s' == Spawn(s, pid, s'.procs[pid]);
      assert !IdTaken(s, step.wallet) && !AddressHeld(s, s'.procs[pid].row);
      assert LinkOk(c, s'.t, s'.procs[pid]);
      forall q | q in s'.procs && q != pid && Linking(s'.procs[q])
        ensures LinkOk(c, s'.t, s'.procs[q])
        ensures s'.procs[q].wallet != s'.procs[pid].wallet && !SameAddress(s'.procs[q].row, s'.procs[pid].row)
      {
        assert q in s.procs && s'.procs[q] == s.procs[q];
      }
    }
  }

  lemma LimitKeepsStaged(c: Service, s: World, pid: Pid, up: bool, audited: bool)
    requires StagedOk(c, s)
    ensures StagedOk(c, LinkLimitStep(c, s, pid, up, audited))
  {
    hide ParseAddress, Rounded, Valid, WalletOk, PolicyOk, LinkPolicy, Store;
    var s' := LinkLimitStep(c, s, pid, up, audited);
    if pid in s.procs && s.procs[pid].LinkStaged? {
      assert LinkOk(c, s.t, s.procs[pid]);
      StoredPolicyOfLink(c);
    }
    forall q | q in s'.procs && Linking(s'.procs[q])
      ensures LinkOk(c, s'.t, s'.procs[q])
    {
      assert LinkOk(c, s.t, s.procs[q]);
    }
  }

  lemma StoredPolicyOfLink(c: Service)
    ensures Store(LinkPolicy(c)).Ok? ==>
              Store(LinkPolicy(c)).value == Rounded(LinkPolicy(c)) && PolicyOk(Rounded(LinkPolicy(c)))
  {
    hide LinkPolicy;
    Idempotent(LinkPolicy(c));
  }

  lemma CommitKeepsStaged(c: Service, s: World, pid: Pid, ending: Ending, audited: bool)
    requires StagedOk(c, s)
    ensures StagedOk(c, LinkCommitStep(s, pid, ending, audited))
  {
    hide ParseAddress, Rounded, WalletOk, PolicyOk, LinkPolicy;
    var s' := LinkCommitStep(s, pid, ending, audited);
    if s' != s {
      assert LinkOk(c, s.t, s.procs[pid]);
      forall q | q in s'.procs && Linking(s'.procs[q])
        ensures LinkOk(c, s'.t, s'.procs[q])
      {
        assert q != pid && s'.procs[q] == s.procs[q] && LinkOk(c, s.t, s.procs[q]);
      }
    }
  }

  lemma OthersLeaveLinks(c: Service, s: World, step: Step)
    requires !step.LinkInsert? && !step.LinkLimit? && !step.LinkCommit?
    ensures LinksLeft(s, Apply(c, s, step))
  {
    hide RowOk, Clashes, Rounded, Valid, Fits, Store;
  }

  lemma StepKeepsStaged(c: Service, s: World, step: Step)
    requires StagedOk(c, s) && Grows(s.t, Apply(c, s, step).t)
    ensures StagedOk(c, Apply(c, s, step))
  {
    hide StagedOk, Grows, LinksLeft, LinkInsertStep, LinkLimitStep, LinkCommitStep;
    match step
    case LinkInsert(_, _, _, _, _, _, _, _) => InsertKeepsStaged(c, s, step);
    case LinkLimit(pid, up, audited) => LimitKeepsStaged(c, s, pid, up, audited);
    case LinkCommit(pid, ending, audited) => CommitKeepsStaged(c, s, pid, ending, audited);
    case _ =>
      OthersLeaveLinks(c, s, step);
      StagedStays(c, s, Apply(c, s, step));
  }

  // ---- The record ----

  /** The tables differ from before by what the new fact says, and by nothing that needs a fact. */
  ghost predicate Explained(c: Service, s: World, s': World, f: Fact)
    requires |s.trace| < |s'.trace|
  {
    && FactOk(s'.t, s'.trace, |s.trace|)
    && (f.Activated? ==> f.wallet in s.t.wallets && s.t.wallets[f.wallet].status == Pending)
    && (f.Linked? ==> f.wallet !in s.t.wallets)
    && (forall id <- s'.t.wallets :: s'.t.wallets[id].verifiedAt.Some? ==>
          (f.Activated? && f.wallet == id) || (id in s.t.wallets && s.t.wallets[id].verifiedAt.Some?))
    && s'.t.policies == (match f
                         case Linked(id, _, _, _) => s.t.policies[id := Rounded(LinkPolicy(c))]
                         case PolicyStored(id, _, stored) => s.t.policies[id := stored]
                         case _ => s.t.policies)
  }

  ghost predicate Unremarkable(s: World, s': World)
  {
    && s'.t.policies == s.t.policies
    && forall id <- s'.t.wallets :: id in s.t.wallets
         && (s'.t.wallets[id].verifiedAt.Some? ==> s.t.wallets[id].verifiedAt.Some?)
  }

  ghost predicate Accounted(c: Service, s: World, s': World)
  {
    || (s'.trace == s.trace && Unremarkable(s, s'))
    || (|s'.trace| == |s.trace| + 1 && s.trace <= s'.trace && Explained(c, s, s', s'.trace[|s.trace|]))
  }

  lemma LinkAccounted(c: Service, s: World, pid: Pid, ending: Ending, audited: bool)
    requires StagedOk(c, s)
    ensures Accounted(c, s, LinkCommitStep(s, pid, ending, audited))
  {
    hide ParseAddress, Rounded, LinkPolicy, PolicyOk, RowOk;
    var s' := LinkCommitStep(s, pid, ending, audited);
    if s'.trace != s.trace {
      assert LinkOk(c, s.t, s.procs[pid]);
    }
  }

  lemma VerifyAccounted(c: Service, s: World, step: Step)
    requires ProcsOk(s) && (step.VerifyChain? || step.VerifyBalance?)
    ensures Accounted(c, s, Apply(c, s, step))
  {
    hide Checked, SawChain, Rounded;
    var s' := Apply(c, s, step);
    if s'.trace != s.trace {
      assert ProcOk(s.t, s.trace, step.pid, s.procs[step.pid]);
    }
  }

  lemma VerifyMarkAccounted(c: Service, s: World, pid: Pid, at: int, audited: bool)
    requires ProcsOk(s)
    ensures Accounted(c, s, VerifyMarkStep(s, pid, at, audited))
  {
    hide Checked, SawChain, Rounded, RowOk, Clashes;
    var s' := VerifyMarkStep(s, pid, at, audited);
    if s'.trace != s.trace {
      var p := s.procs[pid];
      assert ProcOk(s.t, s.trace, pid, p);
      CheckedStays(s.trace, s'.trace, |s.trace|, |s.trace|, pid, p.wallet, p.chainID);
    }
  }

  lemma WriteAccounted(c: Service, s: World, step: Step)
    requires ProcsOk(s) && (step.DisableWrite? || step.PolicyWrite?)
    ensures Accounted(c, s, Apply(c, s, step))
  {
    hide Checked, SawChain, Rounded, RowOk, Clashes, Fits, Valid;
    var s' := Apply(c, s, step);
    if step.pid in s.procs {
      assert ProcOk(s.t, s.trace, step.pid, s.procs[step.pid]);
    }
  }

  lemma QuietAccounted(c: Service, s: World, step: Step)
    requires Quiet(step)
    ensures Accounted(c, s, Apply(c, s, step))
  {
    hide Explained, Valid, PutWallet, NewWallet, Store, IdTaken, AddressHeld, RowOk, LinkPolicy;
  }

  lemma StepAccounted(c: Service, s: World, step: Step)
    requires ProcsOk(s) && StagedOk(c, s)
    ensures Accounted(c, s, Apply(c, s, step))
  {
    hide ProcsOk, StagedOk, Accounted;
    match step
    case LinkCommit(pid, ending, audited) => LinkAccounted(c, s, pid, ending, audited);
    case VerifyChain(_, _, _) => VerifyAccounted(c, s, step);
    case VerifyBalance(_, _, _) => VerifyAccounted(c, s, step);
    case VerifyMark(pid, at, audited) => VerifyMarkAccounted(c, s, pid, at, audited);
    case DisableWrite(_, _) => WriteAccounted(c, s, step);
    case PolicyWrite(_, _) => WriteAccounted(c, s, step);
    case _ => QuietAccounted(c, s, step);
  }

  lemma FactStays(t: Tables, t': Tables, trace: seq<Fact>, trace': seq<Fact>, n: nat)
    requires n < |trace| && FactOk(t, trace, n) && Grows(t, t') && trace <= trace'
    ensures FactOk(t', trace', n)
  {
    hide Checked, ParseAddress;
    assert trace'[n] == trace[n];
    var w := t.wallets[trace[n].wallet];
    assert Evolves(w, t'.wallets[trace[n].wallet]);
    if trace[n].Activated? {
      CheckedStays(trace, trace', n, n, trace[n].pid, trace[n].wallet, w.chainID);
    }
  }

  lemma FactsStay(c: Service, s: World, s': World)
    requires FactsOk(s) && Grows(s.t, s'.t) && Accounted(c, s, s')
    ensures FactsOk(s')
  {
    hide FactOk, Grows;
    forall n | 0 <= n < |s'.trace|
      ensures FactOk(s'.t, s'.trace, n)
    {
      if n < |s.trace| {
        FactStays(s.t, s'.t, s.trace, s'.trace, n);
      }
    }
  }

  lemma OnceEachStays(c: Service, s: World, s': World)
    requires FactsOk(s) && OnceEach(s.trace) && Accounted(c, s, s')
    ensures OnceEach(s'.trace)
  {
    hide Checked, ParseAddress, Rounded;
    forall i, j | 0 <= i < j < |s'.trace| && s'.trace[i].wallet == s'.trace[j].wallet
      ensures !(s'.trace[i].Activated? && s'.trace[j].Activated?) && !(s'.trace[i].Linked? && s'.trace[j].Linked?)
    {
      assert s'.trace[i] == s.trace[i] && FactOk(s.t, s.trace, i);
      assert j < |s.trace| ==> s'.trace[j] == s.trace[j];
    }
  }

  lemma ProofsStay(c: Service, s: World, s': World)
    requires ProofsOnRecord(s) && Accounted(c, s, s')
    ensures ProofsOnRecord(s')
  {
    hide FactOk, Rounded;
    forall id | id in s'.t.wallets && s'.t.wallets[id].verifiedAt.Some?
      ensures WasActivated(s'.trace, id)
    {
      if id in s.t.wallets && s.t.wallets[id].verifiedAt.Some? {
        var i :| 0 <= i < |s.trace| && s.trace[i].Activated? && s.trace[i].wallet == id;
        assert s'.trace[i] == s.trace[i];
      }
    }
  }

  lemma {:induction false} LastPolicyOfStranger(trace: seq<Fact>, id: Id, initial: Policy)
    requires forall n :: 0 <= n < |trace| ==> trace[n].wallet != id
    ensures LastPolicy(trace, id, initial) == initial
  {
    if trace != [] {
      var n := |trace| - 1;
      assert forall k :: 0 <= k < n ==> trace[..n][k] == trace[k];
      LastPolicyOfStranger(trace[..n], id, initial);
    }
  }

  lemma PoliciesStay(c: Service, s: World, s': World)
    requires FactsOk(s) && s.t.policies.Keys == s.t.wallets.Keys
    requires PoliciesOnRecord(s, Rounded(LinkPolicy(c))) && Accounted(c, s, s')
    ensures PoliciesOnRecord(s', Rounded(LinkPolicy(c)))
  {
    hide Rounded, LinkPolicy, Checked, ParseAddress;
    var initial := Rounded(LinkPolicy(c));
    var n := |s.trace|;
    if s'.trace != s.trace {
      var f := s'.trace[n];
      assert s'.trace[..n] == s.trace;
      forall id | id in s'.t.policies
        ensures s'.t.policies[id] == LastPolicy(s'.trace, id, initial)
      {
        if f.Linked? && f.wallet == id {
          forall k | 0 <= k < n
            ensures s.trace[k].wallet != id
          {
            assert FactOk(s.t, s.trace, k);
          }
          LastPolicyOfStranger(s.trace, id, initial);
        }
      }
    }
  }

  /** Every step keeps the invariant and only moves the tables forward. */
  lemma StepKeepsInv(c: Service, s: World, step: Step)
    requires Inv(c, s)
    ensures Inv(c, Apply(c, s, step)) && Grows(s.t, Apply(c, s, step).t)
  {
    hide ProcsOk, StagedOk, FactsOk, OnceEach, ProofsOnRecord, PoliciesOnRecord, Accounted, Grows, Apply, Rounded;
    var s' := Apply(c, s, step);
    StepKeepsTables(c, s, step);
    StepKeepsProcs(c, s, step);
    StepKeepsStaged(c, s, step);
    StepAccounted(c, s, step);
    FactsStay(c, s, s');
    OnceEachStays(c, s, s');
    ProofsStay(c, s, s');
    PoliciesStay(c, s, s');
  }

  lemma {:induction false} RunKeepsInv(c: Service, users: set<string>, steps: seq<Step>)
    ensures Inv(c, Exec(c, Start(users), steps))
  {
    if steps != [] {
      var n := |steps| - 1;
      RunKeepsInv(c, users, steps[..n]);
      StepKeepsInv(c, Exec(c, Start(users), steps[..n]), steps[n]);
    }
  }

  lemma {:induction false} RunGrows(c: Service, s: World, steps: seq<Step>)
    requires Inv(c, s)
    ensures Inv(c, Exec(c, s, steps)) && Grows(s.t, Exec(c, s, steps).t)
  {
    hide Inv, Grows, Apply;
    GrowsReflexive(s.t);
    if steps != [] {
      var n := |steps| - 1;
      var s1 := Exec(c, s, steps[..n]);
      RunGrows(c, s, steps[..n]);
      StepKeepsInv(c, s1, steps[n]);
      GrowsTransitive(s.t, s1.t, Apply(c, s1, steps[n]).t);
    }
  }

  lemma {:induction false} ExecAppend(c: Service, s: World, a: seq<Step>, b: seq<Step>)
    ensures Exec(c, s, a + b) == Exec(c, Exec(c, s, a), b)
  {
    hide Apply;
    if b == [] {
      assert a + b == a;
    } else {
      var n := |b| - 1;
      assert a + b == (a + b[..n]) + [b[n]];
      ExecSnoc(c, s, a + b[..n], b[n]);
      ExecAppend(c, s, a, b[..n]);
    }
  }

  // ---- Results over every run ----

  /**
   The life of a wallet, between any two moments of any run: its identity is fixed, its
   status only moves forward, disabled is for good, the proof of verification is set at
   most once, a pending wallet has none and an active one has.
   */
  lemma WalletLifecycle(c: Service, users: set<string>, earlier: seq<Step>, later: seq<Step>, id: Id)
    requires id in Exec(c, Start(users), earlier).t.wallets
    ensures id in Exec(c, Start(users), earlier + later).t.wallets
    ensures var w := Exec(c, Start(users), earlier).t.wallets[id];
            var w' := Exec(c, Start(users), earlier + later).t.wallets[id];
            && (w'.user, w'.address, w'.chainID, w'.role) == (w.user, w.address, w.chainID, w.role)
            && (w'.status != w.status ==>
                  (w.status == Pending && w'.status == Active) || (w.status != Disabled && w'.status == Disabled))
            && (w.status == Disabled ==> w' == w)
            && (w.verifiedAt.Some? ==> w'.verifiedAt == w.verifiedAt)
            && (w'.status == Pending ==> w'.verifiedAt == None)
            && (w'.status == Active ==> w'.verifiedAt.Some?)
  {
    var s := Exec(c, Start(users), earlier);
    RunKeepsInv(c, users, earlier);
    RunGrows(c, s, later);
    ExecAppend(c, Start(users), earlier, later);
    var s' := Exec(c, s, later);
    LifecycleOfRow(s.t, s'.t, id);
  }

  lemma LifecycleOfRow(t: Tables, t': Tables, id: Id)
    requires TablesOk(t) && TablesOk(t') && Grows(t, t') && id in t.wallets
    ensures id in t'.wallets && Evolves(t.wallets[id], t'.wallets[id])
    ensures WalletOk(t.users, t.wallets[id]) && WalletOk(t'.users, t'.wallets[id])
  {
    hide RowOk;
  }

  /** One step changes a status only by the guarded update of a verification or by the write of a Disable. */
  lemma StatusMoves(c: Service, s: World, step: Step, id: Id)
    requires Inv(c, s) && id in s.t.wallets
    ensures id in Apply(c, s, step).t.wallets
    ensures var w, w' := s.t.wallets[id], Apply(c, s, step).t.wallets[id];
            || w' == w
            || (step.VerifyMark? && step.pid in s.procs && s.procs[step.pid] == VerifyFunded(id, w.chainID)
                && w.status == Pending && w' == w.(status := Active, verifiedAt := Some(step.at)))
            || (step.DisableWrite? && step.pid in s.procs && s.procs[step.pid] == DisableSeen(id)
                && w' == w.(status := Disabled))
  {
    hide TablesOk, FactsOk, OnceEach, ProofsOnRecord, PoliciesOnRecord, RowOk, Clashes, Rounded, Valid, Fits, Store,
         Checked, SawChain, ParseAddress, NewWallet, IdTaken, AddressHeld, LinkPolicy, PolicyOk;
    if step.pid in s.procs {
      assert ProcOk(s.t, s.trace, step.pid, s.procs[step.pid]);
    }
  }

  /**
   Activation needs evidence: a wallet has a proof of verification exactly when one
   process activated it, once, after that same process had seen the wallet's own chain
   ID and then read its balance.
   */
  lemma ActivationNeedsEvidence(c: Service, users: set<string>, steps: seq<Step>, id: Id)
    requires id in Exec(c, Start(users), steps).t.wallets
    ensures var s := Exec(c, Start(users), steps);
            var w := s.t.wallets[id];
            && (w.verifiedAt.Some? <==> WasActivated(s.trace, id))
            && (w.status == Active ==> w.verifiedAt.Some?)
            && forall n :: 0 <= n < |s.trace| && s.trace[n].Activated? && s.trace[n].wallet == id ==>
                 && w.verifiedAt == Some(s.trace[n].at)
                 && Checked(s.trace, n, s.trace[n].pid, id, w.chainID)
                 && forall m :: 0 <= m < |s.trace| && m != n && s.trace[m].Activated? ==> s.trace[m].wallet != id
  {
    hide Exec, Checked, Rounded, RowOk, ParseAddress;
    RunKeepsInv(c, users, steps);
    var s := Exec(c, Start(users), steps);
    assert WalletOk(s.t.users, s.t.wallets[id]);
    forall n | 0 <= n < |s.trace| && s.trace[n].Activated? && s.trace[n].wallet == id
      ensures s.t.wallets[id].verifiedAt == Some(s.trace[n].at)
      ensures Checked(s.trace, n, s.trace[n].pid, id, s.t.wallets[id].chainID)
    {
      assert FactOk(s.t, s.trace, n);
    }
  }

  /** Whatever verifications race, an account has at most one active bot wallet per chain. */
  lemma OneActiveBot(c: Service, users: set<string>, steps: seq<Step>, a: Id, b: Id)
    requires var ws := Exec(c, Start(users), steps).t.wallets;
             && a in ws && b in ws && ws[a].role == Bot && ws[b].role == Bot
             && ws[a].status == Active && ws[b].status == Active
             && ws[a].user == ws[b].user && ws[a].chainID == ws[b].chainID
    ensures a == b
  {
    hide Exec;
    RunKeepsInv(c, users, steps);
  }

  /** Two links of one user on one chain both succeed only for addresses that differ in more than case and padding. */
  lemma NoDuplicateLink(c: Service, users: set<string>, steps: seq<Step>, i: nat, j: nat)
    requires var trace := Exec(c, Start(users), steps).trace;
             && i < j < |trace| && trace[i].Linked? && trace[j].Linked?
             && trace[i].user == trace[j].user && trace[i].chainID == trace[j].chainID
    ensures var trace := Exec(c, Start(users), steps).trace;
            !SameWriting(trace[i].written, trace[j].written)
  {
    hide Exec, Rounded, TablesOk, Parse, SameWriting;
    RunKeepsInv(c, users, steps);
    var s := Exec(c, Start(users), steps);
    assert FactOk(s.t, s.trace, i) && FactOk(s.t, s.trace, j);
    ParseForgetsWriting(s.trace[i].written, s.trace[j].written, 40);
    NoClashApart(s.t, s.trace[i].wallet, s.trace[j].wallet);
  }

  lemma NoClashApart(t: Tables, a: Id, b: Id)
    requires TablesOk(t) && a in t.wallets && b in t.wallets && a != b
    ensures !SameAddress(t.wallets[a], t.wallets[b])
  {
    hide RowOk;
  }

  /** The two rows a link leaves: a pending wallet without proof, and the rounded defaults with trading off. */
  ghost predicate JustLinked(c: Service, t: Tables, id: Id)
  {
    && id in t.wallets && t.wallets[id].status == Pending && t.wallets[id].verifiedAt == None
    && id in t.policies && t.policies[id] == Rounded(LinkPolicy(c)) && !t.policies[id].tradingEnabled
  }

  /**
   Whatever open transactions come to, rows appear in pairs: a step that does not commit a
   link adds neither a wallet nor a policy, and one that does adds both rows of that link
   and touches no other.
   */
  lemma LinkIsAtomic(c: Service, s: World, step: Step)
    requires Inv(c, s)
    ensures var t' := Apply(c, s, step).t;
            || (t'.wallets.Keys == s.t.wallets.Keys && t'.policies.Keys == s.t.policies.Keys)
            || (&& step.LinkCommit? && step.ending != RolledBack && step.pid in s.procs && s.procs[step.pid].LinkFull?
                && var id := s.procs[step.pid].wallet;
                   && id !in s.t.wallets && id !in s.t.policies && JustLinked(c, t', id)
                   && t'.wallets - {id} == s.t.wallets && t'.policies - {id} == s.t.policies)
  {
    hide TablesOk, ProcsOk, FactsOk, OnceEach, ProofsOnRecord, PoliciesOnRecord, Apply, Rounded, LinkPolicy, PolicyOk,
         RowOk, ParseAddress;
    var s' := Apply(c, s, step);
    StepKeepsInv(c, s, step);
    KeysAgree(s.t);
    KeysAgree(s'.t);
    if step.LinkCommit? {
      CommitAddsBoth(c, s, step);
    } else {
      OnlyCommitAdds(c, s, step);
    }
  }

  lemma KeysAgree(t: Tables)
    requires TablesOk(t)
    ensures t.policies.Keys == t.wallets.Keys
  {
  }

  lemma OnlyCommitAdds(c: Service, s: World, step: Step)
    requires !step.LinkCommit?
    ensures Apply(c, s, step).t.wallets.Keys == s.t.wallets.Keys
    ensures !step.PolicyWrite? ==> Apply(c, s, step).t.policies == s.t.policies
  {
    hide RowOk, Clashes, Rounded, Valid, Fits, Store, NewWallet, IdTaken, AddressHeld;
  }

  lemma CommitAddsBoth(c: Service, s: World, step: Step)
    requires step.LinkCommit? && StagedOk(c, s) && s.t.policies.Keys == s.t.wallets.Keys
    ensures var t' := Apply(c, s, step).t;
            || t' == s.t
            || (&& step.ending != RolledBack && step.pid in s.procs && s.procs[step.pid].LinkFull?
                && var id := s.procs[step.pid].wallet;
                   && id !in s.t.wallets && JustLinked(c, t', id)
                   && t'.wallets - {id} == s.t.wallets && t'.policies - {id} == s.t.policies)
  {
    hide RowOk, ParseAddress, PolicyOk, Thousandths, Hundredths;
    if step.pid in s.procs && s.procs[step.pid].LinkFull? {
      var p := s.procs[step.pid];
      assert LinkOk(c, s.t, p);
      assert p.wallet !in s.t.policies;
    }
  }

  /** Every wallet has exactly one policy, within the bounds, and it is the last one its owner stored. */
  lemma PolicyIsOwners(c: Service, users: set<string>, steps: seq<Step>, id: Id)
    requires id in Exec(c, Start(users), steps).t.wallets
    ensures var s := Exec(c, Start(users), steps);
            && id in s.t.policies && PolicyOk(s.t.policies[id])
            && s.t.policies[id] == LastPolicy(s.trace, id, Rounded(LinkPolicy(c)))
            && forall n :: 0 <= n < |s.trace| && s.trace[n].PolicyStored? && s.trace[n].wallet == id ==>
                 s.trace[n].user == s.t.wallets[id].user
  {
    hide Exec, PolicyOk, Rounded, LinkPolicy;
    RunKeepsInv(c, users, steps);
    var s := Exec(c, Start(users), steps);
    forall n | 0 <= n < |s.trace| && s.trace[n].PolicyStored? && s.trace[n].wallet == id
      ensures s.trace[n].user == s.t.wallets[id].user
    {
      assert FactOk(s.t, s.trace, n);
    }
  }

  lemma {:induction false} LastPolicyTrading(trace: seq<Fact>, id: Id, initial: Policy)
    requires !initial.tradingEnabled && LastPolicy(trace, id, initial).tradingEnabled
    ensures exists n :: 0 <= n < |trace| && trace[n].PolicyStored? && trace[n].wallet == id
              && trace[n].stored.tradingEnabled
  {
    var n := |trace| - 1;
    if !(trace[n].PolicyStored? && trace[n].wallet == id) {
      LastPolicyTrading(trace[..n], id, initial);
      var k :| 0 <= k < |trace[..n]| && trace[..n][k].PolicyStored? && trace[..n][k].wallet == id
               && trace[..n][k].stored.tradingEnabled;
      assert trace[k] == trace[..n][k];
    }
  }

  /** Linking never enables trading: it is on only after the wallet's own owner stored a policy that says so. */
  lemma TradingNeedsOwner(c: Service, users: set<string>, steps: seq<Step>, id: Id)
    requires var t := Exec(c, Start(users), steps).t;
             id in t.wallets && id in t.policies && t.policies[id].tradingEnabled
    ensures var s := Exec(c, Start(users), steps);
            exists n :: 0 <= n < |s.trace| && s.trace[n].PolicyStored? && s.trace[n].wallet == id
              && s.trace[n].user == s.t.wallets[id].user && s.trace[n].stored.tradingEnabled
  {
    hide Exec, PolicyOk;
    PolicyIsOwners(c, users, steps, id);
    var s := Exec(c, Start(users), steps);
    LastPolicyTrading(s.trace, id, Rounded(LinkPolicy(c)));
  }

  /** The step is the write of an update by the owner of this wallet, and leaves the rounding of what was asked for. */
  ghost predicate OwnerWrites(s: World, step: Step, id: Id, stored: Policy)
    requires id in s.t.wallets
  {
    && step.PolicyWrite? && step.pid in s.procs && s.procs[step.pid].PolicySeen?
    && var p := s.procs[step.pid];
       p.wallet == id && p.user == s.t.wallets[id].user && stored == Rounded(p.policy)
  }

  /** A step changes a stored policy only as the write of an update by the wallet's owner. */
  lemma OnlyOwnerChangesPolicy(c: Service, s: World, step: Step, id: Id)
    requires Inv(c, s) && id in s.t.wallets
    ensures id in s.t.policies && id in Apply(c, s, step).t.policies
    ensures Apply(c, s, step).t.policies[id] == s.t.policies[id]
         || OwnerWrites(s, step, id, Apply(c, s, step).t.policies[id])
  {
    hide Inv, Apply, Rounded;
    StepKeepsInv(c, s, step);
    HasPolicy(c, s, id);
    HasPolicy(c, Apply(c, s, step), id);
    PolicyChange(c, s, step, id);
  }

  lemma HasPolicy(c: Service, s: World, id: Id)
    requires Inv(c, s) && id in s.t.wallets
    ensures id in s.t.policies
  {
    hide WalletOk, NoClash, PolicyOk, ProcsOk, FactsOk, OnceEach, ProofsOnRecord, PoliciesOnRecord, Rounded;
  }

  lemma PolicyChange(c: Service, s: World, step: Step, id: Id)
    requires Inv(c, s) && id in s.t.wallets && id in s.t.policies && id in Apply(c, s, step).t.policies
    ensures Apply(c, s, step).t.policies[id] == s.t.policies[id]
         || OwnerWrites(s, step, id, Apply(c, s, step).t.policies[id])
  {
    hide TablesOk, StagedOk, FactsOk, OnceEach, ProofsOnRecord, PoliciesOnRecord, Rounded, Apply;
    if step.PolicyWrite? {
      WriteChange(c, s, step, id);
    } else if step.LinkCommit? {
      KeysAgree(s.t);
      CommitAddsBoth(c, s, step);
    } else {
      OnlyCommitAdds(c, s, step);
    }
  }

  lemma WriteChange(c: Service, s: World, step: Step, id: Id)
    requires ProcsOk(s) && step.PolicyWrite? && id in s.t.wallets && id in s.t.policies
    ensures var t' := Apply(c, s, step).t;
            id in t'.policies && (t'.policies[id] == s.t.policies[id] || OwnerWrites(s, step, id, t'.policies[id]))
  {
    hide Rounded, Valid, Fits, Checked, SawChain;
    if step.pid in s.procs {
      assert ProcOk(s.t, s.trace, step.pid, s.procs[step.pid]);
    }
  }
}
