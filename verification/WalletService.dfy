/** The wallet repository and service as objects, one call at a time. */
module WalletService {
  import opened Results
  import opened Transactions
  import opened Int64
  import opened Identifiers
  import opened Policies
  import opened WalletTables
  import opened WalletRuns

  /** WalletRepo: the rows it reads and writes. */
  class WalletRepo {
    const users: set<string>
    var wallets: map<Id, Wallet>
    var policies: map<Id, Policy>

    constructor (users: set<string>)
      ensures this.users == users && Contents() == Tables(users, map[], map[])
    {
      this.users := users;
      wallets, policies := map[], map[];
    }

    function Contents(): Tables
      reads this
    {
      Tables(users, wallets, policies)
    }

    /**
     `id` is the identifier the database generates for the new row; `inserts` and `limits`
     say whether it takes the two inserts, `ending` how the transaction ends.
     */
    method Link(id: Id, w: Wallet, p: Policy, inserts: bool, limits: bool, ending: Ending)
      returns (r: Result<Wallet, Error>)
      requires id !in wallets
      modifies this
      ensures (Contents(), r) == LinkTx(old(Contents()), id, w, p, inserts, limits, ending)
    {
      var broken := Validate(p);
      ReportIsExact(p);
      if broken != [] {
        return Err(InvalidPolicy);
      }
      if !inserts {
        return Err(NotCommitted);
      }
      // The transaction works on its own copy; only a commit makes it the tables.
      var tx := Contents();
      var row := PendingRow(w);
      var inserted := PutWallet(tx, id, row);
      if inserted.Err? {
        return Err(if inserted.error == UniqueFailed then AlreadyLinked else inserted.error);
      }
      tx := inserted.value;
      if !limits {
        return Err(NotCommitted);
      }
      if id in tx.policies {
        return Err(UniqueFailed);
      }
      var stored := Store(p);
      if stored.Err? {
        return Err(PolicyRefused);
      }
      tx := tx.(policies := tx.policies[id := stored.value]);
      if ending == RolledBack {
        return Err(NotCommitted);
      }
      wallets, policies := tx.wallets, tx.policies;
      return if ending == Committed then Ok(row) else Err(NotCommitted);
    }

    method Get(id: Id) returns (r: Result<Wallet, Error>)
      ensures r == (if id in wallets then Ok(wallets[id]) else Err(NotFound))
    {
      r := if id in wallets then Ok(wallets[id]) else Err(NotFound);
    }

    method MarkVerified(id: Id, at: int) returns (r: Result<(), Error>)
      modifies this
      ensures (Contents(), r) == MarkVerifiedTx(old(Contents()), id, at)
    {
      if id !in wallets || wallets[id].status != Pending {
        return Ok(());
      }
      var row := wallets[id].(status := Active, verifiedAt := Some(at));
      var updated := PutWallet(Contents(), id, row);
      if updated.Err? {
        return Err(updated.error);
      }
      wallets := wallets[id := row];
      return Ok(());
    }

    /** Read, test and write, with nothing in between. */
    method SetStatus(id: Id, next: Status) returns (r: Result<(), Error>)
      modifies this
      ensures (Contents(), r) == SetStatusCall(old(Contents()), id, next)
    {
      if next.UnknownStatus? {
        return Err(InvalidStatus);
      }
      var current := Get(id);
      if current.Err? {
        return Err(current.error);
      }
      if current.value.status == next {
        return Ok(());
      }
      if !CanTransition(current.value.status, next) {
        return Err(IllegalTransition);
      }
      var clearVerified := next == Pending;
      var row := wallets[id].(status := next, verifiedAt := if clearVerified then None else wallets[id].verifiedAt);
      var updated := PutWallet(Contents(), id, row);
      if updated.Err? {
        return Err(updated.error);
      }
      wallets := wallets[id := row];
      return Ok(());
    }

    method GetPolicy(id: Id) returns (r: Result<Policy, Error>)
      ensures r == (if id in policies then Ok(policies[id]) else Err(NotFound))
    {
      r := if id in policies then Ok(policies[id]) else Err(NotFound);
    }

    method UpdatePolicy(id: Id, p: Policy) returns (r: Result<(), Error>)
      modifies this
      ensures (Contents(), r) == UpdatePolicyTx(old(Contents()), id, p)
    {
      var broken := Validate(p);
      ReportIsExact(p);
      if broken != [] {
        return Err(InvalidPolicy);
      }
      if id !in policies {
        return Err(NotFound);
      }
      var stored := Store(p);
      if stored.Err? {
        return Err(PolicyRefused);
      }
      policies := policies[id := stored.value];
      return Ok(());
    }
  }

  function SetStatusCall(t: Tables, id: Id, next: Status): (Tables, Result<(), Error>)
  {
    if next.UnknownStatus? then (t, Err(InvalidStatus))
    else if id !in t.wallets then (t, Err(NotFound))
    else if t.wallets[id].status == next then (t, Ok(()))
    else if !CanTransition(t.wallets[id].status, next) then (t, Err(IllegalTransition))
    else SetStatusTx(t, id, next)
  }

  /**
   Alone, SetStatus keeps the tables sound for every next status but one: it would
   activate a pending wallet without a proof. Its callers never ask for that.
   */
  lemma SetStatusKeepsTables(t: Tables, id: Id, next: Status)
    requires TablesOk(t) && id in t.wallets && SetStatusCall(t, id, next).1.Ok?
    ensures TablesOk(SetStatusCall(t, id, next).0) <==> !(t.wallets[id].status == Pending && next == Active)
  {
    var w := t.wallets[id];
    var t' := SetStatusCall(t, id, next).0;
    assert WalletOk(t.users, w);
    if t' != t {
      var w' := w.(status := next, verifiedAt := if next == Pending then None else w.verifiedAt);
      assert t' == t.(wallets := t.wallets[id := w']);
      assert t'.wallets[id] == w';
      if w.status == Pending && next == Active {
        assert !WalletOk(t'.users, t'.wallets[id]);
      } else {
        RewriteKeepsTables(t, id, w');
      }
    }
  }

  /** And it can be asked: at a free slot the call succeeds and leaves an active wallet without a proof. */
  lemma SetStatusActivatesUnproved(t: Tables, id: Id)
    requires TablesOk(t) && id in t.wallets && t.wallets[id].status == Pending && !SlotHeld(t, id)
    ensures var (t', r) := SetStatusCall(t, id, Active);
            && r == Ok(()) && id in t'.wallets && t'.wallets[id].status == Active && t'.wallets[id].verifiedAt == None
            && !TablesOk(t')
  {
    assert WalletOk(t.users, t.wallets[id]);
    var w := t.wallets[id].(status := Active);
    forall k | k in t.wallets && k != id
      ensures !SameAddress(t.wallets[k], w) && !SameBotSlot(t.wallets[k], w)
    {
      assert !SameAddress(t.wallets[k], t.wallets[id]);
    }
    var t' := SetStatusCall(t, id, Active).0;
    assert t'.wallets[id] == w;
    assert !WalletOk(t'.users, t'.wallets[id]);
  }

  lemma RewriteKeepsTables(t: Tables, id: Id, w: Wallet)
    requires TablesOk(t) && id in t.wallets && WalletOk(t.users, w) && !Clashes(t.wallets, id, w)
    ensures TablesOk(t.(wallets := t.wallets[id := w]))
  {
    hide NoClash, Clashes, RowOk, ProofOk, PolicyOk;
    PutKeepsNoClash(t.wallets, id, w);
  }

  // ---- The use cases, as functions of the tables and the trail ----

  datatype Outcome<T> = Outcome(t: Tables, audit: seq<Audit>, result: Result<T, Error>)

  /** How the database behaves during a link: whether it takes each insert, and how the transaction ends. */
  datatype Database = Database(inserts: bool, limits: bool, ending: Ending)

  function LinkCall(c: Service, t: Tables, audit: seq<Audit>, id: Id, user: string, written: string,
                    role: Role, title: string, db: Database, audited: bool): Outcome<Wallet>
  {
    match NewWallet(user, written, c.chainID, role, title)
    case Err(e) => Outcome(t, Record(audit, LinkRejected(user), audited), Err(e))
    case Ok(w) =>
      var (t', r) := LinkTx(t, id, w, LinkPolicy(c), db.inserts, db.limits, db.ending);
      Outcome(t', Record(audit, match r
                                case Err(AlreadyLinked) => LinkRejected(user)
                                case Err(_) => LinkFailed(user)
                                case Ok(row) => LinkDone(id, row.address), audited), r)
  }

  function VerifyCall(t: Tables, audit: seq<Audit>, id: Id, reply: Option<int>, funded: bool, at: int, audited: bool)
    : Outcome<Wallet>
  {
    if id !in t.wallets then Outcome(t, audit, Err(NotFound))
    else if reply == None then Outcome(t, audit, Err(Unreachable))
    else if reply.value != t.wallets[id].chainID then
      Outcome(t, Record(audit, VerifyFailed(id, ChainMismatch), audited), Err(WrongChain))
    else if !funded then Outcome(t, Record(audit, VerifyFailed(id, BalanceUnread), audited), Err(Unreachable))
    else
      match MarkVerifiedTx(t, id, at)
      case (_, Err(e)) => Outcome(t, audit, Err(e))
      case (t', Ok(_)) =>
        Outcome(t', Record(audit, VerifyDone(id), audited),
                if id in t'.wallets then Ok(t'.wallets[id]) else Err(NotFound))
  }

  function DisableCall(t: Tables, audit: seq<Audit>, user: string, id: Id, audited: bool): Outcome<()>
  {
    if id !in t.wallets then Outcome(t, audit, Err(NotFound))
    else if t.wallets[id].user != user then Outcome(t, audit, Err(NotOwned))
    else
      match SetStatusCall(t, id, Disabled)
      case (_, Err(e)) => Outcome(t, audit, Err(e))
      case (t', Ok(_)) => Outcome(t', Record(audit, DisableDone(id), audited), Ok(()))
  }

  function UpdatePolicyCall(t: Tables, audit: seq<Audit>, user: string, id: Id, p: Policy, audited: bool)
    : Outcome<Policy>
  {
    if id !in t.wallets then Outcome(t, audit, Err(NotFound))
    else if t.wallets[id].user != user then Outcome(t, audit, Err(NotOwned))
    else if !Valid(p) then Outcome(t, Record(audit, PolicyRejected(id), audited), Err(InvalidPolicy))
    else if id !in t.policies then Outcome(t, audit, Err(NotFound))
    else
      match UpdatePolicyTx(t, id, p)
      case (_, Err(e)) => Outcome(t, Record(audit, PolicyRejected(id), audited), Err(e))
      case (t', Ok(_)) =>
        Outcome(t', Record(audit, PolicyChanged(id, t.policies[id], p), audited),
                if id in t'.policies then Ok(t'.policies[id]) else Err(NotFound))
  }

  /** WalletService, with its audit log and verification queue. */
  class WalletService {
    const config: Service
    const repo: WalletRepo
    var audit: seq<Audit>
    var queue: seq<Id>

    constructor (config: Service, repo: WalletRepo)
      ensures this.config == config && this.repo == repo && audit == [] && queue == []
    {
      this.config := config;
      this.repo := repo;
      audit, queue := [], [];
    }

    method Append(e: Audit, audited: bool)
      modifies this`audit
      ensures audit == Record(old(audit), e, audited)
    {
      if audited {
        audit := audit + [e];
      }
    }

    /** `enqueued` says whether the queue took the verification task. */
    method Link(id: Id, user: string, written: string, role: Role, title: string, db: Database, audited: bool,
                enqueued: bool) returns (r: Result<Wallet, Error>)
      requires id !in repo.wallets
      modifies this, repo
      ensures Outcome(repo.Contents(), audit, r)
           == LinkCall(config, old(repo.Contents()), old(audit), id, user, written, role, title, db, audited)
      ensures queue == old(queue) + (if r.Ok? && enqueued then [id] else [])
    {
      var wallet := NewWallet(user, written, config.chainID, role, title);
      if wallet.Err? {
        Append(LinkRejected(user), audited);
        return wallet;
      }
      var policy := config.defaults.(tradingEnabled := false);
      r := repo.Link(id, wallet.value, policy, db.inserts, db.limits, db.ending);
      if r.Err? {
        Append(if r.error == AlreadyLinked then LinkRejected(user) else LinkFailed(user), audited);
        return;
      }
      Append(LinkDone(id, r.value.address), audited);
      if enqueued {
        queue := queue + [id];
      }
    }

    /** `reply` and `funded` are what the chain answers; `at` is the service's clock. */
    method Verify(id: Id, reply: Option<int>, funded: bool, at: int, audited: bool)
      returns (r: Result<Wallet, Error>)
      modifies this, repo
      ensures Outcome(repo.Contents(), audit, r)
           == VerifyCall(old(repo.Contents()), old(audit), id, reply, funded, at, audited)
    {
      var wallet := repo.Get(id);
      if wallet.Err? {
        return wallet;
      }
      if reply == None {
        return Err(Unreachable);
      }
      if reply.value != wallet.value.chainID {
        Append(VerifyFailed(id, ChainMismatch), audited);
        return Err(WrongChain);
      }
      if !funded {
        Append(VerifyFailed(id, BalanceUnread), audited);
        return Err(Unreachable);
      }
      var marked := repo.MarkVerified(id, at);
      if marked.Err? {
        return Err(marked.error);
      }
      Append(VerifyDone(id), audited);
      r := repo.Get(id);
    }

    method UpdatePolicy(user: string, id: Id, p: Policy, audited: bool) returns (r: Result<Policy, Error>)
      modifies this, repo
      ensures Outcome(repo.Contents(), audit, r)
           == UpdatePolicyCall(old(repo.Contents()), old(audit), user, id, p, audited)
    {
      var wallet := repo.Get(id);
      if wallet.Err? {
        return Err(wallet.error);
      }
      if wallet.value.user != user {
        return Err(NotOwned);
      }
      var broken := Validate(p);
      ReportIsExact(p);
      if broken != [] {
        Append(PolicyRejected(id), audited);
        return Err(InvalidPolicy);
      }
      var before := repo.GetPolicy(id);
      if before.Err? {
        return before;
      }
      var updated := repo.UpdatePolicy(id, p);
      if updated.Err? {
        Append(PolicyRejected(id), audited);
        return Err(updated.error);
      }
      Append(PolicyChanged(id, before.value, p), audited);
      r := repo.GetPolicy(id);
    }

    method Disable(user: string, id: Id, audited: bool) returns (r: Result<(), Error>)
      modifies this, repo
      ensures Outcome(repo.Contents(), audit, r)
           == DisableCall(old(repo.Contents()), old(audit), user, id, audited)
    {
      var wallet := repo.Get(id);
      if wallet.Err? {
        return Err(wallet.error);
      }
      if wallet.value.user != user {
        return Err(NotOwned);
      }
      r := repo.SetStatus(id, Disabled);
      if r.Err? {
        return;
      }
      Append(DisableDone(id), audited);
    }
  }

  // ---- A call that nothing interrupts is a run of its steps ----

  ghost predicate FreshIn(s: World, pid: Pid) {
    pid !in s.started && pid !in s.procs
  }

  function LinkSteps(pid: Pid, id: Id, user: string, written: string, role: Role, title: string, db: Database,
                     audited: bool): seq<Step> {
    [LinkInsert(pid, id, user, written, role, title, db.inserts, audited), LinkLimit(pid, db.limits, audited),
     LinkCommit(pid, db.ending, audited)]
  }

  function VerifySteps(pid: Pid, id: Id, reply: Option<int>, funded: bool, at: int, audited: bool): seq<Step> {
    [VerifyGet(pid, id), VerifyChain(pid, reply, audited), VerifyBalance(pid, funded, audited),
     VerifyMark(pid, at, audited)]
  }

  function DisableSteps(pid: Pid, user: string, id: Id, audited: bool): seq<Step> {
    [DisableGet(pid, user, id), DisableRead(pid, audited), DisableWrite(pid, audited)]
  }

  function UpdatePolicySteps(pid: Pid, user: string, id: Id, p: Policy, audited: bool): seq<Step> {
    [PolicyGet(pid, user, id, p, audited), PolicyRead(pid), PolicyWrite(pid, audited), PolicyAudit(pid, audited)]
  }

  lemma ExecFour(c: Service, s: World, a: Step, b: Step, d: Step, e: Step)
    ensures Exec(c, s, [a, b, d, e]) == Apply(c, Apply(c, Apply(c, Apply(c, s, a), b), d), e)
  {
    hide Apply;
    assert [a, b, d, e] == [a, b, d] + [e];
    ExecSnoc(c, s, [a, b, d], e);
    ExecThree(c, s, a, b, d);
  }

  /** What the steps of one process leave behind when they end with the outcome of its call. */
  ghost predicate Ends(s: World, s': World, pid: Pid, t: Tables, audit: seq<Audit>)
  {
    s'.t == t && s'.audit == audit && s'.procs == s.procs && s'.started <= s.started + {pid}
  }

  lemma VerifyWalk(s: World, pid: Pid, id: Id, reply: Option<int>, funded: bool, at: int, audited: bool)
    requires FreshIn(s, pid)
    ensures var o := VerifyCall(s.t, s.audit, id, reply, funded, at, audited);
            var s2 := VerifyChainStep(VerifyGetStep(s, pid, id), pid, reply, audited);
            var s3 := VerifyBalanceStep(s2, pid, funded, audited);
            Ends(s, VerifyMarkStep(s3, pid, at, audited), pid, o.t, o.audit)
  {
    hide PutWallet;
    var s1 := VerifyGetStep(s, pid, id);
    if id in s.t.wallets {
      assert s1.procs - {pid} == s.procs;
      var s2 := VerifyChainStep(s1, pid, reply, audited);
      if reply == Some(s.t.wallets[id].chainID) {
        assert s2.procs - {pid} == s.procs;
        var s3 := VerifyBalanceStep(s2, pid, funded, audited);
        assert s3.procs - {pid} == s.procs;
      }
    }
  }

  lemma VerifyCallIsRun(c: Service, s: World, pid: Pid, id: Id, reply: Option<int>, funded: bool, at: int,
                        audited: bool)
    requires FreshIn(s, pid)
    ensures var o := VerifyCall(s.t, s.audit, id, reply, funded, at, audited);
            Ends(s, Exec(c, s, VerifySteps(pid, id, reply, funded, at, audited)), pid, o.t, o.audit)
  {
    hide Exec, Ends, VerifyGetStep, VerifyChainStep, VerifyBalanceStep, VerifyMarkStep, VerifyCall;
    ExecFour(c, s, VerifyGet(pid, id), VerifyChain(pid, reply, audited), VerifyBalance(pid, funded, audited),
             VerifyMark(pid, at, audited));
    VerifyWalk(s, pid, id, reply, funded, at, audited);
  }

  lemma DisableWalk(s: World, pid: Pid, user: string, id: Id, audited: bool)
    requires FreshIn(s, pid)
    ensures var o := DisableCall(s.t, s.audit, user, id, audited);
            Ends(s, DisableWriteStep(DisableReadStep(DisableGetStep(s, pid, user, id), pid, audited), pid, audited),
                 pid, o.t, o.audit)
  {
    hide PutWallet;
    var s1 := DisableGetStep(s, pid, user, id);
    if id in s.t.wallets && s.t.wallets[id].user == user {
      assert s1.procs - {pid} == s.procs;
      var s2 := DisableReadStep(s1, pid, audited);
      if pid in s2.procs {
        assert s2.procs - {pid} == s.procs;
      }
    }
  }

  lemma DisableCallIsRun(c: Service, s: World, pid: Pid, user: string, id: Id, audited: bool)
    requires FreshIn(s, pid)
    ensures var o := DisableCall(s.t, s.audit, user, id, audited);
            Ends(s, Exec(c, s, DisableSteps(pid, user, id, audited)), pid, o.t, o.audit)
  {
    hide Exec, Ends, DisableGetStep, DisableReadStep, DisableWriteStep, DisableCall;
    ExecThree(c, s, DisableGet(pid, user, id), DisableRead(pid, audited), DisableWrite(pid, audited));
    DisableWalk(s, pid, user, id, audited);
  }

  lemma UpdatePolicyWalk(s: World, pid: Pid, user: string, id: Id, p: Policy, audited: bool)
    requires FreshIn(s, pid)
    ensures var o := UpdatePolicyCall(s.t, s.audit, user, id, p, audited);
            var s3 := PolicyWriteStep(PolicyReadStep(PolicyGetStep(s, pid, user, id, p, audited), pid), pid, audited);
            Ends(s, PolicyAuditStep(s3, pid, audited), pid, o.t, o.audit)
  {
    hide Valid, UpdatePolicyTx;
    var s1 := PolicyGetStep(s, pid, user, id, p, audited);
    if pid in s1.procs {
      assert s1.procs - {pid} == s.procs;
      var s2 := PolicyReadStep(s1, pid);
      if pid in s2.procs {
        assert s2.procs - {pid} == s.procs;
        var s3 := PolicyWriteStep(s2, pid, audited);
        assert s3.procs - {pid} == s.procs;
      }
    }
  }

  lemma UpdatePolicyCallIsRun(c: Service, s: World, pid: Pid, user: string, id: Id, p: Policy, audited: bool)
    requires FreshIn(s, pid)
    ensures var o := UpdatePolicyCall(s.t, s.audit, user, id, p, audited);
            Ends(s, Exec(c, s, UpdatePolicySteps(pid, user, id, p, audited)), pid, o.t, o.audit)
  {
    hide Exec, Ends, PolicyGetStep, PolicyReadStep, PolicyWriteStep, PolicyAuditStep, UpdatePolicyCall;
    ExecFour(c, s, PolicyGet(pid, user, id, p, audited), PolicyRead(pid), PolicyWrite(pid, audited),
             PolicyAudit(pid, audited));
    UpdatePolicyWalk(s, pid, user, id, p, audited);
  }

  lemma LinkCallIsRun(c: Service, s: World, pid: Pid, id: Id, user: string, written: string, role: Role,
                      title: string, db: Database, audited: bool)
    requires Inv(c, s) && FreshIn(s, pid) && !IdTaken(s, id)
    requires var w := NewWallet(user, written, c.chainID, role, title); w.Ok? ==> !AddressHeld(s, PendingRow(w.value))
    ensures var o := LinkCall(c, s.t, s.audit, id, user, written, role, title, db, audited);
            Ends(s, Exec(c, s, LinkSteps(pid, id, user, written, role, title, db, audited)), pid, o.t, o.audit)
  {
    hide Inv, Exec, Ends, LinkInsertStep, LinkLimitStep, LinkCommitStep, LinkCall, IdTaken, AddressHeld;
    InvTables(c, s);
    ExecThree(c, s, LinkInsert(pid, id, user, written, role, title, db.inserts, audited),
              LinkLimit(pid, db.limits, audited), LinkCommit(pid, db.ending, audited));
    LinkWalk(c, s, pid, id, user, written, role, title, db, audited);
  }

  /** An insert waits only for another open link of the same address, and takes any unused identifier. */
  lemma LinksInTheWay(s: World, id: Id, row: Wallet)
    ensures AddressHeld(s, row) <==>
              exists q <- s.procs :: && (s.procs[q].LinkStaged? || s.procs[q].LinkFull?)
                                     && s.procs[q].row.user == row.user && s.procs[q].row.chainID == row.chainID
                                     && s.procs[q].row.address == row.address
    ensures id !in s.t.wallets && (forall q <- s.procs :: !s.procs[q].LinkStaged? && !s.procs[q].LinkFull?) ==>
              !IdTaken(s, id) && !AddressHeld(s, row)
  {
    if AddressHeld(s, row) {
      var q :| q in s.procs && Linking(s.procs[q]) && SameAddress(s.procs[q].row, row);
    }
    if q :| q in s.procs && (s.procs[q].LinkStaged? || s.procs[q].LinkFull?) && s.procs[q].row.user == row.user
            && s.procs[q].row.chainID == row.chainID && s.procs[q].row.address == row.address {
      assert Linking(s.procs[q]) && SameAddress(s.procs[q].row, row);
    }
  }

  lemma LinkWalk(c: Service, s: World, pid: Pid, id: Id, user: string, written: string, role: Role, title: string,
                 db: Database, audited: bool)
    requires FreshIn(s, pid) && !IdTaken(s, id) && s.t.policies.Keys == s.t.wallets.Keys
    requires var w := NewWallet(user, written, c.chainID, role, title); w.Ok? ==> !AddressHeld(s, PendingRow(w.value))
    ensures var o := LinkCall(c, s.t, s.audit, id, user, written, role, title, db, audited);
            var s2 := LinkLimitStep(c, LinkInsertStep(c, s, pid, id, user, written, role, title, db.inserts, audited),
                                    pid, db.limits, audited);
            Ends(s, LinkCommitStep(s2, pid, db.ending, audited), pid, o.t, o.audit)
  {
    hide NewWallet, RowOk, Clashes, Store, Valid, LinkPolicy, AddressHeld, Wrap;
    var s1 := LinkInsertStep(c, s, pid, id, user, written, role, title, db.inserts, audited);
    if pid in s1.procs {
      assert s1.procs - {pid} == s.procs;
      NewWalletKeepsUser(user, written, c.chainID, role, title);
      var s2 := LinkLimitStep(c, s1, pid, db.limits, audited);
      if pid in s2.procs {
        assert s2.procs - {pid} == s.procs;
      }
    }
  }

  lemma NewWalletKeepsUser(user: string, written: string, chainID: int, role: Role, title: string)
    ensures var w := NewWallet(user, written, chainID, role, title); w.Ok? ==> w.value.user == user
  {
    hide ParseAddress, IsZero;
  }

  /**
   What a call of Link leaves: without a success neither row, unless only the answer of the
   commit was lost; with one, a pending wallet without proof and the rounded defaults.
   */
  lemma LinkStoresBothOrNeither(c: Service, t: Tables, audit: seq<Audit>, id: Id, user: string, written: string,
                                role: Role, title: string, db: Database, audited: bool)
    requires id !in t.wallets
    ensures var o := LinkCall(c, t, audit, id, user, written, role, title, db, audited);
            && (o.t == t || (&& o.t.wallets - {id} == t.wallets && o.t.policies - {id} == t.policies - {id}
                             && JustLinked(c, o.t, id) && o.t.wallets[id].user == user && o.t.wallets[id].role == role
                             && ParseAddress(written) == Some(o.t.wallets[id].address)))
            && (o.result.Ok? <==> o.t != t && db.ending == Committed)
            && (o.t != t ==> db.inserts && db.limits && db.ending != RolledBack)
  {
    hide ParseAddress, Fits, Valid, RowOk, Clashes, Thousandths, Hundredths;
    var o := LinkCall(c, t, audit, id, user, written, role, title, db, audited);
    if o.t != t {
      assert o.t.wallets - {id} == t.wallets;
      assert o.t.policies - {id} == t.policies - {id};
    }
  }

  // ---- The answers of the use cases, spelled out ----

  const ZERO_ADDRESS: string := "0x0000000000000000000000000000000000000000"

  lemma ZeroIsSpelled(a: string)
    ensures IsZero(a) <==> a == ZERO_ADDRESS
  {
  }

  /** The trail with one more event, if its write succeeds. */
  function Trail(audit: seq<Audit>, e: Audit, audited: bool): seq<Audit> {
    if audited then audit + [e] else audit
  }

  /** Another wallet of this account on this chain with this address. */
  ghost predicate AddressTaken(t: Tables, user: string, chainID: int, address: string) {
    exists k <- t.wallets ::
      t.wallets[k].user == user && t.wallets[k].chainID == chainID && t.wallets[k].address == address
  }

  /** The first reason for which a link fails before its commit, if any. */
  ghost function LinkFault(c: Service, t: Tables, user: string, written: string, role: Role, db: Database)
    : Option<Error>
  {
    var address := ParseAddress(written);
    if address == None then Some(InvalidAddress)
    else if address.value == ZERO_ADDRESS then Some(ZeroAddress)
    else if user == "" then Some(NoUser)
    else if c.chainID == 0 then Some(NoChain)
    else if role != Owner && role != Bot then Some(InvalidRole)
    else if !Checks(c.defaults) then Some(InvalidPolicy)
    else if !db.inserts then Some(NotCommitted)
    else if Wrap(c.chainID) <= 0 then Some(CheckFailed)
    else if AddressTaken(t, user, Wrap(c.chainID), address.value) then Some(AlreadyLinked)
    else if user !in t.users then Some(ForeignKeyFailed)
    else if !db.limits then Some(NotCommitted)
    else if Store(c.defaults.(tradingEnabled := false)).Err? then Some(PolicyRefused)
    else None
  }

  /** Errors that the caller is to blame for are recorded as rejections, all others as failures. */
  predicate Rejects(e: Error) {
    e == InvalidAddress || e == ZeroAddress || e == NoUser || e == NoChain || e == InvalidRole || e == AlreadyLinked
  }

  lemma NewRowIsOk(c: Service, user: string, written: string, role: Role, title: string)
    ensures var w := NewWallet(user, written, c.chainID, role, title);
            w.Ok? ==> (RowOk(PendingRow(w.value)) <==> Wrap(c.chainID) > 0)
  {
    hide Parse;
    if ParseAddress(written).Some? {
      ParseIsCanonical(written, 40);
    }
  }

  lemma NewWalletIsSpelled(user: string, written: string, chainID: int, role: Role, title: string)
    ensures var r := NewWallet(user, written, chainID, role, title);
            var address := ParseAddress(written);
            && (address == None ==> r == Err(InvalidAddress))
            && (address.Some? && address.value == ZERO_ADDRESS ==> r == Err(ZeroAddress))
            && (address.Some? && address.value != ZERO_ADDRESS ==>
                  && (user == "" ==> r == Err(NoUser))
                  && (user != "" && chainID == 0 ==> r == Err(NoChain))
                  && (user != "" && chainID != 0 && role != Owner && role != Bot ==> r == Err(InvalidRole))
                  && (user != "" && chainID != 0 && (role == Owner || role == Bot) ==>
                        r == Ok(Wallet(user, address.value, chainID, role, Pending, title, None))))
  {
    hide ParseAddress, IsZero;
    if ParseAddress(written).Some? {
      ZeroIsSpelled(ParseAddress(written).value);
    }
  }

  lemma PendingNeverClashes(t: Tables, id: Id, w: Wallet)
    requires id !in t.wallets && w.status == Pending
    ensures Clashes(t.wallets, id, w) <==> AddressTaken(t, w.user, w.chainID, w.address)
  {
    if AddressTaken(t, w.user, w.chainID, w.address) {
      var k :| k in t.wallets && t.wallets[k].user == w.user && t.wallets[k].chainID == w.chainID
               && t.wallets[k].address == w.address;
      assert SameAddress(t.wallets[k], w);
    }
  }

  lemma DefaultsAreChecked(c: Service)
    ensures Valid(LinkPolicy(c)) <==> Checks(c.defaults)
  {
  }

  /**
   Link: the first fault is the error, nothing is stored, and it is recorded; without one
   the transaction's end decides, and what it stores is the wallet as asked for, pending,
   with the default limits and trading off.
   */
  lemma LinkAnswers(c: Service, t: Tables, audit: seq<Audit>, id: Id, user: string, written: string, role: Role,
                    title: string, db: Database, audited: bool)
    requires id !in t.wallets && id !in t.policies
    ensures var o := LinkCall(c, t, audit, id, user, written, role, title, db, audited);
            match LinkFault(c, t, user, written, role, db)
            case Some(e) =>
              var event := if Rejects(e) then LinkRejected(user) else LinkFailed(user);
              o == Outcome(t, Trail(audit, event, audited), Err(e))
            case None =>
              var limits := Store(c.defaults.(tradingEnabled := false)).value;
              var row := Wallet(user, ParseAddress(written).value, Wrap(c.chainID), role, Pending, title, None);
              var linked := Tables(t.users, t.wallets[id := row], t.policies[id := limits]);
              o == (match db.ending
                    case Committed => Outcome(linked, Trail(audit, LinkDone(id, row.address), audited), Ok(row))
                    case RolledBack => Outcome(t, Trail(audit, LinkFailed(user), audited), Err(NotCommitted))
                    case AnswerLost => Outcome(linked, Trail(audit, LinkFailed(user), audited), Err(NotCommitted)))
  {
    hide NewWallet, Clashes, RowOk, ParseAddress, Valid, Checks, Store, Wrap, AddressTaken;
    NewWalletIsSpelled(user, written, c.chainID, role, title);
    NewRowIsOk(c, user, written, role, title);
    DefaultsAreChecked(c);
    var w := NewWallet(user, written, c.chainID, role, title);
    if w.Ok? {
      PendingNeverClashes(t, id, PendingRow(w.value));
    }
  }

  /** An active bot wallet of this account on this chain, other than this one, where this one is a bot too. */
  ghost predicate SlotTaken(t: Tables, id: Id)
    requires id in t.wallets
  {
    t.wallets[id].role == Bot &&
    exists o <- t.wallets ::
      && o != id && t.wallets[o].role == Bot && t.wallets[o].status == Active
      && t.wallets[o].user == t.wallets[id].user && t.wallets[o].chainID == t.wallets[id].chainID
  }

  lemma SlotIsSpelled(t: Tables, id: Id)
    requires id in t.wallets
    ensures SlotHeld(t, id) <==> SlotTaken(t, id)
  {
    if SlotTaken(t, id) {
      var o :| o in t.wallets && o != id && t.wallets[o].role == Bot && t.wallets[o].status == Active
               && t.wallets[o].user == t.wallets[id].user && t.wallets[o].chainID == t.wallets[id].chainID;
      assert SameBotSlot(t.wallets[o], t.wallets[id].(status := Active));
    }
  }

  /** Verify: every answer of the chain, and the activation of a pending wallet whose slot is free. */
  lemma VerifyAnswers(t: Tables, audit: seq<Audit>, id: Id, reply: Option<int>, funded: bool, at: int, audited: bool)
    requires TablesOk(t)
    ensures var o := VerifyCall(t, audit, id, reply, funded, at, audited);
            && (id !in t.wallets ==> o == Outcome(t, audit, Err(NotFound)))
            && (id in t.wallets ==>
                  var w := t.wallets[id];
                  var active := w.(status := Active, verifiedAt := Some(at));
                  && (reply == None ==> o == Outcome(t, audit, Err(Unreachable)))
                  && (reply.Some? && reply.value != w.chainID ==>
                        o == Outcome(t, Trail(audit, VerifyFailed(id, ChainMismatch), audited), Err(WrongChain)))
                  && (reply == Some(w.chainID) && !funded ==>
                        o == Outcome(t, Trail(audit, VerifyFailed(id, BalanceUnread), audited), Err(Unreachable)))
                  && (reply == Some(w.chainID) && funded ==>
                        && (w.status != Pending ==> o == Outcome(t, Trail(audit, VerifyDone(id), audited), Ok(w)))
                        && (w.status == Pending && SlotTaken(t, id) ==> o == Outcome(t, audit, Err(UniqueFailed)))
                        && (w.status == Pending && !SlotTaken(t, id) ==>
                              o == Outcome(t.(wallets := t.wallets[id := active]),
                                           Trail(audit, VerifyDone(id), audited), Ok(active)))))
  {
    hide TablesOk, PutWallet, SlotHeld, SlotTaken;
    if id in t.wallets {
      SlotIsSpelled(t, id);
      if t.wallets[id].status == Pending {
        ActivationIsExact(t, id, at);
      }
    }
  }

  /** UpdatePolicy: only for the owner, only a valid policy, with the stored and the requested one on record. */
  lemma UpdatePolicyAnswers(t: Tables, audit: seq<Audit>, user: string, id: Id, p: Policy, audited: bool)
    requires t.policies.Keys == t.wallets.Keys
    ensures var o := UpdatePolicyCall(t, audit, user, id, p, audited);
            && (id !in t.wallets ==> o == Outcome(t, audit, Err(NotFound)))
            && (id in t.wallets && t.wallets[id].user != user ==> o == Outcome(t, audit, Err(NotOwned)))
            && (id in t.wallets && t.wallets[id].user == user ==>
                  && (!Checks(p) ==> o == Outcome(t, Trail(audit, PolicyRejected(id), audited), Err(InvalidPolicy)))
                  && (Checks(p) && Store(p).Err? ==>
                        o == Outcome(t, Trail(audit, PolicyRejected(id), audited), Err(PolicyRefused)))
                  && (Checks(p) && Store(p).Ok? ==>
                        o == Outcome(t.(policies := t.policies[id := Store(p).value]),
                                     Trail(audit, PolicyChanged(id, t.policies[id], p), audited), Ok(Store(p).value))))
  {
    hide Valid, Checks, Store;
    ChecksAreValid(p);
  }

  lemma ChecksAreValid(p: Policy)
    ensures Checks(p) <==> Valid(p)
  {
  }

  /** SetStatus: which moves are made, what each leaves, and the error of every other. */
  lemma SetStatusAnswers(t: Tables, id: Id, next: Status)
    requires TablesOk(t)
    ensures var (t', r) := SetStatusCall(t, id, next);
            var known := next == Pending || next == Active || next == Disabled;
            && (!known ==> t' == t && r == Err(InvalidStatus))
            && (known && id !in t.wallets ==> t' == t && r == Err(NotFound))
            && (known && id in t.wallets ==>
                  var w := t.wallets[id];
                  var moves := (w.status == Pending && next != Pending) || (w.status == Active && next == Disabled)
                               || (w.status == Disabled && next == Pending);
                  && (w.status == next ==> t' == t && r == Ok(()))
                  && (w.status != next && !moves ==> t' == t && r == Err(IllegalTransition))
                  && (moves && next == Active && SlotTaken(t, id) ==> t' == t && r == Err(UniqueFailed))
                  && (moves && !(next == Active && SlotTaken(t, id)) ==>
                        && r == Ok(())
                        && t' == t.(wallets := t.wallets[id := w.(status := next,
                                      verifiedAt := if next == Pending then None else w.verifiedAt)])))
  {
    hide SlotTaken, SlotHeld, TablesOk, PutWallet;
    if id in t.wallets && !next.UnknownStatus? && t.wallets[id].status != next {
      var w := t.wallets[id];
      SlotIsSpelled(t, id);
      StatusIsKnown(t, id);
      PutMoved(t, id, w.(status := next, verifiedAt := if next == Pending then None else w.verifiedAt));
    } else if id in t.wallets {
      StatusIsKnown(t, id);
    }
  }

  lemma StatusIsKnown(t: Tables, id: Id)
    requires TablesOk(t) && id in t.wallets
    ensures !t.wallets[id].status.UnknownStatus?
  {
    assert WalletOk(t.users, t.wallets[id]);
  }

  /** A known status is refused by the tables only for a taken slot. */
  lemma PutMoved(t: Tables, id: Id, w: Wallet)
    requires TablesOk(t) && id in t.wallets && !w.status.UnknownStatus?
    requires w == t.wallets[id].(status := w.status, verifiedAt := w.verifiedAt)
    requires (t.wallets[id].status != Active || w.status != Active) && (w.status == Pending ==> w.verifiedAt == None)
    ensures PutWallet(t, id, w) == (if w.status == Active && SlotHeld(t, id) then Err(UniqueFailed)
                                    else Ok(t.(wallets := t.wallets[id := w])))
  {
    assert WalletOk(t.users, t.wallets[id]);
    MoveClashes(t, id, w);
    hide SlotHeld, Clashes;
  }

  lemma MoveClashes(t: Tables, id: Id, w: Wallet)
    requires TablesOk(t) && id in t.wallets
    requires w == t.wallets[id].(status := w.status, verifiedAt := w.verifiedAt)
    requires t.wallets[id].status != Active || w.status != Active
    ensures Clashes(t.wallets, id, w) <==> w.status == Active && SlotHeld(t, id)
  {
    hide RowOk, PolicyOk;
    forall k | k in t.wallets && k != id
      ensures !SameAddress(t.wallets[k], w)
      ensures SameBotSlot(t.wallets[k], w) <==>
                w.status == Active && SameBotSlot(t.wallets[k], t.wallets[id].(status := Active))
    {
      assert !SameAddress(t.wallets[k], t.wallets[id]);
    }
  }

  /** Disable: the owner can always disable, whatever the status, and nothing else about the tables changes. */
  lemma DisableAnswers(t: Tables, audit: seq<Audit>, user: string, id: Id, audited: bool)
    requires TablesOk(t)
    ensures var o := DisableCall(t, audit, user, id, audited);
            && (id !in t.wallets ==> o == Outcome(t, audit, Err(NotFound)))
            && (id in t.wallets && t.wallets[id].user != user ==> o == Outcome(t, audit, Err(NotOwned)))
            && (id in t.wallets && t.wallets[id].user == user ==>
                  o == Outcome(t.(wallets := t.wallets[id := t.wallets[id].(status := Disabled)]),
                               Trail(audit, DisableDone(id), audited), Ok(())))
  {
    hide SlotTaken, SetStatusCall, TablesOk;
    SetStatusAnswers(t, id, Disabled);
    if id in t.wallets {
      var w := t.wallets[id];
      StatusIsKnown(t, id);
      if w.status == Disabled {
        assert t.wallets[id := w.(status := Disabled)] == t.wallets;
      }
    }
  }

  // ---- Racing verifications ----

  /** The slot of this wallet is held by another active bot wallet. */
  ghost predicate SlotHeld(t: Tables, id: Id)
    requires id in t.wallets
  {
    exists o :: o in t.wallets && o != id && SameBotSlot(t.wallets[o], t.wallets[id].(status := Active))
  }

  /**
   The guarded update of a verification that passed its checks activates a pending wallet
   exactly when its slot is free; when it is held, nothing at all changes.
   */
  lemma ActivationIsExact(t: Tables, id: Id, at: int)
    requires TablesOk(t) && id in t.wallets && t.wallets[id].status == Pending
    ensures SlotHeld(t, id) ==> MarkVerifiedTx(t, id, at) == (t, Err(UniqueFailed))
    ensures !SlotHeld(t, id) ==>
              MarkVerifiedTx(t, id, at)
                == (t.(wallets := t.wallets[id := t.wallets[id].(status := Active, verifiedAt := Some(at))]), Ok(()))
  {
    var w := t.wallets[id].(status := Active, verifiedAt := Some(at));
    assert WalletOk(t.users, t.wallets[id]);
    forall k | k in t.wallets && k != id
      ensures !SameAddress(t.wallets[k], w)
    {
      assert !SameAddress(t.wallets[k], t.wallets[id]);
    }
    if SlotHeld(t, id) {
      var o :| o in t.wallets && o != id && SameBotSlot(t.wallets[o], t.wallets[id].(status := Active));
      assert SameBotSlot(t.wallets[o], w);
    } else {
      forall k | k in t.wallets && k != id
        ensures !SameBotSlot(t.wallets[k], w)
      {
        assert !SameBotSlot(t.wallets[k], t.wallets[id].(status := Active));
      }
    }
  }

  /**
   Two verifications that have both passed their checks for one free slot: whichever writes
   first activates its wallet, and the other one's wallet stays pending with nothing changed.
   */
  lemma RaceHasOneWinner(c: Service, s: World, first: Pid, second: Pid, at: int, at': int, audited: bool)
    requires Inv(c, s) && first in s.procs && second in s.procs
    requires s.procs[first].VerifyFunded? && s.procs[second].VerifyFunded?
    ensures var a, b := s.procs[first].wallet, s.procs[second].wallet;
            && a in s.t.wallets && b in s.t.wallets
            && (a != b && Contend(s.t.wallets[a], s.t.wallets[b]) && !SlotHeld(s.t, a) ==>
                  Exec(c, s, [VerifyMark(first, at, audited), VerifyMark(second, at', audited)]).t.wallets
                    == s.t.wallets[a := s.t.wallets[a].(status := Active, verifiedAt := Some(at))])
  {
    hide Exec, Inv, TablesOk, PutWallet, MarkVerifiedTx, SlotHeld;
    InvTables(c, s);
    InvProcess(c, s, first);
    InvProcess(c, s, second);
    var a, b := s.procs[first].wallet, s.procs[second].wallet;
    if a != b && Contend(s.t.wallets[a], s.t.wallets[b]) && !SlotHeld(s.t, a) {
      ExecTwo(c, s, VerifyMark(first, at, audited), VerifyMark(second, at', audited));
      ActivationIsExact(s.t, a, at);
      MarkKeepsTables(s.t, a, at);
      var t1 := MarkVerifiedTx(s.t, a, at).0;
      WinnerHoldsSlot(t1, a, b);
      ActivationIsExact(t1, b, at');
    }
  }

  /** Pending bot wallets of one account on one chain. */
  predicate Contend(a: Wallet, b: Wallet)
  {
    && a.role == Bot && a.status == Pending && b.role == Bot && b.status == Pending
    && a.user == b.user && a.chainID == b.chainID
  }

  lemma WinnerHoldsSlot(t: Tables, winner: Id, id: Id)
    requires winner in t.wallets && id in t.wallets && winner != id
    requires SameBotSlot(t.wallets[winner], t.wallets[id].(status := Active))
    ensures SlotHeld(t, id)
  {
  }

  lemma InvProcess(c: Service, s: World, pid: Pid)
    requires Inv(c, s) && pid in s.procs && !Linking(s.procs[pid])
    ensures s.procs[pid].wallet in s.t.wallets
  {
    hide TablesOk, StagedOk, FactsOk, OnceEach, ProofsOnRecord, PoliciesOnRecord, Rounded, Checked, SawChain;
    assert ProcOk(s.t, s.trace, pid, s.procs[pid]);
  }

  /** A verification that lost the race succeeds when it is delivered again after the winner was disabled. */
  lemma LoserCanRetry(c: Service, s: World, id: Id, winner: Id, d: Pid, v: Pid, at: int, audited: bool)
    requires Inv(c, s) && FreshIn(s, d) && FreshIn(s, v) && d != v
    requires id in s.t.wallets && s.t.wallets[id].status == Pending && s.t.wallets[id].role == Bot
    requires winner in s.t.wallets && SameBotSlot(s.t.wallets[winner], s.t.wallets[id].(status := Active))
    ensures var w := s.t.wallets[id];
            var again := VerifySteps(v, id, Some(w.chainID), true, at, audited);
            && Exec(c, s, again).t == s.t
            && Exec(c, s, DisableSteps(d, w.user, winner, audited) + again).t.wallets
                 == s.t.wallets[winner := s.t.wallets[winner].(status := Disabled)]
                               [id := w.(status := Active, verifiedAt := Some(at))]
  {
    hide Exec, Inv, TablesOk, PutWallet, MarkVerifiedTx, SetStatusTx;
    var w := s.t.wallets[id];
    var stop := DisableSteps(d, w.user, winner, audited);
    var again := VerifySteps(v, id, Some(w.chainID), true, at, audited);
    InvTables(c, s);
    VerifyCallIsRun(c, s, v, id, Some(w.chainID), true, at, audited);
    ActivationIsExact(s.t, id, at);
    assert SlotHeld(s.t, id);

    DisableCallIsRun(c, s, d, w.user, winner, audited);
    DisableKeepsTables(s.t, winner);
    var s1 := Exec(c, s, stop);
    assert s1.t == s.t.(wallets := s.t.wallets[winner := s.t.wallets[winner].(status := Disabled)]);
    SlotFreed(s.t, id, winner);
    VerifyCallIsRun(c, s1, v, id, Some(w.chainID), true, at, audited);
    ActivationIsExact(s1.t, id, at);
    ExecAppend(c, s, stop, again);
  }

  lemma InvTables(c: Service, s: World)
    requires Inv(c, s)
    ensures TablesOk(s.t)
  {
    hide TablesOk, ProcsOk, StagedOk, FactsOk, OnceEach, ProofsOnRecord, PoliciesOnRecord, Rounded;
  }

  lemma SlotFreed(t: Tables, id: Id, winner: Id)
    requires TablesOk(t) && id in t.wallets && winner in t.wallets && id != winner
    requires SameBotSlot(t.wallets[winner], t.wallets[id].(status := Active))
    ensures !SlotHeld(t.(wallets := t.wallets[winner := t.wallets[winner].(status := Disabled)]), id)
  {
    hide RowOk, PolicyOk, WalletOk;
    var t' := t.(wallets := t.wallets[winner := t.wallets[winner].(status := Disabled)]);
    forall o | o in t'.wallets && o != id
      ensures !SameBotSlot(t'.wallets[o], t'.wallets[id].(status := Active))
    {
      if o != winner {
        assert !SameBotSlot(t.wallets[o], t.wallets[winner]);
      }
    }
  }
}
