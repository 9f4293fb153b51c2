/**
 First and repeated contact of Telegram users: the users and telegram_users tables, the
 transaction of EnsureTelegramUser, and the decision of Authorize.
 */
module Onboarding {
  import opened Results
  import opened Counting
  import opened Transactions

  type TelegramId = int
  type UserId = nat
  type Pid = nat

  datatype Standing = ActiveUser | Suspended

  /** The display fields that are refreshed on every contact. */
  datatype Profile = Profile(username: string, firstName: string, lastName: string, languageCode: string, chatID: int)

  /** A telegram_users row; telegram_id is the key of the table. */
  datatype Binding = Binding(user: UserId, profile: Profile)

  datatype Tables = Tables(users: map<UserId, Standing>, bindings: map<TelegramId, Binding>)

  datatype Error = InvalidId | NotCommitted

  /** The identity a caller gets back. */
  datatype Contact = Contact(user: UserId, standing: Standing, profile: Profile, created: bool)

  // ---- One call at a time ----

  /** What a transaction would leave and report; `newId` is the identifier a new account would get. */
  function Contacted(t: Tables, tid: TelegramId, p: Profile, newId: UserId): (Tables, Result<Contact, Error>)
  {
    if tid !in t.bindings then
      (Tables(t.users[newId := ActiveUser], t.bindings[tid := Binding(newId, p)]),
       Ok(Contact(newId, ActiveUser, p, true)))
    else
      var user := t.bindings[tid].user;
      if user !in t.users then (t, Err(NotCommitted))
      else (t.(bindings := t.bindings[tid := Binding(user, p)]), Ok(Contact(user, t.users[user], p, false)))
  }

  /** EnsureTelegramUser with nothing running beside it. */
  function EnsureCall(t: Tables, tid: TelegramId, p: Profile, newId: UserId, ending: Ending)
    : (Tables, Result<Contact, Error>)
  {
    if tid <= 0 then (t, Err(InvalidId))
    else
      match ending
      case Committed => Contacted(t, tid, p, newId)
      case RolledBack => (t, Err(NotCommitted))
      case AnswerLost => (Contacted(t, tid, p, newId).0, Err(NotCommitted))
  }

  /** The row a contact leaves: the profile as it is now, under the account it has had or the new one. */
  predicate Refreshed(t: Tables, t': Tables, tid: TelegramId, user: UserId, p: Profile)
  {
    && t'.bindings.Keys == t.bindings.Keys + {tid} && t'.bindings[tid].user == user && t'.bindings[tid].profile == p
    && forall other <- t.bindings :: other != tid ==> t'.bindings[other] == t.bindings[other]
  }

  /** EnsureTelegramUser: who is created, whose profile is stored, and what the caller is told. */
  lemma EnsureAnswers(t: Tables, tid: TelegramId, p: Profile, newId: UserId, ending: Ending)
    requires newId !in t.users && forall k <- t.bindings :: t.bindings[k].user in t.users
    ensures var (t', r) := EnsureCall(t, tid, p, newId, ending);
            && (tid <= 0 ==> t' == t && r == Err(InvalidId))
            && (tid > 0 && ending == RolledBack ==> t' == t && r == Err(NotCommitted))
            && (tid > 0 && ending != RolledBack && tid !in t.bindings ==>
                  && t'.users.Keys == t.users.Keys + {newId} && t'.users[newId] == ActiveUser
                  && (forall u <- t.users :: t'.users[u] == t.users[u]) && Refreshed(t, t', tid, newId, p)
                  && r == (if ending == Committed then Ok(Contact(newId, ActiveUser, p, true)) else Err(NotCommitted)))
            && (tid > 0 && ending != RolledBack && tid in t.bindings ==>
                  var user := t.bindings[tid].user;
                  && t'.users == t.users && Refreshed(t, t', tid, user, p)
                  && r == (if ending == Committed then Ok(Contact(user, t.users[user], p, false))
                           else Err(NotCommitted)))
  {
  }

  class UserRepo {
    var users: map<UserId, Standing>
    var bindings: map<TelegramId, Binding>

    constructor ()
      ensures Contents() == Tables(map[], map[])
    {
      users, bindings := map[], map[];
    }

    function Contents(): Tables
      reads this
    {
      Tables(users, bindings)
    }

    method EnsureTelegramUser(tid: TelegramId, p: Profile, newId: UserId, ending: Ending)
      returns (r: Result<Contact, Error>)
      requires newId !in users
      modifies this
      ensures (Contents(), r) == EnsureCall(old(Contents()), tid, p, newId, ending)
    {
      if tid <= 0 {
        return Err(InvalidId);
      }
      // The transaction works on its own copy; only a commit makes it the table.
      var txUsers, txBindings := users, bindings;
      var user, created;
      if tid !in txBindings {
        created := true;
        user := newId;
        txUsers := txUsers[user := ActiveUser];
        txBindings := txBindings[tid := Binding(user, p)];
      } else {
        created := false;
        user := txBindings[tid].user;
        txBindings := txBindings[tid := Binding(user, p)];
      }
      if ending == RolledBack || user !in txUsers {
        return Err(NotCommitted);
      }
      users, bindings := txUsers, txBindings;
      if ending == AnswerLost {
        return Err(NotCommitted);
      }
      return Ok(Contact(user, users[user], p, created));
    }
  }

  // ---- Any number of transactions at once ----

  /**
   An open transaction. `Creating` found no row; `Staged` has inserted an account nobody
   else can see; `Claimed` has also inserted the Telegram row and so holds its key until
   it ends; `Found` found a row and refreshed it; `Returning` has then read the standing of
   its account.
   */
  datatype Tx =
    | Selecting(tid: TelegramId, profile: Profile)
    | Creating(tid: TelegramId, profile: Profile)
    | Staged(tid: TelegramId, profile: Profile, user: UserId)
    | Claimed(tid: TelegramId, profile: Profile, user: UserId)
    | Found(tid: TelegramId, profile: Profile, user: UserId)
    | Returning(tid: TelegramId, profile: Profile, user: UserId, standing: Standing)

  datatype Fact =
    | Refused(tid: TelegramId)
    | Onboarded(tid: TelegramId, user: UserId)
    | Admitted(tid: TelegramId, user: UserId, firstContact: bool)
    | TurnedAway(tid: TelegramId, user: UserId)

  datatype World = World(t: Tables, txs: map<Pid, Tx>, log: seq<Fact>)

  datatype Step =
    | Authorize(pid: Pid, tid: TelegramId, profile: Profile)
    | Select(pid: Pid)
    | Load(pid: Pid)
    | InsertUser(pid: Pid, user: UserId)
    | InsertBinding(pid: Pid)
    | Commit(pid: Pid, heard: bool)
    | Rollback(pid: Pid)
    | SetStanding(user: UserId, standing: Standing)

  function Start(): World {
    World(Tables(map[], map[]), map[], [])
  }

  function Move(s: World, pid: Pid, tx: Tx): World {
    s.(txs := s.txs[pid := tx])
  }

  function Stop(s: World, pid: Pid): World {
    s.(txs := s.txs - {pid})
  }

  /** The allowlist is consulted before any row is written. */
  function AuthorizeStep(allow: set<TelegramId>, s: World, pid: Pid, tid: TelegramId, p: Profile): World
  {
    if pid in s.txs || tid <= 0 then s
    else if tid !in allow then s.(log := s.log + [Refused(tid)])
    else Move(s, pid, Selecting(tid, p))
  }

  function SelectStep(s: World, pid: Pid): World
  {
    if pid !in s.txs || !s.txs[pid].Selecting? then s
    else
      var x := s.txs[pid];
      if x.tid !in s.t.bindings then Move(s, pid, Creating(x.tid, x.profile))
      else Move(s, pid, Found(x.tid, x.profile, s.t.bindings[x.tid].user))
  }

  function LoadStep(s: World, pid: Pid): World
  {
    if pid !in s.txs || !s.txs[pid].Found? then s
    else
      var x := s.txs[pid];
      if x.user !in s.t.users then Stop(s, pid)
      else Move(s, pid, Returning(x.tid, x.profile, x.user, s.t.users[x.user]))
  }

  predicate UserTaken(s: World, user: UserId)
  {
    user in s.t.users || exists q <- s.txs :: (s.txs[q].Staged? || s.txs[q].Claimed?) && s.txs[q].user == user
  }

  /** Generated identifiers do not repeat. */
  function InsertUserStep(s: World, pid: Pid, user: UserId): World
  {
    if pid !in s.txs || !s.txs[pid].Creating? || UserTaken(s, user) then s
    else Move(s, pid, Staged(s.txs[pid].tid, s.txs[pid].profile, user))
  }

  /** Another open transaction has inserted this key; the insert waits for it to end. */
  predicate KeyHeld(s: World, pid: Pid, tid: TelegramId)
  {
    exists q <- s.txs :: q != pid && s.txs[q].Claimed? && s.txs[q].tid == tid
  }

  /** An insert waits only for another transaction that has inserted the same key, and takes any unused identifier. */
  lemma HeldIsSpelled(s: World, pid: Pid, tid: TelegramId, user: UserId)
    ensures KeyHeld(s, pid, tid) <==> exists q <- s.txs :: q != pid && s.txs[q].Claimed? && s.txs[q].tid == tid
    ensures (forall q <- s.txs :: q == pid || s.txs[q].tid != tid) ==> !KeyHeld(s, pid, tid)
    ensures user !in s.t.users && (forall q <- s.txs :: !s.txs[q].Staged? && !s.txs[q].Claimed?) ==> !UserTaken(s, user)
  {
  }

  function InsertBindingStep(s: World, pid: Pid): World
  {
    if pid !in s.txs || !s.txs[pid].Staged? || KeyHeld(s, pid, s.txs[pid].tid) then s
    else
      var x := s.txs[pid];
      if x.tid in s.t.bindings then Stop(s, pid)
      else Move(s, pid, Claimed(x.tid, x.profile, x.user))
  }

  /**
   A commit publishes the rows, and Authorize then decides on the standing that was read.
   If the answer is not heard the rows are there all the same, and the call is an error.
   */
  function CommitStep(s: World, pid: Pid, heard: bool): World
  {
    if pid !in s.txs then s
    else
      match s.txs[pid]
      case Claimed(tid, p, user) =>
        World(Tables(s.t.users[user := ActiveUser], s.t.bindings[tid := Binding(user, p)]), s.txs - {pid},
              if heard then s.log + [Onboarded(tid, user), Admitted(tid, user, true)] else s.log)
      case Returning(tid, p, user, standing) =>
        World(s.t.(bindings := s.t.bindings[tid := Binding(user, p)]), s.txs - {pid},
              if !heard then s.log
              else s.log + [if standing == ActiveUser then Admitted(tid, user, false) else TurnedAway(tid, user)])
      case _ => s
  }

  function Apply(allow: set<TelegramId>, s: World, step: Step): World
  {
    match step
    case Authorize(pid, tid, p) => AuthorizeStep(allow, s, pid, tid, p)
    case Select(pid) => SelectStep(s, pid)
    case Load(pid) => LoadStep(s, pid)
    case InsertUser(pid, user) => InsertUserStep(s, pid, user)
    case InsertBinding(pid) => InsertBindingStep(s, pid)
    case Commit(pid, heard) => CommitStep(s, pid, heard)
    case Rollback(pid) => Stop(s, pid)
    case SetStanding(user, standing) =>
      if user in s.t.users then s.(t := s.t.(users := s.t.users[user := standing])) else s
  }

  function Exec(allow: set<TelegramId>, s: World, steps: seq<Step>): World
  {
    if steps == [] then s
    else Apply(allow, Exec(allow, s, steps[..|steps| - 1]), steps[|steps| - 1])
  }

  // ---- What every step keeps ----

  ghost predicate Owned(t: Tables, user: UserId) {
    exists tid :: tid in t.bindings && t.bindings[tid].user == user
  }

  /** Committed rows: accounts and Telegram identities are one-to-one. Who is allowed now does not matter to them. */
  ghost predicate TablesOk(t: Tables)
  {
    && (forall tid <- t.bindings :: t.bindings[tid].user in t.users)
    && (forall a, b :: a in t.bindings && b in t.bindings && t.bindings[a].user == t.bindings[b].user ==> a == b)
    && (forall user <- t.users :: Owned(t, user))
  }

  ghost predicate TxOk(t: Tables, x: Tx)
  {
    match x
    case Selecting(_, _) => true
    case Creating(_, _) => true
    case Staged(_, _, user) => user !in t.users
    case Claimed(tid, _, user) => user !in t.users && tid !in t.bindings
    case Found(tid, _, user) => tid in t.bindings && t.bindings[tid].user == user
    case Returning(tid, _, user, _) => tid in t.bindings && t.bindings[tid].user == user
  }

  ghost predicate Inserting(x: Tx) {
    x.Staged? || x.Claimed?
  }

  /** Two open transactions never share a new account, nor a claimed Telegram key. */
  ghost predicate TxsOk(s: World)
  {
    && (forall pid <- s.txs :: TxOk(s.t, s.txs[pid]))
    && (forall p, q :: p in s.txs && q in s.txs && p != q && Inserting(s.txs[p]) && Inserting(s.txs[q]) ==>
          s.txs[p].user != s.txs[q].user)
    && (forall p, q :: p in s.txs && q in s.txs && p != q && s.txs[p].Claimed? && s.txs[q].Claimed? ==>
          s.txs[p].tid != s.txs[q].tid)
  }

  ghost predicate FactOk(t: Tables, f: Fact)
  {
    match f
    case Refused(_) => true
    case Onboarded(tid, user) => tid in t.bindings && t.bindings[tid].user == user
    case Admitted(tid, user, _) => tid in t.bindings && t.bindings[tid].user == user
    case TurnedAway(tid, user) => tid in t.bindings && t.bindings[tid].user == user
  }

  predicate Creates(f: Fact, tid: TelegramId) {
    f.Admitted? && f.firstContact && f.tid == tid
  }

  ghost predicate LogOk(s: World)
  {
    && (forall i :: 0 <= i < |s.log| ==> FactOk(s.t, s.log[i]))
    && (forall i, j, tid :: 0 <= i < j < |s.log| && Creates(s.log[i], tid) ==> !Creates(s.log[j], tid))
  }

  ghost predicate Inv(s: World)
  {
    TablesOk(s.t) && TxsOk(s) && LogOk(s)
  }

  /** Nothing is ever unbound or bound anew. */
  ghost predicate Grows(t: Tables, t': Tables)
  {
    && t.users.Keys <= t'.users.Keys
    && forall tid <- t.bindings :: tid in t'.bindings && t'.bindings[tid].user == t.bindings[tid].user
  }

  lemma OpenKeepsInv(allow: set<TelegramId>, s: World, step: Step)
    requires Inv(s) && (step.Authorize? || step.Select? || step.Load? || step.Rollback?)
    ensures Inv(Apply(allow, s, step)) && Apply(allow, s, step).t == s.t
  {
    hide TablesOk, LogOk;
    var s' := Apply(allow, s, step);
    if s'.log == s.log {
      LogDependsOnTables(s, s');
    } else {
      RefusalKeepsLog(s, step.tid);
      LogDependsOnTables(s.(log := s.log + [Refused(step.tid)]), s');
    }
  }

  lemma RefusalKeepsLog(s: World, tid: TelegramId)
    requires LogOk(s)
    ensures LogOk(s.(log := s.log + [Refused(tid)]))
  {
  }

  lemma InsertUserKeepsInv(s: World, pid: Pid, user: UserId)
    requires Inv(s)
    ensures Inv(InsertUserStep(s, pid, user)) && InsertUserStep(s, pid, user).t == s.t
  {
    hide TablesOk, LogOk;
    assert InsertUserStep(s, pid, user).log == s.log;
    LogDependsOnTables(s, InsertUserStep(s, pid, user));
  }

  lemma InsertBindingKeepsInv(s: World, pid: Pid)
    requires Inv(s)
    ensures Inv(InsertBindingStep(s, pid)) && InsertBindingStep(s, pid).t == s.t
  {
    hide TablesOk, LogOk;
    LogDependsOnTables(s, InsertBindingStep(s, pid));
  }

  lemma LogDependsOnTables(s: World, s': World)
    requires s'.t == s.t && s'.log == s.log
    ensures LogOk(s) ==> LogOk(s')
  {
  }

  lemma OwnedStays(t: Tables, t': Tables, user: UserId)
    requires Owned(t, user) && Grows(t, t')
    ensures Owned(t', user)
  {
    var tid :| tid in t.bindings && t.bindings[tid].user == user;
    assert t'.bindings[tid].user == user;
  }

  lemma CreateKeepsTables(t: Tables, tid: TelegramId, user: UserId, p: Profile)
    requires TablesOk(t) && user !in t.users && tid !in t.bindings
    ensures var t' := Tables(t.users[user := ActiveUser], t.bindings[tid := Binding(user, p)]);
            TablesOk(t') && Grows(t, t')
  {
    var t' := Tables(t.users[user := ActiveUser], t.bindings[tid := Binding(user, p)]);
    forall u | u in t'.users
      ensures Owned(t', u)
    {
      if u == user {
        assert t'.bindings[tid].user == u;
      } else {
        OwnedStays(t, t', u);
      }
    }
  }

  lemma RefreshKeepsTables(t: Tables, tid: TelegramId, p: Profile)
    requires TablesOk(t) && tid in t.bindings
    ensures var t' := t.(bindings := t.bindings[tid := Binding(t.bindings[tid].user, p)]);
            TablesOk(t') && Grows(t, t')
  {
    var t' := t.(bindings := t.bindings[tid := Binding(t.bindings[tid].user, p)]);
    forall u | u in t'.users
      ensures Owned(t', u)
    {
      OwnedStays(t, t', u);
    }
  }

  lemma FactStays(t: Tables, t': Tables, f: Fact)
    requires FactOk(t, f) && Grows(t, t')
    ensures FactOk(t', f)
  {
  }

  lemma CommitKeepsInv(s: World, pid: Pid, heard: bool)
    requires Inv(s)
    ensures Inv(CommitStep(s, pid, heard)) && Grows(s.t, CommitStep(s, pid, heard).t)
  {
    hide TablesOk, Owned;
    var s' := CommitStep(s, pid, heard);
    if pid in s.txs {
      var x := s.txs[pid];
      assert TxOk(s.t, x);
      if x.Claimed? {
        CreateKeepsTables(s.t, x.tid, x.user, x.profile);
      } else if x.Returning? {
        RefreshKeepsTables(s.t, x.tid, x.profile);
      }
      forall q | q in s'.txs
        ensures TxOk(s'.t, s'.txs[q])
      {
        assert TxOk(s.t, s.txs[q]);
      }
      CommitKeepsLog(s, pid, heard);
    }
  }

  lemma CommitKeepsLog(s: World, pid: Pid, heard: bool)
    requires LogOk(s) && pid in s.txs && TxOk(s.t, s.txs[pid]) && Grows(s.t, CommitStep(s, pid, heard).t)
    ensures LogOk(CommitStep(s, pid, heard))
  {
    var s' := CommitStep(s, pid, heard);
    var n := |s.log|;
    forall i | 0 <= i < |s'.log|
      ensures FactOk(s'.t, s'.log[i])
    {
      if i < n {
        FactStays(s.t, s'.t, s.log[i]);
      }
    }
    forall i, j, tid | 0 <= i < j < |s'.log| && Creates(s'.log[i], tid)
      ensures !Creates(s'.log[j], tid)
    {
      assert i < n ==> FactOk(s.t, s.log[i]);
    }
  }

  lemma StandingKeepsInv(allow: set<TelegramId>, s: World, user: UserId, standing: Standing)
    requires Inv(s)
    ensures var s' := Apply(allow, s, SetStanding(user, standing)); Inv(s') && Grows(s.t, s'.t)
  {
    var s' := Apply(allow, s, SetStanding(user, standing));
    forall u | u in s'.t.users
      ensures Owned(s'.t, u)
    {
      OwnedStays(s.t, s'.t, u);
    }
  }

  lemma StepKeepsInv(allow: set<TelegramId>, s: World, step: Step)
    requires Inv(s)
    ensures Inv(Apply(allow, s, step)) && Grows(s.t, Apply(allow, s, step).t)
  {
    hide Inv;
    match step
    case Commit(pid, heard) => CommitKeepsInv(s, pid, heard);
    case SetStanding(user, standing) => StandingKeepsInv(allow, s, user, standing);
    case InsertUser(pid, user) => InsertUserKeepsInv(s, pid, user);
    case InsertBinding(pid) => InsertBindingKeepsInv(s, pid);
    case _ => OpenKeepsInv(allow, s, step);
  }

  lemma {:induction false} RunKeepsInv(allow: set<TelegramId>, s: World, steps: seq<Step>)
    requires Inv(s)
    ensures Inv(Exec(allow, s, steps)) && Grows(s.t, Exec(allow, s, steps).t)
  {
    hide Inv, Apply;
    if steps != [] {
      var n := |steps| - 1;
      RunKeepsInv(allow, s, steps[..n]);
      StepKeepsInv(allow, Exec(allow, s, steps[..n]), steps[n]);
    }
  }

  lemma {:induction false} ExecAppend(allow: set<TelegramId>, s: World, a: seq<Step>, b: seq<Step>)
    ensures Exec(allow, s, a + b) == Exec(allow, Exec(allow, s, a), b)
  {
    hide Apply;
    if b == [] {
      assert a + b == a;
    } else {
      var n := |b| - 1;
      assert (a + b)[..|a + b| - 1] == a + b[..n];
      ExecAppend(allow, s, a, b[..n]);
    }
  }

  /** A step moves no transaction but its own, keeps its Telegram ID, and only adds to the log. */
  lemma StepFrame(allow: set<TelegramId>, s: World, step: Step)
    ensures var s' := Apply(allow, s, step);
            && s.log <= s'.log
            && (step.SetStanding? ==> s'.txs == s.txs)
            && (!step.SetStanding? ==> forall q :: q != step.pid ==>
                  (q in s.txs <==> q in s'.txs) && (q in s.txs ==> s'.txs[q] == s.txs[q]))
            && forall q :: q in s.txs && q in s'.txs ==> s'.txs[q].tid == s.txs[q].tid
  {
    hide UserTaken, KeyHeld;
  }

  lemma StartOk()
    ensures Inv(Start())
  {
  }

  // ---- Results over every run ----

  /** A period in which one allowlist is in force; the rows, and transactions of other processes, outlive it. */
  datatype Period = Period(allow: set<TelegramId>, steps: seq<Step>)

  function Lives(s: World, periods: seq<Period>): World
  {
    if periods == [] then s
    else
      var n := |periods| - 1;
      Exec(periods[n].allow, Lives(s, periods[..n]), periods[n].steps)
  }

  lemma {:induction false} LivesKeepInv(s: World, periods: seq<Period>)
    requires Inv(s)
    ensures Inv(Lives(s, periods)) && Grows(s.t, Lives(s, periods).t)
  {
    hide Inv, Exec;
    if periods != [] {
      var n := |periods| - 1;
      LivesKeepInv(s, periods[..n]);
      RunKeepsInv(periods[n].allow, Lives(s, periods[..n]), periods[n].steps);
    }
  }

  lemma {:induction false} LivesAppend(s: World, a: seq<Period>, b: seq<Period>)
    ensures Lives(s, a + b) == Lives(Lives(s, a), b)
  {
    hide Exec;
    if b == [] {
      assert a + b == a;
    } else {
      var n := |b| - 1;
      assert (a + b)[..|a + b| - 1] == a + b[..n];
      LivesAppend(s, a, b[..n]);
    }
  }

  /**
   Whatever first contacts and repeat contacts race, and however the allowlist changes
   between periods: committed Telegram IDs and accounts stay one-to-one, no account is left
   without an identity, and a first contact is reported at most once per ID.
   */
  lemma IdentitiesAreOneToOne(periods: seq<Period>)
    ensures var s := Lives(Start(), periods);
            && (forall a, b :: a in s.t.bindings && b in s.t.bindings ==>
                  (s.t.bindings[a].user == s.t.bindings[b].user ==> a == b))
            && (forall tid <- s.t.bindings :: s.t.bindings[tid].user in s.t.users)
            && (forall user <- s.t.users :: Owned(s.t, user))
            && (forall i, j, tid :: 0 <= i < j < |s.log| && Creates(s.log[i], tid) ==> !Creates(s.log[j], tid))
  {
    hide Lives;
    LivesKeepInv(Start(), periods);
  }

  /** Between any two moments a binding does not change, and callers are admitted as the bound account. */
  lemma BindingsAreForever(earlier: seq<Period>, later: seq<Period>, tid: TelegramId)
    requires tid in Lives(Start(), earlier).t.bindings
    ensures var t := Lives(Start(), earlier).t;
            var s' := Lives(Start(), earlier + later);
            && tid in s'.t.bindings && s'.t.bindings[tid].user == t.bindings[tid].user
            && forall f <- s'.log :: f.Admitted? && f.tid == tid ==> f.user == t.bindings[tid].user
  {
    hide Lives, TablesOk, TxsOk;
    StartOk();
    LivesKeepInv(Start(), earlier);
    LivesKeepInv(Lives(Start(), earlier), later);
    LivesAppend(Start(), earlier, later);
    var s' := Lives(Start(), earlier + later);
    forall f | f in s'.log && f.Admitted? && f.tid == tid
      ensures f.user == s'.t.bindings[tid].user
    {
      var i :| 0 <= i < |s'.log| && s'.log[i] == f;
      assert FactOk(s'.t, s'.log[i]);
    }
  }

  // ---- The allowlist ----

  /** This ID has a row, or a transaction that may come to one. */
  ghost predicate Known(s: World, tid: TelegramId) {
    tid in s.t.bindings || exists pid <- s.txs :: s.txs[pid].tid == tid
  }

  /** The ID was authorized while it was on the allowlist. */
  ghost predicate LetIn(allow: set<TelegramId>, steps: seq<Step>, tid: TelegramId) {
    tid in allow && exists step <- steps :: step.Authorize? && step.tid == tid
  }

  lemma NewlyKnown(allow: set<TelegramId>, s: World, step: Step, tid: TelegramId)
    requires !Known(s, tid) && Known(Apply(allow, s, step), tid)
    ensures step.Authorize? && step.tid == tid && tid in allow
  {
    hide UserTaken, KeyHeld;
    var s' := Apply(allow, s, step);
    if tid !in s'.t.bindings {
      var pid :| pid in s'.txs && s'.txs[pid].tid == tid;
      StepFrame(allow, s, step);
      assert pid !in s.txs;
    }
  }

  lemma {:induction false} KnownWereLetIn(allow: set<TelegramId>, s: World, steps: seq<Step>, tid: TelegramId)
    requires !Known(s, tid) && Known(Exec(allow, s, steps), tid)
    ensures LetIn(allow, steps, tid)
  {
    hide Apply, Known;
    if steps != [] {
      var n := |steps| - 1;
      if Known(Exec(allow, s, steps[..n]), tid) {
        KnownWereLetIn(allow, s, steps[..n], tid);
        var step :| step in steps[..n] && step.Authorize? && step.tid == tid;
        assert step in steps;
      } else {
        NewlyKnown(allow, Exec(allow, s, steps[..n]), steps[n], tid);
        assert steps[n] in steps;
      }
    }
  }

  /** Every identity that has a row was authorized in a period whose allowlist held it. */
  lemma {:induction false} IdentitiesWereAllowed(s: World, periods: seq<Period>, tid: TelegramId)
    requires !Known(s, tid) && Known(Lives(s, periods), tid)
    ensures exists p <- periods :: LetIn(p.allow, p.steps, tid)
  {
    hide Exec, Known;
    var n := |periods| - 1;
    assert periods[n] in periods;
    if Known(Lives(s, periods[..n]), tid) {
      IdentitiesWereAllowed(s, periods[..n], tid);
      var p :| p in periods[..n] && LetIn(p.allow, p.steps, tid);
      assert p in periods;
    } else {
      KnownWereLetIn(periods[n].allow, Lives(s, periods[..n]), periods[n].steps, tid);
    }
  }

  /** The open transactions of this ID. */
  function OpenFor(s: World, tid: TelegramId): set<Pid> {
    set pid | pid in s.txs && s.txs[pid].tid == tid
  }

  /** What a transaction of this ID may leave in the log: a verdict, and the record of a new account. */
  datatype Trace = Verdict | NewAccount

  function Leaves(trace: Trace, tid: TelegramId): Fact -> bool
  {
    (f: Fact) =>
      match trace
      case Verdict => (f.Admitted? || f.TurnedAway?) && f.tid == tid
      case NewAccount => f.Onboarded? && f.tid == tid
  }

  /** The row of this ID, if there is one. */
  function RowOf(t: Tables, tid: TelegramId): Option<Binding> {
    if tid in t.bindings then Some(t.bindings[tid]) else None
  }

  /** Facts about this ID, and open transactions that may still lead to one. */
  function Exposure(s: World, trace: Trace, tid: TelegramId): nat {
    Count(s.log, Leaves(trace, tid)) + |OpenFor(s, tid)|
  }

  /** A step under an allowlist without this ID opens nothing for it; only the commit of its own changes its row. */
  lemma RevokedStep(allow: set<TelegramId>, s: World, step: Step, tid: TelegramId)
    requires tid !in allow
    ensures var s' := Apply(allow, s, step);
            && OpenFor(s', tid) <= OpenFor(s, tid)
            && (RowOf(s'.t, tid) != RowOf(s.t, tid) ==>
                  step.Commit? && step.pid in OpenFor(s, tid) && step.pid !in OpenFor(s', tid))
  {
    hide UserTaken, KeyHeld;
  }

  /** What a step adds to the log about this ID comes from the commit of one of its transactions. */
  lemma RevokedLog(allow: set<TelegramId>, s: World, step: Step, trace: Trace, tid: TelegramId)
    ensures var s' := Apply(allow, s, step);
            var p := Leaves(trace, tid);
            || Count(s'.log, p) == Count(s.log, p)
            || (&& Count(s'.log, p) == Count(s.log, p) + 1
                && step.Commit? && step.pid in OpenFor(s, tid) && step.pid !in OpenFor(s', tid))
  {
    hide UserTaken, KeyHeld, Count;
    var s' := Apply(allow, s, step);
    var p, n := Leaves(trace, tid), |s.log|;
    if |s'.log| == n + 1 {
      assert s'.log == s.log + [s'.log[n]];
      CountSnoc(s.log, s'.log[n], p);
    } else if |s'.log| == n + 2 {
      assert s'.log == s.log + [s'.log[n]] + [s'.log[n + 1]];
      CountSnoc(s.log, s'.log[n], p);
      CountSnoc(s.log + [s'.log[n]], s'.log[n + 1], p);
    } else {
      assert s'.log == s.log;
    }
  }

  lemma RevokedStepBars(allow: set<TelegramId>, s: World, step: Step, trace: Trace, tid: TelegramId)
    requires tid !in allow
    ensures var s' := Apply(allow, s, step);
            && Exposure(s', trace, tid) <= Exposure(s, trace, tid) && |OpenFor(s', tid)| <= |OpenFor(s, tid)|
            && (RowOf(s'.t, tid) != RowOf(s.t, tid) ==> |OpenFor(s', tid)| < |OpenFor(s, tid)|)
  {
    hide Apply, Count, OpenFor;
    RevokedStep(allow, s, step, tid);
    RevokedLog(allow, s, step, trace, tid);
    SmallerSet(OpenFor(Apply(allow, s, step), tid), OpenFor(s, tid), if step.Commit? then step.pid else 0);
  }

  /**
   Taking an ID off the allowlist takes effect whatever is open at that moment. While it is
   not on the list, its verdicts plus its open transactions never increase, nor do its new
   accounts plus those; and its row changes only at the cost of an open transaction.
   */
  lemma {:induction false} RevocationBars(allow: set<TelegramId>, s: World, steps: seq<Step>, trace: Trace,
                                          tid: TelegramId)
    requires tid !in allow
    ensures var s' := Exec(allow, s, steps);
            && Exposure(s', trace, tid) <= Exposure(s, trace, tid) && |OpenFor(s', tid)| <= |OpenFor(s, tid)|
            && (RowOf(s'.t, tid) != RowOf(s.t, tid) ==> |OpenFor(s', tid)| < |OpenFor(s, tid)|)
  {
    hide Apply, Exposure, OpenFor, RowOf;
    if steps != [] {
      var n := |steps| - 1;
      RevocationBars(allow, s, steps[..n], trace, tid);
      RevokedStepBars(allow, Exec(allow, s, steps[..n]), steps[n], trace, tid);
    }
  }

  /**
   So once no transaction of its own is left over, the ID is shut out: its row is neither
   created nor refreshed and nobody is admitted under it, whatever else runs.
   */
  lemma RevokedIsShutOut(allow: set<TelegramId>, s: World, steps: seq<Step>, tid: TelegramId)
    requires tid !in allow && OpenFor(s, tid) == {}
    ensures var s' := Exec(allow, s, steps);
            && RowOf(s'.t, tid) == RowOf(s.t, tid) && s.log <= s'.log
            && forall i :: |s.log| <= i < |s'.log| ==> s'.log[i].Refused? || s'.log[i].tid != tid
  {
    hide Exec, OpenFor, Count;
    RevocationBars(allow, s, steps, Verdict, tid);
    RevocationBars(allow, s, steps, NewAccount, tid);
    LogGrows(allow, s, steps);
    var s' := Exec(allow, s, steps);
    NoneBeyond(s.log, s'.log, Leaves(Verdict, tid));
    NoneBeyond(s.log, s'.log, Leaves(NewAccount, tid));
    forall i | |s.log| <= i < |s'.log|
      ensures s'.log[i].Refused? || s'.log[i].tid != tid
    {
      assert !Leaves(Verdict, tid)(s'.log[i]) && !Leaves(NewAccount, tid)(s'.log[i]);
    }
  }

  lemma {:induction false} LogGrows(allow: set<TelegramId>, s: World, steps: seq<Step>)
    ensures s.log <= Exec(allow, s, steps).log
  {
    hide Apply;
    if steps != [] {
      var n := |steps| - 1;
      LogGrows(allow, s, steps[..n]);
      StepFrame(allow, Exec(allow, s, steps[..n]), steps[n]);
    }
  }

  // ---- An uninterrupted call is a run of its steps ----

  function LastStep(pid: Pid, ending: Ending): Step {
    if ending == RolledBack then Rollback(pid) else Commit(pid, ending == Committed)
  }

  function EndStep(s: World, pid: Pid, ending: Ending): World {
    if ending == RolledBack then Stop(s, pid) else CommitStep(s, pid, ending == Committed)
  }

  function EnsureSteps(pid: Pid, tid: TelegramId, p: Profile, newId: UserId, ending: Ending): seq<Step>
  {
    [Authorize(pid, tid, p), Select(pid), InsertUser(pid, newId), InsertBinding(pid), Load(pid),
     LastStep(pid, ending)]
  }

  lemma ExecSnoc(allow: set<TelegramId>, s: World, steps: seq<Step>, step: Step)
    ensures Exec(allow, s, steps + [step]) == Apply(allow, Exec(allow, s, steps), step)
  {
    hide Apply;
    assert (steps + [step])[..|steps|] == steps;
  }

  lemma ExecSix(allow: set<TelegramId>, s: World, a: Step, b: Step, c: Step, d: Step, e: Step, f: Step)
    ensures Exec(allow, s, [a, b, c, d, e, f])
         == Apply(allow, Apply(allow, Apply(allow, Apply(allow, Apply(allow, Apply(allow, s, a), b), c), d), e), f)
  {
    hide Apply;
    ExecSnoc(allow, s, [], a);
    ExecSnoc(allow, s, [a], b);
    ExecSnoc(allow, s, [a, b], c);
    ExecSnoc(allow, s, [a, b, c], d);
    ExecSnoc(allow, s, [a, b, c, d], e);
    ExecSnoc(allow, s, [a, b, c, d, e], f);
    assert [] + [a] == [a] && [a] + [b] == [a, b] && [a, b] + [c] == [a, b, c];
    assert [a, b, c] + [d] == [a, b, c, d] && [a, b, c, d] + [e] == [a, b, c, d, e];
    assert [a, b, c, d, e] + [f] == [a, b, c, d, e, f];
  }

  /** What Authorize leaves in the log after the transaction. */
  function EnsureLog(tid: TelegramId, r: Result<Contact, Error>): seq<Fact>
  {
    if r.Err? then []
    else if r.value.created then [Onboarded(tid, r.value.user), Admitted(tid, r.value.user, true)]
    else if r.value.standing == ActiveUser then [Admitted(tid, r.value.user, false)]
    else [TurnedAway(tid, r.value.user)]
  }

  ghost predicate Ends(s: World, s': World, tid: TelegramId, o: (Tables, Result<Contact, Error>)) {
    s'.t == o.0 && s'.txs == s.txs && s'.log == s.log + EnsureLog(tid, o.1)
  }

  lemma ReturningWalk(s: World, pid: Pid, tid: TelegramId, p: Profile, newId: UserId, ending: Ending)
    requires pid in s.txs && s.txs[pid] == Selecting(tid, p) && tid > 0
    requires tid in s.t.bindings && s.t.bindings[tid].user in s.t.users
    ensures var s5 := LoadStep(InsertBindingStep(InsertUserStep(SelectStep(s, pid), pid, newId), pid), pid);
            Ends(Stop(s, pid), EndStep(s5, pid, ending), tid,
                 EnsureCall(s.t, tid, p, newId, ending))
  {
    hide UserTaken, KeyHeld;
    var s2 := SelectStep(s, pid);
    assert s2.txs - {pid} == s.txs - {pid};
    var s5 := LoadStep(s2, pid);
    assert s5.txs - {pid} == s.txs - {pid};
  }

  lemma CreatingWalk(s: World, pid: Pid, tid: TelegramId, p: Profile, newId: UserId, ending: Ending)
    requires pid in s.txs && s.txs[pid] == Selecting(tid, p) && tid > 0 && tid !in s.t.bindings
    requires !UserTaken(s, newId) && !KeyHeld(s, pid, tid)
    ensures var s5 := LoadStep(InsertBindingStep(InsertUserStep(SelectStep(s, pid), pid, newId), pid), pid);
            Ends(Stop(s, pid), EndStep(s5, pid, ending), tid,
                 EnsureCall(s.t, tid, p, newId, ending))
  {
    var s2 := SelectStep(s, pid);
    assert !UserTaken(s2, newId);
    var s3 := InsertUserStep(s2, pid, newId);
    assert !KeyHeld(s3, pid, tid);
    var s4 := InsertBindingStep(s3, pid);
    assert s4.txs - {pid} == s.txs - {pid};
  }

  /** The transaction, uninterrupted, does what the call does, and reports `created` exactly when it did create. */
  lemma EnsureCallIsRun(allow: set<TelegramId>, s: World, pid: Pid, tid: TelegramId, p: Profile, newId: UserId,
                        ending: Ending)
    requires Inv(s) && pid !in s.txs && tid in allow && tid > 0
    requires !UserTaken(s, newId) && !KeyHeld(s, pid, tid)
    ensures Ends(s, Exec(allow, s, EnsureSteps(pid, tid, p, newId, ending)), tid,
                 EnsureCall(s.t, tid, p, newId, ending))
  {
    hide TxsOk, LogOk, Exec, SelectStep, InsertUserStep, InsertBindingStep, LoadStep, CommitStep, EnsureCall, EnsureLog;
    var last := LastStep(pid, ending);
    ExecSix(allow, s, Authorize(pid, tid, p), Select(pid), InsertUser(pid, newId), InsertBinding(pid), Load(pid), last);
    var s1 := AuthorizeStep(allow, s, pid, tid, p);
    assert Stop(s1, pid) == s by {
      assert s1.txs - {pid} == s.txs;
    }
    if tid in s.t.bindings {
      ReturningWalk(s1, pid, tid, p, newId, ending);
    } else {
      assert !UserTaken(s1, newId) && !KeyHeld(s1, pid, tid);
      CreatingWalk(s1, pid, tid, p, newId, ending);
    }
  }
}
