/** The router as an object, one update at a time. */
module Router {
  import opened Results
  import opened Transactions
  import opened Clock
  import opened Commands
  import O = Onboarding
  import opened RateLimits
  import opened Pipeline

  /** NewRouter's defaults: twenty commands a minute. */
  function Configure(allow: set<O.TelegramId>, commands: set<string>, throttled: bool, limit: int, window: int,
                     throughExpiry: bool): (c: Config)
    ensures c.rules.limit == (if limit > 0 then limit else 20)
    ensures c.rules.window == (if window > 0 then window else 60 * SECOND)
    ensures limit <= 0 && window <= 0 ==> Steady(c.rules)
  {
    Config(allow, commands, throttled,
           Rules(if limit <= 0 then 20 else limit, if window <= 0 then MINUTE else window, throughExpiry))
  }

  /**
   One inbound message and how the world behaves while it is processed: the account a
   first contact would create, how its transaction ends, when the limiter is called
   and whether its store answers, whether the handler fails.
   */
  datatype Update = Update(msg: Message, newId: O.UserId, ending: Ending, time: nat, storeUp: bool, handlerFails: bool)

  /** `ran` are the commands whose handler was invoked. */
  datatype State = State(t: O.Tables, counters: Counters, audit: seq<Audit>, ran: seq<Job>)

  // ---- Authorize ----

  datatype Decision = Admit | Refuse | Fault

  /** Onboarding.Authorize: the tables afterwards, the events it records, and its verdict. */
  function AuthorizeEffect(allow: set<O.TelegramId>, t: O.Tables, u: Update): (O.Tables, seq<Audit>, Decision)
  {
    var tid := u.msg.tid;
    if tid <= 0 then (t, [], Refuse)
    else if tid !in allow then (t, [Unauthorized(tid)], Refuse)
    else
      match O.EnsureCall(t, tid, u.msg.profile, u.newId, u.ending)
      case (t', Err(_)) => (t', [], Fault)
      case (t', Ok(contact)) =>
        if contact.standing != O.ActiveUser then (t', [Unauthorized(tid)], Refuse)
        else (t', if contact.created then [UserOnboarded(tid)] else [], Admit)
  }

  // ---- Dispatch ----

  function CallOf(u: Update): Call {
    Call(u.time, u.msg.tid, u.storeUp)
  }

  /** The stage at which an admitted command ends. */
  function LastStage(c: Config, cs: Counters, u: Update, name: string): Stage
  {
    if c.throttled && !AllowEffect(c.rules, cs, CallOf(u)).1.allowed then Throttled
    else if name !in c.commands then Unknown
    else Returned(u.handlerFails)
  }

  function DispatchEffect(c: Config, s: State, u: Update): State
  {
    var name := ParseCommand(u.msg.text);
    if name.None? || u.msg.isBot then s
    else
      var (t', events, verdict) := AuthorizeEffect(c.allow, s.t, u);
      if verdict != Admit then s.(t := t', audit := s.audit + events)
      else
        var job := Job(u.msg, name.value);
        var stage := LastStage(c, s.counters, u, name.value);
        State(t',
              if c.throttled then AllowEffect(c.rules, s.counters, CallOf(u)).0 else s.counters,
              s.audit + events + [Closing(Task(job, stage)).value],
              if stage.Returned? then s.ran + [job] else s.ran)
  }

  class Router {
    const config: Config
    const users: O.UserRepo
    const limiter: RateLimiter?
    var audit: seq<Audit>
    ghost var ran: seq<Job>

    ghost predicate Valid()
      reads this, limiter
    {
      && config.throttled == (limiter != null)
      && (limiter != null ==> limiter.rules == config.rules)
    }

    ghost function Contents(): State
      reads this, users, limiter
    {
      State(users.Contents(), if limiter == null then map[] else limiter.counters, audit, ran)
    }

    constructor (config: Config, users: O.UserRepo, limiter: RateLimiter?)
      requires config.throttled == (limiter != null)
      requires limiter != null ==> limiter.rules == config.rules
      ensures Valid() && this.config == config && this.users == users && this.limiter == limiter
      ensures audit == [] && ran == []
    {
      this.config, this.users, this.limiter := config, users, limiter;
      audit, ran := [], [];
    }

    method Authorize(u: Update) returns (verdict: Decision)
      requires Valid() && u.newId !in users.users
      modifies this, users
      ensures (users.Contents(), audit, verdict)
           == (var (t', events, v) := AuthorizeEffect(config.allow, old(users.Contents()), u);
               (t', old(audit) + events, v))
      ensures ran == old(ran)
    {
      assert audit + [] == audit;
      var tid := u.msg.tid;
      if tid <= 0 {
        return Refuse;
      }
      if tid !in config.allow {
        audit := audit + [Unauthorized(tid)];
        return Refuse;
      }
      var contact := users.EnsureTelegramUser(tid, u.msg.profile, u.newId, u.ending);
      if contact.Err? {
        return Fault;
      }
      if contact.value.standing != O.ActiveUser {
        audit := audit + [Unauthorized(tid)];
        return Refuse;
      }
      if contact.value.created {
        audit := audit + [UserOnboarded(tid)];
      }
      return Admit;
    }

    /** Dispatch: one update through the whole pipeline. */
    method Dispatch(u: Update)
      requires Valid() && u.newId !in users.users
      modifies this, users, limiter
      ensures Valid() && Contents() == DispatchEffect(config, old(Contents()), u)
    {
      hide ParseCommand, AllowEffect;
      var parsed := ParseCommand(u.msg.text);
      if parsed.None? {
        return;
      }
      var name, tid := parsed.value, u.msg.tid;
      if u.msg.isBot {
        return;
      }
      var verdict := Authorize(u);
      if verdict != Admit {
        return;
      }
      if limiter != null {
        var answer := limiter.Allow(CallOf(u));
        if !answer.allowed {
          audit := audit + [RateLimited(tid, name)];
          return;
        }
      }
      if name !in config.commands {
        audit := audit + [Command(tid, name, Rejected)];
        return;
      }
      ran := ran + [Job(u.msg, name)];
      if u.handlerFails {
        audit := audit + [Command(tid, name, Failed)];
        return;
      }
      audit := audit + [Command(tid, name, Done)];
    }
  }

  // ---- The answers of a dispatch, spelled out ----

  /** The event that closes a command of an admitted caller. */
  function Verdict(c: Config, cs: Counters, u: Update, name: string): Audit
  {
    var tid := u.msg.tid;
    if c.throttled && !AllowEffect(c.rules, cs, Call(u.time, tid, u.storeUp)).1.allowed then RateLimited(tid, name)
    else if name !in c.commands then Command(tid, name, Rejected)
    else if u.handlerFails then Command(tid, name, Failed)
    else Command(tid, name, Done)
  }

  /** What is not a command, or comes from a bot or an invalid identifier, has no effect at all. */
  lemma DispatchIgnores(c: Config, s: State, u: Update)
    requires ParseCommand(u.msg.text) == None || u.msg.isBot || u.msg.tid <= 0
    ensures DispatchEffect(c, s, u) == s
  {
    hide ParseCommand;
    assert s.audit + [] == s.audit;
  }

  /** Whoever is not on the allowlist leaves a record and nothing else; an error leaves what its commit left. */
  lemma DispatchRefuses(c: Config, s: State, u: Update)
    requires ParseCommand(u.msg.text).Some? && !u.msg.isBot && u.msg.tid > 0
    ensures var s' := DispatchEffect(c, s, u);
            && (u.msg.tid !in c.allow ==> s' == s.(audit := s.audit + [Unauthorized(u.msg.tid)]))
            && (u.msg.tid in c.allow && u.ending == RolledBack ==> s' == s)
            && (u.msg.tid in c.allow && u.ending == AnswerLost ==> s' == s.(t := s'.t))
  {
    hide ParseCommand, O.Contacted;
    assert s.audit + [] == s.audit;
  }

  /**
   An allowlisted human's command, with a transaction that commits: a suspended account
   leaves one record, an active one goes on to exactly one closing event, and the handler
   is invoked exactly when that event is ok or failed.
   */
  lemma DispatchServes(c: Config, s: State, u: Update)
    requires ParseCommand(u.msg.text).Some? && !u.msg.isBot && u.msg.tid > 0 && u.msg.tid in c.allow
    requires u.ending == Committed && forall k <- s.t.bindings :: s.t.bindings[k].user in s.t.users
    ensures var s' := DispatchEffect(c, s, u);
            var tid, name := u.msg.tid, ParseCommand(u.msg.text).value;
            var known := tid in s.t.bindings;
            && s'.t == O.EnsureCall(s.t, tid, u.msg.profile, u.newId, Committed).0
            && (known && s.t.users[s.t.bindings[tid].user] == O.Suspended ==>
                  s' == s.(t := s'.t, audit := s.audit + [Unauthorized(tid)]))
            && (!known || s.t.users[s.t.bindings[tid].user] == O.ActiveUser ==>
                  var e := Verdict(c, s.counters, u, name);
                  && s'.audit == s.audit + (if known then [] else [UserOnboarded(tid)]) + [e]
                  && s'.ran == (if e == Command(tid, name, Done) || e == Command(tid, name, Failed)
                                then s.ran + [Job(u.msg, name)] else s.ran)
                  && (!c.throttled ==> s'.counters == s.counters)
                  && (c.throttled ==>
                        s'.counters == AllowEffect(c.rules, s.counters, Call(u.time, tid, u.storeUp)).0))
  {
    hide ParseCommand, AllowEffect;
  }

  /**
   The limiter fails open: with a positive limit and a store that does not answer, a
   registered command of an active caller reaches its handler whatever was counted before.
   */
  lemma DispatchFailsOpen(c: Config, s: State, u: Update)
    requires ParseCommand(u.msg.text).Some? && !u.msg.isBot && u.msg.tid > 0 && u.msg.tid in c.allow
    requires u.ending == Committed && forall k <- s.t.bindings :: s.t.bindings[k].user in s.t.users
    requires u.msg.tid in s.t.bindings ==> s.t.users[s.t.bindings[u.msg.tid].user] == O.ActiveUser
    requires c.rules.limit > 0 && !u.storeUp && ParseCommand(u.msg.text).value in c.commands
    ensures var s' := DispatchEffect(c, s, u);
            var name := ParseCommand(u.msg.text).value;
            && s'.ran == s.ran + [Job(u.msg, name)] && s'.counters == s.counters && s'.audit != []
            && s'.audit[|s'.audit| - 1] == Command(u.msg.tid, name, if u.handlerFails then Failed else Done)
  {
    hide ParseCommand, O.EnsureCall, DispatchEffect;
    DispatchServes(c, s, u);
  }

  // ---- An uninterrupted dispatch is a run of its steps ----

  function AuthorizeSteps(pid: Pid, u: Update): seq<Step>
  {
    [Receive(pid, u.msg), Database(O.Select(pid)), Database(O.InsertUser(pid, u.newId)), Database(O.InsertBinding(pid)),
     Database(O.Load(pid)), Database(O.LastStep(pid, u.ending))]
  }

  function ServeSteps(pid: Pid, u: Update): seq<Step>
  {
    [Decide(pid), Throttle(pid, u.time, u.storeUp), Lookup(pid), Finish(pid, u.handlerFails), Record(pid)]
  }

  lemma ExecFive(k: Config, s: World, a: Step, b: Step, c: Step, d: Step, e: Step)
    ensures Exec(k, s, [a, b, c, d, e]) == Apply(k, Apply(k, Apply(k, Apply(k, Apply(k, s, a), b), c), d), e)
  {
    hide Apply;
    ExecSnoc(k, s, [], a);
    ExecSnoc(k, s, [a], b);
    ExecSnoc(k, s, [a, b], c);
    ExecSnoc(k, s, [a, b, c], d);
    ExecSnoc(k, s, [a, b, c, d], e);
    assert [] + [a] == [a] && [a] + [b] == [a, b] && [a, b] + [c] == [a, b, c];
    assert [a, b, c] + [d] == [a, b, c, d] && [a, b, c, d] + [e] == [a, b, c, d, e];
  }

  /** What the authorizing half leaves: the tables of Authorize, and a task at the stage its verdict stands for. */
  ghost predicate Judged(c: Config, s: World, s': World, pid: Pid, u: Update, name: string)
  {
    var (t', events, verdict) := AuthorizeEffect(c.allow, s.o.t, u);
    && s' == s.(o := s'.o, tasks := s'.tasks) && s'.o.t == t' && s'.o.txs == s.o.txs
    && (verdict == Fault || (verdict == Refuse && events == []) ==> s'.tasks == s.tasks)
    && (verdict == Refuse && events != [] ==> s'.tasks == s.tasks[pid := Task(Job(u.msg, name), Refusing)])
    && (verdict == Admit ==>
          pid in s'.tasks && s'.tasks[pid].stage.Welcoming? && s'.tasks[pid].stage.created == (events != [])
          && s'.tasks == s.tasks[pid := Task(Job(u.msg, name), s'.tasks[pid].stage)])
  }

  /** From admission to the closing event. */
  lemma AdmittedWalk(c: Config, s: World, pid: Pid, u: Update, name: string)
    requires pid in s.tasks && s.tasks[pid].job == Job(u.msg, name) && s.tasks[pid].stage.Admitted?
    ensures var s' := RecordStep(FinishStep(LookupStep(c, ThrottleStep(c, s, pid, u.time, u.storeUp), pid),
                                            pid, u.handlerFails), pid);
            var stage := LastStage(c, s.counters, u, name);
            && s'.o == s.o && s'.tasks == s.tasks - {pid}
            && s'.counters == (if c.throttled then AllowEffect(c.rules, s.counters, CallOf(u)).0 else s.counters)
            && Closing(Task(Job(u.msg, name), stage)).Some?
            && s'.audit == s.audit + [Closing(Task(Job(u.msg, name), stage)).value]
            && (!stage.Returned? ==> s'.runs == s.runs)
            && (stage.Returned? ==> |s'.runs| == |s.runs| + 1 && s'.runs[|s.runs|].job == Job(u.msg, name))
  {
    hide AllowEffect;
    var stage := LastStage(c, s.counters, u, name);
    var s1 := ThrottleStep(c, s, pid, u.time, u.storeUp);
    var s2 := LookupStep(c, s1, pid);
    var s3 := FinishStep(s2, pid, u.handlerFails);
    assert s3.tasks[pid] == Task(Job(u.msg, name), stage);
    assert s3.tasks - {pid} == s.tasks - {pid};
    assert s3.audit == s.audit;
  }

  /** What the run keeps of a call. */
  ghost predicate Served(c: Config, s: World, s': World, u: Update)
  {
    var e := DispatchEffect(c, State(s.o.t, s.counters, s.audit, []), u);
    && s'.o.t == e.t && s'.o.txs == s.o.txs && s'.counters == e.counters && s'.audit == e.audit
    && s'.tasks == s.tasks && |s'.runs| == |s.runs| + |e.ran|
    && (e.ran != [] ==> s'.runs[|s.runs|].job == e.ran[0])
  }

  function Serve(c: Config, s: World, pid: Pid, u: Update): World
  {
    RecordStep(FinishStep(LookupStep(c, ThrottleStep(c, DecideStep(s, pid), pid, u.time, u.storeUp), pid),
                          pid, u.handlerFails), pid)
  }

  lemma ServeWalk(c: Config, s: World, s0: World, pid: Pid, u: Update, name: string)
    requires pid !in s.tasks && Judged(c, s, s0, pid, u, name)
    requires ParseCommand(u.msg.text) == Some(name) && !u.msg.isBot
    ensures Served(c, s, Serve(c, s0, pid, u), u)
  {
    hide AllowEffect, ParseCommand, AuthorizeEffect, LastStage, Closing;
    var (t', events, verdict) := AuthorizeEffect(c.allow, s.o.t, u);
    AuthorizeRecords(c.allow, s.o.t, u);
    assert s.audit + [] == s.audit;
    var s1 := DecideStep(s0, pid);
    if verdict == Admit {
      hide RecordStep, FinishStep, LookupStep, ThrottleStep;
      assert s1.audit == s.audit + events;
      assert s1.tasks - {pid} == s.tasks;
      AdmittedWalk(c, s1, pid, u, name);
    } else {
      assert events != [] ==> s0.tasks - {pid} == s.tasks;
      assert s1.tasks == s.tasks && s1.audit == s.audit + events;
      assert Serve(c, s0, pid, u) == s1;
    }
  }

  lemma AuthorizeRecords(allow: set<O.TelegramId>, t: O.Tables, u: Update)
    ensures var (t', events, verdict) := AuthorizeEffect(allow, t, u);
            && (verdict == Refuse && events != [] ==> events == [Unauthorized(u.msg.tid)])
            && (verdict == Admit && events != [] ==> events == [UserOnboarded(u.msg.tid)])
            && (verdict == Fault ==> events == [])
  {
    hide O.EnsureCall;
  }

  // The authorizing half.

  function Judge(c: Config, s: World, pid: Pid, u: Update): World
  {
    var s2 := DatabaseStep(c, ReceiveStep(c, s, pid, u.msg), O.Select(pid));
    var s4 := DatabaseStep(c, DatabaseStep(c, s2, O.InsertUser(pid, u.newId)), O.InsertBinding(pid));
    DatabaseStep(c, DatabaseStep(c, s4, O.Load(pid)), O.LastStep(pid, u.ending))
  }

  /** While its transaction is open a task waits. */
  lemma StillOpen(c: Config, s: World, step: O.Step)
    requires !step.Authorize? && !step.SetStanding? && step.pid in O.Apply(c.allow, s.o, step).txs
    ensures DatabaseStep(c, s, step) == s.(o := O.Apply(c.allow, s.o, step))
  {
    hide O.Apply;
  }

  /** Without a transaction its statements do nothing. */
  lemma NothingOpen(c: Config, s: World, step: O.Step)
    requires !step.Authorize? && !step.SetStanding? && step.pid !in s.o.txs
    ensures DatabaseStep(c, s, step) == s
  {
    assert s.o.txs - {step.pid} == s.o.txs;
  }

  lemma RefusedWalk(c: Config, s: World, pid: Pid, u: Update, name: string)
    requires pid !in s.tasks && pid !in s.o.txs && ParseCommand(u.msg.text) == Some(name) && !u.msg.isBot
    requires u.msg.tid <= 0 || u.msg.tid !in c.allow
    ensures Judged(c, s, Judge(c, s, pid, u), pid, u, name)
  {
    hide DatabaseStep, ParseCommand;
    var s1 := ReceiveStep(c, s, pid, u.msg);
    assert pid !in s1.o.txs;
    NothingOpen(c, s1, O.Select(pid));
    NothingOpen(c, s1, O.InsertUser(pid, u.newId));
    NothingOpen(c, s1, O.InsertBinding(pid));
    NothingOpen(c, s1, O.Load(pid));
    NothingOpen(c, s1, O.LastStep(pid, u.ending));
  }

  /** Five statements later the transaction is ready to commit. */
  lemma OpenStatements(c: Config, o: O.World, pid: Pid, u: Update)
    requires O.Inv(o) && pid !in o.txs && u.msg.tid > 0 && u.msg.tid in c.allow
    requires !O.UserTaken(o, u.newId) && !O.KeyHeld(o, pid, u.msg.tid)
    ensures var o1 := O.AuthorizeStep(c.allow, o, pid, u.msg.tid, u.msg.profile);
            var o2 := O.SelectStep(o1, pid);
            var o3 := O.InsertUserStep(o2, pid, u.newId);
            var o4 := O.InsertBindingStep(o3, pid);
            var o5 := O.LoadStep(o4, pid);
            && pid in o1.txs && pid in o2.txs && pid in o3.txs && pid in o4.txs && pid in o5.txs
            && o5 == o.(txs := o.txs[pid := o5.txs[pid]])
            && o5.txs[pid] == (if u.msg.tid in o.t.bindings && o.t.bindings[u.msg.tid].user in o.t.users
                               then O.Returning(u.msg.tid, u.msg.profile, o.t.bindings[u.msg.tid].user,
                                                o.t.users[o.t.bindings[u.msg.tid].user])
                               else O.Claimed(u.msg.tid, u.msg.profile, u.newId))
            && (u.msg.tid in o.t.bindings ==> o.t.bindings[u.msg.tid].user in o.t.users)
  {
    hide O.TxsOk, O.LogOk;
    var o1 := O.AuthorizeStep(c.allow, o, pid, u.msg.tid, u.msg.profile);
    assert !O.UserTaken(o1, u.newId) && !O.KeyHeld(o1, pid, u.msg.tid);
    var o2 := O.SelectStep(o1, pid);
    assert !O.UserTaken(o2, u.newId);
    var o3 := O.InsertUserStep(o2, pid, u.newId);
    assert !O.KeyHeld(o3, pid, u.msg.tid);
  }

  lemma LastStatement(c: Config, s: World, s5: World, pid: Pid, u: Update, name: string)
    requires pid !in s.tasks && pid !in s.o.txs && u.msg.tid > 0 && u.msg.tid in c.allow
    requires pid in s5.o.txs && s5.o == s.o.(txs := s.o.txs[pid := s5.o.txs[pid]])
    requires s5 == s.(o := s5.o, tasks := s.tasks[pid := Task(Job(u.msg, name), Authorizing)])
    requires u.msg.tid in s.o.t.bindings ==> s.o.t.bindings[u.msg.tid].user in s.o.t.users
    requires s5.o.txs[pid] == (if u.msg.tid in s.o.t.bindings
                               then O.Returning(u.msg.tid, u.msg.profile, s.o.t.bindings[u.msg.tid].user,
                                                s.o.t.users[s.o.t.bindings[u.msg.tid].user])
                               else O.Claimed(u.msg.tid, u.msg.profile, u.newId))
    ensures Judged(c, s, DatabaseStep(c, s5, O.LastStep(pid, u.ending)), pid, u, name)
  {
    assert s5.o.txs - {pid} == s.o.txs;
    assert s5.tasks - {pid} == s.tasks;
  }

  lemma AllowedWalk(c: Config, s: World, pid: Pid, u: Update, name: string)
    requires O.Inv(s.o) && pid !in s.tasks && pid !in s.o.txs && u.msg.tid > 0 && u.msg.tid in c.allow
    requires !O.UserTaken(s.o, u.newId) && !O.KeyHeld(s.o, pid, u.msg.tid)
    requires ParseCommand(u.msg.text) == Some(name) && !u.msg.isBot
    ensures Judged(c, s, Judge(c, s, pid, u), pid, u, name)
  {
    hide O.Inv, ParseCommand, DatabaseStep, Judged, O.SelectStep, O.InsertUserStep, O.InsertBindingStep, O.LoadStep,
         O.UserTaken, O.KeyHeld;
    OpenStatements(c, s.o, pid, u);
    var s1 := ReceiveStep(c, s, pid, u.msg);
    var s2 := DatabaseStep(c, s1, O.Select(pid));
    StillOpen(c, s1, O.Select(pid));
    var s3 := DatabaseStep(c, s2, O.InsertUser(pid, u.newId));
    StillOpen(c, s2, O.InsertUser(pid, u.newId));
    var s4 := DatabaseStep(c, s3, O.InsertBinding(pid));
    StillOpen(c, s3, O.InsertBinding(pid));
    var s5 := DatabaseStep(c, s4, O.Load(pid));
    StillOpen(c, s4, O.Load(pid));
    LastStatement(c, s, s5, pid, u, name);
  }

  lemma ExecSteps(c: Config, s: World, pid: Pid, u: Update)
    ensures Exec(c, s, AuthorizeSteps(pid, u) + ServeSteps(pid, u)) == Serve(c, Judge(c, s, pid, u), pid, u)
  {
    var a, b := AuthorizeSteps(pid, u), ServeSteps(pid, u);
    ExecAppend(c, s, a, b);
    assert a == a[..5] + [a[5]];
    ExecSnoc(c, s, a[..5], a[5]);
    ExecFive(c, s, a[0], a[1], a[2], a[3], a[4]);
    assert a[..5] == [a[0], a[1], a[2], a[3], a[4]];
    ExecFive(c, Exec(c, s, a), b[0], b[1], b[2], b[3], b[4]);
    hide ReceiveStep, DatabaseStep, DecideStep, ThrottleStep, LookupStep, FinishStep, RecordStep, Exec;
  }

  /** An update that nothing else runs beside leaves what Dispatch leaves. */
  lemma DispatchCallIsRun(c: Config, s: World, pid: Pid, u: Update)
    requires O.Inv(s.o) && pid !in s.tasks && pid !in s.o.txs
    requires !O.UserTaken(s.o, u.newId) && !O.KeyHeld(s.o, pid, u.msg.tid)
    ensures Served(c, s, Exec(c, s, AuthorizeSteps(pid, u) + ServeSteps(pid, u)), u)
  {
    hide Exec, O.Inv, ParseCommand, O.UserTaken, O.KeyHeld, Judge, Serve;
    ExecSteps(c, s, pid, u);
    var name := ParseCommand(u.msg.text);
    if name.None? || u.msg.isBot {
      IgnoredWalk(c, s, pid, u);
    } else {
      if u.msg.tid <= 0 || u.msg.tid !in c.allow {
        RefusedWalk(c, s, pid, u, name.value);
      } else {
        AllowedWalk(c, s, pid, u, name.value);
      }
      ServeWalk(c, s, Judge(c, s, pid, u), pid, u, name.value);
    }
  }

  lemma IgnoredWalk(c: Config, s: World, pid: Pid, u: Update)
    requires pid !in s.tasks && pid !in s.o.txs && (ParseCommand(u.msg.text).None? || u.msg.isBot)
    ensures Served(c, s, Serve(c, Judge(c, s, pid, u), pid, u), u)
  {
    hide DatabaseStep, ParseCommand;
    NothingOpen(c, s, O.Select(pid));
    NothingOpen(c, s, O.InsertUser(pid, u.newId));
    NothingOpen(c, s, O.InsertBinding(pid));
    NothingOpen(c, s, O.Load(pid));
    NothingOpen(c, s, O.LastStep(pid, u.ending));
  }
}
