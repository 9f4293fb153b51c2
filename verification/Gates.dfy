/** Who reaches a handler, and how often, over every interleaving of the pipeline. */
module Gates {
  import opened Results
  import opened Counting
  import opened Commands
  import O = Onboarding
  import opened RateLimits
  import opened Pipeline

  // ---- What every step keeps ----

  /** A human sent this command. */
  predicate JobOk(job: Job) {
    !job.msg.isBot && job.msg.tid > 0 && ParseCommand(job.msg.text) == Some(job.name)
  }

  /** The log has the admission of this caller, as this account, at this position. */
  predicate AdmittedAt(log: seq<O.Fact>, job: Job, user: O.UserId, fact: nat)
  {
    fact < |log| && log[fact].Admitted? && log[fact].tid == job.msg.tid && log[fact].user == user
  }

  /** The limiter allowed this very call, made for this caller; without a limiter there is no call. */
  ghost predicate TicketOk(c: Config, calls: seq<Call>, job: Job, ticket: Option<Ticket>)
  {
    if !c.throttled then ticket == None
    else
      && ticket.Some? && ticket.value.index < |calls| && calls[ticket.value.index] == ticket.value.call
      && ticket.value.call.identity == job.msg.tid
      && LastAnswer(c.rules, calls[..ticket.value.index + 1]).allowed
  }

  ghost predicate TaskOk(c: Config, s: World, pid: Pid, task: Task)
  {
    && JobOk(task.job)
    && (task.stage.Refusing? || task.job.msg.tid in c.allow)
    && match task.stage
       case Authorizing => pid in s.o.txs && s.o.txs[pid].tid == task.job.msg.tid
       case Welcoming(user, _, fact) => AdmittedAt(s.o.log, task.job, user, fact)
       case Admitted(user, fact) => AdmittedAt(s.o.log, task.job, user, fact)
       case Passed(user, fact, ticket) =>
         AdmittedAt(s.o.log, task.job, user, fact) && TicketOk(c, s.calls, task.job, ticket)
       case _ => true
  }

  /** A human, allowlisted, admitted and unthrottled caller of a registered command. */
  ghost predicate RunOk(c: Config, s: World, r: Run)
  {
    && JobOk(r.job) && r.job.msg.tid in c.allow && r.job.name in c.commands
    && AdmittedAt(s.o.log, r.job, r.user, r.fact) && TicketOk(c, s.calls, r.job, r.ticket)
  }

  ghost predicate Inv(c: Config, s: World)
  {
    && (forall pid <- s.tasks :: TaskOk(c, s, pid, s.tasks[pid]))
    && (forall i :: 0 <= i < |s.runs| ==> RunOk(c, s, s.runs[i]))
    && (c.throttled ==> s.counters == After(c.rules, s.calls))
  }

  /** Histories only grow, and the transaction of a task that is still authorizing stays its own. */
  ghost predicate Extends(s: World, s': World, pid: Pid)
  {
    && s.o.log <= s'.o.log && s.calls <= s'.calls
    && forall q :: q != pid && q in s.o.txs ==> q in s'.o.txs && s'.o.txs[q].tid == s.o.txs[q].tid
  }

  lemma TicketStays(c: Config, calls: seq<Call>, calls': seq<Call>, job: Job, ticket: Option<Ticket>)
    requires TicketOk(c, calls, job, ticket) && calls <= calls'
    ensures TicketOk(c, calls', job, ticket)
  {
    hide LastAnswer;
    if c.throttled {
      var n := ticket.value.index + 1;
      assert calls[..n] == calls'[..n];
    }
  }

  lemma TaskStays(c: Config, s: World, s': World, pid: Pid, q: Pid, task: Task)
    requires TaskOk(c, s, q, task) && Extends(s, s', pid) && q != pid
    ensures TaskOk(c, s', q, task)
  {
    hide TicketOk, JobOk;
    if task.stage.Passed? {
      TicketStays(c, s.calls, s'.calls, task.job, task.stage.ticket);
    }
  }

  lemma RunStays(c: Config, s: World, s': World, pid: Pid, r: Run)
    requires RunOk(c, s, r) && Extends(s, s', pid)
    ensures RunOk(c, s', r)
  {
    hide TicketOk, JobOk;
    TicketStays(c, s.calls, s'.calls, r.job, r.ticket);
  }

  lemma StepExtends(c: Config, s: World, step: Step)
    ensures Extends(s, Apply(c, s, step), PidOf(step))
  {
    hide O.Apply, AllowEffect, ParseCommand;
    if step.Database? {
      O.StepFrame(c.allow, s.o, step.step);
    }
  }

  /** Whichever command takes the step, it and the run it may add are in order afterwards. */
  ghost predicate OwnOk(c: Config, s: World, s': World, pid: Pid)
  {
    && (pid in s'.tasks ==> TaskOk(c, s', pid, s'.tasks[pid]))
    && (s'.runs == s.runs || (|s'.runs| == |s.runs| + 1 && s.runs <= s'.runs && RunOk(c, s', s'.runs[|s.runs|])))
  }

  lemma ReceiveIsOk(c: Config, s: World, pid: Pid, msg: Message)
    requires Inv(c, s)
    ensures OwnOk(c, s, ReceiveStep(c, s, pid, msg), pid)
  {
    hide ParseCommand, TicketOk;
  }

  lemma DatabaseIsOk(c: Config, s: World, step: O.Step)
    requires Inv(c, s)
    ensures OwnOk(c, s, DatabaseStep(c, s, step), PidOf(Database(step)))
  {
    hide JobOk, TicketOk, O.UserTaken, O.KeyHeld;
    var pid := PidOf(Database(step));
    O.StepFrame(c.allow, s.o, step);
    if pid in s.tasks {
      var task := s.tasks[pid];
      assert TaskOk(c, s, pid, task);
    }
  }

  lemma ThrottleIsOk(c: Config, s: World, pid: Pid, time: nat, up: bool)
    requires Inv(c, s)
    ensures var s' := ThrottleStep(c, s, pid, time, up);
            OwnOk(c, s, s', pid) && (c.throttled ==> s'.counters == After(c.rules, s'.calls))
  {
    hide JobOk, AllowEffect;
    var s' := ThrottleStep(c, s, pid, time, up);
    if pid in s.tasks && s.tasks[pid].stage.Admitted? {
      assert TaskOk(c, s, pid, s.tasks[pid]);
      if c.throttled {
        var n := |s.calls|;
        assert s'.calls[..n] == s.calls && s'.calls[..n + 1] == s'.calls;
      }
    } else if pid in s.tasks {
      assert TaskOk(c, s, pid, s.tasks[pid]);
    }
  }

  lemma OtherIsOk(c: Config, s: World, step: Step)
    requires Inv(c, s) && (step.Decide? || step.Lookup? || step.Finish? || step.Record?)
    ensures OwnOk(c, s, Apply(c, s, step), step.pid)
  {
    hide JobOk, TicketOk;
    if step.pid in s.tasks {
      assert TaskOk(c, s, step.pid, s.tasks[step.pid]);
    }
  }

  lemma StepIsOk(c: Config, s: World, step: Step)
    requires Inv(c, s)
    ensures var s' := Apply(c, s, step);
            OwnOk(c, s, s', PidOf(step)) && (c.throttled ==> s'.counters == After(c.rules, s'.calls))
  {
    hide OwnOk, After, ThrottleStep, O.Apply, TaskOk, RunOk, ParseCommand;
    match step
    case Receive(pid, msg) => ReceiveIsOk(c, s, pid, msg);
    case Database(step) => DatabaseIsOk(c, s, step);
    case Throttle(pid, time, up) => ThrottleIsOk(c, s, pid, time, up);
    case _ => OtherIsOk(c, s, step);
  }

  lemma StepKeepsInv(c: Config, s: World, step: Step)
    requires Inv(c, s)
    ensures Inv(c, Apply(c, s, step))
  {
    hide Apply, TaskOk, RunOk, After;
    var s', pid := Apply(c, s, step), PidOf(step);
    StepIsOk(c, s, step);
    StepExtends(c, s, step);
    OneTaskMoves(c, s, step);
    forall q | q in s'.tasks
      ensures TaskOk(c, s', q, s'.tasks[q])
    {
      if q != pid {
        TaskStays(c, s, s', pid, q, s.tasks[q]);
      }
    }
    forall i | 0 <= i < |s'.runs|
      ensures RunOk(c, s', s'.runs[i])
    {
      if i < |s.runs| {
        RunStays(c, s, s', pid, s.runs[i]);
      }
    }
  }

  lemma {:induction false} RunKeepsInv(c: Config, o: O.World, steps: seq<Step>)
    ensures Inv(c, Exec(c, Start(o), steps))
  {
    hide Apply;
    if steps != [] {
      var n := |steps| - 1;
      RunKeepsInv(c, o, steps[..n]);
      StepKeepsInv(c, Exec(c, Start(o), steps[..n]), steps[n]);
    }
  }

  // ---- Results over every run ----

  /** The accounts of a run are those of a run of Onboarding's own steps. */
  lemma {:induction false} AccountsStaySound(c: Config, s: World, steps: seq<Step>)
    requires O.Inv(s.o)
    ensures O.Inv(Exec(c, s, steps).o) && O.Grows(s.o.t, Exec(c, s, steps).o.t)
  {
    hide O.Inv;
    if steps != [] {
      var n := |steps| - 1;
      AccountsStaySound(c, s, steps[..n]);
      StepKeepsAccounts(c, Exec(c, s, steps[..n]), steps[n]);
    }
  }

  lemma StepKeepsAccounts(c: Config, s: World, step: Step)
    requires O.Inv(s.o)
    ensures O.Inv(Apply(c, s, step).o) && O.Grows(s.o.t, Apply(c, s, step).o.t)
  {
    hide O.Inv, O.Apply, AllowEffect, ParseCommand, O.AuthorizeStep;
    match step
    case Receive(pid, msg) =>
      var own := O.Authorize(pid, msg.tid, msg.profile);
      O.StepKeepsInv(c.allow, s.o, own);
      ReceiveOpens(c, s, pid, msg);
    case Database(step) => O.StepKeepsInv(c.allow, s.o, step);
    case _ =>
  }

  lemma ReceiveOpens(c: Config, s: World, pid: Pid, msg: Message)
    ensures var o := ReceiveStep(c, s, pid, msg).o;
            o == s.o || o == O.Apply(c.allow, s.o, O.Authorize(pid, msg.tid, msg.profile))
  {
  }

  /**
   Every handler that ever ran, from any sound accounts and under any interleaving, was
   invoked for a registered command of a human on the allowlist, on an admission of them as
   the account bound to them, and on an allowed limiter call for them.
   */
  lemma HandlersAreGated(c: Config, o: O.World, steps: seq<Step>, i: nat)
    requires O.Inv(o) && i < |Exec(c, Start(o), steps).runs|
    ensures var s := Exec(c, Start(o), steps);
            var r := s.runs[i];
            && RunOk(c, s, r)
            && r.job.msg.tid in s.o.t.bindings && s.o.t.bindings[r.job.msg.tid].user == r.user
  {
    hide Exec, O.TablesOk, O.TxsOk, TicketOk, JobOk;
    RunKeepsInv(c, o, steps);
    AccountsStaySound(c, Start(o), steps);
    var s := Exec(c, Start(o), steps);
    assert RunOk(c, s, s.runs[i]);
    assert O.FactOk(s.o.t, s.o.log[s.runs[i].fact]);
  }

  // ---- Evidence is spent once ----

  /** What a run rests on: an admission in the log, and an allowed call of the limiter. */
  datatype Kind = Admission | Allowance

  /** The position of the evidence a task holds and has not spent on a run. */
  function Held(kind: Kind, stage: Stage): Option<nat>
  {
    match kind
    case Admission => if stage.Welcoming? || stage.Admitted? || stage.Passed? then Some(stage.fact) else None
    case Allowance => if stage.Passed? && stage.ticket.Some? then Some(stage.ticket.value.index) else None
  }

  function Spent(kind: Kind, r: Run): Option<nat>
  {
    match kind
    case Admission => Some(r.fact)
    case Allowance => if r.ticket.Some? then Some(r.ticket.value.index) else None
  }

  function Length(kind: Kind, s: World): nat {
    if kind == Admission then |s.o.log| else |s.calls|
  }

  function HeldBy(kind: Kind, s: World, pid: Pid): Option<nat> {
    if pid in s.tasks then Held(kind, s.tasks[pid].stage) else None
  }

  /** No two commands, done or under way, share a piece of evidence. */
  ghost predicate NothingShared(kind: Kind, s: World)
  {
    && (forall i :: 0 <= i < |s.runs| && Spent(kind, s.runs[i]).Some? ==>
          Spent(kind, s.runs[i]).value < Length(kind, s))
    && (forall p <- s.tasks :: HeldBy(kind, s, p).Some? ==> HeldBy(kind, s, p).value < Length(kind, s))
    && (forall i, j :: 0 <= i < j < |s.runs| && Spent(kind, s.runs[i]).Some? ==>
          Spent(kind, s.runs[i]) != Spent(kind, s.runs[j]))
    && (forall p, q :: p in s.tasks && q in s.tasks && p != q && HeldBy(kind, s, p).Some? ==>
          HeldBy(kind, s, p) != HeldBy(kind, s, q))
    && (forall i, p :: 0 <= i < |s.runs| && p in s.tasks && HeldBy(kind, s, p).Some? ==>
          Spent(kind, s.runs[i]) != HeldBy(kind, s, p))
  }

  /** A step keeps, drops or spends the evidence of its own command, or gets it a new piece. */
  ghost predicate Passes(kind: Kind, s: World, s': World, pid: Pid)
  {
    && Length(kind, s) <= Length(kind, s')
    && (var held := HeldBy(kind, s', pid);
        || held == None || held == HeldBy(kind, s, pid)
        || (Length(kind, s) <= held.value < Length(kind, s')))
    && (|| s'.runs == s.runs
        || (&& |s'.runs| == |s.runs| + 1 && s.runs <= s'.runs && HeldBy(kind, s', pid) == None
            && Spent(kind, s'.runs[|s.runs|]) == HeldBy(kind, s, pid)))
  }

  lemma StepPasses(c: Config, s: World, step: Step, kind: Kind)
    ensures Passes(kind, s, Apply(c, s, step), PidOf(step))
  {
    hide AllowEffect, ParseCommand, O.UserTaken, O.KeyHeld;
    if step.Database? {
      O.StepFrame(c.allow, s.o, step.step);
    }
  }

  lemma PassingSharesNothing(kind: Kind, s: World, s': World, pid: Pid)
    requires NothingShared(kind, s) && Passes(kind, s, s', pid) && AllButOne(s.tasks, s'.tasks, pid)
    ensures NothingShared(kind, s')
  {
    hide Held, Spent, Length;
    forall q | q in s'.tasks && q != pid
      ensures q in s.tasks && HeldBy(kind, s', q) == HeldBy(kind, s, q)
    {
    }
  }

  /**
   Over every interleaving, no two handler invocations, and no two commands under way, rest
   on the same admission or on the same allowed call of the limiter.
   */
  lemma {:induction false} EvidenceIsSpentOnce(c: Config, o: O.World, steps: seq<Step>, kind: Kind)
    ensures NothingShared(kind, Exec(c, Start(o), steps))
  {
    hide Apply, Passes, AllButOne;
    if steps != [] {
      var n := |steps| - 1;
      var s := Exec(c, Start(o), steps[..n]);
      EvidenceIsSpentOnce(c, o, steps[..n], kind);
      StepPasses(c, s, steps[n], kind);
      OneTaskMoves(c, s, steps[n]);
      PassingSharesNothing(kind, s, Apply(c, s, steps[n]), PidOf(steps[n]));
    }
  }

  // ---- Active while the command was processed ----

  predicate ActiveIn(s: World, user: O.UserId) {
    user in s.o.t.users && s.o.t.users[user] == O.ActiveUser
  }

  predicate UnderWay(s: World, pid: Pid, job: Job) {
    pid in s.tasks && s.tasks[pid].job == job
  }

  /** Since some moment at which the account was active, and until now, this command has been under way. */
  ghost predicate ActiveSince(c: Config, o: O.World, steps: seq<Step>, pid: Pid, job: Job, user: O.UserId)
  {
    exists n ::
      && 0 <= n <= |steps| && ActiveIn(Exec(c, Start(o), steps[..n]), user)
      && forall k :: n <= k <= |steps| ==> UnderWay(Exec(c, Start(o), steps[..k]), pid, job)
  }

  /** The transaction has read that the account is active. */
  predicate ReadActive(o: O.World, pid: Pid) {
    pid in o.txs && o.txs[pid].Returning? && o.txs[pid].standing == O.ActiveUser
  }

  /** The account a command has found active, if it has come to that and not yet to its handler. */
  function FoundActive(s: World, pid: Pid): Option<O.UserId>
  {
    if pid !in s.tasks then None
    else
      match s.tasks[pid].stage
      case Authorizing => if ReadActive(s.o, pid) then Some(s.o.txs[pid].user) else None
      case Welcoming(user, _, _) => Some(user)
      case Admitted(user, _) => Some(user)
      case Passed(user, _, _) => Some(user)
      case _ => None
  }

  lemma ActiveNow(c: Config, o: O.World, steps: seq<Step>, pid: Pid, job: Job, user: O.UserId)
    requires var s := Exec(c, Start(o), steps); ActiveIn(s, user) && UnderWay(s, pid, job)
    ensures ActiveSince(c, o, steps, pid, job, user)
  {
    hide Exec;
    assert steps[..|steps|] == steps;
  }

  lemma StillUnderWay(c: Config, o: O.World, steps: seq<Step>, step: Step, pid: Pid, job: Job, user: O.UserId)
    requires ActiveSince(c, o, steps, pid, job, user) && UnderWay(Exec(c, Start(o), steps + [step]), pid, job)
    ensures ActiveSince(c, o, steps + [step], pid, job, user)
  {
    hide Exec;
    var all := steps + [step];
    var n :| 0 <= n <= |steps| && ActiveIn(Exec(c, Start(o), steps[..n]), user)
             && forall k :: n <= k <= |steps| ==> UnderWay(Exec(c, Start(o), steps[..k]), pid, job);
    assert all[..n] == steps[..n];
    forall k | n <= k <= |all|
      ensures UnderWay(Exec(c, Start(o), all[..k]), pid, job)
    {
      if k <= |steps| {
        assert all[..k] == steps[..k];
      } else {
        assert all[..k] == all;
      }
    }
  }

  /** A command finds its account active only by reading or creating it so at that step. */
  lemma FindsActive(c: Config, s: World, step: Step, pid: Pid)
    ensures var s' := Apply(c, s, step);
            FoundActive(s', pid).Some? ==>
              || (FoundActive(s', pid) == FoundActive(s, pid) && s'.tasks[pid].job == s.tasks[pid].job)
              || ActiveIn(s', FoundActive(s', pid).value)
  {
    hide AllowEffect, ParseCommand;
    if step.Database? {
      StatementFindsActive(c, s, step, pid);
    } else {
      hide O.Apply;
    }
  }

  lemma StatementFindsActive(c: Config, s: World, step: Step, pid: Pid)
    requires step.Database?
    ensures var s' := Apply(c, s, step);
            FoundActive(s', pid).Some? ==>
              || (FoundActive(s', pid) == FoundActive(s, pid) && s'.tasks[pid].job == s.tasks[pid].job)
              || ActiveIn(s', FoundActive(s', pid).value)
  {
    hide O.UserTaken, O.KeyHeld;
  }

  lemma {:induction false} FoundWereActive(c: Config, o: O.World, steps: seq<Step>, pid: Pid)
    ensures var s := Exec(c, Start(o), steps);
            FoundActive(s, pid).Some? ==>
              ActiveSince(c, o, steps, pid, s.tasks[pid].job, FoundActive(s, pid).value)
  {
    hide Apply, ActiveSince;
    var s' := Exec(c, Start(o), steps);
    if steps != [] && FoundActive(s', pid).Some? {
      var n := |steps| - 1;
      var before, step := steps[..n], steps[n];
      assert steps == before + [step];
      var s := Exec(c, Start(o), before);
      var user, job := FoundActive(s', pid).value, s'.tasks[pid].job;
      FoundWereActive(c, o, before, pid);
      FindsActive(c, s, step, pid);
      if ActiveIn(s', user) {
        ActiveNow(c, o, steps, pid, job, user);
      } else {
        StillUnderWay(c, o, before, step, pid, job, user);
      }
    }
  }

  /** What a new run takes over from its command. */
  lemma RunFoundActive(c: Config, s: World, step: Step)
    ensures var s' := Apply(c, s, step);
            s'.runs == s.runs
            || (&& step.Lookup? && |s'.runs| == |s.runs| + 1 && s.runs <= s'.runs
                && var r := s'.runs[|s.runs|];
                   && r.pid == step.pid && FoundActive(s, step.pid) == Some(r.user) && s.tasks[step.pid].job == r.job)
  {
    hide O.Apply, AllowEffect, ParseCommand;
  }

  /**
   Every handler invocation served an account that was active while that very command was
   being processed: from some moment at which it was active until the invocation, the
   command was under way.
   */
  lemma {:induction false} HandlersServeActive(c: Config, o: O.World, steps: seq<Step>, i: nat)
    requires i < |Exec(c, Start(o), steps).runs|
    ensures var r := Exec(c, Start(o), steps).runs[i];
            exists h ::
              && 0 <= h < |steps| && steps[h] == Lookup(r.pid) && |Exec(c, Start(o), steps[..h]).runs| == i
              && ActiveSince(c, o, steps[..h], r.pid, r.job, r.user)
  {
    hide Apply, ActiveSince, FoundActive;
    if steps != [] {
      var n := |steps| - 1;
      var s := Exec(c, Start(o), steps[..n]);
      RunFoundActive(c, s, steps[n]);
      if i < |s.runs| {
        HandlersServeActive(c, o, steps[..n], i);
        var r := s.runs[i];
        var h :| 0 <= h < n && steps[..n][h] == Lookup(r.pid) && |Exec(c, Start(o), steps[..n][..h]).runs| == i
                 && ActiveSince(c, o, steps[..n][..h], r.pid, r.job, r.user);
        assert steps[..n][..h] == steps[..h] && steps[h] == steps[..n][h];
      } else {
        FoundWereActive(c, o, steps[..n], steps[n].pid);
      }
    }
  }

  // ---- Suspension ----

  /** The account bound to this ID is suspended. */
  predicate Suspended(t: O.Tables, tid: O.TelegramId, user: O.UserId)
  {
    tid in t.bindings && t.bindings[tid].user == user && user in t.users && t.users[user] == O.Suspended
  }

  /** The commands of this ID that have found the account active and have not come to their handler. */
  function Readers(s: World, tid: O.TelegramId): set<Pid> {
    set pid | pid in s.tasks && s.tasks[pid].job.msg.tid == tid && FoundActive(s, pid).Some?
  }

  function RunBy(tid: O.TelegramId): Run -> bool {
    (r: Run) => r.job.msg.tid == tid
  }

  lemma StandingStays(allow: set<O.TelegramId>, s: O.World, step: O.Step, tid: O.TelegramId, user: O.UserId)
    requires O.Inv(s) && step != O.SetStanding(user, O.ActiveUser) && Suspended(s.t, tid, user)
    ensures Suspended(O.Apply(allow, s, step).t, tid, user)
  {
    hide O.LogOk, O.TablesOk, O.UserTaken, O.KeyHeld;
    if step.Commit? && step.pid in s.txs {
      assert O.TxOk(s.t, s.txs[step.pid]);
    }
  }

  /** A transaction for a suspended caller cannot come to read that they are active, nor create an account. */
  lemma SuspendedIsRead(allow: set<O.TelegramId>, s: O.World, step: O.Step, user: O.UserId, pid: Pid)
    requires O.Inv(s) && pid in s.txs && Suspended(s.t, s.txs[pid].tid, user) && !ReadActive(s, pid)
    ensures !s.txs[pid].Claimed? && !ReadActive(O.Apply(allow, s, step), pid)
  {
    hide O.LogOk, O.TablesOk, O.UserTaken, O.KeyHeld;
    assert O.TxOk(s.t, s.txs[pid]);
  }

  /** No statement lets a command of a suspended caller find them active. */
  lemma NoNewReader(c: Config, s: World, step: O.Step, tid: O.TelegramId, user: O.UserId, pid: Pid)
    requires Inv(c, s) && O.Inv(s.o) && Suspended(s.o.t, tid, user) && pid in Readers(DatabaseStep(c, s, step), tid)
    ensures pid in Readers(s, tid)
  {
    hide O.Inv, O.Apply, TicketOk, JobOk;
    O.StepFrame(c.allow, s.o, step);
    assert TaskOk(c, s, pid, s.tasks[pid]);
    if s.tasks[pid].stage.Authorizing? && !ReadActive(s.o, pid) {
      SuspendedIsRead(c.allow, s.o, step, user, pid);
      assert false;
    }
  }

  /** No command of this caller comes to find them active, and one that comes to its handler stops being a reader. */
  ghost predicate Shrinks(s: World, s': World, step: Step, tid: O.TelegramId)
  {
    && Readers(s', tid) <= Readers(s, tid)
    && (s'.runs == s.runs
        || (&& |s'.runs| == |s.runs| + 1 && s.runs <= s'.runs
            && (s'.runs[|s.runs|].job.msg.tid == tid ==>
                  step.Lookup? && step.pid in Readers(s, tid) && step.pid !in Readers(s', tid))))
  }

  lemma ReadersShrink(c: Config, s: World, step: Step, tid: O.TelegramId, user: O.UserId)
    requires Inv(c, s) && O.Inv(s.o) && Suspended(s.o.t, tid, user)
    ensures Shrinks(s, Apply(c, s, step), step, tid)
  {
    hide Inv, O.Inv, Suspended;
    if step.Database? {
      hide Readers, Follow, O.Apply;
      forall pid | pid in Readers(Apply(c, s, step), tid)
        ensures pid in Readers(s, tid)
      {
        NoNewReader(c, s, step.step, tid, user, pid);
      }
    } else if step.Receive? {
      ReceiveShrinks(c, s, step, tid);
    } else {
      hide AllowEffect;
    }
  }

  lemma ReceiveShrinks(c: Config, s: World, step: Step, tid: O.TelegramId)
    requires step.Receive?
    ensures Shrinks(s, Apply(c, s, step), step, tid)
  {
    hide ParseCommand;
  }

  /** Handler invocations for this ID, and commands of theirs that may still come to one. */
  function Exposure(s: World, tid: O.TelegramId): nat {
    Count(s.runs, RunBy(tid)) + |Readers(s, tid)|
  }

  lemma StepBars(c: Config, s: World, step: Step, tid: O.TelegramId, user: O.UserId)
    requires Inv(c, s) && O.Inv(s.o) && Suspended(s.o.t, tid, user)
    requires step != Database(O.SetStanding(user, O.ActiveUser))
    ensures Suspended(Apply(c, s, step).o.t, tid, user) && Exposure(Apply(c, s, step), tid) <= Exposure(s, tid)
  {
    hide Apply, Inv, O.Inv, Count, Readers, O.Apply;
    var s' := Apply(c, s, step);
    var own := AccountStep(c, s, step);
    if own.Some? {
      StandingStays(c.allow, s.o, own.value, tid, user);
    }
    ReadersShrink(c, s, step, tid, user);
    SmallerSet(Readers(s', tid), Readers(s, tid), PidOf(step));
    if s'.runs != s.runs {
      var r := s'.runs[|s.runs|];
      assert s'.runs == s.runs + [r];
      CountSnoc(s.runs, r, RunBy(tid));
    }
  }

  /** A step of the pipeline is a step of the accounts, or leaves them alone. */
  lemma AccountStep(c: Config, s: World, step: Step) returns (own: Option<O.Step>)
    ensures own == None ==> Apply(c, s, step).o == s.o
    ensures own.Some? ==> Apply(c, s, step).o == O.Apply(c.allow, s.o, own.value)
    ensures own.Some? && own.value.SetStanding? ==> step == Database(own.value)
  {
    hide O.Apply, AllowEffect, ParseCommand;
    own := None;
    if step.Receive? {
      ReceiveOpens(c, s, step.pid, step.msg);
      if ReceiveStep(c, s, step.pid, step.msg).o != s.o {
        own := Some(O.Authorize(step.pid, step.msg.tid, step.msg.profile));
      }
    } else if step.Database? && DatabaseStep(c, s, step.step) != s {
      own := Some(step.step);
    }
  }

  /**
   Suspending an account takes effect without a restart, whatever is in flight: until it is
   made active again, its handler invocations plus its commands that had already found it
   active never increase. So a command that had not yet read the standing, or is sent later,
   comes to no handler.
   */
  lemma {:induction false} SuspensionBars(c: Config, o: O.World, before: seq<Step>, later: seq<Step>,
                                          tid: O.TelegramId, user: O.UserId)
    requires O.Inv(o) && Suspended(Exec(c, Start(o), before).o.t, tid, user)
    requires Database(O.SetStanding(user, O.ActiveUser)) !in later
    ensures Suspended(Exec(c, Start(o), before + later).o.t, tid, user)
    ensures Exposure(Exec(c, Start(o), before + later), tid) <= Exposure(Exec(c, Start(o), before), tid)
  {
    hide Apply, O.Inv, Exposure, Suspended;
    if later == [] {
      assert before + later == before;
    } else {
      var n := |later| - 1;
      var steps := before + later[..n];
      assert later == later[..n] + [later[n]];
      SuspensionBars(c, o, before, later[..n], tid, user);
      assert before + later == steps + [later[n]];
      ExecSnoc(c, Start(o), steps, later[n]);
      RunKeepsInv(c, o, steps);
      AccountsStaySound(c, Start(o), steps);
      StepBars(c, Exec(c, Start(o), steps), later[n], tid, user);
    }
  }

  /** In particular, when none of its commands had found it active, it comes to no further handler. */
  lemma SuspensionHolds(c: Config, o: O.World, before: seq<Step>, later: seq<Step>, tid: O.TelegramId, user: O.UserId)
    requires O.Inv(o) && Suspended(Exec(c, Start(o), before).o.t, tid, user)
    requires Database(O.SetStanding(user, O.ActiveUser)) !in later && Readers(Exec(c, Start(o), before), tid) == {}
    ensures var s, s' := Exec(c, Start(o), before), Exec(c, Start(o), before + later);
            |s.runs| <= |s'.runs| && forall i :: |s.runs| <= i < |s'.runs| ==> s'.runs[i].job.msg.tid != tid
  {
    hide Exec, O.Inv, Readers, Suspended, Count;
    SuspensionBars(c, o, before, later, tid, user);
    RunsGrow(c, Start(o), before, later);
    NoneBeyond(Exec(c, Start(o), before).runs, Exec(c, Start(o), before + later).runs, RunBy(tid));
  }

  lemma {:induction false} RunsGrow(c: Config, s: World, before: seq<Step>, later: seq<Step>)
    ensures Exec(c, s, before).runs <= Exec(c, s, before + later).runs
  {
    hide Apply, FoundActive;
    if later == [] {
      assert before + later == before;
    } else {
      var n := |later| - 1;
      assert before + later == (before + later[..n]) + [later[n]];
      RunsGrow(c, s, before, later[..n]);
      ExecSnoc(c, s, before + later[..n], later[n]);
      RunFoundActive(c, Exec(c, s, before + later[..n]), later[n]);
    }
  }

  // ---- How often a handler is reached ----

  /** Answered limiter calls for one identity in the closed interval of one window length. */
  predicate InStretch(r: Rules, call: Call, tid: O.TelegramId, from: nat) {
    call.up && call.identity == tid && from <= call.time <= from + r.window
  }

  function RunIn(r: Rules, tid: O.TelegramId, from: nat): Run -> bool {
    (x: Run) => x.ticket.Some? && InStretch(r, x.ticket.value.call, tid, from)
  }

  function PassedIn(r: Rules, tid: O.TelegramId, from: nat): Task -> bool {
    (t: Task) => t.stage.Passed? && t.stage.ticket.Some? && InStretch(r, t.stage.ticket.value.call, tid, from)
  }

  lemma PassedSelected(r: Rules, tasks: map<Pid, Task>, pid: Pid, tid: O.TelegramId, from: nat)
    ensures One(tasks, pid, PassedIn(r, tid, from))
         == (if pid in tasks && tasks[pid].stage.Passed? && tasks[pid].stage.ticket.Some?
                && InStretch(r, tasks[pid].stage.ticket.value.call, tid, from) then 1 else 0)
  {
  }

  lemma RunSelected(r: Rules, runs: seq<Run>, x: Run, tid: O.TelegramId, from: nat)
    ensures Count(runs + [x], RunIn(r, tid, from))
         == Count(runs, RunIn(r, tid, from))
            + (if x.ticket.Some? && InStretch(r, x.ticket.value.call, tid, from) then 1 else 0)
  {
    CountSnoc(runs, x, RunIn(r, tid, from));
  }

  lemma GrantedSnoc(r: Rules, calls: seq<Call>, x: Call, tid: O.TelegramId, from: nat)
    ensures GrantedFrom(r, calls + [x], tid, from)
         == GrantedFrom(r, calls, tid, from)
            + (if InStretch(r, x, tid, from) && AllowEffect(r, After(r, calls), x).1.allowed then 1 else 0)
  {
    assert (calls + [x])[..|calls|] == calls;
  }

  /** Every run, and every task about to run, has spent an allowed call of its own. */
  ghost predicate Metered(c: Config, s: World, tid: O.TelegramId, from: nat)
  {
    Count(s.runs, RunIn(c.rules, tid, from)) + TaskCount(s.tasks, PassedIn(c.rules, tid, from))
      <= GrantedFrom(c.rules, s.calls, tid, from)
  }

  lemma StepSpends(c: Config, s: World, step: Step, tid: O.TelegramId, from: nat)
    requires Inv(c, s) && c.throttled
    ensures var s', pid := Apply(c, s, step), PidOf(step);
            var r, p := c.rules, PassedIn(c.rules, tid, from);
            Count(s'.runs, RunIn(r, tid, from)) + One(s'.tasks, pid, p) - GrantedFrom(r, s'.calls, tid, from)
              <= Count(s.runs, RunIn(r, tid, from)) + One(s.tasks, pid, p) - GrantedFrom(r, s.calls, tid, from)
  {
    hide O.Apply, AllowEffect, ParseCommand, Count, One, GrantedFrom, After, TaskOk, RunOk;
    var s', pid := Apply(c, s, step), PidOf(step);
    PassedSelected(c.rules, s.tasks, pid, tid, from);
    PassedSelected(c.rules, s'.tasks, pid, tid, from);
    if s'.runs != s.runs {
      var x := s'.runs[|s.runs|];
      assert s'.runs == s.runs + [x];
      RunSelected(c.rules, s.runs, x, tid, from);
    }
    if s'.calls != s.calls {
      GrantedSnoc(c.rules, s.calls, s'.calls[|s.calls|], tid, from);
    }
  }

  lemma StepKeepsMetered(c: Config, s: World, step: Step, tid: O.TelegramId, from: nat)
    requires Inv(c, s) && c.throttled && Metered(c, s, tid, from)
    ensures Metered(c, Apply(c, s, step), tid, from)
  {
    hide Apply, Inv, Count, TaskCount, One, GrantedFrom;
    OneTaskMoves(c, s, step);
    TaskMoves(s.tasks, Apply(c, s, step).tasks, PidOf(step), PassedIn(c.rules, tid, from));
    StepSpends(c, s, step, tid, from);
  }

  lemma {:induction false} RunIsMetered(c: Config, o: O.World, steps: seq<Step>, tid: O.TelegramId, from: nat)
    requires c.throttled
    ensures Metered(c, Exec(c, Start(o), steps), tid, from)
  {
    hide Apply, Inv;
    if steps == [] {
      NothingCounts(Start(o).tasks, PassedIn(c.rules, tid, from));
    } else {
      var n := |steps| - 1;
      RunIsMetered(c, o, steps[..n], tid, from);
      RunKeepsInv(c, o, steps[..n]);
      StepKeepsMetered(c, Exec(c, Start(o), steps[..n]), steps[n], tid, from);
    }
  }

  /**
   End to end, with dispatches interleaved in any way: of the limiter calls in any stretch
   of one window length, at most twice the limit lead one identity to a handler.
   */
  lemma HandlerRate(c: Config, o: O.World, steps: seq<Step>, tid: O.TelegramId, from: nat)
    requires c.throttled && c.rules.window > 0 && (c.rules.limit <= 0 || Steady(c.rules))
    ensures Count(Exec(c, Start(o), steps).runs, RunIn(c.rules, tid, from)) <= 2 * Quota(c.rules)
  {
    hide Exec, Count, TaskCount;
    RunIsMetered(c, o, steps, tid, from);
    IntervalQuota(c.rules, Exec(c, Start(o), steps).calls, tid, from);
  }
}
