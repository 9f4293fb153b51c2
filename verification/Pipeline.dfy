/**
 Every interleaving of the command pipeline: parse, authorize, throttle, handle, audit.

 Updates are dispatched concurrently. Each is a task that takes one step per statement it
 sends to a store, per call of its handler and per audit write; between two steps of one
 task any others may run, as may the transactions of other callers of Authorize and changes
 of an account's standing. A task that crashed is one that takes no further step. Audit
 writes succeed, and handlers return.
 */
module Pipeline {
  import opened Results
  import opened Counting
  import opened Commands
  import O = Onboarding
  import opened RateLimits

  type Pid = O.Pid

  /** The configured router; `throttled` is false when it was built without a limiter. */
  datatype Config = Config(allow: set<O.TelegramId>, commands: set<string>, throttled: bool, rules: Rules)

  /** An inbound message. */
  datatype Message = Message(tid: O.TelegramId, isBot: bool, text: string, profile: O.Profile)

  /** A message with the command that was read from it. */
  datatype Job = Job(msg: Message, name: string)

  /** A call of the limiter, with its position among all of them. */
  datatype Ticket = Ticket(index: nat, call: Call)

  /**
   Where a task has got to. `fact` is the position in the log of the admission it rests
   on, `ticket` the limiter call it has spent.
   */
  datatype Stage =
    | Authorizing
    | Refusing
    | Welcoming(user: O.UserId, created: bool, fact: nat)
    | Admitted(user: O.UserId, fact: nat)
    | Throttled
    | Passed(user: O.UserId, fact: nat, ticket: Option<Ticket>)
    | Unknown
    | Handling
    | Returned(failed: bool)

  datatype Task = Task(job: Job, stage: Stage)

  datatype Outcome = Done | Failed | Rejected

  datatype Audit =
    | Unauthorized(tid: O.TelegramId)
    | UserOnboarded(tid: O.TelegramId)
    | RateLimited(tid: O.TelegramId, command: string)
    | Command(tid: O.TelegramId, command: string, outcome: Outcome)

  /** A handler invocation. */
  datatype Run = Run(pid: Pid, job: Job, user: O.UserId, fact: nat, ticket: Option<Ticket>)

  /** `calls`, `admitted` and `runs` are histories; no decision reads them. */
  datatype World = World(o: O.World, counters: Counters, tasks: map<Pid, Task>, audit: seq<Audit>,
                         calls: seq<Call>, admitted: seq<Job>, runs: seq<Run>)

  datatype Step =
    | Receive(pid: Pid, msg: Message)
    | Database(step: O.Step)
    | Decide(pid: Pid)
    | Throttle(pid: Pid, time: nat, up: bool)
    | Lookup(pid: Pid)
    | Finish(pid: Pid, failed: bool)
    | Record(pid: Pid)

  /** Any accounts and open transactions, and no command received yet. */
  function Start(o: O.World): World {
    World(o, map[], map[], [], [], [], [])
  }

  // ---- Steps ----

  function Move(s: World, pid: Pid, task: Task): World {
    s.(tasks := s.tasks[pid := task])
  }

  function Drop(s: World, pid: Pid): World {
    s.(tasks := s.tasks - {pid})
  }

  /** Parses, drops bots, and begins to authorize; an invalid identifier is refused without a record. */
  function ReceiveStep(c: Config, s: World, pid: Pid, msg: Message): World
  {
    var name := ParseCommand(msg.text);
    if pid in s.tasks || pid in s.o.txs || name == None || msg.isBot || msg.tid <= 0 then s
    else
      Move(s, pid, Task(Job(msg, name.value), if msg.tid in c.allow then Authorizing else Refusing))
        .(o := O.AuthorizeStep(c.allow, s.o, pid, msg.tid, msg.profile))
  }

  /** What the end of its transaction means to a task: an admission, a refusal, or an error that ends it. */
  function Follow(s: World, step: O.Step, o': O.World): map<Pid, Task>
  {
    if step.SetStanding? || step.pid !in s.tasks || !s.tasks[step.pid].stage.Authorizing?
       || step.pid !in s.o.txs || step.pid in o'.txs then s.tasks
    else
      var x, task, n := s.o.txs[step.pid], s.tasks[step.pid], |o'.log| - 1;
      if step.Commit? && step.heard && n >= 0 && x.Claimed? then
        s.tasks[step.pid := task.(stage := Welcoming(x.user, true, n))]
      else if step.Commit? && step.heard && n >= 0 && x.Returning? then
        var stage := if x.standing == O.ActiveUser then Welcoming(x.user, false, n) else Refusing;
        s.tasks[step.pid := task.(stage := stage)]
      else s.tasks - {step.pid}
  }

  /** A statement of any transaction, or a change of standing. */
  function DatabaseStep(c: Config, s: World, step: O.Step): World
  {
    if step.Authorize? && step.pid in s.tasks then s
    else
      var o' := O.Apply(c.allow, s.o, step);
      s.(o := o', tasks := Follow(s, step, o'))
  }

  function DecideStep(s: World, pid: Pid): World
  {
    if pid !in s.tasks then s
    else
      var task := s.tasks[pid];
      match task.stage
      case Refusing => Drop(s, pid).(audit := s.audit + [Unauthorized(task.job.msg.tid)])
      case Welcoming(user, created, fact) =>
        Move(s, pid, task.(stage := Admitted(user, fact)))
          .(audit := if created then s.audit + [UserOnboarded(task.job.msg.tid)] else s.audit,
            admitted := s.admitted + [task.job])
      case _ => s
  }

  function ThrottleStep(c: Config, s: World, pid: Pid, time: nat, up: bool): World
  {
    if pid !in s.tasks || !s.tasks[pid].stage.Admitted? then s
    else
      var task := s.tasks[pid];
      var user, fact := task.stage.user, task.stage.fact;
      if !c.throttled then Move(s, pid, task.(stage := Passed(user, fact, None)))
      else
        var call := Call(time, task.job.msg.tid, up);
        var (cs, answer) := AllowEffect(c.rules, s.counters, call);
        var stage := if answer.allowed then Passed(user, fact, Some(Ticket(|s.calls|, call))) else Throttled;
        Move(s, pid, task.(stage := stage)).(counters := cs, calls := s.calls + [call])
  }

  /** Looks the command up and invokes its handler. */
  function LookupStep(c: Config, s: World, pid: Pid): World
  {
    if pid !in s.tasks || !s.tasks[pid].stage.Passed? then s
    else
      var task := s.tasks[pid];
      var g := task.stage;
      if task.job.name !in c.commands then Move(s, pid, task.(stage := Unknown))
      else Move(s, pid, task.(stage := Handling)).(runs := s.runs + [Run(pid, task.job, g.user, g.fact, g.ticket)])
  }

  function FinishStep(s: World, pid: Pid, failed: bool): World
  {
    if pid !in s.tasks || !s.tasks[pid].stage.Handling? then s
    else Move(s, pid, s.tasks[pid].(stage := Returned(failed)))
  }

  /** The event that closes an admitted command at this stage, if it is ready for it. */
  function Closing(task: Task): Option<Audit>
  {
    var tid, name := task.job.msg.tid, task.job.name;
    match task.stage
    case Throttled => Some(RateLimited(tid, name))
    case Unknown => Some(Command(tid, name, Rejected))
    case Returned(failed) => Some(Command(tid, name, if failed then Failed else Done))
    case _ => None
  }

  function RecordStep(s: World, pid: Pid): World
  {
    if pid !in s.tasks || Closing(s.tasks[pid]).None? then s
    else Drop(s, pid).(audit := s.audit + [Closing(s.tasks[pid]).value])
  }

  function Apply(c: Config, s: World, step: Step): World
  {
    match step
    case Receive(pid, msg) => ReceiveStep(c, s, pid, msg)
    case Database(step) => DatabaseStep(c, s, step)
    case Decide(pid) => DecideStep(s, pid)
    case Throttle(pid, time, up) => ThrottleStep(c, s, pid, time, up)
    case Lookup(pid) => LookupStep(c, s, pid)
    case Finish(pid, failed) => FinishStep(s, pid, failed)
    case Record(pid) => RecordStep(s, pid)
  }

  function Exec(c: Config, s: World, steps: seq<Step>): World
  {
    if steps == [] then s
    else Apply(c, Exec(c, s, steps[..|steps| - 1]), steps[|steps| - 1])
  }

  lemma ExecSnoc(c: Config, s: World, steps: seq<Step>, step: Step)
    ensures Exec(c, s, steps + [step]) == Apply(c, Exec(c, s, steps), step)
  {
    hide Apply;
    assert (steps + [step])[..|steps|] == steps;
  }

  lemma {:induction false} ExecAppend(c: Config, s: World, a: seq<Step>, b: seq<Step>)
    ensures Exec(c, s, a + b) == Exec(c, Exec(c, s, a), b)
  {
    hide Apply;
    if b == [] {
      assert a + b == a;
    } else {
      var n := |b| - 1;
      assert a + b == (a + b[..n]) + [b[n]];
      ExecSnoc(c, s, a + b[..n], b[n]);
      ExecAppend(c, s, a, b[..n]);
    }
  }

  // ---- Counting ----

  /** Who sent which command. */
  datatype Order = Order(tid: O.TelegramId, name: string)

  function OrderOf(job: Job): Order {
    Order(job.msg.tid, job.name)
  }

  function TasksWith(tasks: map<Pid, Task>, p: Task -> bool): set<Pid> {
    set pid | pid in tasks && p(tasks[pid])
  }

  function TaskCount(tasks: map<Pid, Task>, p: Task -> bool): nat {
    |TasksWith(tasks, p)|
  }

  function One(tasks: map<Pid, Task>, pid: Pid, p: Task -> bool): nat {
    if pid in tasks && p(tasks[pid]) then 1 else 0
  }

  /** All tasks but one are the same. */
  predicate AllButOne(tasks: map<Pid, Task>, tasks': map<Pid, Task>, pid: Pid)
  {
    && (forall q <- tasks :: q != pid ==> q in tasks' && tasks'[q] == tasks[q])
    && (forall q <- tasks' :: q != pid ==> q in tasks)
  }

  lemma SameElsewhere(tasks: map<Pid, Task>, tasks': map<Pid, Task>, pid: Pid, p: Task -> bool)
    requires AllButOne(tasks, tasks', pid)
    ensures TasksWith(tasks, p) - {pid} == TasksWith(tasks', p) - {pid}
  {
    forall q
      ensures q in TasksWith(tasks, p) - {pid} <==> q in TasksWith(tasks', p) - {pid}
    {
    }
  }

  lemma OneIsMember(tasks: map<Pid, Task>, pid: Pid, p: Task -> bool)
    ensures One(tasks, pid, p) == (if pid in TasksWith(tasks, p) then 1 else 0)
  {
  }

  /** Then the number of tasks with a property changes by that one. */
  lemma TaskMoves(tasks: map<Pid, Task>, tasks': map<Pid, Task>, pid: Pid, p: Task -> bool)
    requires AllButOne(tasks, tasks', pid)
    ensures TaskCount(tasks', p) - One(tasks', pid, p) == TaskCount(tasks, p) - One(tasks, pid, p)
  {
    hide TasksWith, One, AllButOne;
    SameElsewhere(tasks, tasks', pid, p);
    OneIsMember(tasks, pid, p);
    OneIsMember(tasks', pid, p);
    SizeWithout(TasksWith(tasks, p), pid);
    SizeWithout(TasksWith(tasks', p), pid);
  }

  lemma SizeWithout(a: set<Pid>, pid: Pid)
    ensures |a| == |a - {pid}| + (if pid in a then 1 else 0)
  {
    if pid !in a {
      assert a - {pid} == a;
    }
  }

  /** Events of commands, and among them those whose handler ran. */
  predicate Closes(e: Audit) {
    e.RateLimited? || e.Command?
  }

  predicate Ran(e: Audit) {
    e.Command? && e.outcome != Rejected
  }

  predicate Invoked(stage: Stage) {
    stage.Handling? || stage.Returned?
  }

  /** Admitted and not yet closed. */
  predicate Open(stage: Stage) {
    stage.Admitted? || stage.Throttled? || stage.Passed? || stage.Unknown? || Invoked(stage)
  }

  function ClosesFor(sel: Order -> bool): Audit -> bool {
    (e: Audit) => Closes(e) && sel(Order(e.tid, e.command))
  }

  function RanFor(sel: Order -> bool): Audit -> bool {
    (e: Audit) => Ran(e) && sel(Order(e.tid, e.command))
  }

  function OpenFor(sel: Order -> bool): Task -> bool {
    (t: Task) => Open(t.stage) && sel(OrderOf(t.job))
  }

  function InvokedFor(sel: Order -> bool): Task -> bool {
    (t: Task) => Invoked(t.stage) && sel(OrderOf(t.job))
  }

  function JobFor(sel: Order -> bool): Job -> bool {
    (j: Job) => sel(OrderOf(j))
  }

  function RunFor(sel: Order -> bool): Run -> bool {
    (r: Run) => sel(OrderOf(r.job))
  }

  /** The books balance, for any selection of identities and commands. */
  ghost predicate Balanced(s: World, sel: Order -> bool)
  {
    && Count(s.runs, RunFor(sel)) == Count(s.audit, RanFor(sel)) + TaskCount(s.tasks, InvokedFor(sel))
    && Count(s.admitted, JobFor(sel)) == Count(s.audit, ClosesFor(sel)) + TaskCount(s.tasks, OpenFor(sel))
  }

  function PidOf(step: Step): Pid
  {
    if step.Database? then (if step.step.SetStanding? then 0 else step.step.pid) else step.pid
  }

  /** A step moves one task only. */
  lemma OneTaskMoves(c: Config, s: World, step: Step)
    ensures AllButOne(s.tasks, Apply(c, s, step).tasks, PidOf(step))
  {
    hide O.Apply, AllowEffect, ParseCommand;
  }

  lemma TaskSelected(tasks: map<Pid, Task>, pid: Pid, sel: Order -> bool)
    ensures pid !in tasks ==> One(tasks, pid, InvokedFor(sel)) == One(tasks, pid, OpenFor(sel)) == 0
    ensures pid in tasks ==>
              var chosen, stage := sel(OrderOf(tasks[pid].job)), tasks[pid].stage;
              && One(tasks, pid, InvokedFor(sel)) == (if Invoked(stage) && chosen then 1 else 0)
              && One(tasks, pid, OpenFor(sel)) == (if Open(stage) && chosen then 1 else 0)
  {
  }

  lemma EventSelected(audit: seq<Audit>, e: Audit, sel: Order -> bool)
    ensures Count(audit + [e], RanFor(sel))
         == Count(audit, RanFor(sel)) + (if Ran(e) && sel(Order(e.tid, e.command)) then 1 else 0)
    ensures Count(audit + [e], ClosesFor(sel))
         == Count(audit, ClosesFor(sel)) + (if Closes(e) && sel(Order(e.tid, e.command)) then 1 else 0)
  {
    CountSnoc(audit, e, RanFor(sel));
    CountSnoc(audit, e, ClosesFor(sel));
  }

  /** What one step adds to the histories, seen from the command that takes it. */
  ghost predicate Booked(s: World, s': World, pid: Pid, sel: Order -> bool)
  {
    && Count(s'.runs, RunFor(sel)) - One(s'.tasks, pid, InvokedFor(sel))
         == Count(s.runs, RunFor(sel)) - One(s.tasks, pid, InvokedFor(sel))
            + Count(s'.audit, RanFor(sel)) - Count(s.audit, RanFor(sel))
    && Count(s'.admitted, JobFor(sel)) - One(s'.tasks, pid, OpenFor(sel))
         == Count(s.admitted, JobFor(sel)) - One(s.tasks, pid, OpenFor(sel))
            + Count(s'.audit, ClosesFor(sel)) - Count(s.audit, ClosesFor(sel))
  }

  /** Up to the verdict, and between limiter and handler, nothing is booked. */
  lemma QuietBooks(c: Config, s: World, step: Step, sel: Order -> bool)
    requires step.Receive? || step.Database? || step.Throttle? || step.Finish?
    ensures Booked(s, Apply(c, s, step), PidOf(step), sel)
  {
    hide O.Apply, AllowEffect, ParseCommand, Count, One;
    TaskSelected(s.tasks, PidOf(step), sel);
    TaskSelected(Apply(c, s, step).tasks, PidOf(step), sel);
  }

  lemma BusyBooks(c: Config, s: World, step: Step, sel: Order -> bool)
    requires step.Decide? || step.Lookup? || step.Record?
    ensures Booked(s, Apply(c, s, step), PidOf(step), sel)
  {
    hide Count, One;
    var s', pid := Apply(c, s, step), PidOf(step);
    TaskSelected(s.tasks, pid, sel);
    TaskSelected(s'.tasks, pid, sel);
    if s'.audit != s.audit {
      var e := s'.audit[|s.audit|];
      assert s'.audit == s.audit + [e];
      EventSelected(s.audit, e, sel);
    }
    if s'.admitted != s.admitted {
      CountSnoc(s.admitted, s.tasks[pid].job, JobFor(sel));
    }
    if s'.runs != s.runs {
      var r := s'.runs[|s.runs|];
      assert s'.runs == s.runs + [r];
      CountSnoc(s.runs, r, RunFor(sel));
    }
  }

  lemma StepBalances(c: Config, s: World, step: Step, sel: Order -> bool)
    requires Balanced(s, sel)
    ensures Balanced(Apply(c, s, step), sel)
  {
    hide Apply, Count, TaskCount, One, AllButOne;
    var s', pid := Apply(c, s, step), PidOf(step);
    OneTaskMoves(c, s, step);
    TaskMoves(s.tasks, s'.tasks, pid, InvokedFor(sel));
    TaskMoves(s.tasks, s'.tasks, pid, OpenFor(sel));
    if step.Decide? || step.Lookup? || step.Record? {
      BusyBooks(c, s, step, sel);
    } else {
      QuietBooks(c, s, step, sel);
    }
  }

  /**
   Over every interleaving, from any accounts: the handler invocations of whatever
   identities and commands one selects are its audited ok and failed commands plus the
   handlers still in flight, and its admitted commands are its closing events plus the
   commands still open. So when nothing is in flight each admitted command has closed
   exactly once, as rate-limited, rejected, failed or ok.
   */
  lemma {:induction false} AuditAccountsForHandlers(c: Config, o: O.World, steps: seq<Step>, sel: Order -> bool)
    ensures Balanced(Exec(c, Start(o), steps), sel)
    ensures var s := Exec(c, Start(o), steps);
            s.tasks == map[] ==>
              && Count(s.runs, RunFor(sel)) == Count(s.audit, RanFor(sel))
              && Count(s.admitted, JobFor(sel)) == Count(s.audit, ClosesFor(sel))
  {
    hide Apply;
    var s := Exec(c, Start(o), steps);
    if steps != [] {
      var n := |steps| - 1;
      AuditAccountsForHandlers(c, o, steps[..n], sel);
      StepBalances(c, Exec(c, Start(o), steps[..n]), steps[n], sel);
    } else {
      NothingCounts(s.tasks, InvokedFor(sel));
      NothingCounts(s.tasks, OpenFor(sel));
    }
    if s.tasks == map[] {
      NothingCounts(s.tasks, InvokedFor(sel));
      NothingCounts(s.tasks, OpenFor(sel));
    }
  }

  lemma NothingCounts(tasks: map<Pid, Task>, p: Task -> bool)
    requires tasks == map[]
    ensures TaskCount(tasks, p) == 0
  {
    assert TasksWith(tasks, p) == {};
  }
}
