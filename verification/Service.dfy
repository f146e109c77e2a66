/** The service as a state machine: requests, retries and background calls interleaved at their
    awaits with AMI events and both cleanups. */
module Service {
  import opened Prelude
  import opened RateLimiting
  import opened LimiterRuns
  import opened CallStorage
  import opened CallCommands
  import opened Routes
  import V = Validation

  datatype Config = Config(limits: Limits, classes: V.Unicode)

  /** A call that was ever created, in order of creation. */
  datatype Birth = Birth(id: Id, mobile: string, parent: Option<Id>, at: Time)

  /** A retry holding the record it read, or waiting to count itself in its parent. */
  datatype RetryTask = Loaded(parent: Id, mobile: string, code: string) | Inserted(parent: Id, child: Id)

  /** Where a background call is. `Dead` raised at one of the two awaits before its `try`. */
  datatype Phase = Scheduled | Acquired | Marked | Dialing | Finishing | Dead

  /** `log` and `births` are history: the service itself keeps neither. */
  datatype World = World(
    clock: Time, db: Db, limiter: LimiterState, log: Log, births: seq<Birth>,
    retries: map<int, RetryTask>, execs: map<Id, Phase>)

  datatype Failure = Declined(error: string) | Raised(error: string)

  datatype Step =
    | Request(id: Id, rawMobile: string, rawCode: string, at: Time)
    | RetryLoad(task: int, parent: Id, newCode: Option<string>, at: Time)
    | RetryAdmit(task: int, id: Id, at: Time)
    | RetryCount(task: int, at: Time)
    | ExecAcquire(id: Id, at: Time)
    | ExecMark(id: Id, at: Time)
    | ExecLog(id: Id, at: Time)
    | ExecDie(id: Id, at: Time)
    | ExecEnd(id: Id, failure: Option<Failure>, at: Time)
    | ExecRelease(id: Id, at: Time)
    | Ami(command: Command, at: Time)
    | ExpireRows(at: Time)
    | CleanLimiter(at: Time)

  predicate FromAmi(c: Command) {
    || c.OriginateResponse? || c.NewState? || c.Hangup?
    || c.CallStart? || c.PlaybackStart? || c.PlaybackDone? || c.Ignore?
  }

  predicate InPhase(w: World, id: Id, p: Phase) {
    id in w.execs && w.execs[id] == p
  }

  /** UUIDs are taken to be fresh. */
  predicate Fresh(w: World, id: Id) {
    forall i :: 0 <= i < |w.births| ==> w.births[i].id != id
  }

  ghost predicate Enabled(cfg: Config, w: World, st: Step) {
    && w.clock <= st.at
    && match st
       case Request(id, rawMobile, rawCode, _) =>
         Fresh(w, id) && V.NormalizeMobile(rawMobile, cfg.classes).Some? && V.ValidCode(rawCode, cfg.classes)
       case RetryLoad(task, parent, newCode, _) => task !in w.retries && PlanRetry(w.db, parent, newCode).RetryWith?
       case RetryAdmit(task, id, _) => Fresh(w, id) && task in w.retries && w.retries[task].Loaded?
       case RetryCount(task, _) => task in w.retries && w.retries[task].Inserted?
       case ExecAcquire(id, _) => InPhase(w, id, Scheduled)
       case ExecMark(id, _) => InPhase(w, id, Acquired)
       case ExecLog(id, _) => InPhase(w, id, Marked)
       case ExecDie(id, _) => InPhase(w, id, Acquired) || InPhase(w, id, Marked)
       case ExecEnd(id, _, _) => InPhase(w, id, Dialing)
       case ExecRelease(id, _) => InPhase(w, id, Finishing)
       case Ami(command, _) => FromAmi(command) && command.at == st.at
       case ExpireRows(_) => true
       case CleanLimiter(_) => true
  }

  predicate IsAdmission(st: Step) {
    st.Request? || st.RetryAdmit?
  }

  /** The number an admission is checked for: a retry uses the one it read from its parent. */
  ghost function MobileOf(cfg: Config, w: World, st: Step): string
    requires Enabled(cfg, w, st) && IsAdmission(st)
  {
    if st.Request? then V.NormalizeMobile(st.rawMobile, cfg.classes).value else w.retries[st.task].mobile
  }

  ghost function GateOf(cfg: Config, w: World, st: Step): Gate
    requires Enabled(cfg, w, st) && IsAdmission(st)
  {
    Admit(cfg.limits, w.limiter, MobileOf(cfg, w, st), st.at).1
  }

  /** An admission all three checks let through. */
  ghost predicate LetsIn(cfg: Config, w: World, st: Step)
    requires Enabled(cfg, w, st)
  {
    IsAdmission(st) && GateOf(cfg, w, st).Open?
  }

  ghost function ParentOf(w: World, st: Step): Option<Id>
    requires st.RetryAdmit? ==> st.task in w.retries
  {
    if st.RetryAdmit? then Some(w.retries[st.task].parent) else None
  }

  /** What a step does to the tables. */
  ghost function CommandOf(cfg: Config, w: World, st: Step): Command
    requires Enabled(cfg, w, st)
  {
    match st
    case Request(id, _, rawCode, at) =>
      if LetsIn(cfg, w, st) then
        Insert(id, MobileOf(cfg, w, st), V.Strip(rawCode, cfg.classes), None, at)
      else Ignore(at)
    case RetryAdmit(task, id, at) =>
      if LetsIn(cfg, w, st) then
        Insert(id, MobileOf(cfg, w, st), w.retries[task].code, ParentOf(w, st), at)
      else Ignore(at)
    case RetryCount(task, at) => CountRetry(w.retries[task].parent, at)
    case ExecMark(id, at) => MarkOriginating(id, at)
    case ExecLog(id, at) => LogOriginating(id, at)
    case ExecEnd(id, Some(Declined(error)), at) => FailOriginate(id, error, at)
    case ExecEnd(id, Some(Raised(error)), at) => FailInternally(id, error, at)
    case Ami(command, _) => command
    case ExpireRows(at) => Expire(at)
    case _ => Ignore(st.at)
  }

  function LogAdmission(g: Log, gate: Gate, mobile: string, at: Time): Log {
    match gate
    case Open => Log(g.admitted + [Admission(mobile, at)], g.hourly + [at])
    case NumberFull(_) => g.(hourly := g.hourly + [at])
    case _ => g
  }

  /** The state after the admission checks, before any row is written. */
  ghost function AfterGates(cfg: Config, w: World, st: Step): World
    requires Enabled(cfg, w, st) && IsAdmission(st)
  {
    var mobile := MobileOf(cfg, w, st);
    var (s', gate) := Admit(cfg.limits, w.limiter, mobile, st.at);
    w.(clock := st.at, limiter := s', log := LogAdmission(w.log, gate, mobile, st.at))
  }

  ghost function BirthOf(cfg: Config, w: World, st: Step): Birth
    requires Enabled(cfg, w, st) && IsAdmission(st)
  {
    Birth(st.id, MobileOf(cfg, w, st), ParentOf(w, st), st.at)
  }

  /** What a step does to everything but the tables. */
  ghost function Rest(cfg: Config, w: World, st: Step): World
    requires Enabled(cfg, w, st)
  {
    match st
    case Request(id, _, _, at) =>
      var checked := AfterGates(cfg, w, st);
      if LetsIn(cfg, w, st) then
        checked.(births := w.births + [BirthOf(cfg, w, st)], execs := w.execs[id := Scheduled])
      else checked
    case RetryLoad(task, parent, newCode, at) =>
      var plan := PlanRetry(w.db, parent, newCode);
      w.(clock := at, retries := w.retries[task := Loaded(parent, plan.mobile, plan.code)])
    case RetryAdmit(task, id, at) =>
      var checked := AfterGates(cfg, w, st);
      if LetsIn(cfg, w, st) then
        checked.(births := w.births + [BirthOf(cfg, w, st)],
                 retries := w.retries[task := Inserted(w.retries[task].parent, id)])
      else checked.(retries := w.retries - {task})
    case RetryCount(task, at) =>
      w.(clock := at, retries := w.retries - {task}, execs := w.execs[w.retries[task].child := Scheduled])
    case ExecAcquire(id, at) =>
      w.(clock := at, limiter := w.limiter.(active := w.limiter.active + 1), execs := w.execs[id := Acquired])
    case ExecMark(id, at) => w.(clock := at, execs := w.execs[id := Marked])
    case ExecLog(id, at) => w.(clock := at, execs := w.execs[id := Dialing])
    case ExecDie(id, at) => w.(clock := at, execs := w.execs[id := Dead])
    case ExecEnd(id, _, at) => w.(clock := at, execs := w.execs[id := Finishing])
    case ExecRelease(id, at) => w.(clock := at, limiter := Released(w.limiter), execs := w.execs - {id})
    case CleanLimiter(at) => w.(clock := at, limiter := Cleaned(cfg.limits, w.limiter, at))
    case _ => w.(clock := st.at)
  }

  /** One step of the service. Only the channel lookup of an AMI event can leave it open. */
  ghost predicate Advance(cfg: Config, w: World, st: Step, w': World) {
    && Enabled(cfg, w, st)
    && Next(w.db, CommandOf(cfg, w, st), w'.db)
    && w' == Rest(cfg, w, st).(db := w'.db)
  }

  predicate Initial(w: World) {
    && w.db == Db(map[], []) && w.limiter == IDLE && w.log == EMPTY_LOG
    && w.births == [] && w.retries == map[] && w.execs == map[]
  }

  ghost predicate Behaviour(cfg: Config, ws: seq<World>, steps: seq<Step>) {
    && |ws| == |steps| + 1 && Initial(ws[0])
    && forall i :: 0 <= i < |steps| ==> Advance(cfg, ws[i], steps[i], ws[i + 1])
  }

  lemma BehaviourFront(cfg: Config, ws: seq<World>, steps: seq<Step>)
    requires Behaviour(cfg, ws, steps) && steps != []
    ensures Behaviour(cfg, ws[..|steps|], steps[..|steps| - 1])
    ensures Advance(cfg, ws[|steps| - 1], steps[|steps| - 1], ws[|steps|])
  {
  }

  /** The tables of a service behaviour go through an execution of commands. */
  lemma {:induction false} TablesExecute(cfg: Config, ws: seq<World>, steps: seq<Step>)
    returns (dbs: seq<Db>, cs: seq<Command>)
    requires Behaviour(cfg, ws, steps)
    ensures Execution(dbs, cs) && |cs| == |steps|
    ensures forall i :: 0 <= i < |ws| ==> dbs[i] == ws[i].db
    ensures forall i :: 0 <= i < |cs| ==> cs[i].at == steps[i].at
  {
    if steps == [] {
      dbs, cs := [ws[0].db], [];
    } else {
      var n := |steps| - 1;
      BehaviourFront(cfg, ws, steps);
      var before, done := TablesExecute(cfg, ws[..|steps|], steps[..n]);
      ExecutionSnoc(before, done, CommandOf(cfg, ws[n], steps[n]), ws[|steps|].db);
      dbs, cs := before + [ws[|steps|].db], done + [CommandOf(cfg, ws[n], steps[n])];
    }
  }
}
