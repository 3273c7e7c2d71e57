/** The publication worker command: one cycle per invocation, with a durable run row written before and after it.
    Every collaborator may succeed or fail; what the command did is its trace of effects. */
module WorkerCommand {
  import opened Options

  datatype Load = ConfigDisabled | ConfigIncomplete | ConfigInvalid | ConfigReady

  datatype CycleOutcome = DISABLED | NO_WORK | COMPLETED | RUN_LIMIT_REACHED | SHUTDOWN_REQUESTED | FAILED

  datatype Cycle = Ran(outcome: CycleOutcome) | Threw

  /** A write that throws may have reached the row before it did. */
  datatype Write = Succeeds | FailsUnwritten | FailsWritten

  /** How each collaborator behaves when called. */
  datatype Collaborators = Collaborators(
    load: Load,
    registrarReady: bool,
    transportBuilds: bool,
    providersBuild: bool,
    signalsInstall: bool,
    clientCreates: bool,
    clockReads: bool,
    start: Write,
    cycle: Cycle,
    terminal: Write,
    unregisters: bool,
    disconnects: bool)

  datatype RowStatus = RowStarted | RowCompleted(exitCode: int) | RowFailed(exitCode: int)

  datatype Effect =
    | InstalledSignals
    | CreatedClient
    | WroteRow(status: RowStatus, write: Write)
    | InvokedCycle
    | Unregistered(ok: bool)
    | Disconnected(ok: bool)

  datatype CommandStatus =
    | Disabled | IncompleteConfiguration | InvalidConfiguration | RegistrarNotReady
    | StartupFailure | CycleFinished | CycleFault | RunStatusFailure

  datatype Result = Result(status: CommandStatus, exitCode: int)

  const SUCCESS := 0
  const CYCLE_FAILED := 1
  const STARTUP_FAILURE := 70
  const STATUS_PERSISTENCE_FAILURE := 75
  const CONFIGURATION := 78

  function ExitCodeFor(o: CycleOutcome): int { if o == FAILED then CYCLE_FAILED else SUCCESS }

  /** The run row as the effects leave it. */
  function Row(t: seq<Effect>): Option<RowStatus> {
    if t == [] then None
    else
      match t[|t| - 1]
      case WroteRow(status, write) => if write == FailsUnwritten then Row(t[..|t| - 1]) else Some(status)
      case _ => Row(t[..|t| - 1])
  }

  datatype Kind = Install | Create | Write | Cycle | Unregister | Disconnect

  function KindOf(e: Effect): Kind {
    match e
    case InstalledSignals => Install
    case CreatedClient => Create
    case WroteRow(_, _) => Kind.Write
    case InvokedCycle => Kind.Cycle
    case Unregistered(_) => Unregister
    case Disconnected(_) => Disconnect
  }

  function Times(t: seq<Effect>, k: Kind): nat {
    if t == [] then 0 else Times(t[..|t| - 1], k) + if KindOf(t[|t| - 1]) == k then 1 else 0
  }

  /** Cycles only run straight after a STARTED write that succeeded. */
  predicate CyclesStarted(t: seq<Effect>) {
    forall i | 0 <= i < |t| && t[i].InvokedCycle? :: i > 0 && t[i - 1] == WroteRow(RowStarted, Succeeds)
  }

  /** Nothing but cleanup follows a terminal write, failed or not. */
  predicate EndsAfterTerminal(t: seq<Effect>) {
    forall i, j | 0 <= i < j < |t| && t[i].WroteRow? && !t[i].status.RowStarted? ::
        t[j].Unregistered? || t[j].Disconnected?
  }

  /** All dependencies built, in the order they are needed. */
  predicate Startable(c: Collaborators) {
    c.transportBuilds && c.providersBuild && c.signalsInstall && c.clientCreates && c.clockReads
  }

  predicate CycleReached(c: Collaborators) {
    c.load.ConfigReady? && c.registrarReady && Startable(c) && c.start == Succeeds
  }

  function Then(t: seq<Effect>, e: Effect): (u: seq<Effect>)
    ensures u == t + [e]
    ensures forall k :: Times(u, k) == Times(t, k) + if KindOf(e) == k then 1 else 0
    ensures Row(u) == if e.WroteRow? && e.write != FailsUnwritten then Some(e.status) else Row(t)
    ensures CyclesStarted(t) && (e.InvokedCycle? ==> t != [] && t[|t| - 1] == WroteRow(RowStarted, Succeeds)) ==>
              CyclesStarted(u)
    ensures EndsAfterTerminal(t) && (e.Unregistered? || e.Disconnected? || !Terminated(t)) ==> EndsAfterTerminal(u)
    ensures Terminated(u) <==> Terminated(t) || (e.WroteRow? && !e.status.RowStarted?)
  {
    assert (t + [e])[..|t|] == t;
    t + [e]
  }

  predicate Terminated(t: seq<Effect>) {
    exists i | 0 <= i < |t| :: t[i].WroteRow? && !t[i].status.RowStarted?
  }

  lemma NothingDone()
    ensures (forall k :: Times([], k) == 0) && Row([]) == None
    ensures CyclesStarted([]) && EndsAfterTerminal([]) && !Terminated([])
  {
  }

  /** How many of the effects before cleanup are reached: a start that cannot be recorded is the last. */
  function Reached(c: Collaborators): nat {
    if !c.transportBuilds || !c.providersBuild || !c.signalsInstall then 0
    else if !c.clientCreates then 1
    else if !c.clockReads then 2
    else if c.start != Succeeds then 3
    else 5
  }

  /** Construct, record, run once, record: everything before cleanup. */
  method Attempt(c: Collaborators) returns (r: Result, t: seq<Effect>, shutdown: bool, client: bool)
    requires c.load.ConfigReady? && c.registrarReady
    ensures CyclesStarted(t) && EndsAfterTerminal(t)
    ensures |t| == Reached(c)
    ensures t <= [InstalledSignals, CreatedClient, WroteRow(RowStarted, c.start), InvokedCycle,
                  WroteRow(if c.cycle.Threw? then RowFailed(1)
                           else RowCompleted(if c.cycle.outcome == FAILED then 1 else 0), c.terminal)]
    ensures shutdown <==> |t| > 0
    ensures client <==> |t| > 1
    ensures Times(t, Kind.Cycle) == if CycleReached(c) then 1 else 0
    ensures Times(t, Install) == (if shutdown then 1 else 0) && Times(t, Unregister) == 0
    ensures Times(t, Create) == (if client then 1 else 0) && Times(t, Disconnect) == 0
    ensures Row(t) == Some(RowStarted) ==> r.exitCode != SUCCESS
    ensures r.exitCode == SUCCESS <==>
              CycleReached(c) && c.cycle.Ran? && c.cycle.outcome != FAILED && c.terminal == Succeeds
    ensures CycleReached(c) && c.terminal == Succeeds ==>
              Row(t) == Some(if c.cycle.Threw? then RowFailed(r.exitCode) else RowCompleted(r.exitCode))
    ensures r.status == CycleFinished <==> CycleReached(c) && c.cycle.Ran? && c.terminal == Succeeds
    ensures r.status == CycleFault <==> CycleReached(c) && c.cycle.Threw?
    ensures r.status == StartupFailure <==> !Startable(c)
    ensures r.status in {CycleFinished, CycleFault, StartupFailure, RunStatusFailure}
    ensures r.exitCode == STATUS_PERSISTENCE_FAILURE <==> CycleReached(c) && c.cycle.Ran? && c.terminal != Succeeds
    ensures r.exitCode == STARTUP_FAILURE <==> !CycleReached(c)
    ensures r.exitCode == if !CycleReached(c) then 70
                          else if c.cycle.Threw? then 1
                          else if c.terminal != Succeeds then 75
                          else if c.cycle.outcome == FAILED then 1 else 0
  {
    hide Times, Row, CyclesStarted, EndsAfterTerminal, Terminated;
    NothingDone();
    t, shutdown, client := [], false, false;
    r := Result(StartupFailure, STARTUP_FAILURE);
    if !c.transportBuilds || !c.providersBuild || !c.signalsInstall { return; }
    t, shutdown := Then(t, InstalledSignals), true;
    if !c.clientCreates { return; }
    t, client := Then(t, CreatedClient), true;
    if !c.clockReads { return; }
    t := Then(t, WroteRow(RowStarted, c.start));
    if c.start != Succeeds { r := Result(RunStatusFailure, STARTUP_FAILURE); return; }
    t := Then(t, InvokedCycle);
    match c.cycle
    case Threw =>
      t := Then(t, WroteRow(RowFailed(CYCLE_FAILED), c.terminal));
      r := Result(CycleFault, CYCLE_FAILED);
    case Ran(outcome) =>
      var exitCode := ExitCodeFor(outcome);
      t := Then(t, WroteRow(RowCompleted(exitCode), c.terminal));
      r := if c.terminal == Succeeds then Result(CycleFinished, exitCode)
          else Result(RunStatusFailure, STATUS_PERSISTENCE_FAILURE);
  }

  /** For every combination of failures: at most one cycle, never without a recorded start nor after a terminal write;
      success is reported exactly when nothing was to be done or everything was done and recorded; a row is left STARTED
      only with a failing exit code; whatever was installed or created is released exactly once. */
  method Command(c: Collaborators) returns (r: Result, t: seq<Effect>)
    ensures Times(t, Kind.Cycle) == if CycleReached(c) then 1 else 0
    ensures CyclesStarted(t) && EndsAfterTerminal(t)
    ensures Row(t) == Some(RowStarted) ==> r.exitCode != SUCCESS
    ensures r.exitCode == SUCCESS <==>
            c.load.ConfigDisabled?
                || (CycleReached(c) && c.cycle.Ran? && c.cycle.outcome != FAILED && c.terminal == Succeeds)
    ensures CycleReached(c) && c.terminal == Succeeds ==>
              Row(t) == Some(if c.cycle.Threw? then RowFailed(r.exitCode) else RowCompleted(r.exitCode))
    ensures c.load.ConfigReady? && c.registrarReady ==>
              && (r.status == CycleFinished <==> CycleReached(c) && c.cycle.Ran? && c.terminal == Succeeds)
              && (r.status == CycleFault <==> CycleReached(c) && c.cycle.Threw?)
              && (r.status == StartupFailure <==> !Startable(c))
              && r.status in {CycleFinished, CycleFault, StartupFailure, RunStatusFailure}
    ensures r.exitCode == STATUS_PERSISTENCE_FAILURE <==> CycleReached(c) && c.cycle.Ran? && c.terminal != Succeeds
    ensures Times(t, Disconnect) == Times(t, Create) <= 1 && Times(t, Unregister) == Times(t, Install) <= 1
    ensures c.load.ConfigReady? && c.registrarReady ==>
              && |t| == Reached(c) + (if Reached(c) > 0 then 1 else 0) + (if Reached(c) > 1 then 1 else 0)
              && t[..Reached(c)] <= [InstalledSignals, CreatedClient, WroteRow(RowStarted, c.start), InvokedCycle,
                                     WroteRow(if c.cycle.Threw? then RowFailed(1)
                                              else RowCompleted(if c.cycle.outcome == FAILED then 1 else 0),
                                              c.terminal)]
              && (Reached(c) > 0 ==> t[Reached(c)] == Unregistered(c.unregisters))
    ensures Times(t, Create) == 1 ==> t != [] && t[|t| - 1] == Disconnected(c.disconnects)
    ensures !c.load.ConfigReady? || !c.registrarReady ==> t == []
    ensures r.exitCode == CONFIGURATION <==>
              c.load in {ConfigIncomplete, ConfigInvalid} || (c.load.ConfigReady? && !c.registrarReady)
    ensures r.exitCode == if c.load.ConfigDisabled? then 0
                          else if !c.load.ConfigReady? || !c.registrarReady then 78
                          else if !CycleReached(c) then 70
                          else if c.cycle.Threw? then 1
                          else if c.terminal != Succeeds then 75
                          else if c.cycle.outcome == FAILED then 1 else 0
    ensures r.status == Disabled <==> c.load.ConfigDisabled?
    ensures r.status == IncompleteConfiguration <==> c.load.ConfigIncomplete?
    ensures r.status == InvalidConfiguration <==> c.load.ConfigInvalid?
    ensures r.status == RegistrarNotReady <==> c.load.ConfigReady? && !c.registrarReady
  {
    hide Times, Row, CyclesStarted, EndsAfterTerminal, Terminated;
    NothingDone();
    match c.load {
      case ConfigDisabled => return Result(Disabled, SUCCESS), [];
      case ConfigIncomplete => return Result(IncompleteConfiguration, CONFIGURATION), [];
      case ConfigInvalid => return Result(InvalidConfiguration, CONFIGURATION), [];
      case ConfigReady =>
    }
    if !c.registrarReady { return Result(RegistrarNotReady, CONFIGURATION), []; }
    var shutdown, client;
    r, t, shutdown, client := Attempt(c);
    if shutdown { t := Then(t, Unregistered(c.unregisters)); }
    if client { t := Then(t, Disconnected(c.disconnects)); }
  }
}
