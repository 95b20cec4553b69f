/** Any number of launcher processes racing to start one local engine. Each file
    system action and each inspection is one atomic step; what an inspection sees
    is up to the environment. */
module LocalEngine {

  datatype Observations = Observations(
    lockOwned: bool, lockIdentityMatches: bool, protocolHealthy: bool, identityAvailable: bool, identityMatches: bool,
    spawnedProcessExited: bool, pidPresent: bool, pidLive: bool, executableIdentityKnown: bool,
    executableMatches: bool, portOpen: bool, startupDeadlineExpired: bool)

  datatype EngineState =
    HealthyExisting | Starting | Spawned | Exited | StalePid | PidReused | PortConflict | DataRootInUse | Unhealthy

  function Classify(o: Observations): EngineState {
    if o.lockOwned && !o.lockIdentityMatches then DataRootInUse
    else if o.protocolHealthy then
      if o.identityAvailable && !o.identityMatches then Unhealthy else HealthyExisting
    else if o.spawnedProcessExited then Exited
    else if o.pidPresent && !o.pidLive then StalePid
    else if o.pidPresent then
      if o.executableIdentityKnown && !o.executableMatches then PidReused
      else if o.startupDeadlineExpired then Unhealthy
      else if o.executableIdentityKnown then Starting
      else Unhealthy
    else if o.portOpen then PortConflict
    else if o.startupDeadlineExpired then Unhealthy
    else Spawned
  }

  // The states in terms of what was observed.

  /** Another engine owns the data root. */
  predicate Foreign(o: Observations) {
    o.lockOwned && !o.lockIdentityMatches
  }

  /** The protocol answers, and nothing says that it is another installation's engine. */
  predicate Ours(o: Observations) {
    !Foreign(o) && o.protocolHealthy && (o.identityAvailable ==> o.identityMatches)
  }

  /** Nothing answers and no child has exited. */
  predicate Silent(o: Observations) {
    !Foreign(o) && !o.protocolHealthy && !o.spawnedProcessExited
  }

  predicate Stale(o: Observations) {
    Silent(o) && o.pidPresent && !o.pidLive
  }

  /** The recorded process runs another program. */
  predicate Reused(o: Observations) {
    Silent(o) && o.pidPresent && o.pidLive && o.executableIdentityKnown && !o.executableMatches
  }

  /** The recorded process is the engine and still has time. */
  predicate ComingUp(o: Observations) {
    Silent(o) && o.pidPresent && o.pidLive && o.executableIdentityKnown && o.executableMatches && !o.startupDeadlineExpired
  }

  predicate Unclaimed(o: Observations) {
    Silent(o) && !o.pidPresent && !o.portOpen && !o.startupDeadlineExpired
  }

  lemma ClassifyMeans(o: Observations)
    ensures Classify(o) == DataRootInUse <==> Foreign(o)
    ensures Classify(o) == HealthyExisting <==> Ours(o)
    ensures Classify(o) == Exited <==> !Foreign(o) && !o.protocolHealthy && o.spawnedProcessExited
    ensures Classify(o) == StalePid <==> Stale(o)
    ensures Classify(o) == PidReused <==> Reused(o)
    ensures Classify(o) == Starting <==> ComingUp(o)
    ensures Classify(o) == PortConflict <==> Silent(o) && !o.pidPresent && o.portOpen
    ensures Classify(o) == Spawned <==> Unclaimed(o)
  {
  }

  /** What an inspection can report: its observations depend on each other, and the two
      flags that only the launcher sets stay clear. */
  predicate Inspected(o: Observations) {
    && !o.spawnedProcessExited && !o.startupDeadlineExpired
    && (o.lockOwned || o.lockIdentityMatches)
    && (o.identityAvailable ==> o.protocolHealthy)
    && (o.identityMatches ==> o.identityAvailable && o.executableMatches)
    && (o.executableMatches ==> o.executableIdentityKnown)
    && (o.executableIdentityKnown ==> o.pidLive || o.identityAvailable)
    && (o.pidLive ==> o.pidPresent)
  }

  datatype Outcome = AlreadyRunning | Started | Refused(state: EngineState) | Aborted

  /** Where a launcher stands; `o` is its latest inspection. `Removing` remembers
      which stale files are left to remove. The phases from `Rechecking` to
      `Leaving` hold the start lock. */
  datatype Phase =
    | Begin
    | LookForLock(o: Observations)
    | Removing(pid: bool, metadata: bool)
    | Reinspecting
    | MakingHome(o: Observations)
    | TryingLock(o: Observations)
    | Waiting(o: Observations)
    | Rechecking
    | Polling(o: Observations)
    | OwnRemoving(pid: bool, metadata: bool, o: Observations)
    | Preparing(o: Observations)
    | Spawning(o: Observations)
    | WritingMetadata(o: Observations)
    | WritingPid(o: Observations)
    | Awaiting(o: Observations)
    | Leaving(outcome: Outcome)
    | Ended(outcome: Outcome)
    | Crashed

  predicate Critical(p: Phase) {
    p.Rechecking? || p.Polling? || p.OwnRemoving? || p.Preparing? || p.Spawning? || p.WritingMetadata? ||
    p.WritingPid? || p.Awaiting? || p.Leaving?
  }

  /** The phases a launcher passes before it may spawn. */
  predicate BeforeSpawn(p: Phase) {
    p.Begin? || p.LookForLock? || p.Removing? || p.Reinspecting? || p.MakingHome? || p.TryingLock? || p.Waiting? ||
    p.Rechecking? || p.Polling? || p.OwnRemoving? || p.Preparing? || p.Spawning?
  }

  predicate NearSpawn(p: Phase) {
    p.OwnRemoving? || p.Preparing? || p.Spawning?
  }

  datatype Action =
    | Inspect(o: Observations) | SeeLock(present: bool) | RemovePid | RemoveMetadata | MakeHome
    | Acquire | LockBusy | Prepare | Spawn(o: Observations) | WriteMetadata | WritePid | Release
    | Deadline | ChildExit | Error | Crash

  /** The decision before the lock, once the state is known. */
  function Decide(state: EngineState, o: Observations): Phase {
    if state == HealthyExisting then Ended(AlreadyRunning)
    else if state == StalePid then
      if o.portOpen then Ended(Refused(PortConflict)) else Removing(true, true)
    else Gate(state, o)
  }

  function Gate(state: EngineState, o: Observations): Phase {
    if state == Spawned || state == Starting then MakingHome(o) else Ended(Refused(state))
  }

  /** The decision under the lock, when no engine runs or starts. */
  function OwnGate(o: Observations): Phase {
    if o.portOpen then Leaving(Refused(PortConflict)) else Preparing(o)
  }

  /** How an expired deadline is reported. */
  function Late(o: Observations): Outcome {
    Refused(Classify(o.(startupDeadlineExpired := true)))
  }

  datatype Move = None | To(phase: Phase)

  /** What one action makes of a launcher's phase, given whether the lock
      directory exists; `None` when the launcher cannot take that action. */
  function After(p: Phase, a: Action, lock: bool): Move {
    match (p, a)
    case (Begin, Inspect(o)) =>
      var state := Classify(o);
      if state == PidReused || state == DataRootInUse then To(LookForLock(o)) else To(Decide(state, o))
    case (LookForLock(o), SeeLock(present)) =>
      if present != lock then None else To(Decide(if present then Starting else Classify(o), o))
    case (Removing(true, m), RemovePid) => To(if m then Removing(false, true) else Reinspecting)
    case (Removing(d, true), RemoveMetadata) => To(if d then Removing(true, false) else Reinspecting)
    case (Reinspecting, Inspect(o)) => To(Gate(Classify(o), o))
    case (MakingHome(o), MakeHome) => To(TryingLock(o))
    case (TryingLock(o), Acquire) => if lock then None else To(Rechecking)
    case (TryingLock(o), LockBusy) => if lock then To(Waiting(o)) else None
    case (Waiting(_), Inspect(o)) => To(if Classify(o) == HealthyExisting then Ended(AlreadyRunning) else Waiting(o))
    case (Waiting(o), Deadline) => To(Ended(Late(o)))
    case (Rechecking, Inspect(o)) =>
      var state := Classify(o);
      To(if state == HealthyExisting then Leaving(AlreadyRunning)
         else if state == Starting then Polling(o) else OwnGate(o))
    case (Polling(_), Inspect(o)) =>
      var state := Classify(o);
      To(if state == HealthyExisting then Leaving(AlreadyRunning)
         else if state == StalePid then OwnRemoving(true, true, o)
         else if state == Starting then Polling(o) else Leaving(Refused(state)))
    case (Polling(o), Deadline) => To(Leaving(Late(o)))
    case (OwnRemoving(true, m, o), RemovePid) => To(if m then OwnRemoving(false, true, o) else OwnGate(o))
    case (OwnRemoving(d, true, o), RemoveMetadata) => To(if d then OwnRemoving(true, false, o) else OwnGate(o))
    case (Preparing(o), Prepare) => To(Spawning(o))
    case (Spawning(o), Spawn(p)) => if o == p then To(WritingMetadata(o)) else None
    case (WritingMetadata(o), WriteMetadata) => To(WritingPid(o))
    case (WritingPid(o), WritePid) => To(Awaiting(o))
    case (Awaiting(_), Inspect(o)) => To(if Classify(o) == HealthyExisting then Leaving(Started) else Awaiting(o))
    case (Awaiting(_), ChildExit) => To(Leaving(Refused(Exited)))
    case (Awaiting(o), Deadline) => To(Leaving(Late(o)))
    case (Leaving(out), Release) => To(Ended(out))
    case (_, Error) =>
      if p.Ended? || p.Crashed? then None
      else To(if Critical(p) && !p.Leaving? then Leaving(Aborted) else Ended(Aborted))
    case (_, Crash) => if p.Ended? || p.Crashed? then None else To(Crashed)
    case _ => None
  }

  datatype Event = Event(who: nat, action: Action)

  /** Phases of all launchers, whether the lock directory exists, and everything
      done so far. */
  datatype World = World(phases: seq<Phase>, lock: bool, log: seq<Event>)

  predicate Init(w: World) {
    w.log == [] && forall i :: 0 <= i < |w.phases| ==> w.phases[i] == Begin
  }

  predicate Step(w: World, i: nat, a: Action, w': World) {
    && i < |w.phases|
    && (a.Inspect? ==> Inspected(a.o))
    && var m := After(w.phases[i], a, w.lock);
       && m.To?
       && w'.phases == w.phases[i := m.phase]
       && w'.lock == (if a.Acquire? then true else if a.Release? then false else w.lock)
       && w'.log == w.log + [Event(i, a)]
  }

  /** One step of some launcher, recorded at the end of the log. */
  predicate Next(w: World, w': World) {
    |w'.log| > 0 && var e := w'.log[|w'.log| - 1]; Step(w, e.who, e.action, w')
  }

  predicate Run(ws: seq<World>)
    decreases |ws|
  {
    if |ws| <= 1 then |ws| == 1 && Init(ws[0])
    else Run(ws[..|ws| - 1]) && Next(ws[|ws| - 2], ws[|ws| - 1])
  }

  // ---------------------------------------------------------- reading the log

  /** The launcher that created the lock directory and has not removed it. */
  datatype Holder = Nobody | By(who: nat)

  function HolderOf(log: seq<Event>): Holder {
    if |log| == 0 then Nobody
    else
      var e := log[|log| - 1];
      if e.action.Acquire? then By(e.who) else if e.action.Release? then Nobody else HolderOf(log[..|log| - 1])
  }

  /** A launcher's latest inspection, and whether it held the lock then. */
  datatype Seen = Nothing | Saw(o: Observations, underLock: bool)

  function LatestOf(log: seq<Event>, i: nat): Seen {
    if |log| == 0 then Nothing
    else
      var e := log[|log| - 1];
      if e.who == i && e.action.Inspect? then Saw(e.action.o, HolderOf(log[..|log| - 1]) == By(i))
      else LatestOf(log[..|log| - 1], i)
  }

  function Spawns(log: seq<Event>, i: nat): nat {
    if |log| == 0 then 0
    else
      var e := log[|log| - 1];
      Spawns(log[..|log| - 1], i) + (if e.who == i && e.action.Spawn? then 1 else 0)
  }

  /** Port closed, and no engine running or on its way. */
  predicate FreeToSpawn(o: Observations) {
    !o.portOpen && !Ours(o) && !ComingUp(o)
  }

  /** What the protocol promises of event `k`, judged by the log before it. */
  predicate Orderly(log: seq<Event>, k: nat)
    requires k < |log|
  {
    var before, e := log[..k], log[k];
    && (e.action.Acquire? ==> HolderOf(before) == Nobody)
    && (e.action.Release? || e.action.Spawn? || e.action.WriteMetadata? || e.action.WritePid? ==>
          HolderOf(before) == By(e.who))
    && (e.action.Spawn? ==>
          LatestOf(before, e.who) == Saw(e.action.o, true) && FreeToSpawn(e.action.o) && Spawns(before, e.who) == 0)
  }

  // -------------------------------------------------------------- invariant

  predicate PhaseOk(w: World, i: nat)
    requires i < |w.phases|
  {
    var p := w.phases[i];
    && (Critical(p) ==> HolderOf(w.log) == By(i))
    && (NearSpawn(p) ==> LatestOf(w.log, i) == Saw(p.o, true))
    && (p.OwnRemoving? ==> Stale(p.o))
    && (p.Preparing? || p.Spawning? ==> FreeToSpawn(p.o))
    && (BeforeSpawn(p) ==> Spawns(w.log, i) == 0)
  }

  predicate Inv(w: World) {
    && (HolderOf(w.log) != Nobody ==> w.lock)
    && (forall i :: 0 <= i < |w.phases| ==> PhaseOk(w, i))
    && (forall k :: 0 <= k < |w.log| ==> Orderly(w.log, k))
  }

  lemma Logged(log: seq<Event>, e: Event, j: nat)
    ensures HolderOf(log + [e]) ==
            if e.action.Acquire? then By(e.who) else if e.action.Release? then Nobody else HolderOf(log)
    ensures LatestOf(log + [e], j) ==
            if e.who == j && e.action.Inspect? then Saw(e.action.o, HolderOf(log) == By(j)) else LatestOf(log, j)
    ensures Spawns(log + [e], j) == Spawns(log, j) + (if e.who == j && e.action.Spawn? then 1 else 0)
  {
    assert (log + [e])[..|log|] == log;
  }

  /** A step of launcher `i` leaves what the log says about the others. */
  lemma OthersKeep(w: World, i: nat, a: Action, w': World, j: nat)
    requires Inv(w) && Step(w, i, a, w') && j < |w.phases| && j != i
    ensures PhaseOk(w', j)
  {
    hide HolderOf, LatestOf, Spawns, Classify, Orderly, FreeToSpawn;
    assert PhaseOk(w, j) && PhaseOk(w, i);
    Logged(w.log, Event(i, a), j);
  }

  /** A launcher is critical from its `Acquire` to its `Release`. */
  lemma CriticalMoves(p: Phase, a: Action, lock: bool)
    requires After(p, a, lock).To?
    ensures Critical(After(p, a, lock).phase) ==> a.Acquire? || (Critical(p) && !a.Release?)
  {
    hide Classify;
  }

  /** On the way to a spawn the observations are those of the last inspection. */
  lemma ReadyMoves(p: Phase, a: Action, lock: bool)
    requires After(p, a, lock).To?
    ensures var q := After(p, a, lock).phase;
            NearSpawn(q) ==> Critical(p) && if a.Inspect? then q.o == a.o else NearSpawn(p) && q.o == p.o
  {
    hide Classify;
  }

  lemma FreeMoves(p: Phase, a: Action, lock: bool)
    requires After(p, a, lock).To?
    requires p.OwnRemoving? ==> Stale(p.o)
    requires p.Preparing? || p.Spawning? ==> FreeToSpawn(p.o)
    ensures var q := After(p, a, lock).phase;
            && (q.OwnRemoving? ==> Stale(q.o))
            && (q.Preparing? || q.Spawning? ==> FreeToSpawn(q.o))
  {
    hide Classify, Foreign;
    if a.Inspect? {
      ClassifyMeans(a.o);
    }
  }

  lemma EarlyMoves(p: Phase, a: Action, lock: bool)
    requires After(p, a, lock).To?
    ensures BeforeSpawn(After(p, a, lock).phase) ==> BeforeSpawn(p) && !a.Spawn?
  {
    hide Classify;
  }

  lemma MoverKeeps(w: World, i: nat, a: Action, w': World)
    requires Inv(w) && Step(w, i, a, w')
    ensures PhaseOk(w', i)
  {
    hide HolderOf, LatestOf, Spawns, Classify, Orderly, After, Critical, BeforeSpawn, FreeToSpawn;
    assert PhaseOk(w, i);
    Logged(w.log, Event(i, a), i);
    CriticalMoves(w.phases[i], a, w.lock);
    ReadyMoves(w.phases[i], a, w.lock);
    FreeMoves(w.phases[i], a, w.lock);
    EarlyMoves(w.phases[i], a, w.lock);
  }

  lemma StepKeepsInv(w: World, i: nat, a: Action, w': World)
    requires Inv(w) && Step(w, i, a, w')
    ensures Inv(w')
  {
    assert w'.log[..|w.log|] == w.log;
    assert PhaseOk(w, i);
    forall j | 0 <= j < |w'.phases| ensures PhaseOk(w', j) {
      if j == i {
        MoverKeeps(w, i, a, w');
      } else {
        OthersKeep(w, i, a, w', j);
      }
    }
    forall k | 0 <= k < |w'.log| ensures Orderly(w'.log, k) {
      if k < |w.log| {
        assert Orderly(w.log, k);
        assert w'.log[..k] == w.log[..k];
      }
    }
  }

  lemma {:induction false} RunKeepsInv(ws: seq<World>)
    requires Run(ws)
    ensures Inv(ws[|ws| - 1])
    decreases |ws|
  {
    if |ws| > 1 {
      RunKeepsInv(ws[..|ws| - 1]);
      var w, w' := ws[|ws| - 2], ws[|ws| - 1];
      var e := w'.log[|w'.log| - 1];
      StepKeepsInv(w, e.who, e.action, w');
    }
  }

  // ------------------------------------------------------------ main results

  /** In no reachable world are two launchers between creating and removing the lock. */
  lemma MutualExclusion(ws: seq<World>, i: nat, j: nat)
    requires Run(ws) && i < j < |ws[|ws| - 1].phases|
    ensures !(Critical(ws[|ws| - 1].phases[i]) && Critical(ws[|ws| - 1].phases[j]))
  {
    RunKeepsInv(ws);
    assert PhaseOk(ws[|ws| - 1], i) && PhaseOk(ws[|ws| - 1], j);
  }

  /** Every event of every run is orderly: locks nest, only the holder spawns and
      writes, and it spawns once, on an inspection of its own taken under the lock. */
  lemma EveryEventOrderly(ws: seq<World>, k: nat)
    requires Run(ws) && k < |ws[|ws| - 1].log|
    ensures Orderly(ws[|ws| - 1].log, k)
  {
    RunKeepsInv(ws);
  }

  /** A held lock stays with its holder until the holder releases it. */
  lemma {:induction false} HolderStays(log: seq<Event>, a: nat, b: nat, i: nat)
    requires a <= b <= |log| && HolderOf(log[..a]) == By(i)
    requires forall k :: a <= k < b ==> Orderly(log, k) && !log[k].action.Release?
    ensures HolderOf(log[..b]) == By(i)
    decreases b
  {
    if a < b {
      HolderStays(log, a, b - 1, i);
      assert log[..b][..b - 1] == log[..b - 1];
      assert Orderly(log, b - 1);
    }
  }

  /** Spawns are by different launchers, separated by the first one giving up the lock. */
  lemma {:induction false} SpawnsSeparated(ws: seq<World>, log: seq<Event>, a: nat, b: nat)
    requires Run(ws) && log == ws[|ws| - 1].log && a < b < |log|
    requires log[a].action.Spawn? && log[b].action.Spawn?
    ensures log[a].who != log[b].who
    ensures exists k :: a < k < b && log[k] == Event(log[a].who, Release)
  {
    RunKeepsInv(ws);
    assert Orderly(log, a) && Orderly(log, b);
    SpawnRemembered(log, a, b);
    var k := FirstRelease(log, a, b, log[a].who);
    assert log[k] == Event(log[a].who, Release);
  }

  lemma {:induction false} SpawnRemembered(log: seq<Event>, a: nat, b: nat)
    requires a < b <= |log| && log[a].action.Spawn?
    ensures Spawns(log[..b], log[a].who) > 0
    decreases b
  {
    assert log[..b][..b - 1] == log[..b - 1];
    if a < b - 1 {
      SpawnRemembered(log, a, b - 1);
    }
  }

  /** If another launcher holds the lock at `b`, its holder at `a` released it in between. */
  lemma {:induction false} FirstRelease(log: seq<Event>, a: nat, b: nat, i: nat) returns (k: nat)
    requires a < b < |log| && HolderOf(log[..a]) == By(i) && HolderOf(log[..b]) != By(i) && !log[a].action.Release?
    requires forall c :: a <= c < b ==> Orderly(log, c)
    ensures a < k < b && log[k] == Event(i, Release)
  {
    k := a;
    while k < b && !log[k].action.Release?
      invariant a <= k <= b && forall c :: a <= c < k ==> !log[c].action.Release?
    {
      k := k + 1;
    }
    HolderStays(log, a, k, i);
    assert Orderly(log, k);
  }

  // ------------------------------------------------------------ what may spawn

  /** Every inspection in the log is one that an inspection can return. */
  lemma {:induction false} SawIsInspected(log: seq<Event>, i: nat)
    requires LatestOf(log, i).Saw? && forall k :: 0 <= k < |log| && log[k].action.Inspect? ==> Inspected(log[k].action.o)
    ensures Inspected(LatestOf(log, i).o)
  {
    var n := |log| - 1;
    if !(log[n].who == i && log[n].action.Inspect?) {
      SawIsInspected(log[..n], i);
    }
  }

  lemma {:induction false} RunInspects(ws: seq<World>, k: nat)
    requires Run(ws) && k < |ws[|ws| - 1].log| && ws[|ws| - 1].log[k].action.Inspect?
    ensures Inspected(ws[|ws| - 1].log[k].action.o)
    decreases |ws|
  {
    if |ws| > 1 && k < |ws[|ws| - 1].log| - 1 {
      RunInspects(ws[..|ws| - 1], k);
    }
  }

  /** Some run ends with a spawn on these observations. */
  ghost predicate CanSpawn(o: Observations) {
    exists ws :: SpawnRun(ws, o)
  }

  predicate SpawnRun(ws: seq<World>, o: Observations) {
    Run(ws) && var log := ws[|ws| - 1].log; |log| > 0 && log[|log| - 1].action == Spawn(o)
  }

  /** A launcher can come to spawn on an inspection exactly when it saw the port closed
      and the state neither healthy nor starting, whatever else it saw. */
  lemma SpawnsExactly(o: Observations)
    ensures CanSpawn(o) <==> Inspected(o) && FreeToSpawn(o)
  {
    if ws: seq<World> :| SpawnRun(ws, o) {
      var log := ws[|ws| - 1].log;
      var k := |log| - 1;
      EveryEventOrderly(ws, k);
      forall j | 0 <= j < |log[..k]| && log[..k][j].action.Inspect? ensures Inspected(log[..k][j].action.o) {
        RunInspects(ws, j);
      }
      SawIsInspected(log[..k], log[k].who);
    }
    if Inspected(o) && FreeToSpawn(o) {
      var ws := SpawnOn(o);
      assert SpawnRun(ws, o);
    }
  }

  lemma SpawnOn(o: Observations) returns (ws: seq<World>)
    requires Inspected(o) && FreeToSpawn(o)
    ensures SpawnRun(ws, o)
  {
    hide Run, After, Classify, FreeToSpawn;
    ws := Start(1);
    ws := ReachDoor(ws, 0);
    AtTheDoor(Idle(), TryingLock(Idle()), false);
    TowardsSpawn(o);
    ws := Extend(ws, 0, Acquire, Rechecking);
    ws := Extend(ws, 0, Inspect(o), Preparing(o));
    ws := Extend(ws, 0, Prepare, Spawning(o));
    ws := Extend(ws, 0, Spawn(o), WritingMetadata(o));
  }

  lemma AtTheDoor(before: Observations, p: Phase, lock: bool)
    requires p == TryingLock(before)
    ensures if lock then After(p, LockBusy, lock) == To(Waiting(before)) else After(p, Acquire, lock) == To(Rechecking)
  {
    hide Classify;
  }

  lemma CanCrash(p: Phase, lock: bool)
    requires !p.Ended? && !p.Crashed?
    ensures After(p, Crash, lock) == To(Crashed)
  {
    hide Classify;
  }

  lemma TowardsSpawn(o: Observations)
    ensures FreeToSpawn(o) ==> After(Rechecking, Inspect(o), true) == To(Preparing(o))
    ensures After(Preparing(o), Prepare, true) == To(Spawning(o))
    ensures After(Spawning(o), Spawn(o), true) == To(WritingMetadata(o))
  {
    hide Classify, Foreign;
    ClassifyMeans(o);
  }

  /** On an idle machine a launcher comes as far as the lock. */
  lemma ReachDoor(ws: seq<World>, i: nat) returns (ws': seq<World>)
    requires Run(ws) && |ws| > 0 && i < |ws[|ws| - 1].phases| && ws[|ws| - 1].phases[i] == Begin
    ensures Run(ws') && |ws'| > 0 && ws'[0] == ws[0]
    ensures var w, w' := ws[|ws| - 1], ws'[|ws'| - 1];
            w'.phases == w.phases[i := TryingLock(Idle())] && w'.lock == w.lock
  {
    hide Run;
    var idle := Idle();
    ws' := Extend(ws, i, Inspect(idle), MakingHome(idle));
    ws' := Extend(ws', i, MakeHome, TryingLock(idle));
  }

  /** Nothing runs, nothing is owned, no file is there. */
  function Idle(): (o: Observations)
    ensures Inspected(o) && Classify(o) == Spawned
  {
    Observations(false, true, false, false, false, false, false, false, false, false, false, false)
  }

  /** So a launcher can spawn although its last inspection, taken under the lock,
      found the data root owned by another engine. */
  lemma SpawnDespiteOwner()
    ensures exists o :: Classify(o) == DataRootInUse && CanSpawn(o)
  {
    var owned := Idle().(lockOwned := true, lockIdentityMatches := false);
    SpawnsExactly(owned);
    assert Classify(owned) == DataRootInUse && CanSpawn(owned);
  }

  lemma Start(n: nat) returns (ws: seq<World>)
    ensures Run(ws) && |ws| == 1 && ws[0] == World(seq(n, _ => Begin), false, [])
  {
    ws := [World(seq(n, _ => Begin), false, [])];
  }

  lemma Extend(ws: seq<World>, i: nat, a: Action, p: Phase) returns (ws': seq<World>)
    requires Run(ws) && |ws| > 0 && i < |ws[|ws| - 1].phases| && (a.Inspect? ==> Inspected(a.o))
    requires After(ws[|ws| - 1].phases[i], a, ws[|ws| - 1].lock) == To(p)
    ensures Run(ws') && |ws'| > 0 && ws'[0] == ws[0]
    ensures var w, w' := ws[|ws| - 1], ws'[|ws'| - 1];
            && w'.phases == w.phases[i := p] && w'.log == w.log + [Event(i, a)]
            && w'.lock == (if a.Acquire? then true else if a.Release? then false else w.lock)
  {
    hide After, Init;
    var w := ws[|ws| - 1];
    var w' := World(w.phases[i := p], if a.Acquire? then true else if a.Release? then false else w.lock,
                    w.log + [Event(i, a)]);
    ws' := ws + [w'];
    assert ws'[..|ws|] == ws;
  }

  // ------------------------------------------------------------ abandoned locks

  /** Nobody holds the lock directory, yet it exists. */
  predicate Abandoned(w: World) {
    w.lock && forall i :: 0 <= i < |w.phases| ==> !Critical(w.phases[i])
  }

  /** The launcher crashed, or failed to remove the lock. */
  predicate Gone(p: Phase) {
    p == Crashed || p == Ended(Aborted)
  }

  /** Why the lock directory exists: it was there from the start, or its creator holds
      it or is gone. */
  predicate LockAccounted(first: World, w: World) {
    && (w.lock <==> first.lock || HolderOf(w.log) != Nobody)
    && (HolderOf(w.log).By? ==>
          var i := HolderOf(w.log).who;
          i < |w.phases| && (Critical(w.phases[i]) || Gone(w.phases[i])))
    && (first.lock ==> HolderOf(w.log) == Nobody)
  }

  lemma StepAccounts(first: World, w: World, i: nat, a: Action, w': World)
    requires Inv(w) && LockAccounted(first, w) && Step(w, i, a, w')
    ensures LockAccounted(first, w')
  {
    hide Classify, Orderly, LatestOf, Spawns, HolderOf, FreeToSpawn, Critical, After;
    assert PhaseOk(w, i);
    Logged(w.log, Event(i, a), i);
    LockMoves(w.phases[i], a, w.lock);
  }

  lemma LockMoves(p: Phase, a: Action, lock: bool)
    requires After(p, a, lock).To?
    ensures var q := After(p, a, lock).phase;
            && (Critical(p) && !a.Release? ==> Critical(q) || Gone(q))
            && (a.Acquire? ==> !lock && Critical(q))
            && (a.Release? ==> Critical(p))
            && !Gone(p)
  {
    hide Classify;
  }

  lemma {:induction false} RunAccounts(ws: seq<World>)
    requires Run(ws)
    ensures LockAccounted(ws[0], ws[|ws| - 1])
    decreases |ws|
  {
    if |ws| > 1 {
      hide LockAccounted, Inv, Step;
      RunAccounts(ws[..|ws| - 1]);
      RunKeepsInv(ws[..|ws| - 1]);
      var w, w' := ws[|ws| - 2], ws[|ws| - 1];
      var e := w'.log[|w'.log| - 1];
      StepAccounts(ws[0], w, e.who, e.action, w');
    }
  }

  /** A reachable world is abandoned exactly when the lock exists and was there from the
      start, or its creator crashed or failed to remove it. */
  lemma AbandonedExactly(ws: seq<World>)
    requires Run(ws)
    ensures var w := ws[|ws| - 1];
            Abandoned(w) <==>
            ws[0].lock || (HolderOf(w.log).By? && HolderOf(w.log).who < |w.phases| && Gone(w.phases[HolderOf(w.log).who]))
  {
    RunKeepsInv(ws);
    RunAccounts(ws);
    var w := ws[|ws| - 1];
    forall i | 0 <= i < |w.phases| && Critical(w.phases[i]) ensures HolderOf(w.log) == By(i) {
      assert PhaseOk(w, i);
    }
  }

  /** A crash under the lock abandons it. */
  lemma CrashAbandons(ws: seq<World>, i: nat, w': World)
    requires Run(ws) && i < |ws[|ws| - 1].phases| && Critical(ws[|ws| - 1].phases[i])
    requires Step(ws[|ws| - 1], i, Crash, w')
    ensures Abandoned(w')
  {
    hide Classify, Orderly, LatestOf, Spawns, HolderOf, FreeToSpawn;
    RunKeepsInv(ws);
    var w := ws[|ws| - 1];
    assert PhaseOk(w, i);
    forall j | 0 <= j < |w.phases| && j != i ensures !Critical(w.phases[j]) {
      assert PhaseOk(w, j);
    }
  }

  predicate Continues(ws: seq<World>)
    decreases |ws|
  {
    |ws| > 0 && (|ws| > 1 ==> Continues(ws[..|ws| - 1]) && Next(ws[|ws| - 2], ws[|ws| - 1]))
  }

  lemma AbandonedStep(w: World, w': World)
    requires Abandoned(w) && Next(w, w')
    ensures Abandoned(w') && w.log <= w'.log && |w'.log| == |w.log| + 1 && !w'.log[|w.log|].action.Spawn?
  {
    hide Classify, Critical, After;
    var e := w'.log[|w'.log| - 1];
    OutsideMoves(w.phases[e.who], e.action, w.lock);
  }

  /** While the lock exists a launcher outside it can neither enter, remove it nor spawn. */
  lemma OutsideMoves(p: Phase, a: Action, lock: bool)
    requires lock && !Critical(p) && After(p, a, lock).To?
    ensures !Critical(After(p, a, lock).phase) && !a.Acquire? && !a.Release? && !a.Spawn?
  {
    hide Classify;
  }

  /** An abandoned lock stays, and nobody spawns any more. */
  lemma {:induction false} AbandonedForever(ws: seq<World>, log: seq<Event>)
    requires Continues(ws) && Abandoned(ws[0]) && log == ws[|ws| - 1].log
    ensures Abandoned(ws[|ws| - 1]) && ws[0].log <= log
    ensures forall k :: |ws[0].log| <= k < |log| ==> !log[k].action.Spawn?
    decreases |ws|
  {
    hide Abandoned, Next;
    if |ws| > 1 {
      AbandonedForever(ws[..|ws| - 1], ws[|ws| - 2].log);
      AbandonedStep(ws[|ws| - 2], ws[|ws| - 1]);
    }
  }

  lemma {:induction false} RunContinues(ws: seq<World>, j: nat)
    requires Run(ws) && j < |ws|
    ensures Run(ws[..j + 1]) && Continues(ws[j..])
    decreases |ws|
  {
    hide Next, Init;
    if j < |ws| - 1 {
      var n := |ws| - 1;
      RunContinues(ws[..n], j);
      assert ws[..n][..j + 1] == ws[..j + 1] && ws[..n][j..] == ws[j..n];
      assert ws[j..][..n - j] == ws[j..n];
    } else {
      assert ws[..j + 1] == ws;
      assert |ws[j..]| == 1;
    }
  }

  /** Once a launcher has crashed under the lock, no later event of the run is a spawn. */
  lemma CrashBlocksForever(ws: seq<World>, j: nat, i: nat, k: nat)
    requires Run(ws) && j + 1 < |ws| && i < |ws[j].phases| && Critical(ws[j].phases[i])
    requires Step(ws[j], i, Crash, ws[j + 1])
    requires |ws[j].log| < k < |ws[|ws| - 1].log|
    ensures !ws[|ws| - 1].log[k].action.Spawn?
  {
    hide Run, Continues, Abandoned, Step, Next;
    RunContinues(ws, j);
    RunContinues(ws, j + 1);
    CrashAbandons(ws[..j + 1], i, ws[j + 1]);
    AbandonedForever(ws[j + 1..], ws[|ws| - 1].log);
    CrashLogged(ws[j], i, ws[j + 1]);
  }

  lemma CrashLogged(w: World, i: nat, w': World)
    requires Step(w, i, Crash, w')
    ensures |w'.log| == |w.log| + 1
  {
  }

  /** Such a run: one launcher crashes under the lock while the other waits for it. */
  lemma CrashLeavesWaiter() returns (ws: seq<World>)
    ensures Run(ws) && |ws| > 0
    ensures var w := ws[|ws| - 1];
            Abandoned(w) && !ws[0].lock && |w.phases| == 2 && w.phases[0] == Crashed && w.phases[1].Waiting?
  {
    hide Run, After, Classify;
    ws := Start(2);
    ws := ReachDoor(ws, 0);
    ws := ReachDoor(ws, 1);
    AtTheDoor(Idle(), TryingLock(Idle()), false);
    AtTheDoor(Idle(), TryingLock(Idle()), true);
    CanCrash(Rechecking, true);
    ws := Extend(ws, 0, Acquire, Rechecking);
    ws := Extend(ws, 1, LockBusy, Waiting(Idle()));
    ws := Extend(ws, 0, Crash, Crashed);
  }
}
