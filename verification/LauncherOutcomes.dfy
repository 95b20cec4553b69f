/** How launchers end, told by what they observed. */
module LauncherOutcomes {
  import opened Wrappers
  import L = LocalEngine
  import opened LocalEngine

  /** The inspection a phase still carries. */
  function Carried(p: Phase): Option<Observations> {
    match p
    case LookForLock(o) => Some(o)
    case MakingHome(o) => Some(o)
    case TryingLock(o) => Some(o)
    case Waiting(o) => Some(o)
    case Polling(o) => Some(o)
    case OwnRemoving(_, _, o) => Some(o)
    case Preparing(o) => Some(o)
    case Spawning(o) => Some(o)
    case WritingMetadata(o) => Some(o)
    case WritingPid(o) => Some(o)
    case Awaiting(o) => Some(o)
    case _ => Option.None
  }

  predicate AfterSpawn(p: Phase) {
    p.WritingMetadata? || p.WritingPid? || p.Awaiting?
  }

  function OutcomeOf(p: Phase): Option<Outcome> {
    match p
    case Ended(out) => Some(out)
    case Leaving(out) => Some(out)
    case _ => Option.None
  }

  /** The reasons to refuse after an inspection: its state, its state once the deadline
      has passed, an open port, or the exit of the child. */
  predicate RefusedFor(o: Observations, s: EngineState) {
    s == Classify(o) || s == Classify(o.(startupDeadlineExpired := true)) || (s == PortConflict && o.portOpen) || s == Exited
  }

  predicate Claims(out: Outcome, o: Observations, spawns: nat) {
    match out
    case AlreadyRunning => Ours(o) && spawns == 0
    case Started => Ours(o) && spawns == 1
    case Refused(s) => RefusedFor(o, s)
    case Aborted => true
  }

  /** Only an unclaimed machine, an engine that is coming up, or a foreign one while
      somebody holds the start lock leads on to the lock. */
  predicate DoorOk(o: Observations, looked: bool) {
    Unclaimed(o) || ComingUp(o) || ((Foreign(o) || Reused(o)) && looked)
  }

  /** The launcher saw the start lock. */
  predicate Looked(log: seq<Event>, i: nat) {
    exists k :: 0 <= k < |log| && log[k] == Event(i, SeeLock(true))
  }

  predicate Did(log: seq<Event>, i: nat, a: Action) {
    exists k :: 0 <= k < |log| && log[k] == Event(i, a)
  }

  /** A launcher at work on the recorded files, and what it has removed so far. */
  predicate Cleaning(p: Phase, log: seq<Event>, i: nat) {
    match p
    case Removing(pid, metadata) => (pid || Did(log, i, RemovePid)) && (metadata || Did(log, i, RemoveMetadata))
    case Reinspecting => Did(log, i, RemovePid) && Did(log, i, RemoveMetadata)
    case OwnRemoving(pid, metadata, _) => (pid || Did(log, i, RemovePid)) && (metadata || Did(log, i, RemoveMetadata))
    case _ => true
  }

  predicate Told(w: World, i: nat)
    requires i < |w.phases|
  {
    var p, seen := w.phases[i], LatestOf(w.log, i);
    && (Carried(p).Some? ==> seen.Saw? && seen.o == Carried(p).value)
    && (p.LookForLock? ==> Foreign(p.o) || Reused(p.o))
    && (p.MakingHome? || p.TryingLock? ==> DoorOk(p.o, Looked(w.log, i)))
    && (p.Removing? ==> seen.Saw? && Stale(seen.o) && !seen.o.portOpen)
    && Cleaning(p, w.log, i)
    && (AfterSpawn(p) ==> Spawns(w.log, i) == 1)
    && (OutcomeOf(p).Some? && OutcomeOf(p).value != Aborted ==>
          seen.Saw? && Claims(OutcomeOf(p).value, seen.o, Spawns(w.log, i)))
  }

  // ------------------------------------------------------------- single moves

  lemma CarriedMoves(p: Phase, a: Action, lock: bool)
    requires L.After(p, a, lock).To?
    ensures var q := L.After(p, a, lock).phase;
            Carried(q).Some? ==> if a.Inspect? then Carried(q).value == a.o else Carried(p) == Carried(q)
  {
    hide Classify;
  }

  lemma SpawnMoves(p: Phase, a: Action, lock: bool)
    requires L.After(p, a, lock).To?
    ensures var q := L.After(p, a, lock).phase;
            && (AfterSpawn(q) ==> a.Spawn? || (AfterSpawn(p) && !a.Spawn?))
            && (a.Spawn? ==> p.Spawning? && AfterSpawn(q))
  {
    hide Classify;
  }

  lemma DoorMoves(p: Phase, a: Action, lock: bool)
    requires L.After(p, a, lock).To?
    requires p.LookForLock? ==> Foreign(p.o) || Reused(p.o)
    ensures var q := L.After(p, a, lock).phase;
            && (q.LookForLock? ==> Foreign(q.o) || Reused(q.o))
            && (q.MakingHome? ==> DoorOk(q.o, a == SeeLock(true)))
            && (q.TryingLock? ==> p.MakingHome? && q.o == p.o)
  {
    hide Classify, Foreign;
    if a.Inspect? {
      ClassifyMeans(a.o);
    } else if p.LookForLock? {
      ClassifyMeans(p.o);
    }
  }

  lemma CleaningMoves(p: Phase, a: Action, lock: bool, log: seq<Event>, i: nat)
    requires L.After(p, a, lock).To? && Cleaning(p, log, i) && (p.LookForLock? ==> Foreign(p.o) || Reused(p.o))
    ensures var q := L.After(p, a, lock).phase;
            && Cleaning(q, log + [Event(i, a)], i)
            && (q.Removing? ==> if a.Inspect? then Stale(a.o) && !a.o.portOpen else p.Removing?)
  {
    hide Classify, Foreign, Did;
    DidLater(log, i, a, RemovePid);
    DidLater(log, i, a, RemoveMetadata);
    if a.Inspect? {
      ClassifyMeans(a.o);
    } else if p.LookForLock? {
      ClassifyMeans(p.o);
    }
  }

  lemma DidLater(log: seq<Event>, i: nat, a: Action, b: Action)
    ensures Did(log, i, b) || a == b ==> Did(log + [Event(i, a)], i, b)
  {
    var log' := log + [Event(i, a)];
    assert log'[|log|] == Event(i, a);
    assert forall k :: 0 <= k < |log| ==> log'[k] == log[k];
  }

  lemma OthersDid(log: seq<Event>, e: Event, i: nat, b: Action)
    requires e.who != i
    ensures Did(log, i, b) ==> Did(log + [e], i, b)
  {
    assert forall k :: 0 <= k < |log| ==> (log + [e])[k] == log[k];
  }

  /** How a launcher comes to an outcome. */
  lemma OutcomeMoves(p: Phase, a: Action, lock: bool)
    requires L.After(p, a, lock).To? && OutcomeOf(L.After(p, a, lock).phase).Some?
    requires p.LookForLock? ==> Foreign(p.o) || Reused(p.o)
    ensures var out := OutcomeOf(L.After(p, a, lock).phase).value;
            || out == Aborted
            || (p == Leaving(out) && a == Release)
            || (out == AlreadyRunning && a.Inspect? && Ours(a.o) && BeforeSpawn(p))
            || (out == Started && a.Inspect? && Ours(a.o) && AfterSpawn(p))
            || (out.Refused? && a.Inspect? && RefusedFor(a.o, out.state))
            || (out.Refused? && !a.Inspect? && !a.Spawn? && Carried(p).Some? && RefusedFor(Carried(p).value, out.state))
  {
    hide Classify, Foreign;
    if a.Inspect? {
      ClassifyMeans(a.o);
    } else if p.LookForLock? {
      ClassifyMeans(p.o);
    }
  }

  // ------------------------------------------------------------------- runs

  lemma LookedLater(log: seq<Event>, e: Event, i: nat)
    ensures Looked(log + [e], i) <==> Looked(log, i) || e == Event(i, SeeLock(true))
  {
    var log' := log + [e];
    assert log'[|log|] == e;
    assert forall k :: 0 <= k < |log| ==> log'[k] == log[k];
  }

  lemma MoverTold(w: World, i: nat, a: Action, w': World)
    requires Inv(w) && Step(w, i, a, w') && Told(w, i)
    ensures Told(w', i)
  {
    hide HolderOf, LatestOf, Spawns, Classify, Orderly, L.After, Critical, FreeToSpawn, RefusedFor, Ours, Looked, Carried,
         AfterSpawn, BeforeSpawn, DoorOk, Cleaning, Stale;
    var p := w.phases[i];
    assert PhaseOk(w, i);
    Logged(w.log, Event(i, a), i);
    LookedLater(w.log, Event(i, a), i);
    CarriedMoves(p, a, w.lock);
    SpawnMoves(p, a, w.lock);
    DoorMoves(p, a, w.lock);
    DoorFacts(p, a, w.lock);
    CleaningMoves(p, a, w.lock, w.log, i);
    if OutcomeOf(w'.phases[i]).Some? {
      OutcomeMoves(p, a, w.lock);
    }
  }

  /** Small facts about phases that the run argument needs. */
  lemma DoorFacts(p: Phase, a: Action, lock: bool)
    ensures p.Spawning? ==> BeforeSpawn(p)
    ensures forall o, x, y :: DoorOk(o, x) && (x ==> y) ==> DoorOk(o, y)
    ensures p.Leaving? ==> Carried(p).None? && OutcomeOf(p) == Some(p.outcome)
  {
  }

  lemma OthersTold(w: World, i: nat, a: Action, w': World, j: nat)
    requires Step(w, i, a, w') && j < |w.phases| && j != i && Told(w, j)
    ensures Told(w', j)
  {
    hide HolderOf, LatestOf, Spawns, Classify, L.After, Claims, Looked, DoorOk, Did, Stale;
    OthersDid(w.log, Event(i, a), j, RemovePid);
    OthersDid(w.log, Event(i, a), j, RemoveMetadata);
    Logged(w.log, Event(i, a), j);
    LookedLater(w.log, Event(i, a), j);
  }

  lemma ToldAtStart(w: World, j: nat)
    requires L.Init(w) && j < |w.phases|
    ensures Told(w, j)
  {
  }

  lemma {:induction false} RunTold(ws: seq<World>, j: nat)
    requires Run(ws) && j < |ws[|ws| - 1].phases|
    ensures Told(ws[|ws| - 1], j)
    decreases |ws|
  {
    hide Told, Inv, L.After;
    if |ws| == 1 {
      ToldAtStart(ws[0], j);
    } else {
      var w, w' := ws[|ws| - 2], ws[|ws| - 1];
      var e := w'.log[|w'.log| - 1];
      RunTold(ws[..|ws| - 1], j);
      RunKeepsInv(ws[..|ws| - 1]);
      if j == e.who {
        MoverTold(w, j, e.action, w');
      } else {
        OthersTold(w, e.who, e.action, w', j);
      }
    }
  }

  /** Whoever reports a running engine saw one in its latest inspection: the protocol
      answered, no other engine owned the data root, and a known identity was its own.
      It spawned nothing if it found the engine, and once if it started it. */
  lemma RunningMeans(ws: seq<World>, i: nat)
    requires Run(ws) && i < |ws[|ws| - 1].phases|
    requires var p := ws[|ws| - 1].phases[i];
             OutcomeOf(p) == Some(AlreadyRunning) || OutcomeOf(p) == Some(Started)
    ensures var w := ws[|ws| - 1];
            var seen := LatestOf(w.log, i);
            && seen.Saw? && seen.o.protocolHealthy && !(seen.o.lockOwned && !seen.o.lockIdentityMatches)
            && (seen.o.identityAvailable ==> seen.o.identityMatches)
            && Spawns(w.log, i) == if OutcomeOf(w.phases[i]) == Some(Started) then 1 else 0
  {
    RunTold(ws, i);
  }

  /** Whoever is refused has the reason in its latest inspection, or lost its child. */
  lemma RefusedMeans(ws: seq<World>, i: nat)
    requires Run(ws) && i < |ws[|ws| - 1].phases| && OutcomeOf(ws[|ws| - 1].phases[i]).Some?
    requires OutcomeOf(ws[|ws| - 1].phases[i]).value.Refused?
    ensures var w := ws[|ws| - 1];
            LatestOf(w.log, i).Saw? && RefusedFor(LatestOf(w.log, i).o, OutcomeOf(w.phases[i]).value.state)
  {
    RunTold(ws, i);
  }

  /** Whoever tries the start lock found the machine unclaimed or the engine coming up,
      or found a foreign process while it saw the start lock. */
  lemma DoorMeans(ws: seq<World>, i: nat)
    requires Run(ws) && i < |ws[|ws| - 1].phases| && ws[|ws| - 1].phases[i].TryingLock?
    ensures var w := ws[|ws| - 1];
            var o := w.phases[i].o;
            && LatestOf(w.log, i).Saw? && LatestOf(w.log, i).o == o
            && (Unclaimed(o) || ComingUp(o) || ((Foreign(o) || Reused(o)) && Looked(w.log, i)))
  {
    RunTold(ws, i);
  }

  /** The recorded files are removed only by a launcher whose latest inspection found the
      recorded process dead; outside the lock also the port closed. */
  lemma {:induction false} RemovesOnlyStale(ws: seq<World>, k: nat)
    requires Run(ws) && k < |ws[|ws| - 1].log|
    requires var a := ws[|ws| - 1].log[k].action; a == RemovePid || a == RemoveMetadata
    ensures var log := ws[|ws| - 1].log;
            var seen := LatestOf(log[..k], log[k].who);
            && seen.Saw? && !seen.o.protocolHealthy && seen.o.pidPresent && !seen.o.pidLive
            && (HolderOf(log[..k]) == By(log[k].who) || !seen.o.portOpen)
    decreases |ws|
  {
    hide L.After, Told, Inv, LatestOf, HolderOf;
    if |ws| > 1 {
      var w, w' := ws[|ws| - 2], ws[|ws| - 1];
      if k < |w.log| {
        RemovesOnlyStale(ws[..|ws| - 1], k);
        assert w'.log[..k] == w.log[..k] && w'.log[k] == w.log[k];
      } else {
        var e := w'.log[k];
        RunTold(ws[..|ws| - 1], e.who);
        RunKeepsInv(ws[..|ws| - 1]);
        assert w'.log[..k] == w.log;
        Remover(w, e.who, e.action);
      }
    }
  }

  lemma Remover(w: World, i: nat, a: Action)
    requires i < |w.phases| && L.After(w.phases[i], a, w.lock).To? && (a == RemovePid || a == RemoveMetadata)
    requires Inv(w) && Told(w, i)
    ensures var seen := LatestOf(w.log, i);
            && seen.Saw? && !seen.o.protocolHealthy && seen.o.pidPresent && !seen.o.pidLive
            && (HolderOf(w.log) == By(i) || !seen.o.portOpen)
  {
    hide Classify, LatestOf, HolderOf, Spawns, Orderly, FreeToSpawn, Claims, Looked, Did;
    assert PhaseOk(w, i);
  }

  /** Under the lock a launcher stays until its last part, which removes the lock, unless
      it crashes: whatever fails, that part is reached. */
  lemma LeavesThroughRelease(p: Phase, a: Action, lock: bool)
    requires Critical(p) && L.After(p, a, lock).To? && a != Crash
    ensures Critical(L.After(p, a, lock).phase) || p.Leaving?
    ensures p.Leaving? ==> L.After(p, Release, lock) == To(Ended(p.outcome))
  {
    hide Classify;
  }

  // --------------------------------------------------------- what is decided

  /** The first inspection. */
  lemma FirstInspection(o: Observations, lock: bool)
    requires Inspected(o)
    ensures L.After(Begin, Inspect(o), lock) == To(
              if Ours(o) then Ended(AlreadyRunning)
              else if Foreign(o) || Reused(o) then LookForLock(o)
              else if Stale(o) then (if o.portOpen then Ended(Refused(PortConflict)) else Removing(true, true))
              else if Unclaimed(o) || ComingUp(o) then MakingHome(o)
              else Ended(Refused(Classify(o))))
  {
    hide Classify, Foreign;
    ClassifyMeans(o);
  }

  /** Inspections under the lock, and of the child's start. */
  lemma LockedInspection(x: Observations, o: Observations, lock: bool)
    requires Inspected(o)
    ensures L.After(Rechecking, Inspect(o), lock) == To(
              if Ours(o) then Leaving(AlreadyRunning) else if ComingUp(o) then Polling(o)
              else if o.portOpen then Leaving(Refused(PortConflict)) else Preparing(o))
    ensures L.After(Polling(x), Inspect(o), lock) == To(
              if Ours(o) then Leaving(AlreadyRunning) else if Stale(o) then OwnRemoving(true, true, o)
              else if ComingUp(o) then Polling(o) else Leaving(Refused(Classify(o))))
    ensures L.After(Awaiting(x), Inspect(o), lock) == To(if Ours(o) then Leaving(Started) else Awaiting(o))
    ensures L.After(Awaiting(x), ChildExit, lock) == To(Leaving(Refused(Exited)))
  {
    hide Classify, Foreign;
    ClassifyMeans(o);
  }

  /** The time allowed has passed: an engine that was coming up counts as unhealthy. */
  lemma DeadlinePasses(o: Observations, lock: bool)
    requires ComingUp(o) || Unclaimed(o)
    ensures L.After(Waiting(o), Deadline, lock) == To(Ended(Refused(Unhealthy)))
    ensures L.After(Polling(o), Deadline, lock) == To(Leaving(Refused(Unhealthy)))
    ensures L.After(Awaiting(o), Deadline, lock) == To(Leaving(Refused(Unhealthy)))
  {
  }

  // ------------------------------------------------------- healthy inspections

  predicate Inspects(p: Phase) {
    p.Begin? || p.Reinspecting? || p.Waiting? || p.Rechecking? || p.Polling? || p.Awaiting?
  }

  /** A launcher that sees a running engine of its own reports it, in every phase but one:
      after it has removed stale files it refuses. */
  lemma HealthyReported(p: Phase, o: Observations, lock: bool)
    requires Inspects(p) && Ours(o)
    ensures var q := L.After(p, Inspect(o), lock);
            && q.To? && OutcomeOf(q.phase).Some?
            && (OutcomeOf(q.phase).value in [AlreadyRunning, Started] <==> !p.Reinspecting?)
            && (OutcomeOf(q.phase).value == Started <==> p.Awaiting?)
            && (p.Reinspecting? ==> q.phase == Ended(Refused(HealthyExisting)))
  {
    hide Classify, Foreign;
    ClassifyMeans(o);
  }

  predicate Untouched(log: seq<Event>, k: nat, i: nat) {
    forall j :: 0 <= j < k && j < |log| ==> log[j].who != i
  }

  lemma {:induction false} StillAtStart(ws: seq<World>, i: nat)
    requires Run(ws) && i < |ws[|ws| - 1].phases| && Untouched(ws[|ws| - 1].log, |ws[|ws| - 1].log|, i)
    ensures ws[|ws| - 1].phases[i] == Begin
    decreases |ws|
  {
    if |ws| > 1 {
      hide L.After;
      var w, w' := ws[|ws| - 2], ws[|ws| - 1];
      assert w'.log[|w.log|].who != i;
      assert forall j :: 0 <= j < |w.log| ==> w.log[j] == w'.log[j];
      StillAtStart(ws[..|ws| - 1], i);
    }
  }

  /** A launcher whose first inspection sees a running engine of its own ends at once and
      for good, as already running. */
  lemma {:induction false} HealthyAtOnce(ws: seq<World>, i: nat, k: nat, o: Observations)
    requires Run(ws) && i < |ws[|ws| - 1].phases| && k < |ws[|ws| - 1].log|
    requires ws[|ws| - 1].log[k] == Event(i, Inspect(o)) && Untouched(ws[|ws| - 1].log, k, i) && Ours(o)
    ensures ws[|ws| - 1].phases[i] == Ended(AlreadyRunning)
    decreases |ws|
  {
    hide Classify;
    var w, w' := ws[|ws| - 2], ws[|ws| - 1];
    assert forall j :: 0 <= j < |w.log| ==> w.log[j] == w'.log[j];
    if k == |w.log| {
      StillAtStart(ws[..|ws| - 1], i);
      ClassifyMeans(o);
    } else {
      HealthyAtOnce(ws[..|ws| - 1], i, k, o);
    }
  }
}
