/** The Workbench's collection-summary loader: one task at a time, up to four
    workers sharing a cursor, and a generation counter that outdates a task
    whenever a write, a view change or a database switch overtakes it. */
module SummaryLoader {
  import opened Wrappers

  const WORKERS := 4

  /** The name of a database or collection. */
  datatype Name = Name(text: string)

  /** The selected database, if any. */
  type Selection = Option<Name>

  /** A stored summary: whose collection it describes and when it was asked for. */
  datatype Summary = Summary(database: Selection, asked: nat, available: bool)

  /** A worker is at the head of its loop, waits for the reply about collection
      number `index`, or has returned. */
  datatype Worker = Ready | InFlight(index: nat, asked: nat) | Returned

  datatype Task = Task(generation: nat, database: Selection, names: seq<Name>, cursor: nat, workers: seq<Worker>)

  /** The fields the loader uses. `now` and `writes` are bookkeeping: the number of
      events so far, and when each collection's latest write was reported. */
  datatype State = State(
    database: Selection, overview: bool, collections: seq<Name>,
    generation: nat, scope: Selection, summaries: map<Name, Summary>, task: Option<Task>,
    now: nat, writes: map<(Selection, Name), nat>)

  /** Everything that happens to the page, one synchronous piece of code each. `Boot`
      is the reply about the server's own database: unlike every other change of the
      database it does not bring the scope along. */
  datatype Event =
    | Boot(name: Name)
    | Switch(database: Selection)
    | SetCollections(names: seq<Name>)
    | SetView(overview: bool)
    | Refresh
    | WriteReported(database: Selection, collection: Name)
    | Load
    | Issue(worker: nat)
    | Reply(worker: nat, ok: bool)
    | Settle

  predicate Distinct(names: seq<Name>) {
    forall i, j :: 0 <= i < j < |names| ==> names[i] != names[j]
  }

  function EnsureScope(s: State): State {
    if s.scope == s.database then s
    else s.(generation := s.generation + 1, scope := s.database, summaries := map[])
  }

  /** A task still speaks for the page. */
  predicate Current(s: State, t: Task) {
    t.generation == s.generation && s.overview && t.database == s.database
  }

  function Missing(names: seq<Name>, known: map<Name, Summary>): (r: seq<Name>)
    ensures forall n :: n in r <==> n in names && n !in known
    ensures Distinct(names) ==> Distinct(r)
  {
    if |names| == 0 then []
    else
      var rest := Missing(names[..|names| - 1], known);
      if names[|names| - 1] in known then rest else rest + [names[|names| - 1]]
  }

  function StartTask(s: State): State {
    var g := s.generation + 1;
    var names := Missing(s.collections, s.summaries);
    var workers := if |names| < WORKERS then |names| else WORKERS;
    if |names| == 0 then s.(generation := g)
    else s.(generation := g, task := Some(Task(g, s.database, names, 0, seq(workers, _ => Ready))))
  }

  function SetWorker(s: State, t: Task, w: nat, cursor: nat, x: Worker): State
    requires w < |t.workers|
  {
    s.(task := Some(t.(cursor := cursor, workers := t.workers[w := x])))
  }

  /** What each event does, apart from the passing of time. */
  function Effect(s: State, e: Event): State {
    match e
    case Boot(name) => s.(database := Some(name))
    case Switch(database) => EnsureScope(s.(database := database, collections := []))
    case SetCollections(names) => EnsureScope(s.(collections := names))
    case SetView(overview) =>
      s.(overview := overview, generation := if s.overview && !overview then s.generation + 1 else s.generation)
    case Refresh => s.(generation := s.generation + 1, summaries := map[])
    case WriteReported(database, collection) =>
      var s' := s.(writes := s.writes[(database, collection) := s.now]);
      if database != s.database then s'
      else s'.(generation := s.generation + 1, summaries := s.summaries - {collection})
    case Load =>
      if !s.overview || s.database.None? then s
      else
        var s' := EnsureScope(s);
        if s'.task.Some? then s' else StartTask(s')
    case Issue(w) =>
      if s.task.None? || w >= |s.task.value.workers| || !s.task.value.workers[w].Ready? then s
      else
        var t := s.task.value;
        if t.cursor < |t.names| && Current(s, t) then SetWorker(s, t, w, t.cursor + 1, InFlight(t.cursor, s.now))
        else SetWorker(s, t, w, t.cursor, Returned)
    case Reply(w, ok) =>
      if s.task.None? || w >= |s.task.value.workers| || !s.task.value.workers[w].InFlight? then s
      else
        var t := s.task.value;
        var x := t.workers[w];
        if !Current(s, t) || x.index >= |t.names| then SetWorker(s, t, w, t.cursor, Returned)
        else SetWorker(s, t, w, t.cursor, Ready)
             .(summaries := s.summaries[t.names[x.index] := Summary(t.database, x.asked, ok)])
    case Settle =>
      if s.task.Some? && forall w :: 0 <= w < |s.task.value.workers| ==> s.task.value.workers[w] == Returned
      then s.(task := None) else s
  }

  function Step(s: State, e: Event): State {
    Effect(s, e).(now := s.now + 1)
  }

  predicate Init(s: State) {
    s == State(None, s.overview, [], 0, None, map[], None, 0, map[])
  }

  function After(s: State, es: seq<Event>): State {
    if |es| == 0 then s else Step(After(s, es[..|es| - 1]), es[|es| - 1])
  }

  /** A run from the initial page; lists of collections name each collection once. */
  predicate Run(s: State, es: seq<Event>) {
    Init(s) && forall k :: 0 <= k < |es| ==> Listed(es[k])
  }

  predicate Listed(e: Event) {
    e.SetCollections? ==> Distinct(e.names)
  }

  // ------------------------------------------------- invariant of every run

  predicate TaskOk(t: Task) {
    && 0 < |t.workers| <= WORKERS && 0 < |t.names| && t.cursor <= |t.names| && Distinct(t.names) && t.database.Some?
    && (forall w :: 0 <= w < |t.workers| && t.workers[w].InFlight? ==> t.workers[w].index < t.cursor)
    && (forall v, w :: 0 <= v < w < |t.workers| && t.workers[v].InFlight? && t.workers[w].InFlight? ==>
          t.workers[v].index != t.workers[w].index)
  }

  /** Entries belong to the scope, and a task of the present generation to the scope
      and the overview. */
  predicate Base(s: State) {
    && (forall n :: n in s.summaries ==> s.summaries[n].database == s.scope && s.scope.Some?)
    && (forall k :: k in s.writes ==> s.writes[k] < s.now)
    && Distinct(s.collections)
    && (s.task.Some? ==>
          var t := s.task.value;
          && TaskOk(t) && t.generation <= s.generation
          && (t.generation == s.generation ==> s.overview && s.scope == t.database))
  }

  lemma FlightInRange(t: Task, w: nat)
    requires TaskOk(t) && w < |t.workers| && t.workers[w].InFlight?
    ensures t.workers[w].index < |t.names|
  {
  }

  lemma AskKeepsTask(t: Task, w: nat, now: nat, t': Task)
    requires TaskOk(t) && w < |t.workers| && t.workers[w].Ready? && t.cursor < |t.names|
    requires t' == t.(cursor := t.cursor + 1, workers := t.workers[w := InFlight(t.cursor, now)])
    ensures TaskOk(t')
  {
  }

  /** A worker that returns leaves the others' claims alone. */
  lemma ReturnKeepsTask(t: Task, w: nat, x: Worker, t': Task)
    requires TaskOk(t) && w < |t.workers| && !x.InFlight?
    requires t' == t.(workers := t.workers[w := x])
    ensures TaskOk(t')
  {
  }

  lemma StartIsOk(s: State)
    requires Base(s) && s.task.None? && s.overview && s.database.Some? && s.scope == s.database
    ensures Base(StartTask(s).(now := s.now + 1))
  {
  }

  lemma ScopeKeepsBase(s: State)
    requires Base(s)
    ensures Base(EnsureScope(s)) && Base(EnsureScope(s).(now := s.now + 1)) && Base(s.(now := s.now + 1))
  {
  }

  lemma LoadKeepsBase(s: State)
    requires Base(s)
    ensures Base(Step(s, Load))
  {
    hide Base, StartTask, EnsureScope;
    ScopeKeepsBase(s);
    ScopeFacts(s);
    if s.overview && s.database.Some? && EnsureScope(s).task.None? {
      StartIsOk(EnsureScope(s));
    }
  }

  lemma ScopeFacts(s: State)
    ensures var s' := EnsureScope(s);
            s'.scope == s'.database == s.database && s'.now == s.now && s'.overview == s.overview && s'.task == s.task
  {
  }

  lemma IssueKeepsBase(s: State, w: nat)
    requires Base(s)
    ensures Base(Step(s, Issue(w)))
  {
    hide TaskOk, Distinct, Missing, StartTask, EnsureScope;
    if s.task.Some? && w < |s.task.value.workers| && s.task.value.workers[w].Ready? {
      var t := s.task.value;
      ReturnKeepsTask(t, w, Returned, t.(workers := t.workers[w := Returned]));
      if t.cursor < |t.names| {
        AskKeepsTask(t, w, s.now, t.(cursor := t.cursor + 1, workers := t.workers[w := InFlight(t.cursor, s.now)]));
      }
    }
  }

  lemma ReplyKeepsBase(s: State, w: nat, ok: bool)
    requires Base(s)
    ensures Base(Step(s, Reply(w, ok)))
  {
    hide TaskOk, Distinct, Missing, StartTask, EnsureScope;
    if s.task.Some? && w < |s.task.value.workers| && s.task.value.workers[w].InFlight? {
      var t := s.task.value;
      ReturnKeepsTask(t, w, Returned, t.(workers := t.workers[w := Returned]));
      ReturnKeepsTask(t, w, Ready, t.(workers := t.workers[w := Ready]));
      TaskHasDatabase(t);
    }
  }

  lemma TaskHasDatabase(t: Task)
    requires TaskOk(t)
    ensures t.database.Some?
  {
  }

  lemma StepKeepsBase(s: State, e: Event)
    requires Base(s) && Listed(e)
    ensures Base(Step(s, e))
  {
    hide Base, Step, Listed;
    match e {
      case Load => LoadKeepsBase(s);
      case Issue(w) => IssueKeepsBase(s, w);
      case Reply(w, ok) => ReplyKeepsBase(s, w, ok);
      case _ => PageKeepsBase(s, e);
    }
  }

  lemma PageKeepsBase(s: State, e: Event)
    requires Base(s) && Listed(e) && !e.Load? && !e.Issue? && !e.Reply?
    ensures Base(Step(s, e))
  {
    hide TaskOk, StartTask, Missing, Current;
  }

  lemma {:induction false} RunKeepsBase(s: State, es: seq<Event>)
    requires Run(s, es)
    ensures Base(After(s, es)) && After(s, es).now == |es|
  {
    if |es| > 0 {
      hide Base, Step, Listed;
      RunKeepsBase(s, es[..|es| - 1]);
      StepKeepsBase(After(s, es[..|es| - 1]), es[|es| - 1]);
      StepTakesTime(After(s, es[..|es| - 1]), es[|es| - 1]);
    }
  }

  lemma StepTakesTime(s: State, e: Event)
    ensures Step(s, e).now == s.now + 1
  {
  }

  /** Whatever happens, every stored summary belongs to the scope. */
  lemma EntriesBelongToScope(s: State, es: seq<Event>, n: Name)
    requires Run(s, es) && n in After(s, es).summaries
    ensures After(s, es).summaries[n].database == After(s, es).scope
  {
    RunKeepsBase(s, es);
  }

  function InFlightOf(ws: seq<Worker>): nat {
    if |ws| == 0 then 0 else InFlightOf(ws[..|ws| - 1]) + (if ws[|ws| - 1].InFlight? then 1 else 0)
  }

  lemma {:induction false} InFlightBound(ws: seq<Worker>)
    ensures InFlightOf(ws) <= |ws|
  {
    if |ws| > 0 {
      InFlightBound(ws[..|ws| - 1]);
    }
  }

  /** At no time are more than four summary requests in flight, outdated ones included. */
  lemma AtMostFourInFlight(s: State, es: seq<Event>)
    requires Run(s, es) && After(s, es).task.Some?
    ensures InFlightOf(After(s, es).task.value.workers) <= 4
  {
    RunKeepsBase(s, es);
    InFlightBound(After(s, es).task.value.workers);
  }

  /** The collection an event asks the server about, if it does. */
  function Asks(s: State, e: Event): Option<Name> {
    if e.Issue? && s.task.Some? && e.worker < |s.task.value.workers| && s.task.value.workers[e.worker].Ready?
       && s.task.value.cursor < |s.task.value.names| && Current(s, s.task.value)
    then Some(s.task.value.names[s.task.value.cursor]) else None
  }

  lemma TaskMoves(s: State, e: Event)
    requires s.task.Some? && Step(s, e).task.Some?
    ensures var t, u := s.task.value, Step(s, e).task.value;
            u.generation == t.generation && u.names == t.names && u.cursor >= t.cursor
  {
    hide Missing, StartTask, Current;
  }

  lemma TaskStep(s: State, e: Event)
    ensures Step(s, e).generation >= s.generation
    ensures s.task.Some? && Step(s, e).task.Some? ==>
              var t, u := s.task.value, Step(s, e).task.value;
              u.generation == t.generation && u.names == t.names && u.cursor >= t.cursor
    ensures s.task.None? && Step(s, e).task.Some? ==> Step(s, e).task.value.generation > s.generation
  {
    hide Missing, Current, Distinct;
    if s.task.Some? && Step(s, e).task.Some? {
      TaskMoves(s, e);
    }
  }

  /** While a task lives its list stays and its cursor only advances; a later task
      has a later generation. */
  lemma {:induction false} TaskPersists(s: State, es: seq<Event>, i: nat, j: nat)
    requires Run(s, es) && i <= j <= |es|
    requires After(s, es[..i]).task.Some?
    ensures After(s, es[..j]).generation >= After(s, es[..i]).generation
    ensures var t := After(s, es[..i]).task.value;
            After(s, es[..j]).task.Some? ==>
              var u := After(s, es[..j]).task.value;
              u.generation >= t.generation &&
              (u.generation == t.generation ==> u.names == t.names && u.cursor >= t.cursor)
    decreases j
  {
    hide Step, TaskOk;
    RunKeepsBase(s, es[..i]);
    if i < j {
      assert es[..j][..j - 1] == es[..j - 1];
      TaskPersists(s, es, i, j - 1);
      TaskStep(After(s, es[..j - 1]), es[j - 1]);
    }
  }

  /** No task asks about a collection twice. */
  lemma AskedOnce(s: State, es: seq<Event>, i: nat, j: nat)
    requires Run(s, es) && i < j < |es|
    requires Asks(After(s, es[..i]), es[i]).Some? && Asks(After(s, es[..j]), es[j]).Some?
    requires After(s, es[..i]).task.value.generation == After(s, es[..j]).task.value.generation
    ensures Asks(After(s, es[..i]), es[i]) != Asks(After(s, es[..j]), es[j])
  {
    assert es[..i + 1][..i] == es[..i];
    TaskPersists(s, es, i + 1, j);
    RunKeepsBase(s, es[..j]);
  }

  // --------------------------------------------------------- writes and requests

  lemma WriteStep(s: State, e: Event, key: (Selection, Name))
    requires forall k :: k in s.writes ==> s.writes[k] < s.now
    ensures key in s.writes ==> key in Step(s, e).writes && Step(s, e).writes[key] >= s.writes[key]
    ensures e.WriteReported? && key == (e.database, e.collection) ==>
              key in Step(s, e).writes && Step(s, e).writes[key] == s.now
  {
  }

  /** The bookkeeping remembers every reported write. */
  lemma {:induction false} WritesRemembered(s: State, es: seq<Event>, k: nat)
    requires Run(s, es) && k < |es| && es[k].WriteReported?
    ensures var key := (es[k].database, es[k].collection);
            key in After(s, es).writes && After(s, es).writes[key] >= k
    decreases |es|
  {
    hide Step, TaskOk;
    var n := |es| - 1;
    RunKeepsBase(s, es[..n]);
    WriteStep(After(s, es[..n]), es[n], (es[k].database, es[k].collection));
    if k < n {
      WritesRemembered(s, es[..n], k);
    }
  }

  /** Event `a` of the run asked the server about collection `n` of database `d`. */
  predicate Asked(s: State, es: seq<Event>, a: nat, d: Selection, n: Name) {
    a < |es| && Asks(After(s, es[..a]), es[a]) == Some(n) && After(s, es[..a]).database == d
  }

  /** The workers' request times point at the loop heads that made the requests. */
  predicate WorkersAsked(s: State, t: Task, es: seq<Event>) {
    forall w :: 0 <= w < |t.workers| && t.workers[w].InFlight? && t.workers[w].index < |t.names| ==>
      Asked(s, es, t.workers[w].asked, t.database, t.names[t.workers[w].index])
  }

  predicate AskedAt(s: State, p: State, es: seq<Event>) {
    && (forall n :: n in p.summaries ==> Asked(s, es, p.summaries[n].asked, p.summaries[n].database, n))
    && (p.task.Some? ==> WorkersAsked(s, p.task.value, es))
  }

  lemma NothingAsked(s: State)
    requires Init(s)
    ensures AskedAt(s, s, [])
  {
  }

  lemma {:induction false} RunAsked(s: State, es: seq<Event>)
    requires Run(s, es)
    ensures AskedAt(s, After(s, es), es)
  {
    hide Step, AskedAt, Base;
    if |es| == 0 {
      NothingAsked(s);
    } else {
      var n := |es| - 1;
      RunAsked(s, es[..n]);
      RunKeepsBase(s, es[..n]);
      StepAsked(s, es[..n], es[n]);
      assert es[..n] + [es[n]] == es;
    }
  }

  lemma StillAsked(s: State, es: seq<Event>, e: Event, a: nat, d: Selection, n: Name)
    requires Asked(s, es, a, d, n)
    ensures Asked(s, es + [e], a, d, n)
  {
    assert (es + [e])[..a] == es[..a];
  }

  lemma NowAsked(s: State, es: seq<Event>, e: Event, n: Name)
    requires Asks(After(s, es), e) == Some(n)
    ensures Asked(s, es + [e], |es|, After(s, es).database, n)
  {
    assert (es + [e])[..|es|] == es;
  }

  lemma AllStillAsked(s: State, p: State, es: seq<Event>, e: Event)
    requires AskedAt(s, p, es)
    ensures AskedAt(s, p, es + [e])
  {
    hide Asked;
    forall a, d, n | Asked(s, es, a, d, n) ensures Asked(s, es + [e], a, d, n) {
      StillAsked(s, es, e, a, d, n);
    }
  }

  lemma WorkerAsked(s: State, t: Task, es: seq<Event>, w: nat, cursor: nat, x: Worker)
    requires WorkersAsked(s, t, es) && w < |t.workers|
    requires x.InFlight? && x.index < |t.names| ==> Asked(s, es, x.asked, t.database, t.names[x.index])
    ensures WorkersAsked(s, t.(cursor := cursor, workers := t.workers[w := x]), es)
  {
    hide Asked;
  }

  lemma AskedIn(s: State, t: Task, es: seq<Event>, w: nat)
    requires WorkersAsked(s, t, es) && w < |t.workers| && t.workers[w].InFlight? && t.workers[w].index < |t.names|
    ensures Asked(s, es, t.workers[w].asked, t.database, t.names[t.workers[w].index])
  {
  }

  lemma AllReady(s: State, t: Task, es: seq<Event>)
    requires forall w :: 0 <= w < |t.workers| ==> t.workers[w] == Ready
    ensures WorkersAsked(s, t, es)
  {
  }

  lemma StepAskedStored(s: State, es: seq<Event>, e: Event)
    requires AskedAt(s, After(s, es), es)
    ensures var p' := Step(After(s, es), e);
            forall n :: n in p'.summaries ==> Asked(s, es + [e], p'.summaries[n].asked, p'.summaries[n].database, n)
  {
    hide Asked, Missing, Current, WorkersAsked, After;
    var p := After(s, es);
    AllStillAsked(s, p, es, e);
    if e.Reply? && p.task.Some? && e.worker < |p.task.value.workers| {
      var t := p.task.value;
      if t.workers[e.worker].InFlight? && t.workers[e.worker].index < |t.names| {
        AskedIn(s, t, es + [e], e.worker);
      }
    }
  }

  lemma StepAskedTask(s: State, es: seq<Event>, e: Event)
    requires AskedAt(s, After(s, es), es) && After(s, es).now == |es| && Step(After(s, es), e).task.Some?
    ensures WorkersAsked(s, Step(After(s, es), e).task.value, es + [e])
  {
    hide Asked, Missing, WorkersAsked, After;
    var p, es' := After(s, es), es + [e];
    AllStillAsked(s, p, es, e);
    if p.task.None? {
      AllReady(s, Step(p, e).task.value, es');
    } else if (e.Issue? || e.Reply?) && e.worker < |p.task.value.workers| {
      var t, w := p.task.value, e.worker;
      WorkerAsked(s, t, es', w, t.cursor, Ready);
      WorkerAsked(s, t, es', w, t.cursor, Returned);
      if e.Issue? && Asks(p, e).Some? {
        NowAsked(s, es, e, t.names[t.cursor]);
        WorkerAsked(s, t, es', w, t.cursor + 1, InFlight(t.cursor, p.now));
      }
    }
  }

  lemma StepAsked(s: State, es: seq<Event>, e: Event)
    requires AskedAt(s, After(s, es), es) && After(s, es).now == |es|
    ensures AskedAt(s, Step(After(s, es), e), es + [e])
  {
    hide Asked, WorkersAsked, After, Step;
    StepAskedStored(s, es, e);
    if Step(After(s, es), e).task.Some? {
      StepAskedTask(s, es, e);
    }
  }

  // --------------------------------------------- invariant of runs with safe boots

  /** No entry and no task that could become current again. */
  predicate Calm(s: State) {
    s.summaries == map[] && (s.task.Some? ==> s.task.value.generation < s.generation)
  }

  /** The boot reply names the database in scope, or there is nothing it could outdate. */
  predicate SafeBoot(s: State, name: Name) {
    s.scope == Some(name) || Calm(s)
  }

  predicate Legal(s: State, e: Event) {
    Listed(e) && (e.Boot? ==> SafeBoot(s, e.name))
  }

  /** No write to the collection was reported since `asked`. */
  predicate Fresh(s: State, database: Selection, name: Name, asked: nat) {
    asked < s.now && ((database, name) in s.writes ==> s.writes[(database, name)] < asked)
  }

  predicate SummariesFresh(s: State) {
    forall n :: n in s.summaries ==> Fresh(s, s.scope, n, s.summaries[n].asked)
  }

  predicate Covered(s: State, t: Task, j: nat)
    requires j < |t.names|
  {
    t.names[j] in s.summaries || exists w :: 0 <= w < |t.workers| && t.workers[w].InFlight? && t.workers[w].index == j
  }

  /** While no event has outdated the task. */
  predicate CurrentOk(s: State, t: Task)
    requires t.cursor <= |t.names|
  {
    && (forall j :: 0 <= j < t.cursor ==> Covered(s, t, j))
    && (forall w :: 0 <= w < |t.workers| && t.workers[w].Returned? ==> t.cursor == |t.names|)
    && (forall w :: 0 <= w < |t.workers| && t.workers[w].InFlight? && t.workers[w].index < |t.names| ==>
          Fresh(s, t.database, t.names[t.workers[w].index], t.workers[w].asked))
  }

  predicate Live(s: State) {
    s.task.Some? && s.task.value.generation == s.generation
  }

  predicate LiveOk(s: State) {
    Live(s) ==> s.task.value.cursor <= |s.task.value.names| && CurrentOk(s, s.task.value)
  }

  predicate Inv(s: State) {
    Base(s) && SummariesFresh(s) && (s.scope != s.database ==> Calm(s)) && LiveOk(s)
  }

  lemma PageKeepsFresh(s: State, e: Event)
    requires Inv(s) && Legal(s, e) && !e.Load? && !e.Issue? && !e.Reply?
    ensures SummariesFresh(Step(s, e))
  {
    hide TaskOk, StartTask, Missing, Current, Distinct, LiveOk;
  }

  lemma PageKeepsScope(s: State, e: Event)
    requires Base(s) && Legal(s, e) && (s.scope != s.database ==> Calm(s)) && !e.Load? && !e.Issue? && !e.Reply?
    ensures var s' := Step(s, e); s'.scope != s'.database ==> Calm(s')
  {
    hide TaskOk, StartTask, Missing, Current, Distinct;
  }

  /** Events that leave the task and its claims alone. */
  lemma QuietKeepsCurrent(s: State, s': State, t: Task)
    requires t.cursor <= |t.names| && CurrentOk(s, t)
    requires s'.now >= s.now && s'.summaries == s.summaries
    requires forall k :: k in s'.writes && k.0 == t.database ==> k in s.writes && s.writes[k] == s'.writes[k]
    ensures CurrentOk(s', t)
  {
    forall j | 0 <= j < t.cursor ensures Covered(s', t, j) {
      assert Covered(s, t, j);
    }
  }

  lemma PageKeepsLive(s: State, e: Event)
    requires Inv(s) && Legal(s, e) && !e.Load? && !e.Issue? && !e.Reply?
    ensures LiveOk(Step(s, e))
  {
    hide TaskOk, StartTask, Missing, Current, Distinct, CurrentOk, SummariesFresh;
    var s' := Step(s, e);
    if Live(s') {
      QuietKeepsCurrent(s, s', s'.task.value);
    }
  }

  lemma PageKeepsInv(s: State, e: Event)
    requires Inv(s) && Legal(s, e) && !e.Load? && !e.Issue? && !e.Reply?
    ensures Inv(Step(s, e))
  {
    hide Base, Step, SummariesFresh, Calm, LiveOk, SafeBoot;
    StepKeepsBase(s, e);
    PageKeepsFresh(s, e);
    PageKeepsScope(s, e);
    PageKeepsLive(s, e);
  }

  lemma StartKeepsInv(s: State)
    requires Inv(s) && s.task.None? && s.overview && s.database.Some? && s.scope == s.database
    ensures Inv(StartTask(s).(now := s.now + 1))
  {
    StartIsOk(s);
  }

  /** Time passing, and the scope catching up with the database, hurt nothing. */
  lemma IdleKeepsInv(s: State)
    requires Inv(s)
    ensures Inv(EnsureScope(s)) && Inv(s.(now := s.now + 1)) && Inv(EnsureScope(s).(now := s.now + 1))
  {
    hide TaskOk, CurrentOk;
    ScopeKeepsBase(s);
    if Live(s) {
      QuietKeepsCurrent(s, s.(now := s.now + 1), s.task.value);
    }
  }

  lemma LoadKeepsInv(s: State)
    requires Inv(s)
    ensures Inv(Step(s, Load))
  {
    hide Inv, StartTask, EnsureScope;
    IdleKeepsInv(s);
    ScopeFacts(s);
    if s.overview && s.database.Some? && s.task.None? {
      StartKeepsInv(EnsureScope(s));
    }
  }

  lemma AskKeepsCurrent(s: State, t: Task, w: nat, s': State, t': Task)
    requires Base(s) && TaskOk(t) && CurrentOk(s, t) && w < |t.workers| && t.workers[w].Ready? && t.cursor < |t.names|
    requires t' == t.(cursor := t.cursor + 1, workers := t.workers[w := InFlight(t.cursor, s.now)])
    requires s' == s.(task := Some(t'), now := s.now + 1)
    ensures CurrentOk(s', t')
  {
    forall j | 0 <= j < t'.cursor ensures Covered(s', t', j) {
      if j < t.cursor {
        CoverStays(s, t, w, j, t'.cursor, t'.workers[w]);
        assert Covered(s, t', j);
      } else {
        assert t'.workers[w].index == j;
      }
    }
  }

  /** Changing a worker that is not waiting for `j` leaves `j` covered. */
  lemma CoverStays(s: State, t: Task, w: nat, j: nat, cursor: nat, x: Worker)
    requires w < |t.workers| && j < |t.names| && Covered(s, t, j)
    requires t.workers[w].InFlight? ==> t.workers[w].index != j
    ensures Covered(s, t.(cursor := cursor, workers := t.workers[w := x]), j)
  {
    if t.names[j] !in s.summaries {
      var v :| 0 <= v < |t.workers| && t.workers[v].InFlight? && t.workers[v].index == j;
      assert t.workers[w := x][v] == t.workers[v];
    }
  }

  lemma ReturnKeepsCurrent(s: State, t: Task, w: nat, x: Worker, s': State, t': Task)
    requires TaskOk(t) && CurrentOk(s, t) && w < |t.workers| && !x.InFlight?
    requires x.Returned? ==> t.cursor == |t.names|
    requires t' == t.(workers := t.workers[w := x]) && s' == s.(task := Some(t'), now := s.now + 1, summaries := s'.summaries)
    requires forall n :: n in s.summaries ==> n in s'.summaries
    requires t.workers[w].InFlight? ==> t.names[t.workers[w].index] in s'.summaries
    ensures CurrentOk(s', t')
  {
    forall j | 0 <= j < t'.cursor ensures Covered(s', t', j) {
      assert Covered(s, t, j);
      if !(t.workers[w].InFlight? && t.workers[w].index == j) {
        CoverStays(s, t, w, j, t.cursor, x);
        assert Covered(s, t', j);
      }
    }
  }

  /** Under the invariant a task of the present generation is current. */
  lemma LiveIsCurrent(s: State)
    requires Inv(s) && s.task.Some?
    ensures TaskOk(s.task.value) && s.task.value.cursor <= |s.task.value.names| && s.task.value.database.Some?
    ensures Live(s) ==> Current(s, s.task.value) && s.scope == s.database && CurrentOk(s, s.task.value)
    ensures Current(s, s.task.value) ==> Live(s)
  {
  }

  lemma IssueKeepsLive(s: State, w: nat)
    requires Inv(s)
    ensures LiveOk(Step(s, Issue(w)))
  {
    hide CurrentOk, TaskOk, Inv;
    IdleInv(s);
    var s' := Step(s, Issue(w));
    if s.task.Some? {
      LiveIsCurrent(s);
      var t := s.task.value;
      if w < |t.workers| && t.workers[w].Ready? && Live(s) {
        BaseOf(s);
        var t' := s'.task.value;
        if t.cursor < |t.names| {
          AskKeepsCurrent(s, t, w, s', t');
          AskKeepsTask(t, w, s.now, t');
        } else {
          ReturnKeepsCurrent(s, t, w, Returned, s', t');
        }
      }
    }
  }

  lemma BaseOf(s: State)
    requires Inv(s)
    ensures Base(s)
  {
  }

  lemma IdleInv(s: State)
    requires Inv(s)
    ensures LiveOk(s.(now := s.now + 1))
  {
    IdleKeepsInv(s);
  }

  lemma ReplyIsFresh(s: State, t: Task, w: nat)
    requires TaskOk(t) && CurrentOk(s, t) && w < |t.workers| && t.workers[w].InFlight?
    ensures t.workers[w].index < |t.names| && Fresh(s, t.database, t.names[t.workers[w].index], t.workers[w].asked)
  {
  }

  lemma ReplyKeepsLive(s: State, w: nat, ok: bool)
    requires Inv(s)
    ensures LiveOk(Step(s, Reply(w, ok)))
  {
    hide CurrentOk, TaskOk, Inv;
    IdleInv(s);
    var s' := Step(s, Reply(w, ok));
    if s.task.Some? {
      LiveIsCurrent(s);
      var t := s.task.value;
      if w < |t.workers| && t.workers[w].InFlight? && Live(s) {
        FlightInRange(t, w);
        ReturnKeepsCurrent(s, t, w, Ready, s', s'.task.value);
      }
    }
  }

  lemma WorkerKeepsFresh(s: State, e: Event)
    requires Inv(s) && (e.Issue? || e.Reply?)
    ensures SummariesFresh(Step(s, e))
  {
    hide CurrentOk, TaskOk, Distinct;
    if s.task.Some? && e.worker < |s.task.value.workers| && s.task.value.workers[e.worker].InFlight? {
      LiveIsCurrent(s);
      if Live(s) {
        ReplyIsFresh(s, s.task.value, e.worker);
      }
    }
  }

  lemma WorkerKeepsScope(s: State, e: Event)
    requires Inv(s) && (e.Issue? || e.Reply?)
    ensures var s' := Step(s, e); s'.scope != s'.database ==> Calm(s')
  {
    hide CurrentOk, TaskOk, Distinct;
    if s.task.Some? {
      LiveIsCurrent(s);
    }
  }

  lemma WorkerKeepsInv(s: State, e: Event)
    requires Inv(s) && (e.Issue? || e.Reply?)
    ensures Inv(Step(s, e))
  {
    hide Base, Step, SummariesFresh, Calm, LiveOk;
    StepKeepsBase(s, e);
    WorkerKeepsFresh(s, e);
    WorkerKeepsScope(s, e);
    match e {
      case Issue(w) => IssueKeepsLive(s, w);
      case Reply(w, ok) => ReplyKeepsLive(s, w, ok);
    }
  }

  lemma StepKeepsInv(s: State, e: Event)
    requires Inv(s) && Legal(s, e)
    ensures Inv(Step(s, e))
  {
    hide Inv, Step, Legal;
    match e {
      case Load => LoadKeepsInv(s);
      case Issue(_) => WorkerKeepsInv(s, e);
      case Reply(_, _) => WorkerKeepsInv(s, e);
      case _ => PageKeepsInv(s, e);
    }
  }

  // ------------------------------------------------------ results over safe runs

  /** Every event is legal in the state that it meets. */
  predicate Goes(s: State, es: seq<Event>) {
    forall k :: 0 <= k < |es| ==> Legal(After(s, es[..k]), es[k])
  }

  lemma GoesBack(s: State, es: seq<Event>)
    requires Goes(s, es) && |es| > 0
    ensures Goes(s, es[..|es| - 1]) && Legal(After(s, es[..|es| - 1]), es[|es| - 1])
  {
    forall k | 0 <= k < |es| - 1 ensures Legal(After(s, es[..|es| - 1][..k]), es[k]) {
      assert es[..|es| - 1][..k] == es[..k];
    }
  }

  lemma {:induction false} GoesKeepsInv(s: State, es: seq<Event>)
    requires Inv(s) && Goes(s, es)
    ensures Inv(After(s, es))
    decreases |es|
  {
    hide Inv, Step, Legal, Goes;
    if |es| > 0 {
      GoesBack(s, es);
      GoesKeepsInv(s, es[..|es| - 1]);
      StepKeepsInv(After(s, es[..|es| - 1]), es[|es| - 1]);
    }
  }

  /** A run in which every boot reply is safe when it arrives. */
  predicate SafeRun(s: State, es: seq<Event>) {
    Run(s, es) && Goes(s, es)
  }

  lemma RunKeepsInv(s: State, es: seq<Event>)
    requires SafeRun(s, es)
    ensures Inv(After(s, es))
  {
    GoesKeepsInv(s, es);
  }

  /** Every stored summary belongs to the current scope, and was requested after
      the last reported write to its collection. */
  lemma StoredIsFresh(s: State, es: seq<Event>, n: Name, k: nat)
    requires SafeRun(s, es) && n in After(s, es).summaries && k < |es|
    ensures var p := After(s, es);
            var a := p.summaries[n].asked;
            && p.summaries[n].database == p.scope == p.database
            && Asked(s, es, a, p.scope, n)
            && (es[k] == WriteReported(p.scope, n) ==> k < a)
  {
    hide Goes, Asked;
    RunKeepsInv(s, es);
    RunKeepsBase(s, es);
    RunAsked(s, es);
    if es[k] == WriteReported(After(s, es).scope, n) {
      WritesRemembered(s, es, k);
    }
  }

  /** What the page may rely on: shown entries are fresh, and a task that settles
      while it is current has left an entry for every collection of its list. */
  predicate Sound(s: State) {
    && (s.database == s.scope ==> SummariesFresh(s))
    && (s.task.Some? && Current(s, s.task.value) && Step(s, Settle).task.None? ==>
          forall n :: n in s.task.value.names ==> n in s.summaries)
  }

  lemma InvIsSound(s: State)
    requires Inv(s)
    ensures Sound(s)
  {
    if s.task.Some? && Current(s, s.task.value) && Step(s, Settle).task.None? {
      var t := s.task.value;
      forall n | n in t.names ensures n in s.summaries {
        var j :| 0 <= j < |t.names| && t.names[j] == n;
        assert t.workers[0] == Returned;
        assert Covered(s, t, j);
      }
    }
  }

  /** A task that is still current when it settles has left an entry for every
      collection of its list. */
  lemma SettledIsComplete(s: State, es: seq<Event>)
    requires SafeRun(s, es) && After(s, es).task.Some? && Current(After(s, es), After(s, es).task.value)
    requires Step(After(s, es), Settle).task.None?
    ensures forall n :: n in After(s, es).task.value.names ==> n in After(s, es).summaries
  {
    RunKeepsInv(s, es);
    InvIsSound(After(s, es));
  }

  // --------------------------------------------------------------- unsafe boots

  /** One boot reply keeps the invariant exactly when it is safe. */
  lemma BootStep(s: State, name: Name)
    requires Inv(s)
    ensures Inv(Step(s, Boot(name))) <==> SafeBoot(s, name)
  {
    if SafeBoot(s, name) {
      StepKeepsInv(s, Boot(name));
    }
  }

  lemma TwoAfter(s: State, a: Event, b: Event)
    ensures After(s, [a, b]) == Step(Step(s, a), b)
  {
    hide Step;
    assert [a, b][..1] == [a] && [a][..0] == [];
    assert After(s, [a]) == Step(After(s, []), a);
  }

  lemma {:induction false} AfterThen(s: State, a: seq<Event>, b: seq<Event>)
    ensures After(s, a + b) == After(After(s, a), b)
    decreases |b|
  {
    hide Step;
    if |b| == 0 {
      assert a + b == a;
    } else {
      assert (a + b)[..|a + b| - 1] == a + b[..|b| - 1];
      AfterThen(s, a, b[..|b| - 1]);
    }
  }

  /** No boot and no list: legal in any state. */
  predicate Plain(es: seq<Event>) {
    forall k :: 0 <= k < |es| ==> !es[k].Boot? && !es[k].SetCollections?
  }

  lemma PlainGoes(s: State, es: seq<Event>)
    requires Plain(es)
    ensures Goes(s, es)
  {
  }

  /** A stored entry misses a write that is reported while the page shows another database. */
  lemma EntryGoesStale(s: State, name: Name, n: Name) returns (es: seq<Event>)
    requires Inv(s) && s.scope != Some(name) && n in s.summaries
    ensures Plain(es) && !Sound(After(Step(s, Boot(name)), es))
  {
    hide TaskOk, CurrentOk, Distinct, Missing, StartTask;
    var p := Step(s, Boot(name));
    var a, b := WriteReported(s.scope, n), Switch(s.scope);
    es := [a, b];
    TwoAfter(p, a, b);
    var q := Step(Step(p, a), b);
    assert q.summaries == s.summaries && q.scope == q.database == s.scope;
    assert q.writes[(s.scope, n)] == s.now + 1;
    assert !Fresh(q, q.scope, n, q.summaries[n].asked);
  }

  /** So does a request in flight, once its reply is stored. */
  lemma RequestGoesStale(s: State, name: Name, w: nat) returns (es: seq<Event>)
    requires Inv(s) && s.scope != Some(name) && Live(s)
    requires w < |s.task.value.workers| && s.task.value.workers[w].InFlight?
    ensures Plain(es) && !Sound(After(Step(s, Boot(name)), es))
  {
    hide TaskOk, CurrentOk, Distinct, Missing, StartTask;
    LiveIsCurrent(s);
    var t := s.task.value;
    ReplyIsFresh(s, t, w);
    var n := t.names[t.workers[w].index];
    var p := Step(s, Boot(name));
    var a, b, c := WriteReported(s.scope, n), Switch(s.scope), Reply(w, true);
    es := [a, b] + [c];
    TwoAfter(p, a, b);
    var q := Step(Step(p, a), b);
    assert es[..2] == [a, b];
    assert After(p, es) == Step(q, c);
    assert q.task == s.task && Current(q, t);
    var r := Step(q, c);
    assert n in r.summaries && r.summaries[n].asked == t.workers[w].asked;
    assert r.writes[(s.scope, n)] == s.now + 1 && r.scope == r.database == s.scope;
    assert !Fresh(r, r.scope, n, r.summaries[n].asked);
  }

  function Issues(j: nat): seq<Event> {
    seq(j, (i: nat) => Issue(i))
  }

  lemma WorkerLeaves(p: State, w: nat)
    requires p.task.Some? && !Current(p, p.task.value) && w < |p.task.value.workers| && p.task.value.workers[w].Ready?
    ensures var t := p.task.value;
            Step(p, Issue(w)) == p.(task := Some(t.(workers := t.workers[w := Returned])), now := p.now + 1)
  {
    hide Missing, StartTask, EnsureScope;
  }

  /** The first `j` workers find the task outdated and return. */
  lemma {:induction false} WorkersLeave(p: State, j: nat)
    requires p.task.Some? && !Current(p, p.task.value) && j <= |p.task.value.workers|
    requires forall w :: 0 <= w < |p.task.value.workers| ==> p.task.value.workers[w] == Ready
    ensures var t := p.task.value;
            var left := seq(|t.workers|, w => if w < j then Returned else Ready);
            After(p, Issues(j)) == p.(task := Some(t.(workers := left)), now := p.now + j)
    decreases j
  {
    hide Step;
    var t := p.task.value;
    if j == 0 {
      assert t.workers == seq(|t.workers|, w => if w < 0 then Returned else Ready);
    } else {
      WorkersLeave(p, j - 1);
      assert Issues(j)[..j - 1] == Issues(j - 1);
      var before := seq(|t.workers|, w => if w < j - 1 then Returned else Ready);
      WorkerLeaves(After(p, Issues(j - 1)), j - 1);
      assert before[j - 1 := Returned] == seq(|t.workers|, w => if w < j then Returned else Ready);
    }
  }

  /** A task that has asked nothing yet is abandoned by its workers, and current again. */
  lemma TaskIsCutShort(s: State, name: Name) returns (es: seq<Event>)
    requires Inv(s) && s.scope != Some(name) && Live(s) && s.summaries == map[]
    requires forall w :: 0 <= w < |s.task.value.workers| ==> !s.task.value.workers[w].InFlight?
    ensures Plain(es) && !Sound(After(Step(s, Boot(name)), es))
  {
    LiveIsCurrent(s);
    var t := s.task.value;
    var k := |t.workers|;
    AllAtStart(s);
    var p := Step(s, Boot(name));
    var back := [Switch(s.scope)];
    es := Issues(k) + back;
    AfterThen(p, Issues(k), back);
    WorkersLeave(p, k);
    var q := After(p, Issues(k));
    assert back[..0] == [];
    assert After(q, back) == Step(q, Switch(s.scope));
    var r := Step(q, Switch(s.scope));
    assert r.summaries == map[] && r.task.value.names == t.names && Current(r, r.task.value);
    assert Step(r, Settle).task.None?;
    assert t.names[0] in t.names;
  }

  lemma AllAtStart(s: State)
    requires Inv(s) && Live(s) && s.summaries == map[]
    requires forall w :: 0 <= w < |s.task.value.workers| ==> !s.task.value.workers[w].InFlight?
    ensures forall w :: 0 <= w < |s.task.value.workers| ==> s.task.value.workers[w] == Ready
  {
    var t := s.task.value;
    assert !Covered(s, t, 0);
  }

  lemma UnsafeBootBreaks(s: State, name: Name) returns (es: seq<Event>)
    requires Inv(s) && !SafeBoot(s, name)
    ensures Plain(es) && !Sound(After(Step(s, Boot(name)), es))
  {
    hide Inv, Sound, Step;
    if n :| n in s.summaries {
      es := EntryGoesStale(s, name, n);
    } else if w :| Live(s) && 0 <= w < |s.task.value.workers| && s.task.value.workers[w].InFlight? {
      es := RequestGoesStale(s, name, w);
    } else {
      assert s.summaries == map[];
      BaseOf(s);
      es := TaskIsCutShort(s, name);
    }
  }

  /** Exactly the safe boot replies leave the page sound for good. */
  lemma BootIsSafeExactly(s: State, name: Name)
    requires Inv(s)
    ensures SafeBoot(s, name) <==>
            forall es :: Goes(Step(s, Boot(name)), es) ==> Sound(After(Step(s, Boot(name)), es))
  {
    hide Inv, Sound, Step, Goes, SafeBoot;
    var p := Step(s, Boot(name));
    BootStep(s, name);
    if SafeBoot(s, name) {
      forall es | Goes(p, es) ensures Sound(After(p, es)) {
        GoesKeepsInv(p, es);
        InvIsSound(After(p, es));
      }
    } else {
      var es := UnsafeBootBreaks(s, name);
      PlainGoes(p, es);
    }
  }

  lemma FirstSteps(s: State, y: Name, n: Name)
    requires s == State(None, true, [], 0, None, map[], None, 0, map[])
    ensures Step(Step(s, Switch(Some(y))), SetCollections([n]))
            == State(Some(y), true, [n], 1, Some(y), map[], None, 2, map[])
  {
    hide Missing, StartTask;
  }

  lemma LoadStep(p: State, n: Name)
    requires p.overview && p.database.Some? && p.scope == p.database && p.collections == [n]
    requires p.summaries == map[] && p.task.None?
    ensures Step(p, Load) == p.(generation := p.generation + 1, now := p.now + 1,
                                task := Some(Task(p.generation + 1, p.database, [n], 0, [Ready])))
  {
    assert [n][..0] == [] && Missing([], p.summaries) == [] && Missing([n], p.summaries) == [n];
    assert seq(1, _ => Ready) == [Ready];
  }

  lemma RequestSteps(p: State, n: Name)
    requires p.overview && p.scope == p.database
    requires p.task == Some(Task(p.generation, p.database, [n], 0, [Ready]))
    ensures var q := Step(Step(p, Issue(0)), Reply(0, true)); n in q.summaries && q.scope == p.scope
  {
    hide Missing, StartTask;
    var q := Step(p, Issue(0));
    assert [Ready][0 := InFlight(0, p.now)] == [InFlight(0, p.now)];
    assert q.task == Some(Task(p.generation, p.database, [n], 1, [InFlight(0, p.now)]));
  }

  /** A run from the start that loads a summary of `n` in database `y`. */
  lemma LoadedPage(y: Name, n: Name) returns (s: State, es: seq<Event>)
    ensures SafeRun(s, es) && n in After(s, es).summaries && After(s, es).scope == Some(y)
  {
    hide Step, Run, Goes;
    s := State(None, true, [], 0, None, map[], None, 0, map[]);
    es := Started(s);
    es := Extended(s, es, Switch(Some(y)));
    es := Extended(s, es, SetCollections([n]));
    FirstSteps(s, y, n);
    LoadStep(After(s, es), n);
    es := Extended(s, es, Load);
    RequestSteps(After(s, es), n);
    es := Extended(s, es, Issue(0));
    es := Extended(s, es, Reply(0, true));
  }

  lemma Started(s: State) returns (es: seq<Event>)
    requires Init(s)
    ensures SafeRun(s, es) && After(s, es) == s
  {
    es := [];
  }

  lemma Extended(s: State, es: seq<Event>, e: Event) returns (es': seq<Event>)
    requires SafeRun(s, es) && Listed(e) && !e.Boot?
    ensures SafeRun(s, es') && After(s, es') == Step(After(s, es), e)
  {
    hide Step;
    es' := es + [e];
    assert es'[..|es|] == es;
    forall k | 0 <= k < |es'| ensures Legal(After(s, es'[..k]), es'[k]) {
      if k < |es| {
        assert es'[..k] == es[..k];
      }
    }
  }

  /** The defect as a run from the start: a boot reply for `x` overtakes the choice of
      `y`, a write to `y` is reported, and the page shows `y` again with the old entry. */
  lemma BootOvertakes(x: Name, y: Name, n: Name) returns (s: State, es: seq<Event>)
    requires x != y
    ensures Run(s, es)
    ensures var p := After(s, es);
            && n in p.summaries && p.database == p.scope == Some(y)
            && (p.scope, n) in p.writes && p.summaries[n].asked < p.writes[(p.scope, n)]
  {
    var loaded;
    s, loaded := LoadedPage(y, n);
    RunKeepsInv(s, loaded);
    hide SafeRun, Goes, TaskOk, LiveOk, Missing, StartTask;
    var p := After(s, loaded);
    var a, b, c := Boot(x), WriteReported(Some(y), n), Switch(Some(y));
    es := loaded + [a] + [b, c];
    AfterThen(s, loaded + [a], [b, c]);
    AfterThen(s, loaded, [a]);
    assert [a][..0] == [];
    assert After(p, [a]) == Step(After(p, []), a);
    TwoAfter(Step(p, a), b, c);
    SafeRunIsRun(s, loaded);
  }

  lemma SafeRunIsRun(s: State, es: seq<Event>)
    requires SafeRun(s, es)
    ensures Run(s, es)
  {
  }
}
