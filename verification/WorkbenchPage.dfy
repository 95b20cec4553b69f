/** The page object whose fields the loader updates in place. The fields know nothing
    of request times and writes; a ghost run state does, and every handler performs an
    event on it. */
module WorkbenchPage {
  import opened Wrappers
  import opened SummaryLoader

  datatype Slot = AtHead | Waiting(index: nat) | Left

  datatype LiveTask = LiveTask(generation: nat, database: Selection, names: seq<Name>, cursor: nat, slots: seq<Slot>)

  function SlotOf(x: Worker): Slot {
    match x
    case Ready => AtHead
    case InFlight(index, _) => Waiting(index)
    case Returned => Left
  }

  function SlotsOf(ws: seq<Worker>): (r: seq<Slot>)
    ensures |r| == |ws| && forall w :: 0 <= w < |ws| ==> r[w] == SlotOf(ws[w])
  {
    seq(|ws|, w requires 0 <= w < |ws| => SlotOf(ws[w]))
  }

  function TaskOf(t: Task): LiveTask {
    LiveTask(t.generation, t.database, t.names, t.cursor, SlotsOf(t.workers))
  }

  /** Whether each stored summary has counts. */
  function EntriesOf(m: map<Name, Summary>): map<Name, bool> {
    map n | n in m :: m[n].available
  }

  function WaitingIn(slots: seq<Slot>): nat {
    if |slots| == 0 then 0 else WaitingIn(slots[..|slots| - 1]) + (if slots[|slots| - 1].Waiting? then 1 else 0)
  }

  lemma {:induction false} SameWaiting(ws: seq<Worker>)
    ensures WaitingIn(SlotsOf(ws)) == InFlightOf(ws)
  {
    if |ws| > 0 {
      SameWaiting(ws[..|ws| - 1]);
      assert SlotsOf(ws)[..|ws| - 1] == SlotsOf(ws[..|ws| - 1]);
    }
  }

  /** Some event asked about collection `n` of database `d` after every reported write to it. */
  ghost predicate AskedSinceWrites(s: State, es: seq<Event>, d: Selection, n: Name) {
    exists a :: Asked(s, es, a, d, n) && forall k :: 0 <= k < |es| && es[k] == WriteReported(d, n) ==> k < a
  }

  class Page {
    var database: Selection
    var overview: bool
    var collections: seq<Name>
    var summaryGeneration: nat
    var summaryScope: Selection
    var collectionSummaries: map<Name, bool>
    var summaryTask: Option<LiveTask>
    ghost var run: State

    /** The fields are the run state without its bookkeeping. */
    ghost predicate Valid()
      reads this
    {
      && database == run.database && overview == run.overview && collections == run.collections
      && summaryGeneration == run.generation && summaryScope == run.scope
      && collectionSummaries == EntriesOf(run.summaries)
      && summaryTask == (if run.task.Some? then Some(TaskOf(run.task.value)) else None)
    }

    constructor (onOverview: bool)
      ensures Valid() && Init(run) && run.overview == onOverview
    {
      database, overview, collections := None, onOverview, [];
      summaryGeneration, summaryScope, collectionSummaries, summaryTask := 0, None, map[], None;
      run := State(None, onOverview, [], 0, None, map[], None, 0, map[]);
    }

    // ---------------------------------------------------------------- events

    /** The boot reply sets the database and nothing else. */
    method AdoptConnection(name: Name)
      requires Valid()
      modifies this
      ensures Valid() && run == Step(old(run), Boot(name))
    {
      database := Some(name);
      run := Step(run, Boot(name));
    }

    method EnsureSummaryScope()
      requires Valid()
      modifies this
      ensures Valid() && run == EnsureScope(old(run))
    {
      if summaryScope != database {
        summaryGeneration := summaryGeneration + 1;
        summaryScope := database;
        collectionSummaries := map[];
      }
      run := EnsureScope(run);
    }

    method SwitchDatabase(selected: Selection)
      requires Valid()
      modifies this
      ensures Valid() && run == Step(old(run), Switch(selected))
    {
      database := selected;
      collections := [];
      run := run.(database := selected, collections := []);
      EnsureSummaryScope();
      run := run.(now := run.now + 1);
    }

    method ListCollections(names: seq<Name>)
      requires Valid()
      modifies this
      ensures Valid() && run == Step(old(run), SetCollections(names))
    {
      collections := names;
      run := run.(collections := names);
      EnsureSummaryScope();
      run := run.(now := run.now + 1);
    }

    method ChangeView(toOverview: bool)
      requires Valid()
      modifies this
      ensures Valid() && run == Step(old(run), SetView(toOverview))
    {
      if overview && !toOverview {
        summaryGeneration := summaryGeneration + 1;
      }
      overview := toOverview;
      run := Step(run, SetView(toOverview));
    }

    method DropSummaries()
      requires Valid()
      modifies this
      ensures Valid() && run == Step(old(run), Refresh)
    {
      summaryGeneration := summaryGeneration + 1;
      collectionSummaries := map[];
      run := Step(run, Refresh);
    }

    method ForgetSummary(selected: Selection, collection: Name)
      requires Valid()
      modifies this
      ensures Valid() && run == Step(old(run), WriteReported(selected, collection))
    {
      if selected == database {
        summaryGeneration := summaryGeneration + 1;
        collectionSummaries := collectionSummaries - {collection};
        assert EntriesOf(run.summaries - {collection}) == EntriesOf(run.summaries) - {collection};
      }
      run := Step(run, WriteReported(selected, collection));
    }

    /** The collections without an entry, in their order. */
    method MissingNames() returns (names: seq<Name>)
      requires Valid()
      ensures names == Missing(collections, run.summaries)
    {
      names := [];
      for i := 0 to |collections|
        invariant names == Missing(collections[..i], run.summaries)
      {
        assert collections[..i + 1][..i] == collections[..i];
        if collections[i] !in collectionSummaries {
          names := names + [collections[i]];
        }
      }
      assert collections[..|collections|] == collections;
    }

    /** The synchronous part of a load: nothing while a task lives, else a new task. */
    method LoadCollectionSummaries()
      requires Valid()
      modifies this
      ensures Valid() && run == Step(old(run), Load)
    {
      hide Missing;
      if !overview || database.None? {
        run := Step(run, Load);
        return;
      }
      EnsureSummaryScope();
      if summaryTask.None? {
        summaryGeneration := summaryGeneration + 1;
        ghost var scoped := run;
        run := run.(generation := run.generation + 1);
        var names := MissingNames();
        if |names| > 0 {
          var workers := if |names| < WORKERS then |names| else WORKERS;
          summaryTask := Some(LiveTask(summaryGeneration, database, names, 0, seq(workers, _ => AtHead)));
          assert SlotsOf(seq(workers, _ => Ready)) == seq(workers, _ => AtHead);
        }
        run := StartTask(scoped);
      }
      run := run.(now := run.now + 1);
    }

    /** A worker at its loop head: ask about the next collection, or return. */
    method WorkerTurn(w: nat)
      requires Valid() && summaryTask.Some? && w < |summaryTask.value.slots| && summaryTask.value.slots[w].AtHead?
      modifies this
      ensures Valid() && run == Step(old(run), Issue(w))
    {
      var t := summaryTask.value;
      ghost var u := run.task.value;
      if t.cursor < |t.names| && t.generation == summaryGeneration && overview && t.database == database {
        summaryTask := Some(t.(cursor := t.cursor + 1, slots := t.slots[w := Waiting(t.cursor)]));
        assert SlotsOf(u.workers[w := InFlight(u.cursor, run.now)]) == t.slots[w := Waiting(t.cursor)];
      } else {
        summaryTask := Some(t.(slots := t.slots[w := Left]));
        assert SlotsOf(u.workers[w := Returned]) == t.slots[w := Left];
      }
      run := Step(run, Issue(w));
    }

    /** The reply to a worker's request, or its failure. */
    method WorkerReply(w: nat, ok: bool)
      requires Valid() && Base(run)
      requires summaryTask.Some? && w < |summaryTask.value.slots| && summaryTask.value.slots[w].Waiting?
      modifies this
      ensures Valid() && run == Step(old(run), Reply(w, ok))
    {
      var t := summaryTask.value;
      ghost var u := run.task.value;
      FlightInRange(u, w);
      var index := t.slots[w].index;
      if !(t.generation == summaryGeneration && overview && t.database == database) {
        summaryTask := Some(t.(slots := t.slots[w := Left]));
        assert SlotsOf(u.workers[w := Returned]) == t.slots[w := Left];
      } else {
        collectionSummaries := collectionSummaries[t.names[index] := ok];
        summaryTask := Some(t.(slots := t.slots[w := AtHead]));
        assert SlotsOf(u.workers[w := Ready]) == t.slots[w := AtHead];
      }
      run := Step(run, Reply(w, ok));
    }

    method SettleTask()
      requires Valid() && summaryTask.Some?
      requires forall w :: 0 <= w < |summaryTask.value.slots| ==> summaryTask.value.slots[w].Left?
      modifies this
      ensures Valid() && run == Step(old(run), Settle)
    {
      summaryTask := None;
      run := Step(run, Settle);
    }

    // -------------------------------------------------------------- handlers

    /** A write to a collection was reported: forget its summary, and on the overview
        load again. */
    method InvalidateSummary(selected: Selection, collection: Name)
      requires Valid()
      modifies this
      ensures Valid()
      ensures var forgotten := Step(old(run), WriteReported(selected, collection));
              run == if selected == old(database) && old(overview) then Step(forgotten, Load) else forgotten
    {
      hide Step;
      var shown := selected == database && overview;
      ForgetSummary(selected, collection);
      if shown {
        LoadCollectionSummaries();
      }
    }

    /** A click on a database of the tree: switch, and show the explorer. */
    method OpenDatabase(name: Name)
      requires Valid()
      modifies this
      ensures Valid() && run == Step(Step(old(run), Switch(Some(name))), SetView(false))
    {
      hide Step;
      SwitchDatabase(Some(name));
      ChangeView(false);
    }

    /** A change of the view, with the load that entering the overview starts. */
    method SetCurrentView(toOverview: bool)
      requires Valid()
      modifies this
      ensures Valid()
      ensures var changed := Step(old(run), SetView(toOverview));
              run == if toOverview then Step(changed, Load) else changed
    {
      hide Step;
      ChangeView(toOverview);
      if toOverview {
        LoadCollectionSummaries();
      }
    }

    // ------------------------------------------------------------------ runs

    method Perform(e: Event)
      requires Valid() && Base(run)
      modifies this
      ensures Valid() && run == Step(old(run), e)
    {
      hide Base;
      match e {
        case Boot(name) => AdoptConnection(name);
        case Switch(selected) => SwitchDatabase(selected);
        case SetCollections(names) => ListCollections(names);
        case SetView(toOverview) => ChangeView(toOverview);
        case Refresh => DropSummaries();
        case WriteReported(selected, collection) => ForgetSummary(selected, collection);
        case Load => LoadCollectionSummaries();
        case Issue(w) =>
          if summaryTask.Some? && w < |summaryTask.value.slots| && summaryTask.value.slots[w].AtHead? {
            WorkerTurn(w);
          } else {
            run := Step(run, e);
          }
        case Reply(w, ok) =>
          if summaryTask.Some? && w < |summaryTask.value.slots| && summaryTask.value.slots[w].Waiting? {
            WorkerReply(w, ok);
          } else {
            run := Step(run, e);
          }
        case Settle =>
          if summaryTask.Some? && forall w :: 0 <= w < |summaryTask.value.slots| ==> summaryTask.value.slots[w].Left? {
            SettleTask();
          } else {
            run := Step(run, e);
          }
      }
    }

    /** Every sequence of events, performed on the fields. */
    method Replay(es: seq<Event>)
      requires Valid() && Run(run, es)
      modifies this
      ensures Valid() && run == After(old(run), es)
      ensures summaryTask.Some? ==> WaitingIn(summaryTask.value.slots) <= 4
      ensures SafeRun(old(run), es) ==>
                forall n :: n in collectionSummaries ==>
                  summaryScope == database && AskedSinceWrites(old(run), es, database, n)
    {
      hide Step, Base;
      for i := 0 to |es|
        invariant Valid() && run == After(old(run), es[..i])
      {
        assert es[..i + 1][..i] == es[..i];
        RunKeepsBase(old(run), es[..i]);
        Perform(es[i]);
      }
      assert es[..|es|] == es;
      if summaryTask.Some? {
        AtMostFourInFlight(old(run), es);
        SameWaiting(run.task.value.workers);
      }
      if SafeRun(old(run), es) {
        forall n | n in collectionSummaries ensures summaryScope == database && AskedSinceWrites(old(run), es, database, n) {
          EntryIsFresh(old(run), es, n);
        }
      }
    }
  }

  lemma EntryIsFresh(s: State, es: seq<Event>, n: Name)
    requires SafeRun(s, es) && n in After(s, es).summaries
    ensures var p := After(s, es); p.scope == p.database && AskedSinceWrites(s, es, p.database, n)
  {
    hide Goes, Step, Asked;
    var p := After(s, es);
    RunKeepsBase(s, es);
    var a := p.summaries[n].asked;
    Loaded(s, es, n);
    StoredIsFresh(s, es, n, 0);
    forall k | 0 <= k < |es| && es[k] == WriteReported(p.database, n) ensures k < a {
      StoredIsFresh(s, es, n, k);
    }
  }

  /** An entry is not there at the start. */
  lemma Loaded(s: State, es: seq<Event>, n: Name)
    requires Run(s, es) && n in After(s, es).summaries
    ensures |es| > 0
  {
  }
}
