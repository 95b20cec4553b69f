/** Where stored summaries come from, and what a load starts. */
module SummaryHistory {
  import opened Wrappers
  import opened SummaryLoader

  // ------------------------------------------------------------------- replies

  /** The entry that a reply stores: whose, and when it was asked for. */
  datatype Stored = Stored(name: Name, asked: nat)

  function Stores(p: State, e: Event): Option<Stored> {
    if e.Reply? && p.task.Some? && e.worker < |p.task.value.workers| && p.task.value.workers[e.worker].InFlight?
       && Current(p, p.task.value) && p.task.value.workers[e.worker].index < |p.task.value.names|
    then
      var x := p.task.value.workers[e.worker];
      Some(Stored(p.task.value.names[x.index], x.asked))
    else None
  }

  /** The reply at `r` stored this entry, and it had counts exactly if the reply did. */
  predicate RepliedAt(s: State, es: seq<Event>, r: nat, n: Name, x: Summary) {
    && r < |es| && Stores(After(s, es[..r]), es[r]) == Some(Stored(n, x.asked))
    && es[r].Reply? && x.available == es[r].ok
  }

  ghost predicate Replied(s: State, p: State, es: seq<Event>) {
    forall n :: n in p.summaries ==> exists r :: RepliedAt(s, es, r, n, p.summaries[n])
  }

  lemma StillReplied(s: State, es: seq<Event>, e: Event, r: nat, n: Name, x: Summary)
    requires RepliedAt(s, es, r, n, x)
    ensures RepliedAt(s, es + [e], r, n, x)
  {
    assert (es + [e])[..r] == es[..r];
  }

  /** A step keeps an entry, drops it, or stores the one its reply brings. */
  lemma StepStores(p: State, e: Event, n: Name)
    requires n in Step(p, e).summaries
    ensures var x := Step(p, e).summaries[n];
            || (n in p.summaries && x == p.summaries[n])
            || (Stores(p, e) == Some(Stored(n, x.asked)) && x.available == e.ok)
  {
    hide Missing;
  }

  lemma {:induction false} RunReplied(s: State, es: seq<Event>)
    requires Init(s)
    ensures Replied(s, After(s, es), es)
    decreases |es|
  {
    if |es| > 0 {
      hide Step, Stores;
      var k := |es| - 1;
      var p, e := After(s, es[..k]), es[k];
      RunReplied(s, es[..k]);
      assert es[..k] + [e] == es;
      forall n | n in After(s, es).summaries ensures exists r :: RepliedAt(s, es, r, n, After(s, es).summaries[n]) {
        StepStores(p, e, n);
        var x := After(s, es).summaries[n];
        if n in p.summaries && x == p.summaries[n] {
          var r :| RepliedAt(s, es[..k], r, n, x);
          StillReplied(s, es[..k], e, r, n, x);
        } else {
          StoresReply(p, e);
          assert RepliedAt(s, es, k, n, x);
        }
      }
    }
  }

  lemma StoresReply(p: State, e: Event)
    requires Stores(p, e).Some?
    ensures e.Reply?
  {
  }

  /** Every stored entry was brought by a reply to a request for it, and says that counts
      are available exactly if that reply succeeded. */
  lemma EntryTellsReply(s: State, es: seq<Event>, n: Name) returns (r: nat)
    requires Run(s, es) && n in After(s, es).summaries
    ensures RepliedAt(s, es, r, n, After(s, es).summaries[n])
  {
    RunReplied(s, es);
    r :| RepliedAt(s, es, r, n, After(s, es).summaries[n]);
  }

  // ----------------------------------------------------------------- forgetting

  /** The event drops all entries: a refresh, or a change of the scope. */
  predicate Drops(p: State, e: Event) {
    e.Refresh? || Step(p, e).scope != p.scope
  }

  /** Entries, and requests that may still bring one, were asked for after `k`. */
  predicate AskedAfter(p: State, k: nat) {
    && (forall n :: n in p.summaries ==> p.summaries[n].asked > k)
    && (Live(p) ==> forall w :: 0 <= w < |p.task.value.workers| && p.task.value.workers[w].InFlight? ==>
                      p.task.value.workers[w].asked > k)
  }

  lemma DropsAll(p: State, e: Event, k: nat)
    requires Base(p) && Drops(p, e)
    ensures Step(p, e).summaries == map[]
    ensures AskedAfter(Step(p, e), k)
  {
    hide Missing, TaskOk, Distinct;
  }

  lemma LoadKeepsAsked(p: State, k: nat)
    requires Base(p) && AskedAfter(p, k)
    ensures AskedAfter(Step(p, Load), k)
  {
    hide Missing, TaskOk, Distinct;
  }

  lemma PageKeepsAsked(p: State, e: Event, k: nat)
    requires Base(p) && AskedAfter(p, k) && !e.Issue? && !e.Reply?
    ensures AskedAfter(Step(p, e), k)
  {
    hide Missing, StartTask, TaskOk, Distinct, Current;
    if e.Load? {
      LoadKeepsAsked(p, k);
    }
  }

  lemma IssueKeepsAsked(p: State, w: nat, k: nat)
    requires AskedAfter(p, k) && k < p.now
    ensures AskedAfter(Step(p, Issue(w)), k)
  {
    hide Missing, StartTask, EnsureScope;
  }

  lemma ReplyKeepsAsked(p: State, w: nat, ok: bool, k: nat)
    requires AskedAfter(p, k)
    ensures AskedAfter(Step(p, Reply(w, ok)), k)
  {
    hide Missing, StartTask, EnsureScope;
  }

  /** Every stored entry was asked for after the last refresh and after the scope last
      changed. */
  lemma {:induction false} EntriesAfterDrops(s: State, es: seq<Event>, k: nat)
    requires Run(s, es) && k < |es| && Drops(After(s, es[..k]), es[k])
    ensures AskedAfter(After(s, es), k)
    decreases |es|
  {
    hide Step, Base, AskedAfter;
    var m := |es| - 1;
    var p, e := After(s, es[..m]), es[m];
    RunKeepsBase(s, es[..m]);
    if k == m {
      DropsAll(p, e, k);
    } else {
      assert es[..m][..k] == es[..k];
      EntriesAfterDrops(s, es[..m], k);
      match e {
        case Issue(w) => IssueKeepsAsked(p, w, k);
        case Reply(w, ok) => ReplyKeepsAsked(p, w, ok, k);
        case _ => PageKeepsAsked(p, e, k);
      }
    }
  }

  // ---------------------------------------------------------------------- loads

  /** On the overview of a database, with no task running, a load starts one exactly when
      some collection has no entry: over exactly those collections, each once, with one
      worker for each up to four, all about to ask. */
  lemma LoadStarts(p: State)
    requires Base(p) && p.overview && p.database.Some? && p.task.None?
    ensures var q := Step(p, Load);
            && q.scope == p.database && q.summaries == (if p.scope == p.database then p.summaries else map[])
            && (q.task.Some? <==> exists n :: n in p.collections && n !in q.summaries)
            && (q.task.Some? ==>
                  var t := q.task.value;
                  && t.database == p.database && t.cursor == 0 && Current(q, t)
                  && (forall n :: n in t.names <==> n in p.collections && n !in q.summaries) && Distinct(t.names)
                  && |t.workers| == (if |t.names| < 4 then |t.names| else 4)
                  && forall w :: 0 <= w < |t.workers| ==> t.workers[w] == Ready)
  {
    hide TaskOk;
    var q := EnsureScope(p);
    var names := Missing(q.collections, q.summaries);
    assert |names| > 0 ==> names[0] in names;
  }

  /** Elsewhere, or while a task runs, a load starts nothing. */
  lemma LoadWaits(p: State)
    requires !p.overview || p.database.None? || p.task.Some?
    ensures Step(p, Load).task == p.task
  {
  }

  /** The list of collections that the events leave: none after a switch, else the last
      that arrived. */
  function LatestList(es: seq<Event>): seq<Name> {
    if |es| == 0 then []
    else
      var e := es[|es| - 1];
      if e.Switch? then [] else if e.SetCollections? then e.names else LatestList(es[..|es| - 1])
  }

  lemma {:induction false} ListIsLatest(s: State, es: seq<Event>)
    requires Init(s)
    ensures After(s, es).collections == LatestList(es)
    decreases |es|
  {
    if |es| > 0 {
      ListIsLatest(s, es[..|es| - 1]);
      ListStep(After(s, es[..|es| - 1]), es[|es| - 1]);
    }
  }

  lemma ListStep(p: State, e: Event)
    ensures Step(p, e).collections == if e.Switch? then [] else if e.SetCollections? then e.names else p.collections
  {
    hide Missing;
  }
}
