/** The log comparison in elections: a candidate sends the position of its last entry,
    and a voter whose own log is ahead refuses. Runs of this module are runs of the
    election protocol whose vote requests were really sent and whose log comparison is
    the one made; logs themselves may grow, be cut or be replaced at any time. */
module RaftLogs {
  import opened Wrappers
  import opened RaftElection
  import opened RaftQuorum

  /** The term and the index of a log's last entry. */
  datatype Position = Position(term: nat, index: nat)

  /** A log that ends at `p` is at least as up to date as one that ends at `q`. */
  predicate Reaches(p: Position, q: Position) {
    p.term > q.term || (p.term == q.term && p.index >= q.index)
  }

  /** The comparison fails exactly against a later last term, or a later index of the
      same term. */
  lemma ReachesMeans(p: Position, q: Position)
    ensures Reaches(p, q) <==> !(p.term < q.term) && (p.term == q.term ==> q.index <= p.index)
  {
  }

  lemma ReachesOn(p: Position, q: Position, r: Position)
    requires Reaches(p, q) && Reaches(q, r)
    ensures Reaches(p, r)
  {
  }

  /** A vote request as its candidate sent it. */
  datatype Ticket = Ticket(term: nat, candidate: nat, log: Position)

  /** A vote granted, and where the voter's log ended then. */
  datatype Ballot = Ballot(voter: nat, ticket: Ticket, had: Position)

  datatype State = State(cluster: Cluster, logs: seq<Position>, tickets: set<Ticket>, ballots: set<Ballot>)

  datatype Event =
    | Act(action: Action)
    | Poll(voter: nat, ticket: Ticket, fenced: bool, recovered: bool, adopt: Outcome, store: Outcome)
    | Move(server: nat, log: Position)

  predicate Sized(s: State) {
    |s.logs| == |s.cluster.servers|
  }

  /** The election that the action starts, if it does. */
  predicate Starts(c: Cluster, a: Action) {
    && a.StartElection? && a.i < |c.servers| && c.servers[a.i].monitor == Idle && !c.servers[a.i].leader
    && Campaign(c.servers[a.i], a.i, a.first, a.second).monitor.Campaigning?
  }

  function Started(s: State, i: nat): State
    requires Sized(s) && i < |s.logs|
  {
    var t := Ticket(s.cluster.servers[i].memory.term, i, s.logs[i]);
    s.(tickets := s.tickets + {t}, ballots := s.ballots + {Ballot(i, t, s.logs[i])})
  }

  /** The request as the voter judges it. */
  function Judged(t: Ticket, own: Position, fenced: bool, recovered: bool): Request {
    Request(t.term, t.candidate, fenced, recovered, Reaches(t.log, own))
  }

  function StepLog(s: State, e: Event): (s': State)
    requires Sized(s)
  {
    match e
    case Act(a) =>
      if a.Vote? then s
      else
        var s' := s.(cluster := Step(s.cluster, a));
        OthersStayHere(s.cluster, a);
        if Starts(s.cluster, a) then Started(s', a.i) else s'
    case Poll(v, t, fenced, recovered, adopt, store) =>
      if v >= |s.logs| || t !in s.tickets then s
      else
        var r := Judged(t, s.logs[v], fenced, recovered);
        var s' := s.(cluster := Step(s.cluster, Vote(v, r, adopt, store)));
        if Ask(s.cluster.servers[v], r, adopt, store).granted
        then s'.(ballots := s.ballots + {Ballot(v, t, s.logs[v])}) else s'
    case Move(i, log) => if i < |s.logs| then s.(logs := s.logs[i := log]) else s
  }

  lemma OthersStayHere(c: Cluster, a: Action)
    ensures |Step(c, a).servers| == |c.servers|
  {
    if a.i < |c.servers| {
      OthersStay(c, a);
    }
  }

  lemma StepSized(s: State, e: Event)
    requires Sized(s)
    ensures Sized(StepLog(s, e))
  {
    hide Step;
    match e {
      case Act(a) => OthersStayHere(s.cluster, a);
      case Poll(v, t, fenced, recovered, adopt, store) =>
        if v < |s.logs| {
          OthersStayHere(s.cluster, Vote(v, Judged(t, s.logs[v], fenced, recovered), adopt, store));
        }
      case Move(_, _) =>
    }
  }

  function AfterLog(s: State, es: seq<Event>): (s': State)
    requires Sized(s)
    ensures Sized(s')
  {
    if |es| == 0 then s
    else
      var p := AfterLog(s, es[..|es| - 1]);
      StepSized(p, es[|es| - 1]);
      StepLog(p, es[|es| - 1])
  }

  predicate InitLog(s: State) {
    Sized(s) && RaftElection.Init(s.cluster) && s.tickets == {} && s.ballots == {}
  }

  // ------------------------------------------------------------------ invariant

  predicate BallotOk(s: State, b: Ballot) {
    && b.ticket in s.tickets && Reaches(b.ticket.log, b.had)
    && Grant(b.voter, b.ticket.term, b.ticket.candidate) in s.cluster.grants
  }

  predicate HasBallot(s: State, g: Grant) {
    exists b :: b in s.ballots && b.voter == g.voter && b.ticket.term == g.term && b.ticket.candidate == g.candidate
  }

  predicate TicketOk(s: State, t: Ticket) {
    Grant(t.candidate, t.term, t.candidate) in s.cluster.grants
  }

  /** One request per candidate and term. */
  predicate OneTicket(tickets: set<Ticket>) {
    forall t, u :: t in tickets && u in tickets && t.term == u.term && t.candidate == u.candidate ==> t == u
  }

  predicate LogInv(s: State) {
    && Sized(s) && Inv(s.cluster) && OneTicket(s.tickets)
    && (forall b {:trigger BallotOk(s, b)} :: b in s.ballots ==> BallotOk(s, b))
    && (forall g {:trigger HasBallot(s, g)} :: g in s.cluster.grants ==> HasBallot(s, g))
    && (forall t {:trigger TicketOk(s, t)} :: t in s.tickets ==> TicketOk(s, t))
  }

  /** Which votes a step of the election protocol grants. */
  lemma GrantsOf(c: Cluster, a: Action)
    requires !a.Vote?
    ensures Starts(c, a) ==> Step(c, a).grants == c.grants + {Grant(a.i, Step(c, a).servers[a.i].memory.term, a.i)}
    ensures Starts(c, a) ==> Step(c, a).servers[a.i] == Campaign(c.servers[a.i], a.i, a.first, a.second)
    ensures !Starts(c, a) ==> Step(c, a).grants == c.grants
  {
    hide Campaign, Ask, Raise, Wins;
  }

  lemma GrantsOfVote(c: Cluster, v: nat, r: Request, adopt: Outcome, store: Outcome)
    requires v < |c.servers|
    ensures Step(c, Vote(v, r, adopt, store)).grants ==
            if Ask(c.servers[v], r, adopt, store).granted then c.grants + {Grant(v, r.term, r.candidate)} else c.grants
    ensures Ask(c.servers[v], r, adopt, store).granted ==> r.upToDate
  {
    hide Raise;
  }

  /** Where the history only grows, what was said of it stays true. */
  lemma HistoryKept(s: State, s': State, more: set<Ballot>, grants: set<Grant>)
    requires LogInv(s) && Sized(s') && Inv(s'.cluster) && OneTicket(s'.tickets)
    requires s'.ballots == s.ballots + more && s'.cluster.grants == s.cluster.grants + grants
    requires forall t :: t in s.tickets ==> t in s'.tickets
    requires forall t :: t in s'.tickets && t !in s.tickets ==> TicketOk(s', t)
    requires forall b :: b in more ==> BallotOk(s', b)
    requires forall g :: g in grants ==> HasBallot(s', g)
    ensures LogInv(s')
  {
    hide Inv, OneTicket, Sized;
    forall b | b in s'.ballots ensures BallotOk(s', b) {
      assert b in s.ballots ==> BallotOk(s, b);
    }
    forall g | g in s'.cluster.grants ensures HasBallot(s', g) {
      if g in s.cluster.grants {
        assert HasBallot(s, g);
        var b :| b in s.ballots && b.voter == g.voter && b.ticket.term == g.term && b.ticket.candidate == g.candidate;
        assert b in s'.ballots;
      }
    }
    forall t | t in s'.tickets ensures TicketOk(s', t) {
      assert t in s.tickets ==> TicketOk(s, t);
    }
  }

  lemma StartKeepsLogInv(s: State, a: Action)
    requires LogInv(s) && Starts(s.cluster, a)
    ensures LogInv(StepLog(s, Act(a)))
  {
    hide Inv, Step, Campaign;
    var c, i := s.cluster, a.i;
    var s' := StepLog(s, Act(a));
    StepKeepsInv(c, a);
    StepSized(s, Act(a));
    GrantsOf(c, a);
    OrderedOf(c, i);
    CampaignKeeps(c.servers[i], i, a.first, a.second, 0, 0);
    var t := Ticket(s'.cluster.servers[i].memory.term, i, s.logs[i]);
    var g, b := Grant(i, t.term, i), Ballot(i, t, s.logs[i]);
    assert s'.tickets == s.tickets + {t} && s'.ballots == s.ballots + {b};
    NewTicket(s, t);
    assert BallotOk(s', b) && TicketOk(s', t);
    assert HasBallot(s', g);
    HistoryKept(s, s', {b}, {g});
  }

  lemma OrderedOf(c: Cluster, i: nat)
    requires Inv(c) && i < |c.servers|
    ensures Ordered(c.servers[i])
  {
  }

  /** A server's next term is new to it, so the request of that term is its first. */
  lemma NewTicket(s: State, t: Ticket)
    requires LogInv(s) && t.candidate < |s.cluster.servers| && t.term == s.cluster.servers[t.candidate].memory.term + 1
    ensures OneTicket(s.tickets + {t})
  {
    hide Firm;
    FreshTerm(s.cluster, t.candidate, t.term);
    forall u | u in s.tickets ensures u.term != t.term || u.candidate != t.candidate {
      assert TicketOk(s, u);
      assert GrantOk(s.cluster, Grant(u.candidate, u.term, u.candidate));
    }
  }

  lemma ActKeepsLogInv(s: State, a: Action)
    requires LogInv(s) && !a.Vote? && !Starts(s.cluster, a)
    ensures LogInv(StepLog(s, Act(a)))
  {
    hide Inv, Step;
    StepKeepsInv(s.cluster, a);
    StepSized(s, Act(a));
    GrantsOf(s.cluster, a);
    HistoryKept(s, StepLog(s, Act(a)), {}, {});
  }

  lemma PollKeepsLogInv(s: State, e: Event)
    requires LogInv(s) && e.Poll?
    ensures LogInv(StepLog(s, e))
  {
    hide Inv, Step, Ask, OneTicket;
    if e.voter < |s.logs| && e.ticket in s.tickets {
      var v, t := e.voter, e.ticket;
      var r := Judged(t, s.logs[v], e.fenced, e.recovered);
      var s' := StepLog(s, e);
      StepKeepsInv(s.cluster, Vote(v, r, e.adopt, e.store));
      StepSized(s, e);
      GrantsOfVote(s.cluster, v, r, e.adopt, e.store);
      var b, g := Ballot(v, t, s.logs[v]), Grant(v, t.term, t.candidate);
      if Ask(s.cluster.servers[v], r, e.adopt, e.store).granted {
        assert b in s'.ballots && BallotOk(s', b);
        assert HasBallot(s', g);
        HistoryKept(s, s', {b}, {g});
      } else {
        HistoryKept(s, s', {}, {});
      }
    }
  }

  lemma StepKeepsLogInv(s: State, e: Event)
    requires LogInv(s)
    ensures LogInv(StepLog(s, e))
  {
    hide Inv, Step, OneTicket;
    match e {
      case Act(a) =>
        if Starts(s.cluster, a) {
          StartKeepsLogInv(s, a);
        } else if !a.Vote? {
          ActKeepsLogInv(s, a);
        }
      case Poll(_, _, _, _, _, _) => PollKeepsLogInv(s, e);
      case Move(_, _) => HistoryKept(s, StepLog(s, e), {}, {});
    }
  }

  lemma {:induction false} RunKeepsLogInv(s: State, es: seq<Event>)
    requires InitLog(s)
    ensures LogInv(AfterLog(s, es))
  {
    if |es| == 0 {
      RunKeepsInv(s.cluster, []);
    } else {
      hide StepLog, LogInv, InitLog;
      RunKeepsLogInv(s, es[..|es| - 1]);
      StepKeepsLogInv(AfterLog(s, es[..|es| - 1]), es[|es| - 1]);
    }
  }

  // ------------------------------------------------------------- main results

  /** A vote is granted exactly when the voter has recovered and fences nothing off, the
      request is of its own term and not against its vote, or of a later one, the writes
      succeed, and its own log does not end later, by term and then by index. */
  lemma VoteDecided(s: State, v: nat, t: Ticket, fenced: bool, recovered: bool, adopt: Outcome, store: Outcome)
    requires LogInv(s) && v < |s.logs| && t in s.tickets
    ensures var n, own := s.cluster.servers[v], s.logs[v];
            var e := Poll(v, t, fenced, recovered, adopt, store);
            && (Ask(n, Judged(t, own, fenced, recovered), adopt, store).granted <==>
                  && !fenced && recovered && store == Stored
                  && (t.term > n.memory.term ==> adopt == Stored)
                  && (t.term == n.memory.term ==> n.memory.vote == None || n.memory.vote == Some(t.candidate))
                  && t.term >= n.memory.term
                  && !(own.term > t.log.term || (own.term == t.log.term && own.index > t.log.index)))
            && (Ask(n, Judged(t, own, fenced, recovered), adopt, store).granted ==>
                  Ballot(v, t, own) in StepLog(s, e).ballots && Grant(v, t.term, t.candidate) in StepLog(s, e).cluster.grants)
  {
    hide Inv, OneTicket;
    GrantsOfVote(s.cluster, v, Judged(t, s.logs[v], fenced, recovered), adopt, store);
  }

  /** No vote was ever cast for a candidate whose last term was earlier than the voter's,
      or whose log was shorter at the same last term. */
  lemma BallotsAreCast(s: State, es: seq<Event>, b: Ballot)
    requires InitLog(s) && b in AfterLog(s, es).ballots
    ensures b.had.term <= b.ticket.log.term
    ensures b.had.term == b.ticket.log.term ==> b.had.index <= b.ticket.log.index
    ensures b.ticket in AfterLog(s, es).tickets
    ensures Grant(b.voter, b.ticket.term, b.ticket.candidate) in AfterLog(s, es).cluster.grants
  {
    hide StepLog;
    RunKeepsLogInv(s, es);
    assert BallotOk(AfterLog(s, es), b);
  }

  predicate TicketOf(s: State, w: Win, t: Ticket) {
    t in s.tickets && t.term == w.term && t.candidate == w.node
  }

  /** Every voter of a winner had, when it voted, a log that the winner's reached. */
  lemma WinnerReachesVoters(s: State, es: seq<Event>, w: Win) returns (t: Ticket)
    requires InitLog(s) && w in AfterLog(s, es).cluster.wins
    ensures var d := AfterLog(s, es);
            && TicketOf(d, w, t)
            && forall p :: p in w.voters ==> exists b :: b in d.ballots && b.voter == p && b.ticket == t && Reaches(t.log, b.had)
  {
    hide StepLog, Reaches;
    var d := AfterLog(s, es);
    RunKeepsLogInv(s, es);
    assert WinOk(d.cluster, w);
    var own := BallotFor(d, w, w.node);
    t := own.ticket;
    forall p | p in w.voters ensures exists b :: b in d.ballots && b.voter == p && b.ticket == t && Reaches(t.log, b.had) {
      var b := BallotFor(d, w, p);
    }
  }

  lemma BallotFor(d: State, w: Win, p: nat) returns (b: Ballot)
    requires LogInv(d) && w in d.cluster.wins && WinOk(d.cluster, w) && p in w.voters
    ensures b in d.ballots && b.voter == p && TicketOf(d, w, b.ticket) && Reaches(b.ticket.log, b.had)
  {
    var g := Grant(p, w.term, w.node);
    assert HasBallot(d, g);
    b :| b in d.ballots && b.voter == p && b.ticket.term == w.term && b.ticket.candidate == w.node;
    assert BallotOk(d, b);
  }

  /** Every server of `held` has a log that reaches `x`, and keeps it. */
  predicate Keeps(s: State, held: set<nat>, x: Position) {
    forall i :: i in held ==>
      i < |s.logs| && s.logs[i].term >= x.term && (s.logs[i].term == x.term ==> s.logs[i].index >= x.index)
  }

  predicate NoCut(es: seq<Event>, k: nat, held: set<nat>, x: Position) {
    forall j :: k <= j < |es| && es[j].Move? && es[j].server in held ==>
      es[j].log.term >= x.term && (es[j].log.term == x.term ==> es[j].log.index >= x.index)
  }

  /** The votes of `held` in the term were cast on logs that reach `x`. */
  predicate CastAbove(s: State, held: set<nat>, term: nat, x: Position) {
    forall b :: b in s.ballots && b.voter in held && b.ticket.term == term ==> Reaches(b.had, x)
  }

  lemma StepCastsAbove(s: State, e: Event, held: set<nat>, term: nat, x: Position)
    requires Sized(s) && Keeps(s, held, x) && CastAbove(s, held, term, x)
    requires e.Move? && e.server in held ==> Reaches(e.log, x)
    ensures Keeps(StepLog(s, e), held, x) && CastAbove(StepLog(s, e), held, term, x)
  {
    hide Step, Ask, Campaign;
    StepSized(s, e);
  }

  lemma {:induction false} RunCastsAbove(s: State, es: seq<Event>, k: nat, held: set<nat>, term: nat, x: Position)
    requires Sized(s) && k <= |es| && NoCut(es, k, held, x)
    requires Keeps(AfterLog(s, es[..k]), held, x) && CastAbove(AfterLog(s, es[..k]), held, term, x)
    ensures Keeps(AfterLog(s, es), held, x) && CastAbove(AfterLog(s, es), held, term, x)
    decreases |es|
  {
    hide StepLog, Keeps, CastAbove;
    if k == |es| {
      assert es[..k] == es;
    } else {
      var n := |es| - 1;
      assert es[..n][..k] == es[..k];
      RunCastsAbove(s, es[..n], k, held, term, x);
      StepCastsAbove(AfterLog(s, es[..n]), es[n], held, term, x);
    }
  }

  /** Once a majority has logs that reach a position and cuts none of them below it, the
      winner of every term that opens later has a log that reaches it. */
  lemma LaterWinnerReaches(s: State, es: seq<Event>, k: nat, held: set<nat>, x: Position, w: Win) returns (t: Ticket)
    requires InitLog(s) && k <= |es| && w in AfterLog(s, es).cluster.wins
    requires |held| >= Quorum(|s.logs|) && Keeps(AfterLog(s, es[..k]), held, x) && NoCut(es, k, held, x)
    requires forall b :: b in AfterLog(s, es[..k]).ballots ==> b.ticket.term != w.term
    ensures TicketOf(AfterLog(s, es), w, t)
    ensures t.log.term >= x.term && (t.log.term == x.term ==> t.log.index >= x.index)
  {
    hide StepLog;
    RunCastsAbove(s, es, k, held, w.term, x);
    t := WinnerReachesVoters(s, es, w);
    var d := AfterLog(s, es);
    RunKeepsLogInv(s, es);
    assert WinOk(d.cluster, w);
    SameSize(s, es);
    var p := QuorumsMeet(|d.logs|, held, w.voters);
    var b :| b in d.ballots && b.voter == p && b.ticket == t && Reaches(t.log, b.had);
    ReachesOn(t.log, b.had, x);
  }

  lemma {:induction false} SameSize(s: State, es: seq<Event>)
    requires Sized(s)
    ensures |AfterLog(s, es).logs| == |s.logs|
  {
    if |es| > 0 {
      SameSize(s, es[..|es| - 1]);
      StepSized(AfterLog(s, es[..|es| - 1]), es[|es| - 1]);
      StepKeepsSize(AfterLog(s, es[..|es| - 1]), es[|es| - 1]);
    }
  }

  lemma StepKeepsSize(s: State, e: Event)
    requires Sized(s)
    ensures |StepLog(s, e).logs| == |s.logs|
  {
    hide Step, Ask, Campaign;
  }

  /** The replicas whose index is at least `q`. */
  function Holders(idxs: seq<nat>, q: nat): set<nat> {
    set i: nat | i < |idxs| && idxs[i] >= q
  }

  lemma {:induction false} HoldersCount(idxs: seq<nat>, q: nat)
    ensures |Holders(idxs, q)| == HeldBy(idxs, q)
  {
    if |idxs| > 0 {
      var n := |idxs| - 1;
      HoldersCount(idxs[..n], q);
      if idxs[n] >= q {
        assert Holders(idxs, q) == Holders(idxs[..n], q) + {n};
      } else {
        assert Holders(idxs, q) == Holders(idxs[..n], q);
      }
    }
  }

  /** In a cluster of odd size: when the leader's quorum index is `q`, the logs of the
      replicas counted for it reach entry `q` of term `term`, and none is cut below it,
      then the winner of every term that opens later has a log that reaches that entry. */
  lemma QuorumIndexBinds(s: State, es: seq<Event>, k: nat, idxs: seq<nat>, q: nat, term: nat, w: Win) returns (t: Ticket)
    requires InitLog(s) && k <= |es| && w in AfterLog(s, es).cluster.wins
    requires |idxs| == |s.logs| && |idxs| % 2 == 1 && GreatestHeld(idxs, (|idxs| - 1) / 2 + 1, q)
    requires Keeps(AfterLog(s, es[..k]), Holders(idxs, q), Position(term, q))
    requires NoCut(es, k, Holders(idxs, q), Position(term, q))
    requires forall b :: b in AfterLog(s, es[..k]).ballots ==> b.ticket.term != w.term
    ensures TicketOf(AfterLog(s, es), w, t)
    ensures t.log.term >= term && (t.log.term == term ==> t.log.index >= q)
  {
    HoldersCount(idxs, q);
    t := LaterWinnerReaches(s, es, k, Holders(idxs, q), Position(term, q), w);
  }
}
