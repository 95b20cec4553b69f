/** Leader election of the replicated engine: terms, votes and their durable record,
    under crashes, failed writes and messages delivered late or never. Each section
    under the election lock is one step; what a write to disk does is part of the step. */
module RaftElection {
  import opened Wrappers
  import opened FiniteSets

  /** A term and the candidate voted for in it. */
  datatype Record = Record(term: nat, vote: Option<nat>)

  /** The thread that runs elections: between them, counting votes, or told that it won
      and not yet leading. */
  datatype Monitor = Idle | Campaigning(term: nat, voters: set<nat>) | Elected(term: nat)

  /** `cache` is the record that the next write of the progress file repeats. */
  datatype Server = Server(memory: Record, cache: Record, disk: Record, leader: bool, monitor: Monitor)

  /** How an attempt to store the record ends: refused at once, failed before the rename,
      failed after it (which also ends leadership), or done. All but the last raise an
      exception. */
  datatype Outcome = Refused | Lost | Uncertain | Stored

  datatype Grant = Grant(voter: nat, term: nat, candidate: nat)

  datatype Win = Win(node: nat, term: nat, voters: set<nat>)

  /** All servers, the votes ever granted and the elections ever won. */
  datatype Cluster = Cluster(servers: seq<Server>, grants: set<Grant>, wins: set<Win>)

  function Quorum(n: nat): nat {
    n / 2 + 1
  }

  // -------------------------------------------------------------------- steps

  function Persist(n: Server, o: Outcome): Server {
    if o == Refused then n
    else
      var next := if n.memory.term >= n.cache.term then n.memory else n.cache;
      n.(cache := next, disk := if o == Lost then n.disk else next, leader := n.leader && o != Uncertain)
  }

  /** A higher term was observed. */
  function Raise(n: Server, term: nat, o: Outcome): Server {
    Persist(n.(memory := Record(term, None), leader := false), o)
  }

  /** The first section of an election: the new term is stored with the old vote, then
      the vote for oneself. */
  function Campaign(n: Server, self: nat, first: Outcome, second: Outcome): Server {
    var raised := Persist(n.(memory := n.memory.(term := n.memory.term + 1)), first);
    if first != Stored then raised
    else
      var voted := Persist(raised.(memory := raised.memory.(vote := Some(self))), second);
      if second != Stored then voted
      else voted.(leader := false, monitor := Campaigning(voted.memory.term, {}))
  }

  /** A vote request and what the voter thinks of it: whether a lease or a fresh
      heartbeat fences it off, whether the voter has recovered, and whether the
      candidate's log is at least as long. */
  datatype Request = Request(term: nat, candidate: nat, fenced: bool, recovered: bool, upToDate: bool)

  datatype Answer = Answer(node: Server, granted: bool)

  function Ask(n: Server, r: Request, adopt: Outcome, store: Outcome): Answer {
    if r.fenced then Answer(n, false)
    else
      var n1 := if r.term > n.memory.term then Raise(n, r.term, adopt) else n;
      if r.term > n.memory.term && adopt != Stored then Answer(n1, false)
      else if r.recovered && r.term == n1.memory.term && r.upToDate
              && (n1.memory.vote == None || n1.memory.vote == Some(r.candidate)) then
        Answer(Persist(n1.(memory := n1.memory.(vote := Some(r.candidate))), store), store == Stored)
      else Answer(n1, false)
  }

  datatype Action =
    | StartElection(i: nat, first: Outcome, second: Outcome)
    | Vote(i: nat, request: Request, adopt: Outcome, store: Outcome)
    | Receive(i: nat, peer: nat)
    | Finish(i: nat)
    | Promote(i: nat)
    | Observe(i: nat, term: nat, o: Outcome)
    | Contact(i: nat, term: nat, o: Outcome)
    | SaveProgress(i: nat, o: Outcome)
    | Restart(i: nat, asLeader: bool)

  function Set(c: Cluster, i: nat, n: Server): Cluster
    requires i < |c.servers|
  {
    c.(servers := c.servers[i := n])
  }

  /** Votes from `voters` and from oneself reach a majority. */
  predicate Wins(c: Cluster, n: Server, i: nat) {
    && n.monitor.Campaigning? && n.memory == Record(n.monitor.term, Some(i))
    && |n.monitor.voters| + 1 >= Quorum(|c.servers|)
  }

  function StepOf(c: Cluster, n: Server, a: Action): Cluster
    requires a.i < |c.servers|
  {
    var i := a.i;
    match a
    case StartElection(_, first, second) =>
      if n.monitor != Idle || n.leader then c
      else
        var n' := Campaign(n, i, first, second);
        Set(c, i, n').(grants := if n'.monitor.Campaigning? then c.grants + {Grant(i, n'.memory.term, i)} else c.grants)
    case Vote(_, r, adopt, store) =>
      var answer := Ask(n, r, adopt, store);
      Set(c, i, answer.node).(grants := if answer.granted then c.grants + {Grant(i, r.term, r.candidate)} else c.grants)
    case Receive(_, p) =>
      if n.monitor.Campaigning? && p != i && p < |c.servers| && Grant(p, n.monitor.term, i) in c.grants
      then Set(c, i, n.(monitor := n.monitor.(voters := n.monitor.voters + {p}))) else c
    case Finish(_) =>
      if !n.monitor.Campaigning? then c
      else if Wins(c, n, i)
      then Set(c, i, n.(monitor := Elected(n.monitor.term)))
           .(wins := c.wins + {Win(i, n.monitor.term, n.monitor.voters + {i})})
      else Set(c, i, n.(monitor := Idle))
    case Promote(_) =>
      if n.monitor.Elected? then Set(c, i, n.(leader := true, monitor := Idle)) else c
    case Observe(_, term, o) => if term > n.memory.term then Set(c, i, Raise(n, term, o)) else c
    case Contact(_, term, o) =>
      if term > n.memory.term then Set(c, i, Raise(n, term, o))
      else if term == n.memory.term then Set(c, i, n.(leader := false)) else c
    case SaveProgress(_, o) =>
      if o == Stored || o == Uncertain then Set(c, i, n.(disk := n.cache, leader := n.leader && o == Stored)) else c
    case Restart(_, asLeader) => Set(c, i, Server(n.disk, n.disk, n.disk, asLeader, Idle))
  }

  function Step(c: Cluster, a: Action): Cluster {
    if a.i < |c.servers| then StepOf(c, c.servers[a.i], a) else c
  }

  predicate Init(c: Cluster) {
    && c.grants == {} && c.wins == {}
    && forall i :: 0 <= i < |c.servers| ==>
         var n := c.servers[i]; n.memory == n.cache == n.disk && !n.leader && n.monitor == Idle
  }

  function After(c: Cluster, acts: seq<Action>): Cluster {
    if |acts| == 0 then c else Step(After(c, acts[..|acts| - 1]), acts[|acts| - 1])
  }

  // ------------------------------------------------------------- one node's votes

  /** The record does not allow another vote in the term. */
  predicate Holds(r: Record, term: nat, candidate: nat) {
    r.term > term || r == Record(term, Some(candidate))
  }

  predicate Ordered(n: Server) {
    n.disk.term <= n.cache.term <= n.memory.term
  }

  /** Memory, cache and disk all remember the vote. */
  predicate Firm(n: Server, term: nat, candidate: nat) {
    Ordered(n) && Holds(n.memory, term, candidate) && Holds(n.cache, term, candidate) && Holds(n.disk, term, candidate)
  }

  lemma CampaignKeeps(n: Server, self: nat, first: Outcome, second: Outcome, t: nat, c: nat)
    requires Ordered(n)
    ensures var n' := Campaign(n, self, first, second);
            && Ordered(n') && (Firm(n, t, c) ==> Firm(n', t, c))
            && (n.monitor == Idle && n'.monitor.Campaigning? ==>
                  n'.monitor == Campaigning(n'.memory.term, {}) && Firm(n', n'.memory.term, self)
                  && n'.memory.term == n.memory.term + 1)
            && (n'.monitor.Campaigning? || n'.monitor == n.monitor) && (n'.leader ==> n.leader)
  {
  }

  lemma AskKeeps(n: Server, r: Request, adopt: Outcome, store: Outcome, t: nat, c: nat)
    requires Ordered(n)
    ensures var answer := Ask(n, r, adopt, store);
            && Ordered(answer.node) && (Firm(n, t, c) ==> Firm(answer.node, t, c))
            && (answer.granted ==> Firm(answer.node, r.term, r.candidate))
            && (answer.granted && Firm(n, r.term, c) ==> c == r.candidate)
            && answer.node.monitor == n.monitor
            && (answer.node.leader ==> n.leader && answer.node.memory.term == n.memory.term)
            && answer.node.memory.term >= n.memory.term
  {
  }

  lemma RaiseKeeps(n: Server, term: nat, o: Outcome, t: nat, c: nat)
    requires Ordered(n) && term > n.memory.term
    ensures Ordered(Raise(n, term, o)) && (Firm(n, t, c) ==> Firm(Raise(n, term, o), t, c))
    ensures Raise(n, term, o).monitor == n.monitor && !Raise(n, term, o).leader && Raise(n, term, o).memory.term == term
  {
  }

  /** Whoever learns of a later term takes it over and stops leading; contact from the
      leader of one's own term ends leadership too; earlier terms change nothing. */
  lemma StepsDown(c: Cluster, i: nat, term: nat, o: Outcome)
    requires i < |c.servers|
    ensures var n, n' := c.servers[i], Step(c, Observe(i, term, o)).servers[i];
            if term > n.memory.term then n'.memory == Record(term, None) && !n'.leader else n' == n
    ensures var n, n' := c.servers[i], Step(c, Contact(i, term, o)).servers[i];
            if term > n.memory.term then n'.memory == Record(term, None) && !n'.leader
            else if term == n.memory.term then n' == n.(leader := false) else n' == n
  {
  }

  // ------------------------------------------------------------------ invariant

  predicate GrantOk(c: Cluster, g: Grant) {
    g.voter < |c.servers| && Firm(c.servers[g.voter], g.term, g.candidate)
  }

  predicate OneVote(grants: set<Grant>) {
    forall g, h :: g in grants && h in grants && g.voter == h.voter && g.term == h.term ==> g == h
  }

  /** All of `voters` granted their vote. */
  predicate Backed(c: Cluster, voters: set<nat>, term: nat, candidate: nat) {
    forall p :: p in voters ==> p < |c.servers| && Grant(p, term, candidate) in c.grants
  }

  predicate WinOk(c: Cluster, w: Win) {
    w.node in w.voters && |w.voters| >= Quorum(|c.servers|) && Backed(c, w.voters, w.term, w.node)
  }

  predicate NoLaterWin(c: Cluster, i: nat, term: nat) {
    forall w :: w in c.wins && w.node == i ==> w.term <= term
  }

  predicate Won(c: Cluster, i: nat, term: nat) {
    exists w :: w in c.wins && w.node == i && w.term == term
  }

  predicate MonitorOk(c: Cluster, i: nat)
    requires i < |c.servers|
  {
    var n := c.servers[i];
    match n.monitor
    case Idle => true
    case Campaigning(term, voters) =>
      i !in voters && Backed(c, voters + {i}, term, i) && NoLaterWin(c, i, term) && term <= n.memory.term
    case Elected(term) => Won(c, i, term) && NoLaterWin(c, i, term) && term <= n.memory.term
  }

  predicate Inv(c: Cluster) {
    && (forall i :: 0 <= i < |c.servers| ==> Ordered(c.servers[i]))
    && (forall g {:trigger GrantOk(c, g)} :: g in c.grants ==> GrantOk(c, g))
    && OneVote(c.grants)
    && (forall w {:trigger WinOk(c, w)} :: w in c.wins ==> WinOk(c, w))
    && (forall i {:trigger MonitorOk(c, i)} :: 0 <= i < |c.servers| ==> MonitorOk(c, i))
  }

  /** What a step may do to the node that takes it, and to the votes granted. */
  ghost predicate Sound(c: Cluster, i: nat, n': Server, grants: set<Grant>)
    requires i < |c.servers|
  {
    && Ordered(n')
    && (forall t, k {:trigger Firm(n', t, k)} :: Firm(c.servers[i], t, k) ==> Firm(n', t, k))
    && (forall g :: g in c.grants ==> g in grants)
    && (forall g :: g in grants && g !in c.grants ==> g.voter == i && Firm(n', g.term, g.candidate))
    && OneVote(grants)
  }

  lemma GrantsKept(c: Cluster, i: nat, n': Server, grants: set<Grant>, wins: set<Win>)
    requires Inv(c) && i < |c.servers| && Sound(c, i, n', grants)
    ensures var c' := Cluster(c.servers[i := n'], grants, wins);
            && (forall j :: 0 <= j < |c'.servers| ==> Ordered(c'.servers[j]))
            && (forall g :: g in c'.grants ==> GrantOk(c', g))
            && (forall vs, t, k :: Backed(c, vs, t, k) ==> Backed(c', vs, t, k))
  {
    var c' := Cluster(c.servers[i := n'], grants, wins);
    forall g | g in c'.grants ensures GrantOk(c', g) {
      assert g in c.grants ==> GrantOk(c, g);
    }
  }

  lemma WinsKept(c: Cluster, c': Cluster)
    requires Inv(c) && |c'.servers| == |c.servers| && c'.wins == c.wins
    requires forall vs, t, k :: Backed(c, vs, t, k) ==> Backed(c', vs, t, k)
    ensures forall w :: w in c'.wins ==> WinOk(c', w)
  {
    forall w | w in c'.wins ensures WinOk(c', w) {
      assert WinOk(c, w);
    }
  }

  lemma MonitorsKept(c: Cluster, i: nat, c': Cluster)
    requires Inv(c) && i < |c.servers| && |c'.servers| == |c.servers| && c'.wins == c.wins
    requires forall vs, t, k :: Backed(c, vs, t, k) ==> Backed(c', vs, t, k)
    requires forall j :: 0 <= j < |c.servers| && j != i ==> c'.servers[j] == c.servers[j]
    ensures forall j :: 0 <= j < |c.servers| && j != i ==> MonitorOk(c', j)
  {
    forall j | 0 <= j < |c.servers| && j != i ensures MonitorOk(c', j) {
      assert MonitorOk(c, j);
    }
  }

  /** A step that wins no election keeps the invariant if it is sound and leaves its own
      election in order. */
  lemma SoundKeepsInv(c: Cluster, i: nat, n': Server, grants: set<Grant>)
    requires Inv(c) && i < |c.servers| && Sound(c, i, n', grants)
    requires MonitorOk(Cluster(c.servers[i := n'], grants, c.wins), i)
    ensures Inv(Cluster(c.servers[i := n'], grants, c.wins))
  {
    hide Firm, Ordered, Backed, OneVote, MonitorOk, WinOk, GrantOk;
    var c' := Cluster(c.servers[i := n'], grants, c.wins);
    GrantsKept(c, i, n', grants, c.wins);
    WinsKept(c, c');
    MonitorsKept(c, i, c');
    SoundIsOneVote(c, i, n', grants);
  }

  lemma SoundIsOneVote(c: Cluster, i: nat, n': Server, grants: set<Grant>)
    requires i < |c.servers| && Sound(c, i, n', grants)
    ensures OneVote(grants)
  {
  }

  /** The node keeps its election while its term does not fall. */
  lemma MonitorStays(c: Cluster, i: nat, n': Server, grants: set<Grant>)
    requires Inv(c) && i < |c.servers| && n'.monitor == c.servers[i].monitor && n'.memory.term >= c.servers[i].memory.term
    requires forall g :: g in c.grants ==> g in grants
    ensures MonitorOk(Cluster(c.servers[i := n'], grants, c.wins), i)
  {
    assert MonitorOk(c, i);
  }

  lemma SameGrants(c: Cluster, i: nat, n': Server)
    requires Inv(c) && i < |c.servers| && Ordered(n')
    requires forall t, k {:trigger Firm(n', t, k)} :: Firm(c.servers[i], t, k) ==> Firm(n', t, k)
    requires n'.monitor == Idle || (n'.monitor == c.servers[i].monitor && n'.memory.term >= c.servers[i].memory.term)
    ensures Inv(Set(c, i, n'))
  {
    hide Firm, Ordered, OneVote, GrantOk, WinOk;
    if n'.monitor != Idle {
      MonitorStays(c, i, n', c.grants);
    }
    SoundKeepsInv(c, i, n', c.grants);
  }

  /** A node that grants a vote had not voted for anyone else in that term. */
  lemma NewGrant(c: Cluster, i: nat, n': Server, g: Grant)
    requires Inv(c) && i < |c.servers| && g.voter == i && Ordered(n') && Firm(n', g.term, g.candidate)
    requires forall t, k {:trigger Firm(n', t, k)} :: Firm(c.servers[i], t, k) ==> Firm(n', t, k)
    requires forall k :: Firm(c.servers[i], g.term, k) && Grant(i, g.term, k) in c.grants ==> k == g.candidate
    ensures Sound(c, i, n', c.grants + {g})
  {
    forall h | h in c.grants && h.voter == i && h.term == g.term ensures h == g {
      assert GrantOk(c, h);
    }
  }

  lemma StartKeepsInv(c: Cluster, i: nat, first: Outcome, second: Outcome)
    requires Inv(c) && i < |c.servers| && c.servers[i].monitor == Idle && !c.servers[i].leader
    ensures Inv(StepOf(c, c.servers[i], StartElection(i, first, second)))
  {
    hide GrantOk, WinOk, OneVote, Campaign;
    var n := c.servers[i];
    var n' := Campaign(n, i, first, second);
    forall t, k ensures Firm(n, t, k) ==> Firm(n', t, k) {
      CampaignKeeps(n, i, first, second, t, k);
    }
    CampaignKeeps(n, i, first, second, 0, 0);
    if n'.monitor.Campaigning? {
      var g := Grant(i, n'.memory.term, i);
      FreshTerm(c, i, n'.memory.term);
      NewGrant(c, i, n', g);
      var c' := Cluster(c.servers[i := n'], c.grants + {g}, c.wins);
      assert MonitorOk(c', i);
      SoundKeepsInv(c, i, n', c.grants + {g});
    } else {
      SameGrants(c, i, n');
    }
  }

  /** No vote and no election of the node is as late as its next term. */
  lemma FreshTerm(c: Cluster, i: nat, term: nat)
    requires Inv(c) && i < |c.servers| && term == c.servers[i].memory.term + 1
    ensures forall k :: !Firm(c.servers[i], term, k)
    ensures NoLaterWin(c, i, term)
  {
    forall w | w in c.wins && w.node == i ensures w.term <= term {
      assert WinOk(c, w);
      assert GrantOk(c, Grant(i, w.term, i));
    }
  }

  lemma VoteKeepsInv(c: Cluster, i: nat, r: Request, adopt: Outcome, store: Outcome)
    requires Inv(c) && i < |c.servers|
    ensures Inv(StepOf(c, c.servers[i], Vote(i, r, adopt, store)))
  {
    hide GrantOk, WinOk, OneVote, Ask, MonitorOk;
    var n := c.servers[i];
    var answer := Ask(n, r, adopt, store);
    var n' := answer.node;
    forall t, k ensures Firm(n, t, k) ==> Firm(n', t, k) {
      AskKeeps(n, r, adopt, store, t, k);
    }
    AskKeeps(n, r, adopt, store, 0, 0);
    if answer.granted {
      var g := Grant(i, r.term, r.candidate);
      forall k ensures Firm(n, g.term, k) ==> k == g.candidate {
        AskKeeps(n, r, adopt, store, r.term, k);
      }
      NewGrant(c, i, n', g);
      MonitorStays(c, i, n', c.grants + {g});
      SoundKeepsInv(c, i, n', c.grants + {g});
    } else {
      SameGrants(c, i, n');
    }
  }

  lemma RaiseKeepsInv(c: Cluster, i: nat, term: nat, o: Outcome)
    requires Inv(c) && i < |c.servers| && term > c.servers[i].memory.term
    ensures Inv(Set(c, i, Raise(c.servers[i], term, o)))
  {
    hide GrantOk, WinOk, OneVote, Raise, MonitorOk;
    var n := c.servers[i];
    forall t, k ensures Firm(n, t, k) ==> Firm(Raise(n, term, o), t, k) {
      RaiseKeeps(n, term, o, t, k);
    }
    RaiseKeeps(n, term, o, 0, 0);
    SameGrants(c, i, Raise(n, term, o));
  }

  lemma ReceiveKeepsInv(c: Cluster, i: nat, p: nat)
    requires Inv(c) && i < |c.servers|
    ensures Inv(StepOf(c, c.servers[i], Receive(i, p)))
  {
    hide GrantOk, WinOk, OneVote, Firm;
    var n := c.servers[i];
    if n.monitor.Campaigning? && p != i && p < |c.servers| && Grant(p, n.monitor.term, i) in c.grants {
      assert MonitorOk(c, i);
      var n' := n.(monitor := n.monitor.(voters := n.monitor.voters + {p}));
      SameRecords(n, n');
      SoundKeepsInv(c, i, n', c.grants);
    }
  }

  lemma SameRecords(n: Server, n': Server)
    requires n'.memory == n.memory && n'.cache == n.cache && n'.disk == n.disk
    ensures Ordered(n') <==> Ordered(n)
    ensures forall t, k :: Firm(n, t, k) <==> Firm(n', t, k)
  {
  }

  lemma FinishKeepsInv(c: Cluster, i: nat)
    requires Inv(c) && i < |c.servers|
    ensures Inv(StepOf(c, c.servers[i], Finish(i)))
  {
    hide Firm, OneVote;
    var n := c.servers[i];
    if n.monitor.Campaigning? {
      assert MonitorOk(c, i);
      if Wins(c, n, i) {
        WinKeepsInv(c, i);
      } else {
        var n' := n.(monitor := Idle);
        SameRecords(n, n');
        SoundKeepsInv(c, i, n', c.grants);
      }
    }
  }

  lemma WinKeepsInv(c: Cluster, i: nat)
    requires Inv(c) && i < |c.servers| && Wins(c, c.servers[i], i)
    ensures Inv(StepOf(c, c.servers[i], Finish(i)))
  {
    hide Firm, OneVote, GrantOk;
    var n := c.servers[i];
    assert MonitorOk(c, i);
    var n' := n.(monitor := Elected(n.monitor.term));
    SameRecords(n, n');
    var w := Win(i, n.monitor.term, n.monitor.voters + {i});
    var c' := Set(c, i, n').(wins := c.wins + {w});
    GrantsKept(c, i, n', c.grants, c'.wins);
    forall v | v in c'.wins ensures WinOk(c', v) {
      assert v in c.wins ==> WinOk(c, v);
      assert Backed(c, w.voters, w.term, i);
    }
    assert w in c'.wins;
    forall j, t | Won(c, j, t) ensures Won(c', j, t) {
      var v :| v in c.wins && v.node == j && v.term == t;
      assert v in c'.wins;
    }
    forall j | 0 <= j < |c'.servers| ensures MonitorOk(c', j) {
      assert MonitorOk(c, j);
    }
  }

  lemma RestartKeepsInv(c: Cluster, i: nat, asLeader: bool)
    requires Inv(c) && i < |c.servers|
    ensures Inv(StepOf(c, c.servers[i], Restart(i, asLeader)))
  {
    hide GrantOk, WinOk, OneVote, MonitorOk;
    var n := c.servers[i];
    SameGrants(c, i, Server(n.disk, n.disk, n.disk, asLeader, Idle));
  }

  lemma OwnKeepsInv(c: Cluster, a: Action)
    requires Inv(c) && a.i < |c.servers| && (a.Promote? || a.Contact? || a.Observe? || a.SaveProgress?)
    ensures Inv(Step(c, a))
  {
    hide GrantOk, WinOk, OneVote, MonitorOk, Raise;
    var n := c.servers[a.i];
    match a {
      case Promote(i) => SameGrants(c, i, n.(leader := true, monitor := Idle));
      case Observe(i, term, o) =>
        if term > n.memory.term {
          RaiseKeepsInv(c, i, term, o);
        }
      case Contact(i, term, o) =>
        if term > n.memory.term {
          RaiseKeepsInv(c, i, term, o);
        }
        SameGrants(c, i, n.(leader := false));
      case SaveProgress(i, o) => SameGrants(c, i, n.(disk := n.cache, leader := n.leader && o == Stored));
    }
  }

  lemma StepKeepsInv(c: Cluster, a: Action)
    requires Inv(c)
    ensures Inv(Step(c, a))
  {
    hide Inv, StepOf;
    if a.i < |c.servers| {
      match a {
        case StartElection(i, first, second) =>
          if c.servers[i].monitor == Idle && !c.servers[i].leader {
            StartKeepsInv(c, i, first, second);
          } else {
            NotNow(c, a);
          }
        case Vote(i, r, adopt, store) => VoteKeepsInv(c, i, r, adopt, store);
        case Receive(i, p) => ReceiveKeepsInv(c, i, p);
        case Finish(i) => FinishKeepsInv(c, i);
        case Restart(i, asLeader) => RestartKeepsInv(c, i, asLeader);
        case _ => OwnKeepsInv(c, a);
      }
    }
  }

  lemma NotNow(c: Cluster, a: Action)
    requires a.i < |c.servers| && a.StartElection? && (c.servers[a.i].monitor != Idle || c.servers[a.i].leader)
    ensures StepOf(c, c.servers[a.i], a) == c
  {
  }

  lemma {:induction false} RunKeepsInv(c: Cluster, acts: seq<Action>)
    requires Init(c)
    ensures Inv(After(c, acts))
  {
    if |acts| > 0 {
      hide Inv, Step;
      RunKeepsInv(c, acts[..|acts| - 1]);
      StepKeepsInv(After(c, acts[..|acts| - 1]), acts[|acts| - 1]);
    }
  }

  // ------------------------------------------------------------- election safety

  /** Two majorities share a node. */
  lemma QuorumsMeet(n: nat, a: set<nat>, b: set<nat>) returns (p: nat)
    requires (forall p :: p in a ==> p < n) && (forall p :: p in b ==> p < n) && |a| >= Quorum(n) && |b| >= Quorum(n)
    ensures p in a && p in b
  {
    SizeBelow(a + b, n);
    assert |a + b| == |a| + |b| - |a * b|;
    assert a * b != {};
    p :| p in a * b;
  }

  /** No term has two winners: over all interleavings of elections, votes, crashes and
      failed writes, for any number of servers. */
  lemma ElectionSafety(c: Cluster, acts: seq<Action>, v: Win, w: Win)
    requires Init(c) && v in After(c, acts).wins && w in After(c, acts).wins && v.term == w.term
    ensures v.node == w.node
  {
    var d := After(c, acts);
    RunKeepsInv(c, acts);
    assert WinOk(d, v) && WinOk(d, w);
    var p := QuorumsMeet(|d.servers|, v.voters, w.voters);
    assert Grant(p, v.term, v.node) in d.grants && Grant(p, w.term, w.node) in d.grants;
  }

  /** No node ever grants its vote of one term to two candidates, however often it restarts. */
  lemma VotesOnce(c: Cluster, acts: seq<Action>, g: Grant, h: Grant)
    requires Init(c) && g in After(c, acts).grants && h in After(c, acts).grants && g.voter == h.voter && g.term == h.term
    ensures g.candidate == h.candidate
  {
    RunKeepsInv(c, acts);
  }

  /** A winner of a cluster of several servers has heard from another node, so the check
      against isolated winners never fires. */
  lemma WinnerHasContact(c: Cluster, n: Server, i: nat)
    requires |c.servers| > 1 && Wins(c, n, i)
    ensures n.monitor.voters != {}
  {
  }

  // -------------------------------------------------------------- acting leaders

  /** Every node that acts as leader won its present term. */
  predicate Genuine(c: Cluster) {
    forall i {:trigger c.servers[i]} :: 0 <= i < |c.servers| && c.servers[i].leader ==> Won(c, i, c.servers[i].memory.term)
  }

  /** A win is acted on in its own term, and a node started as leader had won. */
  predicate Timely(c: Cluster, a: Action) {
    a.i < |c.servers| ==>
      var n := c.servers[a.i];
      && (a.Promote? && n.monitor.Elected? ==> n.memory.term == n.monitor.term)
      && (a.Restart? && a.asLeader ==> Won(c, a.i, n.disk.term))
  }

  /** A pending win was won in the term it names and in no later one. */
  lemma PendingWin(c: Cluster, i: nat, term: nat)
    requires Inv(c) && i < |c.servers| && c.servers[i].monitor.Elected? && term == c.servers[i].memory.term
    ensures Won(c, i, term) <==> term == c.servers[i].monitor.term
  {
    assert MonitorOk(c, i);
  }

  lemma OthersStay(c: Cluster, a: Action)
    requires a.i < |c.servers|
    ensures |Step(c, a).servers| == |c.servers|
    ensures forall j :: 0 <= j < |c.servers| && j != a.i ==> Step(c, a).servers[j] == c.servers[j]
    ensures forall w :: w in c.wins ==> w in Step(c, a).wins
    ensures !a.Finish? ==> Step(c, a).wins == c.wins
  {
    hide Campaign, Ask, Raise, Wins;
  }

  /** The node that takes the step still acts as leader only in the term it had. */
  lemma OwnFlag(c: Cluster, a: Action)
    requires Inv(c) && a.i < |c.servers|
    ensures var n, n' := c.servers[a.i], Step(c, a).servers[a.i];
            if a.Promote? && n.monitor.Elected? then n'.leader && n'.memory == n.memory
            else if a.Restart? then n'.leader == a.asLeader && n'.memory == n.disk
            else n'.leader ==> n.leader && n'.memory.term == n.memory.term
  {
    hide Campaign, Ask, Raise, Wins, GrantOk, WinOk, MonitorOk, OneVote;
    var n := c.servers[a.i];
    match a {
      case StartElection(i, first, second) => CampaignKeeps(n, i, first, second, 0, 0);
      case Vote(i, r, adopt, store) => AskKeeps(n, r, adopt, store, 0, 0);
      case Observe(i, term, o) =>
        if term > n.memory.term {
          RaiseKeeps(n, term, o, 0, 0);
        }
      case Contact(i, term, o) =>
        if term > n.memory.term {
          RaiseKeeps(n, term, o, 0, 0);
        }
      case _ =>
    }
  }

  /** One step keeps every acting leader genuine exactly when it is timely. */
  lemma GenuineExactly(c: Cluster, a: Action)
    requires Inv(c) && Genuine(c)
    ensures Genuine(Step(c, a)) <==> Timely(c, a)
  {
    if a.i < |c.servers| {
      hide Step, Inv;
      OthersStay(c, a);
      OwnFlag(c, a);
      if a.Promote? && c.servers[a.i].monitor.Elected? {
        PendingWin(c, a.i, c.servers[a.i].memory.term);
      }
      var c' := Step(c, a);
      forall i, t | Won(c, i, t) ensures Won(c', i, t) {
        var w :| w in c.wins && w.node == i && w.term == t;
        assert w in c'.wins;
      }
      assert !a.Finish? ==> forall i, t :: Won(c', i, t) <==> Won(c, i, t);
      if Genuine(c') {
        assert c'.servers[a.i].leader ==> Won(c', a.i, c'.servers[a.i].memory.term);
      } else {
        var j :| 0 <= j < |c'.servers| && c'.servers[j].leader && !Won(c', j, c'.servers[j].memory.term);
        assert c.servers[j].leader ==> Won(c, j, c.servers[j].memory.term);
      }
    }
  }

  predicate TimelyRun(c: Cluster, acts: seq<Action>) {
    Init(c) && forall k :: 0 <= k < |acts| ==> Timely(After(c, acts[..k]), acts[k])
  }

  lemma {:induction false} TimelyIsGenuine(c: Cluster, acts: seq<Action>)
    requires TimelyRun(c, acts)
    ensures Genuine(After(c, acts))
  {
    hide Step, Inv, Timely;
    if |acts| > 0 {
      var n := |acts| - 1;
      assert Timely(After(c, acts[..n]), acts[n]);
      forall k | 0 <= k < n ensures Timely(After(c, acts[..n][..k]), acts[..n][k]) {
        assert acts[..n][..k] == acts[..k];
      }
      TimelyIsGenuine(c, acts[..n]);
      RunKeepsInv(c, acts[..n]);
      GenuineExactly(After(c, acts[..n]), acts[n]);
    }
  }

  /** In timely runs no two servers act as leader of the same term. */
  lemma OneLeaderPerTerm(c: Cluster, acts: seq<Action>, i: nat, j: nat)
    requires TimelyRun(c, acts)
    requires var d := After(c, acts);
             i < |d.servers| && j < |d.servers| && d.servers[i].leader && d.servers[j].leader
             && d.servers[i].memory.term == d.servers[j].memory.term
    ensures i == j
  {
    hide Step;
    var d := After(c, acts);
    TimelyIsGenuine(c, acts);
    var v :| v in d.wins && v.node == i && v.term == d.servers[i].memory.term;
    var w :| w in d.wins && w.node == j && w.term == d.servers[j].memory.term;
    ElectionSafety(c, acts, v, w);
  }

  // ------------------------------------------------------------------ the defect

  lemma Then(c: Cluster, acts: seq<Action>, a: Action) returns (acts': seq<Action>)
    ensures After(c, acts') == Step(After(c, acts), a)
  {
    hide Step;
    acts' := acts + [a];
    assert acts'[..|acts|] == acts;
  }

  function Fresh(term: nat): Server {
    Server(Record(term, None), Record(term, None), Record(term, None), false, Idle)
  }

  /** Candidate `i` may start, and `p` is not ahead of it. */
  predicate MayWin(d: Cluster, i: nat, p: nat) {
    && |d.servers| == 3 && i < 3 && p < 3 && i != p
    && d.servers[i].monitor == Idle && !d.servers[i].leader && Ordered(d.servers[i]) && Ordered(d.servers[p])
    && d.servers[p].memory.term <= d.servers[i].memory.term
  }

  /** Both have voted for `i` in the term after its last. */
  predicate Voted(d: Cluster, e: Cluster, i: nat, p: nat)
    requires MayWin(d, i, p)
  {
    var r := Record(d.servers[i].memory.term + 1, Some(i));
    && |e.servers| == 3 && e.servers[i].memory == r && e.servers[p].memory == r
    && e.servers[p].monitor == d.servers[p].monitor && !e.servers[p].leader
    && Ordered(e.servers[i]) && Ordered(e.servers[p])
    && forall j :: 0 <= j < 3 && j != i && j != p ==> e.servers[j] == d.servers[j]
  }

  lemma AsksAndGets(d: Cluster, i: nat, p: nat)
    requires MayWin(d, i, p)
    ensures var t := d.servers[i].memory.term + 1;
            var e := Step(Step(d, StartElection(i, Stored, Stored)), Vote(p, Request(t, i, false, true, true), Stored, Stored));
            Voted(d, e, i, p) && e.servers[i].monitor == Campaigning(t, {}) && Grant(p, t, i) in e.grants
  {
  }

  lemma CountsAndWins(d: Cluster, e: Cluster, i: nat, p: nat)
    requires MayWin(d, i, p) && Voted(d, e, i, p)
    requires var t := d.servers[i].memory.term + 1; e.servers[i].monitor == Campaigning(t, {}) && Grant(p, t, i) in e.grants
    ensures var t := d.servers[i].memory.term + 1;
            var f := Step(Step(e, Receive(i, p)), Finish(i));
            Voted(d, f, i, p) && f.servers[i].monitor == Elected(t) && Won(f, i, t)
  {
    var t := d.servers[i].memory.term + 1;
    var f := Step(Step(e, Receive(i, p)), Finish(i));
    assert Win(i, t, {} + {p} + {i}) in f.wins;
  }

  /** A candidate that hears one peer of two wins. */
  lemma WinsWith(c: Cluster, acts: seq<Action>, i: nat, p: nat) returns (acts': seq<Action>)
    requires MayWin(After(c, acts), i, p)
    ensures var d, e := After(c, acts), After(c, acts');
            var t := d.servers[i].memory.term + 1;
            Voted(d, e, i, p) && e.servers[i].monitor == Elected(t) && Won(e, i, t)
  {
    hide Step, Voted, Won;
    var d := After(c, acts);
    var t := d.servers[i].memory.term + 1;
    acts' := Then(c, acts, StartElection(i, Stored, Stored));
    acts' := Then(c, acts', Vote(p, Request(t, i, false, true, true), Stored, Stored));
    AsksAndGets(d, i, p);
    CountsAndWins(d, After(c, acts'), i, p);
    acts' := Then(c, acts', Receive(i, p));
    acts' := Then(c, acts', Finish(i));
  }

  /** The flag is raised after the lock is released: a node that has won one term can
      come to act as leader of a later term that another node has won. */
  lemma TwoLeaders() returns (c: Cluster, acts: seq<Action>)
    ensures Init(c)
    ensures var d := After(c, acts);
            && |d.servers| == 3 && d.servers[0].leader && d.servers[2].leader
            && d.servers[0].memory.term == d.servers[2].memory.term && Won(d, 2, d.servers[2].memory.term)
  {
    hide Step;
    c := Cluster([Fresh(0), Fresh(0), Fresh(1)], {}, {});
    acts := [];
    acts := WinsWith(c, acts, 0, 1);
    acts := WinsWith(c, acts, 2, 0);
    var d := After(c, acts);
    acts := Then(c, acts, Promote(2));
    PromoteStep(d, 2);
    var e := After(c, acts);
    acts := Then(c, acts, Promote(0));
    PromoteStep(e, 0);
  }

  lemma PromoteStep(c: Cluster, i: nat)
    requires i < |c.servers| && c.servers[i].monitor.Elected?
    ensures Step(c, Promote(i)) == Set(c, i, c.servers[i].(leader := true, monitor := Idle))
  {
  }
}
