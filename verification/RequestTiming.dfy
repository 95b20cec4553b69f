/** The per-stage timing aggregate updated by many threads at once: two atomic adds
    and a compare-exchange loop for the maximum. Every atomic operation is one step;
    a relaxed read may return any value the location has ever held, and a
    compare-exchange may fail spuriously. */
module RequestTiming {

  const WORD := 0x1_0000_0000_0000_0000

  type Micros = n: nat | n < WORD

  /** Progress of one call of `recordStage`. `Looping` holds `previous`. */
  datatype Progress = Entered | TotalAdded | CountAdded | Looping(previous: Micros) | Finished

  datatype Call = Call(us: Micros, progress: Progress)

  /** The aggregate, the calls made so far, and every value `maxUs` has had. */
  datatype State = State(totalUs: Micros, count: Micros, maxUs: Micros, calls: seq<Call>, past: seq<Micros>)

  datatype Action =
    | Enter(us: Micros)
    | AddTotal
    | AddCount
    | LoadMax(seen: Micros)
    | Leave
    | Exchange
    | ExchangeFails(seen: Micros)

  predicate Init(s: State) {
    s == State(0, 0, 0, [], [0])
  }

  function Put(s: State, i: nat, p: Progress): State
    requires i < |s.calls|
  {
    s.(calls := s.calls[i := s.calls[i].(progress := p)])
  }

  /** Call `i` takes one atomic step; `Enter` starts a new call. */
  predicate Step(s: State, i: nat, a: Action, s': State) {
    match a
    case Enter(us) => i == |s.calls| && s' == s.(calls := s.calls + [Call(us, Entered)])
    case AddTotal =>
      i < |s.calls| && s.calls[i].progress == Entered &&
      s' == Put(s, i, TotalAdded).(totalUs := (s.totalUs + s.calls[i].us) % WORD)
    case AddCount =>
      i < |s.calls| && s.calls[i].progress == TotalAdded &&
      s' == Put(s, i, CountAdded).(count := (s.count + 1) % WORD)
    case LoadMax(seen) =>
      i < |s.calls| && s.calls[i].progress == CountAdded && seen in s.past && s' == Put(s, i, Looping(seen))
    case Leave =>
      i < |s.calls| && s.calls[i].progress.Looping? && s.calls[i].us <= s.calls[i].progress.previous &&
      s' == Put(s, i, Finished)
    case Exchange =>
      i < |s.calls| && s.calls[i].progress.Looping? && s.calls[i].us > s.calls[i].progress.previous &&
      s.maxUs == s.calls[i].progress.previous &&
      s' == Put(s, i, Finished).(maxUs := s.calls[i].us, past := s.past + [s.calls[i].us])
    case ExchangeFails(seen) =>
      i < |s.calls| && s.calls[i].progress.Looping? && s.calls[i].us > s.calls[i].progress.previous &&
      seen in s.past && s' == Put(s, i, Looping(seen))
  }

  /** A run: states linked by steps, the steps given by who did what. */
  ghost predicate Run(ss: seq<State>, acts: seq<(nat, Action)>) {
    && |ss| == |acts| + 1 && Init(ss[0])
    && forall k, j {:trigger ss[k], ss[j]} :: 0 <= k && j == k + 1 && j < |ss| ==> Step(ss[k], acts[k].0, acts[k].1, ss[j])
  }

  // ---------------------------------------------------------------- invariant

  function Added(c: Call): nat { if c.progress == Entered then 0 else c.us }

  function Counted(c: Call): nat { if c.progress == Entered || c.progress == TotalAdded then 0 else 1 }

  function SumAdded(cs: seq<Call>): nat {
    if |cs| == 0 then 0 else SumAdded(cs[..|cs| - 1]) + Added(cs[|cs| - 1])
  }

  function SumCounted(cs: seq<Call>): nat {
    if |cs| == 0 then 0 else SumCounted(cs[..|cs| - 1]) + Counted(cs[|cs| - 1])
  }

  ghost predicate SumsOk(s: State) {
    s.totalUs == SumAdded(s.calls) % WORD && s.count == SumCounted(s.calls) % WORD
  }

  ghost predicate MaxOk(s: State) {
    && (forall v :: v in s.past ==> v <= s.maxUs)
    && (s.maxUs == 0 || exists i :: 0 <= i < |s.calls| && s.calls[i].us == s.maxUs)
    && (forall i :: 0 <= i < |s.calls| && s.calls[i].progress == Finished ==> s.calls[i].us <= s.maxUs)
    && (forall i :: 0 <= i < |s.calls| && s.calls[i].progress.Looping? ==> s.calls[i].progress.previous <= s.maxUs)
  }

  ghost predicate Inv(s: State) {
    SumsOk(s) && MaxOk(s)
  }

  lemma {:induction false} SumsUpdate(cs: seq<Call>, i: nat, c: Call)
    requires i < |cs|
    ensures SumAdded(cs[i := c]) == SumAdded(cs) - Added(cs[i]) + Added(c)
    ensures SumCounted(cs[i := c]) == SumCounted(cs) - Counted(cs[i]) + Counted(c)
    decreases |cs|
  {
    var n := |cs| - 1;
    if i < n {
      assert cs[i := c][..n] == cs[..n][i := c];
      SumsUpdate(cs[..n], i, c);
    } else {
      assert cs[i := c][..n] == cs[..n];
    }
  }

  lemma ModAdd(a: nat, b: nat)
    ensures (a % WORD + b) % WORD == (a + b) % WORD
  {
  }

  /** The sums a step leaves, and that the two counters follow them. */
  lemma StepSums(s: State, i: nat, a: Action, s': State)
    requires Step(s, i, a, s') && !a.Enter?
    ensures i < |s.calls|
    ensures SumAdded(s'.calls) == SumAdded(s.calls) + (if a.AddTotal? then s.calls[i].us else 0)
    ensures SumCounted(s'.calls) == SumCounted(s.calls) + (if a.AddCount? then 1 else 0)
    ensures s'.totalUs == if a.AddTotal? then (s.totalUs + s.calls[i].us) % WORD else s.totalUs
    ensures s'.count == if a.AddCount? then (s.count + 1) % WORD else s.count
  {
    hide SumAdded, SumCounted;
    SumsUpdate(s.calls, i, s'.calls[i]);
  }

  lemma StepKeepsSums(s: State, i: nat, a: Action, s': State)
    requires SumsOk(s) && Step(s, i, a, s')
    ensures SumsOk(s')
  {
    if a.Enter? {
      assert s'.calls[..|s.calls|] == s.calls;
    } else {
      hide Step, SumAdded, SumCounted;
      StepSums(s, i, a, s');
      ModAdd(SumAdded(s.calls), s.calls[i].us);
      ModAdd(SumCounted(s.calls), 1);
    }
  }

  lemma StepKeepsMax(s: State, i: nat, a: Action, s': State)
    requires MaxOk(s) && Step(s, i, a, s')
    ensures MaxOk(s') && s.maxUs <= s'.maxUs
  {
    if a.Exchange? {
      assert s'.calls[i].us == s'.maxUs;
    } else if s.maxUs != 0 {
      var j :| 0 <= j < |s.calls| && s.calls[j].us == s.maxUs;
      assert s'.calls[j].us == s.calls[j].us;
    }
  }

  lemma StepKeepsInv(s: State, i: nat, a: Action, s': State)
    requires Inv(s) && Step(s, i, a, s')
    ensures Inv(s') && s.maxUs <= s'.maxUs
  {
    hide SumsOk, MaxOk, Step;
    StepKeepsSums(s, i, a, s');
    StepKeepsMax(s, i, a, s');
  }

  // ------------------------------------------------------------- main results

  lemma {:induction false} RunKeepsInv(ss: seq<State>, acts: seq<(nat, Action)>, k: nat)
    requires Run(ss, acts) && k < |ss|
    ensures Inv(ss[k])
  {
    if k > 0 {
      RunKeepsInv(ss, acts, k - 1);
      StepKeepsInv(ss[k - 1], acts[k - 1].0, acts[k - 1].1, ss[k]);
    } else {
      assert SumAdded(ss[0].calls) == 0 && SumCounted(ss[0].calls) == 0;
    }
  }

  /** The maximum never goes down. */
  lemma {:induction false} MaxIsMonotone(ss: seq<State>, acts: seq<(nat, Action)>, j: nat, k: nat)
    requires Run(ss, acts) && j <= k < |ss|
    ensures ss[j].maxUs <= ss[k].maxUs
    decreases k
  {
    if j < k {
      MaxIsMonotone(ss, acts, j, k - 1);
      RunKeepsInv(ss, acts, k - 1);
      StepKeepsInv(ss[k - 1], acts[k - 1].0, acts[k - 1].1, ss[k]);
    }
  }

  predicate Quiet(s: State) {
    forall i :: 0 <= i < |s.calls| ==> s.calls[i].progress == Finished
  }

  function SumOf(cs: seq<Call>): nat {
    if |cs| == 0 then 0 else SumOf(cs[..|cs| - 1]) + cs[|cs| - 1].us
  }

  lemma {:induction false} QuietSums(cs: seq<Call>)
    requires forall i :: 0 <= i < |cs| ==> cs[i].progress == Finished
    ensures SumAdded(cs) == SumOf(cs) && SumCounted(cs) == |cs|
  {
    if |cs| > 0 {
      QuietSums(cs[..|cs| - 1]);
    }
  }

  /** Whenever every call has returned, the aggregate is the sum, the number and the
      maximum of the calls, the first two in 64-bit arithmetic. */
  lemma QuietIsExact(ss: seq<State>, acts: seq<(nat, Action)>, k: nat)
    requires Run(ss, acts) && k < |ss| && Quiet(ss[k])
    ensures ss[k].totalUs == SumOf(ss[k].calls) % WORD && ss[k].count == |ss[k].calls| % WORD
    ensures forall i :: 0 <= i < |ss[k].calls| ==> ss[k].calls[i].us <= ss[k].maxUs
    ensures if |ss[k].calls| == 0 then ss[k].maxUs == 0
            else exists c :: c in ss[k].calls && c.us == ss[k].maxUs
  {
    RunKeepsInv(ss, acts, k);
    QuietSums(ss[k].calls);
    var s := ss[k];
    if |s.calls| > 0 {
      if s.maxUs == 0 {
        assert s.calls[0] in s.calls && s.calls[0].us == 0;
      } else {
        var i :| 0 <= i < |s.calls| && s.calls[i].us == s.maxUs;
        assert s.calls[i] in s.calls;
      }
    }
  }

  /** At every moment the maximum is zero or some call's value, and at least the
      value of every call that has returned. */
  lemma MaxIsAccounted(ss: seq<State>, acts: seq<(nat, Action)>, k: nat)
    requires Run(ss, acts) && k < |ss|
    ensures ss[k].maxUs == 0 || exists c :: c in ss[k].calls && c.us == ss[k].maxUs
    ensures forall i :: 0 <= i < |ss[k].calls| && ss[k].calls[i].progress == Finished ==>
              ss[k].calls[i].us <= ss[k].maxUs
  {
    RunKeepsInv(ss, acts, k);
    var s := ss[k];
    if s.maxUs != 0 {
      var i :| 0 <= i < |s.calls| && s.calls[i].us == s.maxUs;
      assert s.calls[i] in s.calls;
    }
  }
}
