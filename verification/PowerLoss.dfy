/** The power-loss harness: evidence gathered over prepare, arm and verify commands,
    and the verdict computed from it. */
module PowerLoss {
  import opened PythonText

  /** A scalar of a JSON object: its key may be missing, its value null, a string, or a
      number (with the truth values counting as 0 and 1). */
  datatype Field = Absent | Null | Str(text: string) | Num(value: real)

  predicate Missing(f: Field) {
    match f
    case Absent => true
    case Null => true
    case Str(text) => Blank(text)
    case Num(_) => false
  }

  /** What Python takes as true. */
  predicate Truthy(f: Field) {
    match f
    case Absent => false
    case Null => false
    case Str(text) => text != ""
    case Num(value) => value != 0.0
  }

  datatype Iteration = Iteration(
    number: nat, bootBefore: Field, marker: Field, ledgerSha: Field, restored: Field,
    bootAfter: Field, recovery: Field, acknowledged: Field, recovered: Field)

  datatype Hardware = Hardware(
    host: Field, filesystem: Field, device: Field, controller: Field,
    driveModel: Field, firmware: Field, cachePolicy: Field, cutMethod: Field)

  datatype Section = NoSection | Section(hardware: Hardware)

  /** What the operator states once. */
  datatype Header = Header(
    runId: Field, revision: Field, root: Field, operator: Field, phase: Field, section: Section)

  datatype Phase = Prepared | Armed | VerifiedPartial | Verified

  datatype Status = Pass | Blocked | Fail

  datatype Evidence = Evidence(
    header: Header, required: int, bootBefore: Field, state: Phase, status: Status, iterations: seq<Iteration>)

  datatype Reason =
    | MissingHeader(field: nat) | UnsupportedPhase | RootNotAbsolute | NoHardware | MissingHardware(field: nat)
    | UnknownCachePolicy | NonPhysicalCut | InvalidRequired | TooFewIterations
    | MissingField(index: nat, field: nat) | MissingBoot(index: nat) | BootUnchanged(index: nat)
    | RecoveryFailed(index: nat) | DigestMismatch(index: nat)

  // ------------------------------------------------------------- requirements

  function HeaderFields(h: Header): seq<Field> {
    [h.runId, h.revision, h.root, h.operator, h.phase]
  }

  const PHASES: set<string> := {
    "wal_sync", "sst_creation", "manifest_publication", "wal_reclamation", "compaction", "backup", "restore"}

  const PHYSICAL_CUTS: set<string> := {"managed_pdu", "mains_disconnect", "hardware_power_switch"}

  predicate OneOf(f: Field, names: set<string>) {
    f.Str? && f.text in names
  }

  /** A path from the root of the file system. */
  predicate AbsolutePath(s: string) {
    |s| > 0 && s[0] == '/'
  }

  /** Neither blank nor one of the two words for not knowing, whatever its case. */
  predicate PolicyKnown(f: Field) {
    match f
    case Absent => false
    case Null => true
    case Str(text) => Lower(Strip(text)) !in {"", "unknown", "unspecified"}
    case Num(_) => true
  }

  function HardwareFields(w: Hardware): seq<Field> {
    [w.host, w.filesystem, w.device, w.controller, w.driveModel, w.firmware, w.cachePolicy, w.cutMethod]
  }

  predicate HardwareOk(w: Hardware) {
    && (forall i :: 0 <= i < 8 ==> !Missing(HardwareFields(w)[i]))
    && PolicyKnown(w.cachePolicy) && OneOf(w.cutMethod, PHYSICAL_CUTS)
  }

  predicate HeaderOk(h: Header) {
    && (forall i :: 0 <= i < 5 ==> !Missing(HeaderFields(h)[i]))
    && OneOf(h.phase, PHASES) && (h.root.Str? ==> AbsolutePath(h.root.text))
    && h.section.Section? && HardwareOk(h.section.hardware)
  }

  function Fields(x: Iteration): seq<Field> {
    [x.ledgerSha, x.marker, x.restored, x.bootAfter, x.recovery, x.acknowledged, x.recovered]
  }

  /** The boot before the cut: the iteration's own, or the one recorded at prepare. */
  function Before(x: Iteration, top: Field): Field {
    if x.bootBefore.Absent? then top else x.bootBefore
  }

  /** Nothing is missing and the machine was really restarted. */
  predicate Complete(x: Iteration, top: Field) {
    && (forall i :: 0 <= i < 7 ==> !Missing(Fields(x)[i]))
    && !Missing(Before(x, top)) && x.bootAfter != Before(x, top)
  }

  predicate Failing(x: Iteration) {
    || (x.recovery != Absent && x.recovery != Null && x.recovery != Str("") && x.recovery != Str("PASS"))
    || (Truthy(x.acknowledged) && Truthy(x.recovered) && x.acknowledged != x.recovered)
  }

  function Judged(e: Evidence): seq<Iteration> {
    var n := if e.required < 1 then 1 else e.required;
    if n < |e.iterations| then e.iterations[..n] else e.iterations
  }

  /** The verdict in one line each: any failing iteration fails the run; otherwise it
      passes when header and iterations leave nothing open. */
  predicate Fails(e: Evidence) {
    exists i :: 0 <= i < |Judged(e)| && Failing(Judged(e)[i])
  }

  predicate Closed(e: Evidence) {
    && HeaderOk(e.header) && e.required >= 1 && |e.iterations| >= e.required
    && (forall i :: 0 <= i < |Judged(e)| ==> Complete(Judged(e)[i], e.bootBefore))
  }

  // ---------------------------------------------------------------- validator

  method CheckFields(fields: seq<Field>, mark: nat -> Reason) returns (reasons: seq<Reason>)
    ensures reasons == [] <==> forall i :: 0 <= i < |fields| ==> !Missing(fields[i])
  {
    reasons := [];
    for i := 0 to |fields|
      invariant reasons == [] <==> forall j :: 0 <= j < i ==> !Missing(fields[j])
    {
      if Missing(fields[i]) {
        reasons := reasons + [mark(i)];
      }
    }
  }

  method CheckHardware(w: Hardware) returns (reasons: seq<Reason>)
    ensures reasons == [] <==> HardwareOk(w)
  {
    var fields := HardwareFields(w);
    reasons := CheckFields(fields, (i: nat) => MissingHardware(i));
    if !PolicyKnown(w.cachePolicy) {
      reasons := reasons + [UnknownCachePolicy];
    }
    if !OneOf(w.cutMethod, PHYSICAL_CUTS) {
      reasons := reasons + [NonPhysicalCut];
    }
  }

  method CheckHeader(h: Header) returns (reasons: seq<Reason>)
    ensures reasons == [] <==> HeaderOk(h)
  {
    var fields := HeaderFields(h);
    reasons := CheckFields(fields, (i: nat) => MissingHeader(i));
    if !OneOf(h.phase, PHASES) {
      reasons := reasons + [UnsupportedPhase];
    }
    if h.root.Str? && !AbsolutePath(h.root.text) {
      reasons := reasons + [RootNotAbsolute];
    }
    var hardware := Hardware(Absent, Absent, Absent, Absent, Absent, Absent, Absent, Absent);
    if h.section.Section? {
      hardware := h.section.hardware;
    } else {
      reasons := reasons + [NoHardware];
    }
    var more := CheckHardware(hardware);
    reasons := reasons + more;
  }

  method CheckIteration(x: Iteration, top: Field, index: nat) returns (blocked: seq<Reason>, failed: seq<Reason>)
    ensures blocked == [] <==> Complete(x, top)
    ensures failed == [] <==> !Failing(x)
  {
    var fields := Fields(x);
    blocked := CheckFields(fields, (i: nat) => MissingField(index, i));
    failed := [];
    var before := Before(x, top);
    if Missing(before) {
      blocked := blocked + [MissingBoot(index)];
    } else if x.bootAfter == before {
      blocked := blocked + [BootUnchanged(index)];
    }
    if x.recovery !in [Absent, Null, Str(""), Str("PASS")] {
      failed := failed + [RecoveryFailed(index)];
    }
    if Truthy(x.acknowledged) && Truthy(x.recovered) && x.acknowledged != x.recovered {
      failed := failed + [DigestMismatch(index)];
    }
  }

  /** The verdict: `Fail` exactly when a judged iteration fails, `Pass` exactly when
      none does and nothing is open. */
  method ValidateEvidence(e: Evidence) returns (status: Status, reasons: seq<Reason>)
    ensures status == Fail <==> Fails(e)
    ensures status == Pass <==> !Fails(e) && Closed(e)
    ensures reasons == [] <==> status == Pass
  {
    var blocked := CheckHeader(e.header);
    var failed: seq<Reason> := [];
    var required := e.required;
    if required < 1 {
      blocked := blocked + [InvalidRequired];
      required := 1;
    }
    if |e.iterations| < required {
      blocked := blocked + [TooFewIterations];
    }
    ghost var open := blocked;
    var judged := if required < |e.iterations| then e.iterations[..required] else e.iterations;
    assert judged == Judged(e);
    for i := 0 to |judged|
      invariant blocked == [] <==> open == [] && forall j :: 0 <= j < i ==> Complete(judged[j], e.bootBefore)
      invariant failed == [] <==> forall j :: 0 <= j < i ==> !Failing(judged[j])
    {
      var b, f := CheckIteration(judged[i], e.bootBefore, i + 1);
      blocked := blocked + b;
      failed := failed + f;
    }
    reasons := failed + blocked;
    status := if failed != [] then Fail else if blocked != [] then Blocked else Pass;
  }

  function Verdict(e: Evidence): Status {
    if Fails(e) then Fail else if Closed(e) then Pass else Blocked
  }

  // ----------------------------------------------------------------- commands

  /** What a command brings from outside: boot identifier, clock, ledger digest and
      the recovery report. `allowed` says the workload command was acceptable. */
  datatype Command =
    | Arm(allowed: bool, boot: string, marker: string)
    | Verify(boot: string, ledgerSha: string, restored: Field, recovery: Field, acknowledged: Field, recovered: Field)

  predicate Accepts(e: Evidence, c: Command) {
    match c
    case Arm(allowed, _, _) =>
      (e.state == Prepared || e.state == VerifiedPartial) && |e.iterations| + 1 <= e.required && allowed
    case Verify(boot, _, _, _, _, _) =>
      e.state == Armed && e.iterations != [] && e.iterations[|e.iterations| - 1].bootBefore != Str(boot)
  }

  function Recorded(x: Iteration, c: Command): Iteration
    requires c.Verify?
  {
    x.(ledgerSha := Str(c.ledgerSha), restored := c.restored, bootAfter := Str(c.boot),
       recovery := c.recovery, acknowledged := c.acknowledged, recovered := c.recovered)
  }

  /** A refused command leaves the evidence as it was. */
  function Apply(e: Evidence, c: Command): Evidence {
    if !Accepts(e, c) then e
    else
      match c
      case Arm(_, boot, marker) =>
        var x := Iteration(|e.iterations| + 1, Str(boot), Str(marker), Absent, Absent, Absent, Absent, Absent, Absent);
        e.(iterations := e.iterations + [x], state := Armed, status := Blocked)
      case Verify(_, _, _, _, _, _) =>
        var n := |e.iterations| - 1;
        var e' := e.(iterations := e.iterations[n := Recorded(e.iterations[n], c)]);
        e'.(status := Verdict(e'), state := if |e'.iterations| >= e'.required then Verified else VerifiedPartial)
  }

  class Harness {
    var evidence: Evidence

    /** `prepare`, after the check that at least one iteration is asked for. */
    constructor (header: Header, required: nat, boot: string)
      requires required >= 1
      ensures evidence == Evidence(header, required, Str(boot), Prepared, Blocked, [])
    {
      evidence := Evidence(header, required, Str(boot), Prepared, Blocked, []);
    }

    method RunArm(allowed: bool, boot: string, marker: string) returns (accepted: bool)
      modifies this
      ensures accepted == Accepts(old(evidence), Arm(allowed, boot, marker))
      ensures evidence == Apply(old(evidence), Arm(allowed, boot, marker))
    {
      if evidence.state != Prepared && evidence.state != VerifiedPartial {
        return false;
      }
      var number := |evidence.iterations| + 1;
      if number > evidence.required || !allowed {
        return false;
      }
      var x := Iteration(number, Str(boot), Str(marker), Absent, Absent, Absent, Absent, Absent, Absent);
      evidence := evidence.(iterations := evidence.iterations + [x]);
      evidence := evidence.(state := Armed, status := Blocked);
      return true;
    }

    method RunVerify(boot: string, ledgerSha: string, restored: Field, recovery: Field, acknowledged: Field, recovered: Field)
      returns (accepted: bool)
      modifies this
      ensures accepted == Accepts(old(evidence), Verify(boot, ledgerSha, restored, recovery, acknowledged, recovered))
      ensures evidence == Apply(old(evidence), Verify(boot, ledgerSha, restored, recovery, acknowledged, recovered))
    {
      if evidence.state != Armed || evidence.iterations == [] {
        return false;
      }
      var n := |evidence.iterations| - 1;
      var x := evidence.iterations[n];
      if x.bootBefore == Str(boot) {
        return false;
      }
      x := x.(ledgerSha := Str(ledgerSha), restored := restored, bootAfter := Str(boot));
      x := x.(recovery := recovery, acknowledged := acknowledged, recovered := recovered);
      evidence := evidence.(iterations := evidence.iterations[n := x]);
      var status, reasons := ValidateEvidence(evidence);
      evidence := evidence.(status := status);
      evidence := evidence.(state := if |evidence.iterations| >= evidence.required then Verified else VerifiedPartial);
      return true;
    }
  }

  // ---------------------------------------------------------- results over runs

  predicate Fresh(e: Evidence) {
    e.required >= 1 && e.state == Prepared && e.status == Blocked && e.iterations == []
  }

  function After(e: Evidence, cs: seq<Command>): Evidence {
    if |cs| == 0 then e else Apply(After(e, cs[..|cs| - 1]), cs[|cs| - 1])
  }

  /** The iterations that are closed for good: all but one being armed. */
  function Done(e: Evidence): nat {
    if e.state == Armed && |e.iterations| > 0 then |e.iterations| - 1 else |e.iterations|
  }

  predicate Inv(e: Evidence) {
    && e.required >= 1 && |e.iterations| <= e.required
    && (e.state == Prepared ==> e.iterations == [])
    && (e.state == Armed ==> |e.iterations| > 0)
    && (forall i :: 0 <= i < |e.iterations| ==> e.iterations[i].bootBefore.Str? && e.iterations[i].number == i + 1)
    && (forall i :: 0 <= i < Done(e) ==> e.iterations[i].bootAfter.Str? && e.iterations[i].bootAfter != e.iterations[i].bootBefore)
    && (e.state == Armed || e.state == Prepared ==> e.status == Blocked)
    && (e.state == VerifiedPartial || e.state == Verified ==> e.status == Verdict(e))
    && (e.state == VerifiedPartial ==> |e.iterations| < e.required)
    && (e.state == Verified ==> |e.iterations| == e.required)
  }

  lemma VerdictStands(e: Evidence, state: Phase, status: Status)
    ensures Verdict(e.(state := state, status := status)) == Verdict(e)
  {
    assert Judged(e.(state := state, status := status)) == Judged(e);
  }

  lemma ApplyKeepsInv(e: Evidence, c: Command)
    requires Inv(e)
    ensures Inv(Apply(e, c)) && Apply(e, c).required == e.required
    ensures Done(e) <= Done(Apply(e, c)) && e.iterations[..Done(e)] == Apply(e, c).iterations[..Done(e)]
  {
    hide Verdict;
    if c.Verify? && Accepts(e, c) {
      var n := |e.iterations| - 1;
      var e' := e.(iterations := e.iterations[n := Recorded(e.iterations[n], c)]);
      VerdictStands(e', Apply(e, c).state, Apply(e, c).status);
      assert Apply(e, c) == e'.(state := Apply(e, c).state, status := Apply(e, c).status);
    }
  }

  lemma {:induction false} RunKeepsInv(e: Evidence, cs: seq<Command>)
    requires Fresh(e)
    ensures Inv(After(e, cs)) && After(e, cs).required == e.required
  {
    if |cs| > 0 {
      RunKeepsInv(e, cs[..|cs| - 1]);
      ApplyKeepsInv(After(e, cs[..|cs| - 1]), cs[|cs| - 1]);
    }
  }

  /** A verified iteration never changes, and there are never more than required. */
  lemma {:induction false} VerifiedNeverChanges(e: Evidence, cs: seq<Command>, k: nat)
    requires Fresh(e) && k <= |cs|
    ensures var a, b := After(e, cs[..k]), After(e, cs);
            && |b.iterations| <= e.required && Done(a) <= Done(b)
            && a.iterations[..Done(a)] == b.iterations[..Done(a)]
    decreases |cs|
  {
    hide Verdict, Accepts, Apply;
    RunKeepsInv(e, cs);
    if k < |cs| {
      var n := |cs| - 1;
      assert cs[..n][..k] == cs[..k];
      VerifiedNeverChanges(e, cs[..n], k);
      RunKeepsInv(e, cs[..n]);
      ApplyKeepsInv(After(e, cs[..n]), cs[n]);
      var a, m, b := After(e, cs[..k]), After(e, cs[..n]), After(e, cs);
      assert m.iterations[..Done(m)][..Done(a)] == m.iterations[..Done(a)];
      assert b.iterations[..Done(m)][..Done(a)] == b.iterations[..Done(a)];
    } else {
      assert cs[..k] == cs;
    }
  }

  /** A failed verdict is final: every later verdict is a failure too. */
  lemma {:induction false} FailureIsFinal(e: Evidence, cs: seq<Command>, k: nat)
    requires Fresh(e) && k <= |cs|
    requires After(e, cs[..k]).state != Armed && After(e, cs[..k]).status == Fail
    requires After(e, cs).state != Armed
    ensures After(e, cs).status == Fail
  {
    var a, b := After(e, cs[..k]), After(e, cs);
    RunKeepsInv(e, cs[..k]);
    RunKeepsInv(e, cs);
    VerifiedNeverChanges(e, cs, k);
    assert Fails(a);
    var i :| 0 <= i < |Judged(a)| && Failing(Judged(a)[i]);
    assert a.iterations[..Done(a)][i] == b.iterations[..Done(a)][i];
    assert Judged(b)[i] == Judged(a)[i];
  }

  /** A pass means that every required iteration restarted the machine and recovered,
      and that its digests agree unless one of them is a number that counts as false. */
  lemma {:induction false} PassMeans(e: Evidence, cs: seq<Command>, i: nat)
    requires Fresh(e) && After(e, cs).status == Pass && i < e.required
    ensures HeaderOk(e.header) && |After(e, cs).iterations| == e.required
    ensures var x := After(e, cs).iterations[i];
            && x.bootBefore.Str? && x.bootAfter.Str? && x.bootAfter != x.bootBefore
            && x.recovery == Str("PASS") && !Missing(x.acknowledged) && !Missing(x.recovered)
            && (x.acknowledged == x.recovered || x.acknowledged == Num(0.0) || x.recovered == Num(0.0))
  {
    var b := After(e, cs);
    RunKeepsInv(e, cs);
    HeaderStays(e, cs);
    assert Closed(b) && !Fails(b);
    var x := Judged(b)[i];
    assert Complete(x, b.bootBefore) && !Failing(x);
    assert !Missing(Fields(x)[4]) && !Missing(Fields(x)[5]) && !Missing(Fields(x)[6]);
  }

  /** Unequal digests make an iteration fail exactly when neither is a number that counts
      as false. */
  lemma MismatchSeen(x: Iteration)
    requires !Missing(x.acknowledged) && !Missing(x.recovered) && x.recovery == Str("PASS")
    requires x.acknowledged != x.recovered
    ensures Failing(x) <==> x.acknowledged != Num(0.0) && x.recovered != Num(0.0)
  {
  }

  /** A run that passes although the recovered digest is not the acknowledged one. */
  lemma PassDespiteMismatch(h: Header) returns (e: Evidence, cs: seq<Command>)
    requires HeaderOk(h)
    ensures Fresh(e) && e.header == h && After(e, cs).status == Pass
    ensures |After(e, cs).iterations| == 1 &&
            var x := After(e, cs).iterations[0]; x.acknowledged == Str("a") && x.recovered == Num(0.0)
  {
    e := Evidence(h, 1, Str("b"), Prepared, Blocked, []);
    var arm := Arm(true, "b", "m");
    var verify := Verify("c", "l", Str("t"), Str("PASS"), Str("a"), Num(0.0));
    cs := [arm, verify];
    assert cs[..1] == [arm] && [arm][..0] == [];
    assert After(e, [arm]) == Apply(After(e, []), arm);
    var armed := After(e, [arm]);
    var x := Iteration(1, Str("b"), Str("m"), Absent, Absent, Absent, Absent, Absent, Absent);
    assert armed.iterations == [x] && armed.state == Armed;
    PassesAlone(h, x, verify);
    assert armed.iterations[0 := Recorded(x, verify)] == [Recorded(x, verify)];
  }

  lemma PassesAlone(h: Header, x: Iteration, c: Command)
    requires HeaderOk(h) && x == Iteration(1, Str("b"), Str("m"), Absent, Absent, Absent, Absent, Absent, Absent)
    requires c == Verify("c", "l", Str("t"), Str("PASS"), Str("a"), Num(0.0))
    ensures Verdict(Evidence(h, 1, Str("b"), Armed, Blocked, [Recorded(x, c)])) == Pass
  {
    hide HeaderOk;
    var y := Recorded(x, c);
    var e := Evidence(h, 1, Str("b"), Armed, Blocked, [y]);
    assert Judged(e) == [y];
    assert "b"[0] != "c"[0];
    forall i | 0 <= i < 7 ensures !Missing(Fields(y)[i]) {
      var t := Fields(y)[i];
      assert t.Str? ==> |t.text| > 0 && !IsSpace(t.text[0]);
    }
  }

  lemma {:induction false} HeaderStays(e: Evidence, cs: seq<Command>)
    ensures After(e, cs).header == e.header && After(e, cs).bootBefore == e.bootBefore
  {
    if |cs| > 0 {
      HeaderStays(e, cs[..|cs| - 1]);
    }
  }
}
