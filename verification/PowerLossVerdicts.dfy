/** The verdicts of whole runs, told by what the commands reported. */
module PowerLossVerdicts {
  import opened PythonText
  import opened PowerLoss

  /** A text that says something. */
  predicate Said(s: string) {
    exists i :: 0 <= i < |s| && !IsSpace(s[i])
  }

  predicate Given(f: Field) {
    f.Num? || (f.Str? && Said(f.text))
  }

  lemma GivenExactly(f: Field)
    ensures Given(f) <==> !Missing(f)
  {
  }

  /** The field does not count as false. */
  predicate Weighs(f: Field) {
    f != Absent && f != Null && f != Str("") && f != Num(0.0)
  }

  /** A verify command that reports a failed recovery, or two digests that differ. */
  predicate Bad(c: Command) {
    && c.Verify?
    && (|| (c.recovery != Absent && c.recovery != Null && c.recovery != Str("") && c.recovery != Str("PASS"))
        || (Weighs(c.acknowledged) && Weighs(c.recovered) && c.acknowledged != c.recovered))
  }

  /** A command that leaves nothing open: identifiers and times are given, the boot is a
      new one, the recovery passed and the digests agree. */
  predicate Good(c: Command) {
    match c
    case Arm(_, boot, marker) => Said(boot) && Said(marker)
    case Verify(boot, ledgerSha, restored, recovery, acknowledged, recovered) =>
      && Said(boot) && Said(ledgerSha) && Given(restored) && recovery == Str("PASS")
      && Given(acknowledged) && acknowledged == recovered
  }

  predicate Accepted(e: Evidence, cs: seq<Command>, k: nat)
    requires k < |cs|
  {
    Accepts(After(e, cs[..k]), cs[k])
  }

  // ------------------------------------------------------------------ failures

  /** A recorded iteration fails exactly when its command reported a failure. */
  lemma RecordedFails(x: Iteration, c: Command)
    requires c.Verify?
    ensures Failing(Recorded(x, c)) <==> Bad(c)
  {
  }

  predicate SomeBad(e: Evidence, cs: seq<Command>) {
    exists k :: 0 <= k < |cs| && Accepted(e, cs, k) && Bad(cs[k])
  }

  predicate SomeFailing(e: Evidence) {
    exists i :: 0 <= i < Done(e) && i < |e.iterations| && Failing(e.iterations[i])
  }

  lemma BadLater(e: Evidence, cs: seq<Command>)
    requires |cs| > 0
    ensures var n := |cs| - 1;
            SomeBad(e, cs) <==> SomeBad(e, cs[..n]) || (Accepts(After(e, cs[..n]), cs[n]) && Bad(cs[n]))
  {
    hide Accepts, Bad;
    var n := |cs| - 1;
    forall k | 0 <= k < n ensures Accepted(e, cs, k) <==> Accepted(e, cs[..n], k) {
      assert cs[..n][..k] == cs[..k];
    }
    assert Accepted(e, cs, n) <==> Accepts(After(e, cs[..n]), cs[n]);
    if SomeBad(e, cs[..n]) {
      var k :| 0 <= k < n && Accepted(e, cs[..n], k) && Bad(cs[..n][k]);
      assert Accepted(e, cs, k) && Bad(cs[k]);
    }
    if SomeBad(e, cs) {
      var k :| 0 <= k < |cs| && Accepted(e, cs, k) && Bad(cs[k]);
      assert k < n ==> Accepted(e, cs[..n], k) && Bad(cs[..n][k]);
    }
  }

  lemma FailingLater(e: Evidence, c: Command)
    requires Inv(e)
    ensures SomeFailing(Apply(e, c)) <==> SomeFailing(e) || (Accepts(e, c) && Bad(c))
  {
    hide Verdict, Failing, Bad;
    ApplyKeepsInv(e, c);
    var e' := Apply(e, c);
    assert forall i :: 0 <= i < Done(e) ==> e'.iterations[i] == e.iterations[i] by {
      assert forall i :: 0 <= i < Done(e) ==> e'.iterations[..Done(e)][i] == e.iterations[..Done(e)][i];
    }
    if Accepts(e, c) && c.Verify? {
      var n := |e.iterations| - 1;
      RecordedFails(e.iterations[n], c);
      assert Done(e) == n && Done(e') == n + 1 && e'.iterations[n] == Recorded(e.iterations[n], c);
    } else {
      ArmIsNotBad(c);
      assert Done(e') == Done(e) || !Accepts(e, c);
    }
  }

  lemma ArmIsNotBad(c: Command)
    ensures Bad(c) ==> c.Verify?
  {
  }

  lemma {:induction false} RunFails(e: Evidence, cs: seq<Command>)
    requires Fresh(e)
    ensures SomeFailing(After(e, cs)) <==> SomeBad(e, cs)
    decreases |cs|
  {
    hide SomeFailing, SomeBad, Apply, Inv, Accepts, Bad;
    if |cs| == 0 {
      NothingYet(e, cs);
    } else {
      var n := |cs| - 1;
      RunFails(e, cs[..n]);
      RunKeepsInv(e, cs[..n]);
      BadLater(e, cs);
      FailingLater(After(e, cs[..n]), cs[n]);
    }
  }

  lemma NothingYet(e: Evidence, cs: seq<Command>)
    requires Fresh(e) && |cs| == 0
    ensures !SomeFailing(e) && !SomeBad(e, cs)
  {
  }

  /** Whenever a verdict stands, it is FAIL exactly when some accepted verify command
      reported a recovery that is neither empty nor PASS, or two digests that differ and
      do not count as false. */
  lemma FailsExactly(e: Evidence, cs: seq<Command>)
    requires Fresh(e) && After(e, cs).state != Armed && After(e, cs).state != Prepared
    ensures After(e, cs).status == Fail <==> SomeBad(e, cs)
  {
    hide SomeBad, Failing;
    var b := After(e, cs);
    RunKeepsInv(e, cs);
    RunFails(e, cs);
    assert Judged(b) == b.iterations && Done(b) == |b.iterations|;
  }

  // -------------------------------------------------------------------- passes

  /** Every accepted command is a good one. */
  predicate AllGood(e: Evidence, cs: seq<Command>) {
    forall k :: 0 <= k < |cs| && Accepted(e, cs, k) ==> Good(cs[k])
  }

  /** Finished iterations are complete and do not fail; one being armed has its start. */
  predicate Sound(e: Evidence) {
    && (forall i :: 0 <= i < Done(e) && i < |e.iterations| ==> Complete(e.iterations[i], e.bootBefore) && !Failing(e.iterations[i]))
    && (e.state == Armed && |e.iterations| > 0 ==>
          var x := e.iterations[|e.iterations| - 1]; Given(x.bootBefore) && Given(x.marker))
  }

  lemma PassIsSaid()
    ensures Said("PASS")
  {
    assert !IsSpace("PASS"[0]);
  }

  lemma RecordedComplete(x: Iteration, top: Field, c: Command)
    requires c.Verify? && Good(c) && Given(x.bootBefore) && Given(x.marker) && x.bootBefore != Str(c.boot)
    ensures Complete(Recorded(x, c), top) && !Failing(Recorded(x, c))
  {
    hide Said;
    var y := Recorded(x, c);
    RecordedFails(x, c);
    PassIsSaid();
    forall i | 0 <= i < 7 ensures !Missing(Fields(y)[i]) {
      GivenExactly(Fields(y)[i]);
    }
    GivenExactly(x.bootBefore);
  }

  lemma ApplyKeepsSound(e: Evidence, c: Command)
    requires Inv(e) && Sound(e) && (Accepts(e, c) ==> Good(c))
    ensures Sound(Apply(e, c))
  {
    hide Verdict, Failing, Complete, Said;
    ApplyKeepsInv(e, c);
    var e' := Apply(e, c);
    assert forall i :: 0 <= i < Done(e) ==> e'.iterations[i] == e.iterations[i] by {
      assert forall i :: 0 <= i < Done(e) ==> e'.iterations[..Done(e)][i] == e.iterations[..Done(e)][i];
    }
    if Accepts(e, c) && c.Verify? {
      var n := |e.iterations| - 1;
      RecordedComplete(e.iterations[n], e.bootBefore, c);
      assert Done(e') == n + 1 && e'.iterations[n] == Recorded(e.iterations[n], c);
    }
  }

  lemma SoundAtStart(e: Evidence)
    requires Fresh(e)
    ensures Sound(e)
  {
  }

  lemma {:induction false} RunKeepsSound(e: Evidence, cs: seq<Command>)
    requires Fresh(e) && AllGood(e, cs)
    ensures Sound(After(e, cs))
    decreases |cs|
  {
    hide Apply, Inv, Accepts, Sound, Good;
    if |cs| == 0 {
      SoundAtStart(e);
    } else {
      var n := |cs| - 1;
      forall k | 0 <= k < n && Accepted(e, cs[..n], k) ensures Good(cs[..n][k]) {
        assert cs[..n][..k] == cs[..k] && Accepted(e, cs, k);
      }
      assert Accepts(After(e, cs[..n]), cs[n]) ==> Accepted(e, cs, n);
      RunKeepsSound(e, cs[..n]);
      RunKeepsInv(e, cs[..n]);
      ApplyKeepsSound(After(e, cs[..n]), cs[n]);
    }
  }

  /** A run with a complete header whose accepted commands are all good passes as soon as
      every required iteration is verified. */
  lemma GoodRunPasses(e: Evidence, cs: seq<Command>)
    requires Fresh(e) && HeaderOk(e.header) && AllGood(e, cs) && After(e, cs).state == Verified
    ensures After(e, cs).status == Pass
  {
    hide HeaderOk, Failing, Complete, AllGood;
    var b := After(e, cs);
    RunKeepsInv(e, cs);
    RunKeepsSound(e, cs);
    HeaderStays(e, cs);
    assert Judged(b) == b.iterations && Done(b) == |b.iterations|;
  }

  /** One iteration as the operator carries it out. */
  datatype Round = Round(arm: Command, verify: Command)

  predicate GoodRound(r: Round) {
    && r.arm.Arm? && r.arm.allowed && Good(r.arm) && r.verify.Verify? && Good(r.verify)
    && r.verify.boot != r.arm.boot
  }

  function Commands(rs: seq<Round>): seq<Command> {
    if |rs| == 0 then [] else Commands(rs[..|rs| - 1]) + [rs[|rs| - 1].arm, rs[|rs| - 1].verify]
  }

  /** Where a run of good rounds stands. */
  predicate Stands(e: Evidence, required: int, n: nat) {
    && e.required == required && |e.iterations| == n
    && e.state == (if n == 0 then Prepared else if n >= required then Verified else VerifiedPartial)
  }

  lemma RoundStep(e: Evidence, required: int, n: nat, r: Round)
    requires Stands(e, required, n) && n < required && GoodRound(r)
    ensures Accepts(e, r.arm) && Accepts(Apply(e, r.arm), r.verify)
    ensures Stands(Apply(Apply(e, r.arm), r.verify), required, n + 1)
  {
    hide Verdict, Good;
  }

  lemma StandsAtStart(e: Evidence)
    requires Fresh(e)
    ensures Stands(After(e, []), e.required, 0) && AllGood(e, [])
  {
  }

  lemma {:induction false} RoundsStand(e: Evidence, rs: seq<Round>)
    requires Fresh(e) && |rs| <= e.required && forall i :: 0 <= i < |rs| ==> GoodRound(rs[i])
    ensures Stands(After(e, Commands(rs)), e.required, |rs|) && AllGood(e, Commands(rs))
    decreases |rs|
  {
    hide Apply, Accepts, Stands, Good, AllGood, After;
    if |rs| == 0 {
      StandsAtStart(e);
    } else {
      var n := |rs| - 1;
      var before, r := Commands(rs[..n]), rs[n];
      RoundsStand(e, rs[..n]);
      RoundStep(After(e, before), e.required, n, r);
      OneMore(e, before, r.arm);
      OneMore(e, before + [r.arm], r.verify);
      assert Commands(rs) == before + [r.arm] + [r.verify];
    }
  }

  lemma OneMore(e: Evidence, cs: seq<Command>, c: Command)
    requires AllGood(e, cs) && Good(c)
    ensures AllGood(e, cs + [c]) && After(e, cs + [c]) == Apply(After(e, cs), c)
  {
    hide Apply, Accepts, Good;
    var all := cs + [c];
    assert all[..|cs|] == cs;
    forall k | 0 <= k < |all| && Accepted(e, all, k) ensures Good(all[k]) {
      if k < |cs| {
        assert all[..k] == cs[..k] && Accepted(e, cs, k);
      }
    }
  }

  /** So an operator who carries out the required rounds in order gets PASS. */
  lemma GoodRoundsPass(e: Evidence, rs: seq<Round>)
    requires Fresh(e) && HeaderOk(e.header) && |rs| == e.required && forall i :: 0 <= i < |rs| ==> GoodRound(rs[i])
    ensures After(e, Commands(rs)).status == Pass
  {
    hide HeaderOk, AllGood, GoodRound;
    RoundsStand(e, rs);
    GoodRunPasses(e, Commands(rs));
  }

  /** Headers in order exist. */
  lemma SomeHeader() returns (h: Header)
    ensures HeaderOk(h)
  {
    var x := Str("x");
    h := Header(x, x, Str("/x"), x, Str("wal_sync"), Section(Hardware(x, x, x, x, x, x, x, Str("managed_pdu"))));
    assert !IsSpace("x"[0]) && !IsSpace("/x"[0]) && !IsSpace("wal_sync"[0]) && !IsSpace("managed_pdu"[0]);
    assert Lower("x") == "x";
    StripsNothing("x");
    assert |"x"| != |"unknown"| && |"x"| != |"unspecified"|;
  }

  /** A policy that is blank, or says that it is not known in any mix of cases and behind
      any white space, is not one. */
  lemma UnknownPolicies(space: char)
    requires IsSpace(space)
    ensures !PolicyKnown(Str([space])) && !PolicyKnown(Str([space] + "Unknown")) && !PolicyKnown(Str("UNSPECIFIED"))
  {
    hide IsSpace;
    assert [space][1..] == "";
    assert Strip([space]) == Strip("") == "";
    Letters();
    StripsNothing("Unknown");
    StripsNothing("UNSPECIFIED");
    assert ([space] + "Unknown")[1..] == "Unknown";
    assert Lower("Unknown") == "unknown" && Lower("UNSPECIFIED") == "unspecified" && Lower("") == "";
  }

  lemma Letters()
    ensures !IsSpace('U') && !IsSpace('n') && !IsSpace('D')
  {
  }

  /** A power-control command is never started, and leaves the evidence alone. */
  lemma ForbiddenWorkload(e: Evidence, boot: string, marker: string)
    ensures !Accepts(e, Arm(false, boot, marker)) && Apply(e, Arm(false, boot, marker)) == e
  {
  }
}
