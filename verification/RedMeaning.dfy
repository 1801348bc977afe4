/**
  What a red_valid verdict guarantees once all rules are combined
  (src/internal/verify/red.go).
 */
module RedMeaning {

  import opened Wrappers
  import opened Evidence
  import opened Red

  predicate IsValid(v: Verdict) {
    v.Verdict? && v.outcome == RedValid
  }

  // --------------------------------------------------------------- a sound red

  ghost predicate ScopeIsClean(r: RedInput) {
    && (forall i :: 0 <= i < |r.changed| ==>
          !OutOfScope(r, r.changed[i]) && r.changed[i].change != FileRemoved && r.changed[i].change != FileMoved)
    && (r.maxStubs.Some? ==> |r.stubs| <= r.maxStubs.value)
    && (forall i :: 0 <= i < |r.stubs| ==>
          !BadStub(r, r.stubs[i]) && (r.stubs[i].shape == Panic ==> PanicAllowed(r, r.stubs[i].language)))
    && (forall i :: 0 <= i < |r.changed| && r.changed[i].cls == StubClass ==> HasStub(r, r.changed[i].path))
  }

  predicate SideRan(r: RedInput, side: Side) {
    && (forall i :: 0 <= i < |r.observed.runs| && RunOf(r, side, i) ==> !BrokenRun(r.observed.runs[i]))
    && (forall s :: s in r.suiteLanguages ==> SuiteRan(r, side, s))
  }

  predicate BaseIsClean(r: RedInput) {
    SideRan(r, BaseTree) && forall i :: 0 <= i < |r.observed.tests| ==> !IsFailure(r.observed.tests[i].base)
  }

  predicate HeadRan(r: RedInput) {
    SideRan(r, HeadTree) && exists i :: 0 <= i < |r.observed.runs| && RunOf(r, HeadTree, i)
  }

  /** Every criterion has names, and every name stands for at least one test at the head. */
  predicate NamesResolve(r: RedInput) {
    forall i :: 0 <= i < |r.criteria| ==>
      Declared(r, r.criteria[i].id) != []
      && forall k :: 0 <= k < |Declared(r, r.criteria[i].id)| ==> Discovered(r, Declared(r, r.criteria[i].id)[k])
  }

  /** Every test a name stands for is new or modified, reported, and not skipped. */
  predicate DeclaredAreNew(r: RedInput) {
    forall id :: id in DeclaredResolved(r) ==>
      id in NewTests(r) && Report(r, id).Some? && Report(r, id).value.head != Skipped
  }

  /** Every new test is reported, and none is an error or a stub that is not allowed to panic. */
  predicate NewAreJudged(r: RedInput) {
    && NewTests(r) != {}
    && (forall id :: id in NewTests(r) ==>
          Report(r, id).Some? && Report(r, id).value.head != FailedError
          && (Report(r, id).value.head == Stub ==> PanicAllowed(r, LanguageOf(r, id))))
  }

  /** What passed at the base is present, and passes if it is reported; truncation makes no difference. */
  predicate BaseIsKept(r: RedInput) {
    forall id :: id in BasePassing(r) && id !in Modified(r) && InHeadScope(r, id) ==>
      id in HeadPresent(r) && (Report(r, id).Some? ==> Report(r, id).value.head == Passed)
  }

  /** The test is reported to fail by assertion, or as a stub whose language may panic. */
  predicate FailsAsReported(r: RedInput, id: string) {
    Report(r, id).Some? && (Report(r, id).value.head == FailedAssertion
      || (Report(r, id).value.head == Stub && PanicAllowed(r, LanguageOf(r, id))))
  }

  predicate PassesAsReported(r: RedInput, id: string) {
    Report(r, id).Some? && Report(r, id).value.head == Passed
  }

  predicate HasFailing(r: RedInput, ac: string) {
    exists id :: id in Resolved(r, ac) && FailsAsReported(r, id)
  }

  predicate HasPassing(r: RedInput, ac: string) {
    exists id :: id in Resolved(r, ac) && PassesAsReported(r, id)
  }

  predicate CriteriaHold(r: RedInput) {
    forall i :: 0 <= i < |r.criteria| ==>
      (r.criteria[i].kind == ChangeKind ==> HasFailing(r, r.criteria[i].id))
      && (r.criteria[i].kind == PreservationKind ==> HasPassing(r, r.criteria[i].id))
  }

  ghost predicate RedIsSound(r: RedInput) {
    && r.observed.validationBlob == r.baseValidationBlob != ""
    && ScopeIsClean(r) && BaseIsClean(r) && HeadRan(r)
    && NamesResolve(r) && DeclaredAreNew(r) && NewAreJudged(r) && BaseIsKept(r) && CriteriaHold(r)
  }

  // ------------------------------------------------------------------ rule by rule

  lemma ScopeRules(r: RedInput)
    ensures R1(r) == [] <==> ScopeIsClean(r)
  {
    hide OutOfScope, BadStub, HasStub, PanicAllowed;
  }

  lemma BaseRules(r: RedInput)
    ensures R2(r) == [] <==> BaseIsClean(r)
  {
    hide SuiteRan, ChangedPath, BrokenRun;
    assert R2(r) == [] <==> !BaseBroken(r) && !SomeFlaky(r);
  }

  lemma HeadRules(r: RedInput)
    ensures HeadOk(r) <==> HeadRan(r)
  {
    hide SuiteRan;
  }

  lemma NameRules(r: RedInput)
    ensures !SomeNotDiscovered(r) && !SomeNotCovered(r) <==> NamesResolve(r)
  {
    hide Discovered;
  }

  /** A declared test that is new is reported: by R11 if the report is truncated, else by the complete document. */
  lemma ReportRules(r: RedInput)
    requires NewTestsUsable(r)
    ensures R11(r) == [] && !SomeDeclaredNotNew(r) && !SomeNewSkipped(r) && !SomeNewError(r) && !SomeNewPanic(r)
      && NewTests(r) != {}
      <==> DeclaredAreNew(r) && NewAreJudged(r)
  {
    hide DeclaredResolved, NewTests, Find, PanicAllowed, LanguageOf;
    assert R11(r) == [] <==> !(r.observed.truncated && (HiddenNew(r) || HiddenDeclared(r)));
    if !SomeDeclaredNotNew(r) && R11(r) == [] {
      forall id | id in NewTests(r) ensures Report(r, id).Some? {
      }
    }
  }

  lemma KeptRules(r: RedInput)
    requires TestsUsable(r)
    ensures R8(r) == [] <==> BaseIsKept(r)
  {
    hide BasePassing, HeadPresent, Modified, InHeadScope, Find;
    assert R8(r) == [] <==> !SomeRemoved(r) && !SomeBroken(r);
    forall id | id in BasePassing(r) && Judged(r, id)
      ensures !Removed(r, id) && !Broken(r, id) <==>
        id in HeadPresent(r) && (Report(r, id).Some? ==> Report(r, id).value.head == Passed)
    {
      if Report(r, id).Some? {
        ReportedStatusIsKnown(r, id);
      }
    }
  }

  lemma ReportedStatusIsKnown(r: RedInput, id: string)
    requires TestsUsable(r) && Report(r, id).Some?
    ensures Report(r, id).value.head != Unknown
  {
    FindIsThere(r.observed.tests, id);
  }

  lemma CriterionRules(r: RedInput, c: Criterion)
    requires forall id :: id in Resolved(r, c.id) ==> Report(r, id).Some?
    ensures c.kind == ChangeKind ==> (OutcomeOf(r, c) == AcFailing <==> HasFailing(r, c.id))
    ensures c.kind == PreservationKind ==> (OutcomeOf(r, c) == AcPassing <==> HasPassing(r, c.id))
  {
    hide Resolved, Find, PanicAllowed, LanguageOf;
    var ids := Resolved(r, c.id);
    assert SomeFails(r, ids) <==> HasFailing(r, c.id) by {
      forall id | id in ids ensures Fails(r, id) <==> FailsAsReported(r, id) {
      }
    }
    assert SomePasses(r, ids) <==> HasPassing(r, c.id) by {
      forall id | id in ids ensures HeadStatus(r, id) == Passed <==> PassesAsReported(r, id) {
      }
    }
  }

  lemma CriteriaRules(r: RedInput)
    requires CriteriaUsable(r) && DeclaredAreNew(r)
    ensures !SomeNotPreserved(r) && !SomeUnsatisfied(r) <==> CriteriaHold(r)
  {
    hide OutcomeOf, Find, HasFailing, HasPassing, Resolved;
    forall i | 0 <= i < |r.criteria|
      ensures Unsatisfied(r, i) <==> r.criteria[i].kind == ChangeKind && !HasFailing(r, r.criteria[i].id)
      ensures r.criteria[i].kind == PreservationKind ==>
        (OutcomeOf(r, r.criteria[i]) == AcPassing <==> HasPassing(r, r.criteria[i].id))
    {
      ResolvedIsDeclared(r, i);
      CriterionRules(r, r.criteria[i]);
    }
  }

  lemma ResolvedIsDeclared(r: RedInput, i: int)
    requires 0 <= i < |r.criteria|
    ensures Resolved(r, r.criteria[i].id) <= DeclaredResolved(r)
  {
    hide NamedBy, HeadPresent;
    forall id | id in Resolved(r, r.criteria[i].id) ensures id in DeclaredResolved(r) {
      assert ResolvedBySome(r, id);
    }
  }

  // -------------------------------------------------------------------- the theorem

  predicate NoneValid(groups: seq<Group>) {
    forall i :: 0 <= i < |groups| ==> groups[i].outcome != RedValid
  }

  lemma NoneValidConcat(a: seq<Group>, b: seq<Group>)
    requires NoneValid(a) && NoneValid(b)
    ensures NoneValid(a + b)
  {
  }

  lemma HeadGroupsEmpty(r: RedInput)
    ensures HeadGroups(r) == [] <==>
      (NewTests(r) != {} && !SomeNotDiscovered(r) && !SomeDeclaredNotNew(r) && !SomeNewSkipped(r) && !SomeNotCovered(r)
       && !SomeNewError(r) && !SomeNewPanic(r) && R8(r) == [] && !SomeNotPreserved(r))
  {
    hide NewTests, SomeNotDiscovered, SomeDeclaredNotNew, SomeNewSkipped, SomeNotCovered, SomeNewError, SomeNewPanic,
      R8, SomeNotPreserved;
    var n, c, p := Note(RedInvalid, If(NewTests(r) == {}, NoNewTests)),
      Note(RedInvalid, If(SomeNotCovered(r), AcNotCovered)),
      Note(RedInvalid, If(SomeNotPreserved(r), PreservationNotPassing));
    assert R5(r) == [] <==> !SomeNotDiscovered(r) && !SomeDeclaredNotNew(r) && !SomeNewSkipped(r);
    assert R7(r) == [] <==> !SomeNewError(r) && !SomeNewPanic(r);
    SixEmpty(n, R5(r), c, R7(r), R8(r), p);
  }

  lemma SixEmpty(a: seq<Group>, b: seq<Group>, c: seq<Group>, d: seq<Group>, e: seq<Group>, f: seq<Group>)
    ensures a + b + c + d + e + f == [] <==> a == [] && b == [] && c == [] && d == [] && e == [] && f == []
  {
    assert |a + b + c + d + e + f| == |a| + |b| + |c| + |d| + |e| + |f|;
  }

  lemma NoteIsInvalid(o: Outcome, reasons: seq<Reason>)
    requires o != RedValid
    ensures NoneValid(Note(o, reasons))
  {
  }

  lemma HeadGroupsValid(r: RedInput)
    ensures NoneValid(HeadGroups(r))
  {
    hide NewTests, SomeNotDiscovered, SomeDeclaredNotNew, SomeNewSkipped, SomeNotCovered, SomeNewError, SomeNewPanic,
      SomeBroken, SomeRemoved, SomeNotPreserved, NoneValid, Note, If;
    var n, c, p := Note(RedInvalid, If(NewTests(r) == {}, NoNewTests)),
      Note(RedInvalid, If(SomeNotCovered(r), AcNotCovered)),
      Note(RedInvalid, If(SomeNotPreserved(r), PreservationNotPassing));
    forall reasons ensures NoneValid(Note(RedInvalid, reasons)) {
      NoteIsInvalid(RedInvalid, reasons);
    }
    BeforeIsInvalid(n, R5(r), c, R7(r), R8(r), p);
  }

  lemma GroupsEmpty(r: RedInput, early: seq<Group>, late: seq<Group>)
    requires NoneValid(early) && NoneValid(late)
    ensures BeforeR10(r, early) + AfterR10(r, late) == [] <==>
      (R0(r) == [] && R1(r) == [] && early == [] && R2(r) == [] && HeadOk(r) && HeadGroups(r) == [] && R11(r) == []
        && late == [])
    ensures NoneValid(BeforeR10(r, early) + AfterR10(r, late))
  {
    hide HeadGroups, R3Reasons, SomeOutOfScope, SomeDeletion, SomeMalformed, SomePanicStub, BaseBroken, SomeFlaky,
      HiddenNew, HiddenDeclared;
    HeadGroupsValid(r);
    var runs := Note(RedInvalid, R3Reasons(r));
    var head := if HeadOk(r) then HeadGroups(r) else [];
    SixEmpty(R0(r), R1(r), early, R2(r), runs, head);
    assert NoneValid(R0(r)) && NoneValid(R1(r)) && NoneValid(R2(r)) && NoneValid(runs) && NoneValid(head)
      && NoneValid(R11(r));
    BeforeIsInvalid(R0(r), R1(r), early, R2(r), runs, head);
    assert BeforeR10(r, early) == R0(r) + R1(r) + early + R2(r) + runs + head;
    var cut := if HeadOk(r) then R11(r) else [];
    NoneValidConcat(cut, late);
    NoneValidConcat(BeforeR10(r, early), AfterR10(r, late));
  }

  lemma BeforeIsInvalid(a: seq<Group>, b: seq<Group>, c: seq<Group>, d: seq<Group>, e: seq<Group>, f: seq<Group>)
    requires NoneValid(a) && NoneValid(b) && NoneValid(c) && NoneValid(d) && NoneValid(e) && NoneValid(f)
    ensures NoneValid(a + b + c + d + e + f)
  {
    hide NoneValid;
    NoneValidConcat(a, b);
    NoneValidConcat(a + b, c);
    NoneValidConcat(a + b + c, d);
    NoneValidConcat(a + b + c + d, e);
    NoneValidConcat(a + b + c + d + e, f);
  }

  /** The verdict is red_valid exactly on usable facts of a sound red that no generation rule objects to. */
  lemma RedValidIff(r: RedInput, early: Option<seq<Group>>, late: Option<seq<Group>>)
    requires early.Some? ==> NoneValid(early.value)
    requires late.Some? ==> NoneValid(late.value)
    ensures IsValid(VerdictOf(r, early, late)) <==> Usable(r) && early == Some([]) && late == Some([]) && RedIsSound(r)
  {
    hide BeforeR10, AfterR10, R1, R2, R8, R11, HeadOk, HeadGroups, ScopeIsClean, BaseIsClean, HeadRan, NamesResolve,
      DeclaredAreNew, NewAreJudged, BaseIsKept, CriteriaHold, AcResults, NewTests, Unique, AllReasons,
      SomeUnsatisfied, SomeNotDiscovered, SomeDeclaredNotNew, SomeNewSkipped, SomeNotCovered, SomeNewError,
      SomeNewPanic, SomeNotPreserved, SomeSatisfied, ListsR10, CriteriaUsable, SetsUsable, TestsUsable, ScopeUsable,
      RunsUsable, NewTestsUsable, NoneValid;
    if Usable(r) && early.Some? && late.Some? {
      GroupsEmpty(r, early.value, late.value);
      FirstIsNotValid(BeforeR10(r, early.value) + AfterR10(r, late.value));
      HeadGroupsEmpty(r);
      ScopeRules(r);
      BaseRules(r);
      HeadRules(r);
      NameRules(r);
      ReportRules(r);
      KeptRules(r);
      if DeclaredAreNew(r) {
        CriteriaRules(r);
      }
    }
  }

  lemma FirstIsNotValid(groups: seq<Group>)
    requires NoneValid(groups)
    ensures groups != [] ==> groups[0].outcome != RedValid
  {
  }

  /** Corollary of RedValidIff: in a valid red every kept base test has the head status passed, reported or not. */
  lemma KeptTestsCountAsPassed(r: RedInput, id: string)
    requires TestsUsable(r) && BaseIsKept(r) && id in BasePassing(r) && id !in Modified(r) && InHeadScope(r, id)
    ensures HeadStatus(r, id) == Passed && id in HeadPresent(r)
  {
  }
}
