/** Who may still be inside a call when the region is unmapped.  A call leaves by decrementing the
    in-flight counter, and only then tests whether it was the last and everything is freed. */
module Unmapping {
  import opened RemoteFree

  predicate Entry(t: Step)
  {
    t.Enter? || t.OwnerEnter?
  }

  predicate Exit(t: Step)
  {
    t.LeaveCall? || t.OwnerLeave?
  }

  /** Entries less exits. */
  function Net(run: seq<Step>): int
  {
    if run == [] then 0
    else (if Entry(run[0]) then 1 else if Exit(run[0]) then -1 else 0) + Net(run[1..])
  }

  ghost predicate NobodyInside(s: State)
  {
    !Guarded(s.stage) && forall j :: j in s.pc ==> !InCall(s.pc[j])
  }

  /** Only entries and exits change the counter. */
  lemma StepFlows(s: State, t: Step)
    requires Enabled(s, t)
    ensures Apply(s, t).inFlight == s.inFlight + if Entry(t) then 1 else if Exit(t) then -1 else 0
  {
  }

  lemma {:induction false} Flow(s: State, run: seq<Step>, s': State)
    requires Reaches(s, run, s')
    ensures s'.inFlight == s.inFlight + Net(run)
    decreases |run|
  {
    hide Apply, Enabled;
    if run != [] {
      StepFlows(s, run[0]);
      Flow(Apply(s, run[0]), run[1..], s');
    }
  }

  /** A call that is over stays over. */
  lemma StaysDone(s: State, t: Step, i: nat)
    requires Enabled(s, t) && i in s.blocks && i in s.pc && s.pc[i] == Done
    ensures var s' := Apply(s, t); i in s'.blocks && i in s'.pc && s'.pc[i] == Done
  {
    hide Moved;
    if OwnerEnabled(s, t) {
      OwnerLeavesDone(s, t, i);
    } else {
      CallLeavesDone(s, t, i);
    }
  }

  lemma OwnerLeavesDone(s: State, t: Step, i: nat)
    requires OwnerEnabled(s, t) && i in s.blocks && i in s.pc && s.pc[i] == Done
    ensures var s' := OwnerApply(s, t); i in s'.blocks && i in s'.pc && s'.pc[i] == Done
  {
    hide Moved;
  }

  /** A step of a call changes its own place only. */
  lemma CallLeavesDone(s: State, t: Step, i: nat)
    requires CallEnabled(s, t) && i in s.blocks && i in s.pc && s.pc[i] == Done
    ensures var s' := CallApply(s, t); i in s'.blocks && i in s'.pc && s'.pc[i] == Done
  {
    hide Moved;
    match t
    case TakeStack(j) => assert j != i;
    case PushOwn(j) => assert j != i;
    case _ =>
  }

  lemma {:induction false} DoneForever(s: State, run: seq<Step>, s': State, i: nat)
    requires Reaches(s, run, s') && i in s.blocks && i in s.pc && s.pc[i] == Done
    ensures i in s'.pc && s'.pc[i] == Done
    decreases |run|
  {
    hide Apply, Enabled;
    if run != [] {
      StaysDone(s, run[0], i);
      DoneForever(Apply(s, run[0]), run[1..], s', i);
    }
  }

  /** A call that leaves and later tests was the last in flight. */
  lemma WasLast(s: State, i: nat, between: seq<Step>, s1: State)
    requires Enabled(s, LeaveCall(i)) && Reaches(Apply(s, LeaveCall(i)), between, s1) && Enabled(s1, TestEmpty(i))
    ensures s.inFlight == 1 && Apply(s, LeaveCall(i)).inFlight == 0
  {
    hide Apply, Enabled, Reaches;
    LeavingCounts(s, i);
    TestsBefore(s1, i);
    if s.inFlight != 1 { DoneForever(Apply(s, LeaveCall(i)), between, s1, i); }
  }

  lemma LeavingCounts(s: State, i: nat)
    requires Enabled(s, LeaveCall(i))
    ensures var s' := Apply(s, LeaveCall(i));
      s'.inFlight == s.inFlight - 1 && i in s'.blocks && i in s'.pc && (s.inFlight != 1 ==> s'.pc[i] == Done)
  {
    hide OwnerApply;
  }

  lemma TestsBefore(s: State, i: nat)
    requires Enabled(s, TestEmpty(i))
    ensures i in s.pc && s.pc[i] == TestOccupied
  {
  }

  lemma CountsNobody(s: State)
    requires Inv(s)
    ensures s.inFlight == 0 <==> NobodyInside(s)
    ensures s.inFlight >= 0
  {
    hide Books;
    assert Flight(s);
    if s.inFlight == 0 { NobodyInCall(s); }
    if NobodyInside(s) { assert Active(s.pc) == {}; }
  }

  lemma {:induction false} NoEntryNoGain(run: seq<Step>)
    requires forall k :: 0 <= k < |run| ==> !Entry(run[k])
    ensures Net(run) <= 0
  {
    if run != [] {
      assert forall k :: 0 <= k < |run[1..]| ==> run[1..][k] == run[k + 1];
      NoEntryNoGain(run[1..]);
    }
  }

  /** When a call's test unmaps the region, nobody is inside a call exactly if everyone who entered
      since that call left has left too; so it is if nobody has entered since. */
  lemma UnmappedAlone(before: seq<Step>, s: State, i: nat, between: seq<Step>, s1: State)
    requires Reaches(Init(), before, s) && Enabled(s, LeaveCall(i))
    requires Reaches(Apply(s, LeaveCall(i)), between, s1) && Enabled(s1, TestEmpty(i))
    ensures NobodyInside(Apply(s1, TestEmpty(i))) <==> Net(between) == 0
    ensures (forall k :: 0 <= k < |between| ==> !Entry(between[k])) ==> NobodyInside(Apply(s1, TestEmpty(i)))
  {
    hide Inv, Apply, Enabled, NobodyInside;
    WasLast(s, i, between, s1);
    InitInv();
    RunKeeps(Init(), before, s);
    StepKeeps(s, LeaveCall(i));
    RunKeeps(Apply(s, LeaveCall(i)), between, s1);
    StepKeeps(s1, TestEmpty(i));
    Flow(Apply(s, LeaveCall(i)), between, s1);
    StepFlows(s1, TestEmpty(i));
    CountsNobody(Apply(s1, TestEmpty(i)));
    if forall k :: 0 <= k < |between| ==> !Entry(between[k]) { NoEntryNoGain(between); }
  }

  predicate OwnerTests(stage: Stage)
  {
    stage == Testing || stage == TestingOccupied
  }

  lemma OnlyLeavingTests(s: State, t: Step)
    requires Enabled(s, t) && t != OwnerLeave && !OwnerTests(s.stage)
    ensures !OwnerTests(Apply(s, t).stage)
  {
  }

  lemma {:induction false} NoTestWithoutLeaving(s: State, run: seq<Step>, s': State)
    requires Reaches(s, run, s') && !OwnerTests(s.stage) && forall k :: 0 <= k < |run| ==> run[k] != OwnerLeave
    ensures !OwnerTests(s'.stage)
    decreases |run|
  {
    hide Apply, Enabled;
    if run != [] {
      OnlyLeavingTests(s, run[0]);
      assert forall k :: 0 <= k < |run[1..]| ==> run[1..][k] == run[k + 1];
      NoTestWithoutLeaving(Apply(s, run[0]), run[1..], s');
    }
  }

  /** The same of the owner, from its last exit on. */
  lemma OwnerUnmapsAlone(before: seq<Step>, s: State, between: seq<Step>, s1: State)
    requires Reaches(Init(), before, s) && Enabled(s, OwnerLeave)
      && forall k :: 0 <= k < |between| ==> between[k] != OwnerLeave
    requires Reaches(Apply(s, OwnerLeave), between, s1) && Enabled(s1, OwnerTestOccupied)
    ensures NobodyInside(Apply(s1, OwnerTestOccupied)) <==> Net(between) == 0
    ensures (forall k :: 0 <= k < |between| ==> !Entry(between[k])) ==> NobodyInside(Apply(s1, OwnerTestOccupied))
  {
    OwnerWasLast(s, between, s1);
    hide Inv, Apply, Enabled, NobodyInside;
    InitInv();
    RunKeeps(Init(), before, s);
    StepKeeps(s, OwnerLeave);
    RunKeeps(Apply(s, OwnerLeave), between, s1);
    StepKeeps(s1, OwnerTestOccupied);
    Flow(Apply(s, OwnerLeave), between, s1);
    StepFlows(s1, OwnerTestOccupied);
    CountsNobody(Apply(s1, OwnerTestOccupied));
    if forall k :: 0 <= k < |between| ==> !Entry(between[k]) { NoEntryNoGain(between); }
  }

  lemma OwnerWasLast(s: State, between: seq<Step>, s1: State)
    requires Enabled(s, OwnerLeave) && forall k :: 0 <= k < |between| ==> between[k] != OwnerLeave
    requires Reaches(Apply(s, OwnerLeave), between, s1) && Enabled(s1, OwnerTestOccupied)
    ensures Apply(s, OwnerLeave).inFlight == 0
  {
    hide Apply, Enabled, Reaches;
    LeavingTests(s);
    TestsWhenTesting(s1);
    if s.inFlight != 1 { NoTestWithoutLeaving(Apply(s, OwnerLeave), between, s1); }
  }

  lemma LeavingTests(s: State)
    requires Enabled(s, OwnerLeave)
    ensures Apply(s, OwnerLeave).inFlight == s.inFlight - 1
    ensures s.inFlight != 1 ==> !OwnerTests(Apply(s, OwnerLeave).stage)
  {
    hide CallApply;
  }

  lemma TestsWhenTesting(s: State)
    requires Enabled(s, OwnerTestOccupied)
    ensures OwnerTests(s.stage)
  {
    hide CallEnabled;
    NotACallStep(s);
  }

  lemma NotACallStep(s: State)
    ensures !CallEnabled(s, OwnerTestOccupied)
  {
  }

  // ---------- a run in which somebody is inside ----------

  lemma {:induction false} OneMore(s: State, run: seq<Step>, s': State, t: Step)
    requires Reaches(s, run, s') && Enabled(s', t)
    ensures Reaches(s, run + [t], Apply(s', t))
    decreases |run|
  {
    hide Apply, Enabled;
    if run != [] {
      assert (run + [t])[1..] == run[1..] + [t];
      OneMore(Apply(s, run[0]), run[1..], s', t);
    } else {
      assert run + [t] == [t] && [t][1..] == [];
    }
  }

  function OneByte(): Block
  {
    Block(Page, 1)
  }

  lemma TakeStep(run: seq<Step>, s: State, t: Step) returns (run': seq<Step>, s': State)
    requires Reaches(Init(), run, s) && Enabled(s, t)
    ensures run' == run + [t] && s' == Apply(s, t) && Reaches(Init(), run', s')
  {
    OneMore(Init(), run, s, t);
    run', s' := run + [t], Apply(s, t);
  }

  /** The owner has allocated two blocks. */
  ghost predicate TwoBlocks(s: State)
  {
    && !s.unmapped && s.occupied == 2 && s.slabs == [] && s.pages == [] && s.held == []
    && s.blocks == map[0 := OneByte(), 1 := OneByte()] && s.pc == map[0 := Idle, 1 := Idle]
    && s.place == map[0 := RemoteFree.Live, 1 := RemoteFree.Live]
  }

  lemma Allocated() returns (run: seq<Step>, s: State)
    ensures Reaches(Init(), run, s) && TwoBlocks(s) && s.alive && s.inFlight == 1 && s.stage == In
  {
    hide Reaches;
    assert Reaches(Init(), [], Init()) by { Nowhere(Init()); }
    run, s := TakeStep([], Init(), OwnerEnter);
    run, s := TakeStep(run, s, OwnerAllocate(0, OneByte()));
    run, s := TakeStep(run, s, OwnerAllocate(1, OneByte()));
  }

  lemma Nowhere(s: State)
    ensures Reaches(s, [], s)
  {
  }

  /** Then it is torn down. */
  lemma TornDown() returns (run: seq<Step>, s: State)
    ensures Reaches(Init(), run, s) && TwoBlocks(s) && !s.alive && s.inFlight == 0 && s.stage == Gone
  {
    hide Reaches;
    run, s := Allocated();
    run, s := TakeStep(run, s, OwnerClose);
    run, s := TakeStep(run, s, OwnerDrain);
    assert s.place == map[0 := RemoteFree.Live, 1 := RemoteFree.Live];
    run, s := TakeStep(run, s, OwnerDrainPages);
    assert s.place == map[0 := RemoteFree.Live, 1 := RemoteFree.Live];
    run, s := LastOwnerSteps(run, s);
  }

  lemma LastOwnerSteps(run0: seq<Step>, s0: State) returns (run: seq<Step>, s: State)
    requires Reaches(Init(), run0, s0) && TwoBlocks(s0) && !s0.alive && s0.inFlight == 1 && s0.stage == DrainedPages
    ensures Reaches(Init(), run, s) && TwoBlocks(s) && !s.alive && s.inFlight == 0 && s.stage == Gone
  {
    hide Reaches;
    run, s := TakeStep(run0, s0, OwnerResume);
    run, s := TakeStep(run, s, OwnerLeave);
    run, s := TakeStep(run, s, OwnerTest);
    run, s := TakeStep(run, s, OwnerTestOccupied);
  }

  /** Call 0 has freed its block and left, the last in flight, and has seen the owner gone. */
  lemma AboutToTest() returns (run: seq<Step>, s: State)
    ensures Reaches(Init(), run, s) && !s.unmapped && !s.alive && s.inFlight == 0 && s.occupied == 1 && s.stage == Gone
    ensures s.blocks == map[0 := OneByte(), 1 := OneByte()] && s.pc == map[0 := TestOccupied, 1 := Idle]
    ensures s.place == map[0 := Charged, 1 := RemoteFree.Live]
  {
    hide Reaches;
    run, s := AboutToLeave();
    run, s := TakeStep(run, s, LeaveCall(0));
    run, s := TakeStep(run, s, TestOwner(0));
    assert s.pc == map[0 := TestOccupied, 1 := Idle];
  }

  lemma AboutToLeave() returns (run: seq<Step>, s: State)
    ensures Reaches(Init(), run, s) && !s.unmapped && !s.alive && s.inFlight == 1 && s.occupied == 1 && s.stage == Gone
    ensures s.blocks == map[0 := OneByte(), 1 := OneByte()] && s.pc == map[0 := Leave, 1 := Idle]
    ensures s.place == map[0 := Charged, 1 := RemoteFree.Live]
  {
    hide Reaches;
    run, s := TornDown();
    run, s := TakeStep(run, s, Enter(0));
    run, s := TakeStep(run, s, LoadOwner(0));
    run, s := TakeStep(run, s, ChargeOwn(0));
    assert s.pc == map[0 := Leave, 1 := Idle];
    assert s.place == map[0 := Charged, 1 := RemoteFree.Live];
  }

  /** Two threads free the last two blocks.  The first leaves as the last in flight and sees the owner
      gone; the second enters and frees its block; the first sees that everything is free and unmaps
      the region, which the second has yet to leave. */
  lemma UnmappedTooSoon() returns (run: seq<Step>, s: State)
    ensures Reaches(Init(), run, s) && s.unmapped && s.inFlight == 1 && 1 in s.pc && s.pc[1] == Leave
    ensures !NobodyInside(s)
  {
    hide Reaches;
    run, s := AboutToTest();
    run, s := TakeStep(run, s, Enter(1));
    run, s := TakeStep(run, s, LoadOwner(1));
    run, s := TakeStep(run, s, ChargeOwn(1));
    run, s := TakeStep(run, s, TestEmpty(0));
  }
}
