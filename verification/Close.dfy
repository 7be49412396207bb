/** Closing a session: a final checkpoint or a recorded discard, then cleanup steps that a later close may resume.
  *
  * A journal call that fails may or may not have landed, which also stands for a crash right after it; an effect
  * may succeed, fail, or be the last thing the process does. What each call does is an input of a close, so where it
  * stops and what it leaves behind are functions of its inputs. */
module Close {
  import opened Domain

  datatype Step = Workspace | Forwarders | Services | Supervisor | Artifacts | ReleaseLease | RemoveTree | PreserveTree

  /** What of a session decides its cleanup steps. */
  datatype Session = Session(readWrite: bool, hasLease: bool, removeArtifacts: bool, created: bool)

  function Steps(s: Session): (steps: seq<Step>)
    ensures |steps| >= 5
  {
    [Workspace, Forwarders, Services, Supervisor]
    + (if s.removeArtifacts then [Artifacts] else [])
    + (if s.readWrite && s.hasLease then [ReleaseLease] else [])
    + [if s.created then RemoveTree else PreserveTree]
  }

  /** What may be done to a session at all: its tree is removed only if it was created for it, and otherwise kept; a
    * lease is released only if the session holds one, and artifacts removed only if they are to go. */
  predicate Fits(s: Session, step: Step) {
    && (step == RemoveTree ==> s.created) && (step == PreserveTree ==> !s.created)
    && (step == ReleaseLease ==> s.readWrite && s.hasLease) && (step == Artifacts ==> s.removeArtifacts)
  }

  predicate AllFit(s: Session, effects: seq<Step>) { forall i :: 0 <= i < |effects| ==> Fits(s, effects[i]) }

  /** All that is to be done, once: workspace, forwarders, services and supervisor, in this order; then the artifacts if
    * they are to go, then the lease if there is one; and last the tree. */
  predicate Thorough(s: Session, effects: seq<Step>) {
    && |effects| >= 5 && effects[..4] == [Workspace, Forwarders, Services, Supervisor]
    && effects[|effects| - 1] == (if s.created then RemoveTree else PreserveTree) && AllFit(s, effects)
    && (s.removeArtifacts ==> Artifacts in effects) && (s.readWrite && s.hasLease ==> ReleaseLease in effects)
    && (forall i, k :: 0 <= i < k < |effects| ==> effects[i] != effects[k])
    && (forall i, k | 0 <= i < |effects| && 0 <= k < |effects| ::
          effects[i] == Artifacts && effects[k] == ReleaseLease ==> i < k)
  }

  lemma StepsAreThorough(s: Session)
    ensures Thorough(s, Steps(s))
  {
    var steps := Steps(s);
    assert s.removeArtifacts ==> steps[4] == Artifacts;
    assert s.readWrite && s.hasLease ==> steps[|steps| - 2] == ReleaseLease;
  }

  /** The position a pending step is resumed at; the lease and materialization steps have none. */
  function ResumeIndex(step: Step): Option<nat> {
    match step
    case Workspace => Some(0)
    case Forwarders => Some(1)
    case Services => Some(2)
    case Supervisor => Some(3)
    case Artifacts => Some(4)
    case _ => None
  }

  datatype Cleanup = Idle | Running | CleanupFailed | CleanupSucceeded

  predicate UnderWay(c: Cleanup) { c == Running || c == CleanupFailed }

  datatype Snapshot = Snapshot(closed: bool, cleanup: Cleanup)

  /** The journal identifies an intent by its place in the close and its transition. */
  datatype Intent =
    | CloseStarted | FinalCheckpointComplete | ReadonlyDiscardRecorded | WritableDiscardRecorded
    | StepIntent(index: nat, step: Step) | FailureRecorded(index: nat) | SessionClosed
    | PublisherIntent(id: nat)

  predicate Decides(i: Intent) { i in {FinalCheckpointComplete, ReadonlyDiscardRecorded, WritableDiscardRecorded} }

  // ---------------------------------------------------------------- the history of a session

  datatype Item = Fact(intent: Intent) | Effect(step: Step, ok: bool)

  predicate Settled(trace: seq<Item>) { exists k :: 0 <= k < |trace| && trace[k].Fact? && Decides(trace[k].intent) }

  /** Every cleanup effect came after a final checkpoint or a discard was recorded. */
  predicate OnlyAfterDecision(trace: seq<Item>) {
    forall k :: 0 <= k < |trace| && trace[k].Effect? ==> Settled(trace[..k])
  }

  predicate Succeeded(trace: seq<Item>, step: Step) { Effect(step, true) in trace }

  /** The first `n` steps have each succeeded at some time. */
  predicate DoneUpTo(trace: seq<Item>, steps: seq<Step>, n: nat)
    requires n <= |steps|
  {
    forall i :: 0 <= i < n ==> Succeeded(trace, steps[i])
  }

  function EffectsIn(trace: seq<Item>): seq<Step> {
    if trace == [] then []
    else
      var last := trace[|trace| - 1];
      EffectsIn(trace[..|trace| - 1]) + if last.Effect? then [last.step] else []
  }

  /** Whether a close starts over, resumes, or is refused. */
  datatype Selection = Start | Resume(index: nat) | Refuse

  predicate HasStep(pending: set<Intent>) { exists i :: i in pending && i.StepIntent? }

  predicate HasFailure(pending: set<Intent>) { exists i :: i in pending && i.FailureRecorded? }

  ghost function Select(snapshot: Snapshot, pending: set<Intent>): Selection {
    if !UnderWay(snapshot.cleanup) then
      if HasStep(pending) then Refuse else Start
    else if |pending| != 1 then Refuse
    else
      var only :| only in pending;
      if only.StepIntent? && ResumeIndex(only.step).Some? then Resume(ResumeIndex(only.step).value) else Refuse
  }

  /** What every close keeps: cleanup is only ever under way after the decision, a pending step's predecessors
    * have succeeded, and a closed session's steps all have. */
  ghost predicate Keeps(steps: seq<Step>, snapshot: Snapshot, pending: set<Intent>, trace: seq<Item>) {
    && OnlyAfterDecision(trace)
    && (UnderWay(snapshot.cleanup) || HasStep(pending) ==> Settled(trace))
    && (forall i :: i in pending && i.StepIntent? ==> StepOk(steps, trace, i))
    && (HasFailure(pending) ==> HasStep(pending))
    && (snapshot.closed ==> DoneUpTo(trace, steps, |steps|))
  }

  ghost predicate StepOk(steps: seq<Step>, trace: seq<Item>, i: Intent)
    requires i.StepIntent?
  {
    i.index < |steps| && steps[i.index] == i.step && DoneUpTo(trace, steps, i.index)
  }

  // ---------------------------------------------------------------- what the calls of a close do

  /** A journal call succeeds, or fails without or with its effect. */
  datatype Outcome = Fine | Lost | Landed

  /** A cleanup effect succeeds, returns an error, or is the last thing the process does. */
  datatype Effected = Worked | Failed | Died

  /** Everything a close meets: the outcome of each journal call and each effect, whether the final checkpoint is
    * published and which intents of its own it leaves pending, and whether the journal can be read again after it. */
  datatype World = World(intent: Intent -> Outcome, fact: Intent -> Outcome, effect: nat -> Effected,
                         published: bool, leftover: set<nat>, readable: bool)

  ghost predicate Calm(w: World) {
    && w.published && (forall i :: w.intent(i) == Fine) && (forall i :: w.fact(i) == Fine)
    && forall i :: w.effect(i) == Worked
  }

  predicate Recorded(w: World, i: Intent) { w.intent(i) == Fine && w.fact(i) == Fine }

  /** The fact is in the journal, whether or not the close learns of it. */
  predicate Lands(w: World, i: Intent) { w.intent(i) == Fine && w.fact(i) != Lost }

  predicate Checkpoints(s: Session, discard: bool) { s.readWrite && !discard }

  function DecisionOf(s: Session, discard: bool): Intent {
    if Checkpoints(s, discard) then FinalCheckpointComplete
    else if discard then WritableDiscardRecorded else ReadonlyDiscardRecorded
  }

  /** The snapshot is taken from the journal again, which drops the mark that cleanup is running. */
  predicate Reloads(s: Session, discard: bool, w: World) { Checkpoints(s, discard) && w.readable }

  predicate Reaches(s: Session, discard: bool, w: World) {
    Recorded(w, CloseStarted) && (Checkpoints(s, discard) ==> w.published)
  }

  /** The decision is on record, and the close goes on to its steps. */
  predicate Decided(s: Session, discard: bool, w: World) {
    Reaches(s, discard, w) && Recorded(w, DecisionOf(s, discard))
  }

  /** What is pending besides the steps once the decision is on record. */
  function Others(pending: set<Intent>, s: Session, discard: bool, w: World): set<Intent> {
    (if Checkpoints(s, discard) then Republished(pending - {CloseStarted}, w) else pending - {CloseStarted})
    - {DecisionOf(s, discard)}
  }

  function Republished(pending: set<Intent>, w: World): set<Intent> {
    (set i | i in pending && !i.PublisherIntent?) + (set k | k in w.leftover :: PublisherIntent(k))
  }

  /** The cleanup state the steps run under. */
  function CleanupUnder(cleanup: Cleanup, s: Session, discard: bool, w: World): Cleanup {
    if Reloads(s, discard, w) then cleanup else Running
  }

  /** How far the steps get, as the journal shows it. */
  datatype Stop =
    | Nothing                  // the steps were not reached
    | Between(index: nat)      // the step before is settled, this one has no intent
    | InStep(index: nat)       // this step's intent is pending
    | FailedAt(index: nat)     // so is this one's, and its failure is recorded
    | Unclear(index: nat)      // so is this one's, and so is the record of its failure
    | Completed

  function FailureStop(w: World, i: nat): Stop {
    var f := FailureRecorded(i);
    if w.intent(f) == Lost then InStep(i) else if Lands(w, f) then FailedAt(i) else Unclear(i)
  }

  /** The effect of step `i` is tried. */
  predicate Tried(w: World, steps: seq<Step>, i: nat, resumed: bool)
    requires i < |steps|
  {
    resumed || w.intent(StepIntent(i, steps[i])) == Fine
  }

  predicate StepFine(w: World, steps: seq<Step>, i: nat, resumed: bool)
    requires i < |steps|
  {
    Tried(w, steps, i, resumed) && w.effect(i) == Worked && w.fact(StepIntent(i, steps[i])) == Fine
  }

  /** Where a step that is not fine stops. */
  function StepStop(w: World, steps: seq<Step>, i: nat, resumed: bool): Stop
    requires i < |steps|
  {
    var intent := StepIntent(i, steps[i]);
    if !Tried(w, steps, i, resumed) then if w.intent(intent) == Lost then Between(i) else InStep(i)
    else match w.effect(i)
      case Died => InStep(i)
      case Failed => FailureStop(w, i)
      case Worked => if w.fact(intent) == Lost then InStep(i) else Between(i + 1)
  }

  function StopIn(w: World, steps: seq<Step>, i: nat, resumed: bool): (stop: Stop)
    requires i <= |steps|
    ensures stop != Nothing && (stop.InStep? || stop.FailedAt? || stop.Unclear? ==> i <= stop.index < |steps|)
    decreases |steps| - i
  {
    if i == |steps| then Completed
    else if StepFine(w, steps, i, resumed) then StopIn(w, steps, i + 1, false)
    else StepStop(w, steps, i, resumed)
  }

  /** The effects tried from step `i` on. */
  function Rest(w: World, steps: seq<Step>, i: nat, resumed: bool): (rest: seq<Step>)
    requires i <= |steps|
    ensures i + |rest| <= |steps|
    decreases |steps| - i
  {
    if i == |steps| || !Tried(w, steps, i, resumed) then []
    else [steps[i]] + if StepFine(w, steps, i, resumed) then Rest(w, steps, i + 1, false) else []
  }

  /** They are the steps themselves, in order and without gaps. */
  lemma {:induction false} RestIsNext(w: World, steps: seq<Step>, i: nat, resumed: bool)
    requires i <= |steps|
    ensures Rest(w, steps, i, resumed) == steps[i..i + |Rest(w, steps, i, resumed)|]
    decreases |steps| - i
  {
    if i < |steps| && StepFine(w, steps, i, resumed) {
      var n := |Rest(w, steps, i + 1, false)|;
      RestIsNext(w, steps, i + 1, false);
      assert steps[i..i + 1 + n] == [steps[i]] + steps[i + 1..i + 1 + n];
    }
  }

  lemma OneStep(w: World, steps: seq<Step>, i: nat, resumed: bool, before: seq<Step>)
    requires i < |steps|
    ensures if StepFine(w, steps, i, resumed)
            then && StopIn(w, steps, i, resumed) == StopIn(w, steps, i + 1, false)
                 && before + [steps[i]] + Rest(w, steps, i + 1, false) == before + Rest(w, steps, i, resumed)
            else && StopIn(w, steps, i, resumed) == StepStop(w, steps, i, resumed) != Completed
                 && Rest(w, steps, i, resumed) == if Tried(w, steps, i, resumed) then [steps[i]] else []
  {}

  lemma {:induction false} CalmRuns(w: World, steps: seq<Step>, i: nat, resumed: bool)
    requires Calm(w) && i <= |steps|
    ensures StopIn(w, steps, i, resumed) == Completed && Rest(w, steps, i, resumed) == steps[i..]
    decreases |steps| - i
  {
    if i < |steps| { CalmRuns(w, steps, i + 1, false); }
  }

  // ---------------------------------------------------------------- the journal

  class Journal {
    const session: Session
    const steps: seq<Step>
    var snapshot: Snapshot
    var pending: set<Intent>
    ghost var trace: seq<Item>

    ghost predicate Valid()
      reads this
    {
      Keeps(steps, snapshot, pending, trace)
    }

    /** The cleanup steps are the session's. */
    ghost predicate Planned() { steps == Steps(session) }

    method RecordIntent(i: Intent, w: World) returns (ok: bool)
      modifies this`pending
      ensures ok == (w.intent(i) == Fine)
      ensures pending == if w.intent(i) == Lost then old(pending) else old(pending) + {i}
    {
      if w.intent(i) != Lost { pending := pending + {i}; }
      return w.intent(i) == Fine;
    }

    /** A fact settles its intent and installs the snapshot. */
    method RecordFact(i: Intent, s: Snapshot, w: World) returns (ok: bool)
      modifies this
      ensures ok == (w.fact(i) == Fine)
      ensures pending == if w.fact(i) == Lost then old(pending) else old(pending) - {i}
      ensures snapshot == if w.fact(i) == Lost then old(snapshot) else s
      ensures trace == if w.fact(i) == Lost then old(trace) else old(trace) + [Fact(i)]
    {
      if w.fact(i) != Lost {
        pending, snapshot := pending - {i}, s;
        trace := trace + [Fact(i)];
      }
      return w.fact(i) == Fine;
    }
  }

  /** What the journal holds when the steps stop, given what else was pending and the cleanup state they ran under. */
  ghost predicate StopOk(stop: Stop, j: Journal, w: World, others: set<Intent>, cleanup: Cleanup)
    reads j
  {
    match stop
    case Nothing => true
    case Between(i) => j.pending == others && j.snapshot == Snapshot(false, cleanup)
    case InStep(i) =>
      && i < |j.steps| && j.pending == others + {StepIntent(i, j.steps[i])}
      && j.snapshot == Snapshot(false, cleanup)
    case FailedAt(i) =>
      && i < |j.steps| && j.pending == others + {StepIntent(i, j.steps[i])}
      && j.snapshot == Snapshot(false, CleanupFailed)
    case Unclear(i) =>
      && i < |j.steps| && j.pending == others + {StepIntent(i, j.steps[i]), FailureRecorded(i)}
      && j.snapshot == Snapshot(false, cleanup)
    case Completed =>
      && j.pending - {SessionClosed} == others - {SessionClosed}
      && j.snapshot == if Lands(w, SessionClosed) then Snapshot(true, CleanupSucceeded) else Snapshot(false, cleanup)
  }

  lemma TraceGrows(trace: seq<Item>, item: Item)
    requires OnlyAfterDecision(trace) && (item.Effect? ==> Settled(trace))
    ensures OnlyAfterDecision(trace + [item]) && (Settled(trace) ==> Settled(trace + [item]))
    ensures item.Fact? && Decides(item.intent) ==> Settled(trace + [item])
    ensures EffectsIn(trace + [item]) == EffectsIn(trace) + if item.Effect? then [item.step] else []
  {
    var more := trace + [item];
    forall k | 0 <= k < |more| && more[k].Effect? ensures Settled(more[..k]) {
      assert more[..k] == if k < |trace| then trace[..k] else trace;
    }
    if Settled(trace) {
      var k :| 0 <= k < |trace| && trace[k].Fact? && Decides(trace[k].intent);
      assert more[k] == trace[k];
    }
    assert more[|trace|] == item && more[..|trace|] == trace;
  }

  /** Records the failure of step `i`, as far as the journal lets it. */
  method RecordFailure(j: Journal, i: nat, s: Snapshot, w: World)
    requires j.Valid() && Settled(j.trace) && i < |j.steps| && StepIntent(i, j.steps[i]) in j.pending
    requires !HasFailure(j.pending) && !s.closed && s == j.snapshot
    modifies j
    ensures old(j.trace) <= j.trace
    ensures j.Valid() && Settled(j.trace) && EffectsIn(j.trace) == old(EffectsIn(j.trace))
    ensures StopOk(FailureStop(w, i), j, w, old(j.pending) - {StepIntent(i, j.steps[i])}, s.cleanup)
  {
    assert HasStep(j.pending);
    var f := FailureRecorded(i);
    assert f !in j.pending;
    var ok := j.RecordIntent(f, w);
    if !ok { return; }
    TraceGrows(j.trace, Fact(f));
    ok := j.RecordFact(f, s.(cleanup := CleanupFailed), w);
  }

  /** The effect of step `i` enters the history. */
  ghost method Perform(j: Journal, i: nat, ok: bool)
    requires j.Valid() && Settled(j.trace) && i < |j.steps| && DoneUpTo(j.trace, j.steps, i)
    modifies j`trace
    ensures old(j.trace) <= j.trace
    ensures j.Valid() && Settled(j.trace) && DoneUpTo(j.trace, j.steps, if ok then i + 1 else i)
    ensures EffectsIn(j.trace) == old(EffectsIn(j.trace)) + [j.steps[i]]
  {
    TraceGrows(j.trace, Effect(j.steps[i], ok));
    j.trace := j.trace + [Effect(j.steps[i], ok)];
  }

  method SettleStep(j: Journal, i: nat, s: Snapshot, w: World) returns (ok: bool)
    requires j.Valid() && Settled(j.trace) && i < |j.steps| && DoneUpTo(j.trace, j.steps, i + 1)
    requires !HasFailure(j.pending) && !s.closed && s == j.snapshot
    modifies j
    ensures old(j.trace) <= j.trace
    ensures j.Valid() && Settled(j.trace) && DoneUpTo(j.trace, j.steps, i + 1)
    ensures EffectsIn(j.trace) == old(EffectsIn(j.trace)) && j.snapshot == s
    ensures var intent := StepIntent(i, j.steps[i]);
            && ok == (w.fact(intent) == Fine)
            && j.pending == if w.fact(intent) == Lost then old(j.pending) else old(j.pending) - {intent}
  {
    var intent := StepIntent(i, j.steps[i]);
    TraceGrows(j.trace, Fact(intent));
    ok := j.RecordFact(intent, s, w);
  }

  /** No cleanup step, and no failure of one. */
  predicate Quiet(pending: set<Intent>) { !HasStep(pending) && !HasFailure(pending) }

  /** What is pending before step `i`, with nothing else of the cleanup: its own intent, if it is resumed. */
  ghost predicate Before(j: Journal, others: set<Intent>, i: nat, resumed: bool)
    requires i < |j.steps|
    reads j
  {
    Quiet(others) && j.pending == if resumed then others + {StepIntent(i, j.steps[i])} else others
  }

  /** One step: its intent, its effect, and its fact or the record of its failure. */
  method RunStep(j: Journal, i: nat, resumed: bool, s: Snapshot, w: World, ghost others: set<Intent>)
    returns (ok: bool)
    requires j.Valid() && Settled(j.trace) && i < |j.steps| && DoneUpTo(j.trace, j.steps, i)
    requires Before(j, others, i, resumed) && j.snapshot == s && !s.closed
    modifies j
    ensures old(j.trace) <= j.trace && j.Valid() && Settled(j.trace)
    ensures if ok
            then && DoneUpTo(j.trace, j.steps, i + 1) && j.snapshot == s && j.pending == others
                 && StopIn(w, j.steps, i, resumed) == StopIn(w, j.steps, i + 1, false)
                 && EffectsIn(j.trace) + Rest(w, j.steps, i + 1, false)
                    == old(EffectsIn(j.trace)) + Rest(w, j.steps, i, resumed)
            else && StopOk(StopIn(w, j.steps, i, resumed), j, w, others, s.cleanup)
                 && StopIn(w, j.steps, i, resumed) != Completed
                 && EffectsIn(j.trace) == old(EffectsIn(j.trace)) + Rest(w, j.steps, i, resumed)
  {
    var intent := StepIntent(i, j.steps[i]);
    assert intent !in others;
    OneStep(w, j.steps, i, resumed, EffectsIn(j.trace));
    if !resumed {
      ok := j.RecordIntent(intent, w);
      if !ok { return; }
    }
    assert j.pending == others + {intent} && j.pending - {intent} == others;
    Perform(j, i, w.effect(i) == Worked);
    if w.effect(i) == Died { return false; }
    if w.effect(i) == Failed {
      RecordFailure(j, i, s, w);
      return false;
    }
    ok := SettleStep(j, i, s, w);
  }

  /** The steps before `i` are done, and it and the rest decide where the close stops and what it tries in all. */
  ghost predicate Midway(j: Journal, i: nat, resumed: bool, s: Snapshot, w: World, others: set<Intent>, stop: Stop,
                         all: seq<Step>)
    reads j
  {
    && i <= |j.steps| && j.Valid() && Settled(j.trace) && DoneUpTo(j.trace, j.steps, i) && j.snapshot == s && !s.closed
    && Quiet(others) && (j.pending == if resumed && i < |j.steps| then others + {StepIntent(i, j.steps[i])} else others)
    && StopIn(w, j.steps, i, resumed) == stop && EffectsIn(j.trace) + Rest(w, j.steps, i, resumed) == all
  }

  lemma AtTheEnd(j: Journal, i: nat, resumed: bool, s: Snapshot, w: World, others: set<Intent>, stop: Stop,
                 all: seq<Step>)
    requires i >= |j.steps| && Midway(j, i, resumed, s, w, others, stop, all)
    ensures stop == Completed && EffectsIn(j.trace) == all && j.pending == others && j.Valid() && Settled(j.trace)
    ensures j.snapshot == s && DoneUpTo(j.trace, j.steps, |j.steps|)
  {}

  method StepOn(j: Journal, i: nat, resumed: bool, s: Snapshot, w: World, ghost others: set<Intent>, ghost stop: Stop,
                ghost all: seq<Step>)
    returns (ok: bool)
    requires i < |j.steps| && Midway(j, i, resumed, s, w, others, stop, all)
    modifies j
    ensures old(j.trace) <= j.trace
    ensures if ok then Midway(j, i + 1, false, s, w, others, stop, all)
            else j.Valid() && EffectsIn(j.trace) == all && stop != Completed && StopOk(stop, j, w, others, s.cleanup)
  {
    ok := RunStep(j, i, resumed, s, w, others);
  }

  /** The cleanup steps from `from` on, in order, down to the first that does not settle. */
  method RunSteps(j: Journal, from: nat, resumed: bool, s: Snapshot, w: World, ghost others: set<Intent>)
    returns (ok: bool)
    requires j.Valid() && Settled(j.trace) && from < |j.steps| && DoneUpTo(j.trace, j.steps, from)
    requires Before(j, others, from, resumed) && j.snapshot == s && !s.closed
    modifies j
    ensures old(j.trace) <= j.trace && j.Valid()
    ensures EffectsIn(j.trace) == old(EffectsIn(j.trace)) + Rest(w, j.steps, from, resumed)
    ensures ok == (StopIn(w, j.steps, from, resumed) == Completed)
    ensures ok ==> j.snapshot == s && DoneUpTo(j.trace, j.steps, |j.steps|) && j.pending == others && Settled(j.trace)
    ensures !ok ==> StopOk(StopIn(w, j.steps, from, resumed), j, w, others, s.cleanup)
  {
    var i, again := from, resumed;
    ghost var stop, all := StopIn(w, j.steps, from, resumed), EffectsIn(j.trace) + Rest(w, j.steps, from, resumed);
    ok := true;
    while ok && i < |j.steps|
      invariant old(j.trace) <= j.trace
      invariant ok ==> Midway(j, i, again, s, w, others, stop, all)
      invariant !ok ==> j.Valid() && EffectsIn(j.trace) == all && stop != Completed
      invariant !ok ==> StopOk(stop, j, w, others, s.cleanup)
      decreases ok, |j.steps| - i
    {
      ok := StepOn(j, i, again, s, w, others, stop, all);
      i, again := i + 1, false;
    }
    if ok { AtTheEnd(j, i, again, s, w, others, stop, all); }
  }

  /** The resume table agrees with the step list. */
  lemma IndexAgrees(s: Session, i: nat)
    requires i < |Steps(s)| && ResumeIndex(Steps(s)[i]).Some?
    ensures ResumeIndex(Steps(s)[i]) == Some(i)
  {}

  lemma SelectOnly(snapshot: Snapshot, s: Session, i: nat)
    requires i < |Steps(s)|
    ensures var step := Steps(s)[i];
            Select(snapshot, {StepIntent(i, step)})
            == if UnderWay(snapshot.cleanup) && ResumeIndex(step).Some? then Resume(i) else Refuse
  {
    var pending := {StepIntent(i, Steps(s)[i])};
    assert StepIntent(i, Steps(s)[i]) in pending;
    if ResumeIndex(Steps(s)[i]).Some? { IndexAgrees(s, i); }
  }

  lemma Singleton(pending: set<Intent>, i: Intent)
    requires |pending| == 1 && i in pending
    ensures pending == {i}
  {
    assert |pending - {i}| == 0;
    assert pending - {i} == {};
  }

  /** The steps are resumed exactly at the one pending step, when cleanup is under way and the table knows it. */
  method SelectPending(j: Journal) returns (r: Selection)
    requires j.Valid() && j.Planned()
    ensures r == Select(j.snapshot, j.pending)
    ensures r == Start ==> !HasStep(j.pending) && !UnderWay(j.snapshot.cleanup)
    ensures r.Resume? ==> UnderWay(j.snapshot.cleanup) && r.index < |j.steps|
    ensures r.Resume? ==> j.pending == {StepIntent(r.index, j.steps[r.index])}
  {
    if !UnderWay(j.snapshot.cleanup) { return if HasStep(j.pending) then Refuse else Start; }
    if |j.pending| != 1 { return Refuse; }
    var only :| only in j.pending;
    Singleton(j.pending, only);
    if !only.StepIntent? || ResumeIndex(only.step).None? { return Refuse; }
    assert StepOk(j.steps, j.trace, only);
    IndexAgrees(j.session, only.index);
    return Resume(ResumeIndex(only.step).value);
  }

  /** A durable transition of the close itself, its intent and its fact together. */
  method Record(j: Journal, i: Intent, s: Snapshot, w: World) returns (ok: bool)
    requires j.Valid() && !i.StepIntent? && !i.FailureRecorded?
    requires UnderWay(s.cleanup) ==> Settled(j.trace) || Decides(i)
    requires s.closed ==> DoneUpTo(j.trace, j.steps, |j.steps|)
    modifies j
    ensures j.Valid() && EffectsIn(j.trace) == old(EffectsIn(j.trace))
    ensures old(Settled(j.trace)) || (ok && Decides(i)) ==> Settled(j.trace)
    ensures ok == Recorded(w, i) && j.snapshot == if Lands(w, i) then s else old(j.snapshot)
    ensures j.pending - {i} == old(j.pending) - {i} && HasStep(j.pending) == old(HasStep(j.pending))
    ensures Lands(w, i) ==> j.pending == old(j.pending) - {i}
    ensures j.trace == if Lands(w, i) then old(j.trace) + [Fact(i)] else old(j.trace)
  {
    ok := j.RecordIntent(i, w);
    SameSteps(old(j.pending), j.pending, i);
    if !ok { return; }
    ghost var pending, trace := j.pending, j.trace;
    FactKeeps(j.steps, j.snapshot, pending, trace, i, s);
    TraceGrows(trace, Fact(i));
    ok := j.RecordFact(i, s, w);
    SameSteps(pending, j.pending, i);
  }

  lemma FactKeeps(steps: seq<Step>, snapshot: Snapshot, pending: set<Intent>, trace: seq<Item>, i: Intent, s: Snapshot)
    requires Keeps(steps, snapshot, pending, trace) && !i.StepIntent? && !i.FailureRecorded?
    requires UnderWay(s.cleanup) ==> Settled(trace) || Decides(i)
    requires s.closed ==> DoneUpTo(trace, steps, |steps|)
    ensures Keeps(steps, s, pending - {i}, trace + [Fact(i)])
  {
    TraceGrows(trace, Fact(i));
    SameSteps(pending, pending - {i}, i);
    assert forall step :: Succeeded(trace, step) ==> Succeeded(trace + [Fact(i)], step);
  }

  lemma SameSteps(a: set<Intent>, b: set<Intent>, i: Intent)
    requires !i.StepIntent? && !i.FailureRecorded? && a - {i} == b - {i}
    ensures forall k :: k != i ==> (k in a <==> k in b)
    ensures HasStep(a) == HasStep(b) && HasFailure(a) == HasFailure(b)
  {
    forall k | k != i ensures k in a <==> k in b {
      assert k in a <==> k in a - {i};
      assert k in b <==> k in b - {i};
    }
  }

  lemma RepublishedSteps(pending: set<Intent>, w: World)
    ensures forall k: Intent :: !k.PublisherIntent? ==> (k in Republished(pending, w) <==> k in pending)
    ensures HasStep(Republished(pending, w)) == HasStep(pending)
    ensures HasFailure(Republished(pending, w)) == HasFailure(pending)
  {
    forall k: Intent | !k.PublisherIntent? ensures k in Republished(pending, w) <==> k in pending {}
  }

  /** The final checkpoint: it works in the journal under intents of its own. */
  method PublishCheckpoint(j: Journal, w: World) returns (published: bool)
    requires j.Valid()
    modifies j`pending
    ensures j.Valid() && HasStep(j.pending) == old(HasStep(j.pending))
    ensures published == w.published && j.pending == Republished(old(j.pending), w)
  {
    RepublishedSteps(j.pending, w);
    j.pending := Republished(j.pending, w);
    return w.published;
  }

  /** How a session that is cleaned up was decided: a writable one by a final checkpoint that was published, unless it
    * is discarded, and then by the record of that; any other by the record that there is nothing to keep. */
  ghost predicate DecidedAs(trace: seq<Item>, s: Session, discard: bool, w: World) {
    if s.readWrite && !discard then w.published && Fact(FinalCheckpointComplete) in trace
    else Fact(if discard then WritableDiscardRecorded else ReadonlyDiscardRecorded) in trace
  }

  /** Everything before the cleanup steps of a close that starts over. */
  method Decide(j: Journal, discard: bool, w: World) returns (ok: bool, s: Snapshot)
    requires j.Valid() && !j.snapshot.closed && !UnderWay(j.snapshot.cleanup) && !HasStep(j.pending)
    modifies j
    ensures j.Valid() && !HasStep(j.pending) && EffectsIn(j.trace) == old(EffectsIn(j.trace))
    ensures ok == Decided(j.session, discard, w)
    ensures ok ==> Settled(j.trace) && j.snapshot == s
    ensures old(j.trace) <= j.trace && (ok ==> DecidedAs(j.trace, j.session, discard, w))
    ensures if Reaches(j.session, discard, w) && Lands(w, DecisionOf(j.session, discard))
            then && j.snapshot == Snapshot(false, CleanupUnder(old(j.snapshot.cleanup), j.session, discard, w))
                 && j.pending == Others(old(j.pending), j.session, discard, w)
            else j.snapshot == old(j.snapshot)
  {
    s := j.snapshot;
    ok := Record(j, CloseStarted, s, w);
    if !ok { return; }
    s := s.(cleanup := Running);
    if Checkpoints(j.session, discard) {
      ok := PublishCheckpoint(j, w);
      if !ok { return; }
      if w.readable { s := j.snapshot; }
    }
    ok := Record(j, DecisionOf(j.session, discard), s, w);
  }

  /** The remaining steps and, after the last, the record that the session is closed. */
  method RunToEnd(j: Journal, from: nat, resumed: bool, s: Snapshot, w: World, ghost others: set<Intent>)
    returns (ok: bool)
    requires j.Valid() && Settled(j.trace) && from < |j.steps| && DoneUpTo(j.trace, j.steps, from)
    requires Before(j, others, from, resumed) && j.snapshot == s && !s.closed
    modifies j
    ensures old(j.trace) <= j.trace && j.Valid()
    ensures EffectsIn(j.trace) == old(EffectsIn(j.trace)) + Rest(w, j.steps, from, resumed)
    ensures ok == (StopIn(w, j.steps, from, resumed) == Completed && Recorded(w, SessionClosed))
    ensures StopOk(StopIn(w, j.steps, from, resumed), j, w, others, s.cleanup)
  {
    ok := RunSteps(j, from, resumed, s, w, others);
    if !ok { return; }
    ok := Record(j, SessionClosed, Snapshot(true, CleanupSucceeded), w);
  }

  // ---------------------------------------------------------------- one close, and the next

  /** What a close finds: the session, its journal's snapshot and what is pending. */
  datatype Found = Found(session: Session, snapshot: Snapshot, pending: set<Intent>)

  ghost function FoundIn(j: Journal): Found
    reads j
  {
    Found(j.session, j.snapshot, j.pending)
  }

  ghost function Selected(f: Found): Selection { Select(f.snapshot, f.pending) }

  predicate Known(selection: Selection, s: Session) { selection.Resume? ==> selection.index < |Steps(s)| }

  /** Where a close that makes this selection stops. */
  function Stopped(selection: Selection, s: Session, discard: bool, w: World): Stop
    requires Known(selection, s)
  {
    match selection
    case Refuse => Nothing
    case Resume(i) => StopIn(w, Steps(s), i, true)
    case Start =>
      if Decided(s, discard, w) then StopIn(w, Steps(s), 0, false)
      else if Reaches(s, discard, w) && Lands(w, DecisionOf(s, discard)) then Between(0)
      else Nothing
  }

  /** The effects it tries. */
  function Effects(selection: Selection, s: Session, discard: bool, w: World): seq<Step>
    requires Known(selection, s)
  {
    match selection
    case Refuse => []
    case Resume(i) => Rest(w, Steps(s), i, true)
    case Start => if Decided(s, discard, w) then Rest(w, Steps(s), 0, false) else []
  }

  /** What is pending besides its steps, and the cleanup state they run under. */
  ghost function Beside(f: Found, discard: bool, w: World): set<Intent> {
    if Selected(f).Resume? then {} else Others(f.pending, f.session, discard, w)
  }

  ghost function Under(f: Found, discard: bool, w: World): Cleanup {
    if Selected(f).Resume? then f.snapshot.cleanup else CleanupUnder(f.snapshot.cleanup, f.session, discard, w)
  }

  /** What a close leaves that was neither refused nor too late. */
  ghost predicate RanOk(f: Found, discard: bool, w: World, ok: bool, j: Journal)
    requires Known(Selected(f), f.session)
    reads j
  {
    var stop := Stopped(Selected(f), f.session, discard, w);
    && ok == (stop == Completed && Recorded(w, SessionClosed))
    && StopOk(stop, j, w, Beside(f, discard, w), Under(f, discard, w))
    && (stop == Nothing ==> j.snapshot == f.snapshot && HasStep(j.pending) == HasStep(f.pending))
  }

  method ResumeAt(j: Journal, from: nat, ghost discard: bool, w: World) returns (ok: bool)
    requires j.Valid() && j.Planned() && !j.snapshot.closed
    requires from < |j.steps| && j.pending == {StepIntent(from, j.steps[from])} && Selected(FoundIn(j)) == Resume(from)
    requires UnderWay(j.snapshot.cleanup)
    modifies j
    ensures j.Valid() && RanOk(old(FoundIn(j)), discard, w, ok, j)
    ensures EffectsIn(j.trace) == old(EffectsIn(j.trace)) + Effects(old(Selected(FoundIn(j))), j.session, discard, w)
  {
    assert StepOk(j.steps, j.trace, StepIntent(from, j.steps[from]));
    ok := RunToEnd(j, from, true, j.snapshot, w, {});
  }

  method StartOver(j: Journal, discard: bool, w: World) returns (ok: bool)
    requires j.Valid() && j.Planned() && !j.snapshot.closed
    requires !UnderWay(j.snapshot.cleanup) && !HasStep(j.pending) && Selected(FoundIn(j)) == Start
    modifies j
    ensures j.Valid() && RanOk(old(FoundIn(j)), discard, w, ok, j)
    ensures EffectsIn(j.trace) == old(EffectsIn(j.trace)) + Effects(old(Selected(FoundIn(j))), j.session, discard, w)
    ensures Effects(Start, j.session, discard, w) != [] ==> DecidedAs(j.trace, j.session, discard, w)
  {
    var s;
    ok, s := Decide(j, discard, w);
    if !ok { return; }
    ok := RunToEnd(j, 0, false, s, w, j.pending);
  }

  lemma CalmCloses(selection: Selection, s: Session, discard: bool, w: World)
    requires Known(selection, s) && Calm(w) && selection != Refuse
    ensures Stopped(selection, s, discard, w) == Completed && Recorded(w, SessionClosed) && Lands(w, SessionClosed)
    ensures Effects(selection, s, discard, w) == Steps(s)[From(selection)..]
  {
    CalmRuns(w, Steps(s), From(selection), selection.Resume?);
  }

  /** The effects since are such as fit the session. */
  ghost predicate Added(before: seq<Step>, after: seq<Step>, s: Session) {
    before <= after && AllFit(s, after[|before|..])
  }

  lemma EffectsFit(s: Session, discard: bool, w: World)
    ensures forall selection :: Known(selection, s) ==> AllFit(s, Effects(selection, s, discard, w))
  {
    forall selection | Known(selection, s) ensures AllFit(s, Effects(selection, s, discard, w)) {
      RestFits(s, w, From(selection), selection.Resume?);
    }
  }

  lemma RestFits(s: Session, w: World, i: nat, resumed: bool)
    requires i <= |Steps(s)|
    ensures AllFit(s, Rest(w, Steps(s), i, resumed))
  {
    var steps, rest := Steps(s), Rest(w, Steps(s), i, resumed);
    StepsAreThorough(s);
    RestIsNext(w, steps, i, resumed);
    forall k | 0 <= k < |rest| ensures Fits(s, rest[k]) { assert rest[k] == steps[i + k]; }
  }

  /** One close: where it stops, the effects it tries and what it leaves behind, for everything that the calls may do.
    * Its effects are the steps from the one it resumes at, or from the first, in order and without gaps; it touches
    * nothing when it is refused or the session is closed; it closes only after the last step, and does so whenever
    * every call succeeds. */
  method Run(j: Journal, discard: bool, w: World) returns (ok: bool)
    requires j.Valid() && j.Planned()
    modifies j
    ensures j.Valid() && Known(old(Selected(FoundIn(j))), j.session)
    ensures old(j.snapshot.closed) ==> ok && unchanged(j)
    ensures old(Selected(FoundIn(j))) == Refuse && !old(j.snapshot.closed) ==> !ok && unchanged(j)
    ensures !old(j.snapshot.closed) && old(Selected(FoundIn(j))) != Refuse ==>
              && RanOk(old(FoundIn(j)), discard, w, ok, j)
              && EffectsIn(j.trace)
                 == old(EffectsIn(j.trace)) + Effects(old(Selected(FoundIn(j))), j.session, discard, w)
    ensures Calm(w) && !old(j.snapshot.closed) && old(Selected(FoundIn(j))) != Refuse ==>
              && ok && j.snapshot.closed
              && EffectsIn(j.trace) == old(EffectsIn(j.trace)) + j.steps[From(old(Selected(FoundIn(j))))..]
    ensures Added(old(EffectsIn(j.trace)), EffectsIn(j.trace), j.session)
    ensures Calm(w) && !old(j.snapshot.closed) && old(Selected(FoundIn(j))) == Start ==>
              Thorough(j.session, EffectsIn(j.trace)[|old(EffectsIn(j.trace))|..])
    ensures !old(j.snapshot.closed) && old(Selected(FoundIn(j))) == Start
            && EffectsIn(j.trace) != old(EffectsIn(j.trace)) ==>
              DecidedAs(j.trace, j.session, discard, w)
  {
    EffectsFit(j.session, discard, w);
    StepsAreThorough(j.session);
    var selection := SelectPending(j);
    if j.snapshot.closed { return true; }
    if selection == Refuse { return false; }
    if Calm(w) { CalmCloses(selection, j.session, discard, w); }
    if selection.Resume? {
      ok := ResumeAt(j, selection.index, discard, w);
    } else {
      ok := StartOver(j, discard, w);
    }
  }

  function From(s: Selection): nat { if s.Resume? then s.index else 0 }

  /** What a close stopped inside step `i`, with nothing else pending, makes of the next one. */
  lemma NextClose(j: Journal, i: nat)
    requires j.Planned() && i < |j.steps| && j.pending == {StepIntent(i, j.steps[i])}
    ensures Select(j.snapshot, j.pending) ==
            if UnderWay(j.snapshot.cleanup) && Resumable(j.session, i) then Resume(i) else Refuse
  {
    SelectOnly(j.snapshot, j.session, i);
  }

  /** The steps that the resume table knows: the first four, and the removal of session artifacts. */
  predicate Resumable(s: Session, i: nat)
    requires i < |Steps(s)|
  {
    i < 4 || Steps(s)[i] == Artifacts
  }

  /** What the next close does, after one that got to its steps and did not close. A stop inside a step is resumed if
    * and only if nothing else is pending, the table knows the step, and its failure was recorded or cleanup is marked
    * as under way; a stop between steps starts over if and only if it is not so marked. */
  function Next(stop: Stop, s: Session, others: set<Intent>, cleanup: Cleanup): Selection {
    if stop == Nothing then Start
    else if stop == Completed || stop.Between? then if UnderWay(cleanup) then Refuse else Start
    else if stop.Unclear? || others != {} || stop.index >= |Steps(s)| || !Resumable(s, stop.index) then Refuse
    else if stop.FailedAt? || UnderWay(cleanup) then Resume(stop.index)
    else Refuse
  }

  lemma OneMore(others: set<Intent>, i: Intent)
    requires i !in others
    ensures |others + {i}| == 1 <==> others == {}
  {
    if others != {} {
      var k :| k in others;
      assert {k, i} <= others + {i};
      SubsetSize({k, i}, others + {i});
    }
  }

  lemma {:induction false} SubsetSize<T>(a: set<T>, b: set<T>)
    requires a <= b
    ensures |a| <= |b|
    decreases a
  {
    if x :| x in a { SubsetSize(a - {x}, b - {x}); }
  }

  lemma StepSelects(j: Journal, i: nat, others: set<Intent>)
    requires j.Planned() && i < |j.steps| && Quiet(others) && j.pending == others + {StepIntent(i, j.steps[i])}
    ensures Select(j.snapshot, j.pending) ==
            if UnderWay(j.snapshot.cleanup) && others == {} && Resumable(j.session, i) then Resume(i) else Refuse
  {
    var intent := StepIntent(i, j.steps[i]);
    assert intent in j.pending && intent !in others;
    OneMore(others, intent);
    if others == {} {
      assert j.pending == {intent};
      NextClose(j, i);
    }
  }

  lemma UnclearSelects(j: Journal, i: nat, others: set<Intent>)
    requires i < |j.steps| && j.pending == others + {StepIntent(i, j.steps[i]), FailureRecorded(i)}
    ensures Select(j.snapshot, j.pending) == Refuse
  {
    assert StepIntent(i, j.steps[i]) in j.pending;
    SubsetSize({StepIntent(i, j.steps[i]), FailureRecorded(i)}, j.pending);
  }

  /** The journal that a close leaves decides the next selection as `Next` says. */
  lemma SelectsNext(j: Journal, stop: Stop, w: World, others: set<Intent>, cleanup: Cleanup)
    requires j.Planned() && Quiet(others) && StopOk(stop, j, w, others, cleanup)
    requires !j.snapshot.closed && stop != Nothing
    ensures Select(j.snapshot, j.pending) == Next(stop, j.session, others, cleanup)
  {
    if stop.InStep? || stop.FailedAt? {
      StepSelects(j, stop.index, others);
    } else if stop.Unclear? {
      UnclearSelects(j, stop.index, others);
    } else {
      assert !HasStep(j.pending) by {
        forall i | i in j.pending ensures !i.StepIntent? {
          assert i != SessionClosed ==> i in j.pending - {SessionClosed} || i in others;
        }
      }
    }
  }

  lemma OthersQuiet(pending: set<Intent>, s: Session, discard: bool, w: World)
    requires Quiet(pending)
    ensures Quiet(Others(pending, s, discard, w))
  {
    RepublishedSteps(pending - {CloseStarted}, w);
  }

  /** The selection of the close after one that did not close the session. */
  ghost function Then(f: Found, discard: bool, w: World): Selection
    requires Known(Selected(f), f.session)
  {
    if Selected(f) == Refuse then Refuse
    else Next(Stopped(Selected(f), f.session, discard, w), f.session, Beside(f, discard, w), Under(f, discard, w))
  }

  ghost predicate ClosedBy(f: Found, discard: bool, w: World)
    requires Known(Selected(f), f.session)
  {
    Stopped(Selected(f), f.session, discard, w) == Completed && Lands(w, SessionClosed)
  }

  /** Two closes, for everything that the calls of either may do. Unless the first closes the session, the second
    * makes exactly the selection `Then`: it tries the effects of that selection, in order after those of the first,
    * and closes exactly if it gets to the end of them. */
  method CloseAgain(j: Journal, first: bool, w: World, second: bool, w': World) returns (ok: bool)
    requires j.Valid() && j.Planned()
    modifies j
    ensures j.Valid() && Known(old(Selected(FoundIn(j))), j.session)
    ensures old(j.snapshot.closed) ==> ok && unchanged(j)
    ensures !old(j.snapshot.closed) && old(ClosedBy(FoundIn(j), first, w)) ==>
              ok && EffectsIn(j.trace) == old(EffectsIn(j.trace) + Effects(Selected(FoundIn(j)), j.session, first, w))
    ensures !old(j.snapshot.closed) && !old(ClosedBy(FoundIn(j), first, w)) ==>
              var again := old(Then(FoundIn(j), first, w));
              && Known(again, j.session)
              && EffectsIn(j.trace) == old(EffectsIn(j.trace) + Effects(Selected(FoundIn(j)), j.session, first, w))
                                       + Effects(again, j.session, second, w')
              && ok == (Stopped(again, j.session, second, w') == Completed && Recorded(w', SessionClosed))
  {
    ghost var f := FoundIn(j);
    var before := SelectPending(j);
    ok := Run(j, first, w);
    ghost var stop := Stopped(before, j.session, first, w);
    if !f.snapshot.closed && before != Refuse && stop != Nothing && !j.snapshot.closed {
      if before == Start { OthersQuiet(f.pending, j.session, first, w); }
      SelectsNext(j, stop, w, Beside(f, first, w), Under(f, first, w));
    }
    ok := Run(j, second, w');
  }

  /** After a close that started over and stopped inside a step, the next one runs the remaining steps if and only if
    * the first could not read its journal again (or had no final checkpoint to make), nothing else is pending, and the
    * table knows the step. */
  lemma CrashResumesIff(f: Found, discard: bool, w: World, i: nat)
    requires Selected(f) == Start && Stopped(Start, f.session, discard, w) == InStep(i)
    ensures i < |Steps(f.session)|
    ensures var resumes := && !Reloads(f.session, discard, w) && Resumable(f.session, i)
                           && Others(f.pending, f.session, discard, w) == {};
            Then(f, discard, w) == if resumes then Resume(i) else Refuse
  {}

  /** Everything succeeds, but the process dies in the effect of step `i`. */
  function DiesIn(i: nat, readable: bool): World {
    World(_ => Fine, _ => Fine, k => if k == i then Died else Worked, true, {}, readable)
  }

  lemma {:induction false} DiesThere(i: nat, readable: bool, steps: seq<Step>, k: nat)
    requires k <= i < |steps|
    ensures StopIn(DiesIn(i, readable), steps, k, false) == InStep(i)
    ensures Rest(DiesIn(i, readable), steps, k, false) == steps[k..i + 1]
    decreases i - k
  {
    if k < i { DiesThere(i, readable, steps, k + 1); }
  }

  method DieOnce(j: Journal, i: nat, readable: bool)
    requires j.Valid() && j.Planned() && j.snapshot == Snapshot(false, Idle) && j.pending == {} && j.session.readWrite
    requires i < |j.steps| && Resumable(j.session, i)
    modifies j
    ensures j.Valid() && !j.snapshot.closed && EffectsIn(j.trace) == old(EffectsIn(j.trace)) + j.steps[..i + 1]
    ensures Selected(FoundIn(j)) == if readable then Refuse else Resume(i)
  {
    var w := DiesIn(i, readable);
    ghost var f := FoundIn(j);
    assert Selected(f) == Start && Others({}, j.session, false, w) == {};
    DiesThere(i, readable, j.steps, 0);
    CrashResumesIff(f, false, w, i);
    var ok := Run(j, false, w);
    SelectsNext(j, InStep(i), w, {}, Under(f, false, w));
  }

  /** A writable session closed for the first time, by a process that dies in a step that can be resumed: the next
    * close refuses, and so does every later one, exactly because the journal could be read. */
  method DieInStep(j: Journal, i: nat, readable: bool, closes: seq<(bool, World)>) returns (closed: bool)
    requires j.Valid() && j.Planned() && j.snapshot == Snapshot(false, Idle) && j.pending == {} && j.session.readWrite
    requires i < |j.steps| && Resumable(j.session, i)
    modifies j
    ensures readable ==> !closed && EffectsIn(j.trace) == old(EffectsIn(j.trace)) + j.steps[..i + 1]
    ensures !readable && closes != [] && Calm(closes[0].1) ==>
              closed && EffectsIn(j.trace) == old(EffectsIn(j.trace)) + j.steps[..i + 1] + j.steps[i..]
  {
    DieOnce(j, i, readable);
    if closes == [] { return false; }
    closed := Run(j, closes[0].0, closes[0].1);
    closed := RunRepeatedly(j, closes[1..]);
  }

  lemma AddedMore(a: seq<Step>, b: seq<Step>, c: seq<Step>, s: Session)
    requires Added(a, b, s) && Added(b, c, s)
    ensures Added(a, c, s)
  {
    forall i | 0 <= i < |c| - |a| ensures Fits(s, c[|a|..][i]) {
      if |a| + i < |b| { assert Fits(s, b[|a|..][i]); } else { assert Fits(s, c[|b|..][|a| + i - |b|]); }
    }
  }

  /** Over any sequence of closes, each stopped anywhere: no cleanup effect, materialization removal included, comes
    * before a final checkpoint or a discard was recorded; a session that is closed has had every step succeed, and
    * further closes change nothing; and once one is refused, so are all. */
  method RunRepeatedly(j: Journal, closes: seq<(bool, World)>) returns (closed: bool)
    requires j.Valid() && j.Planned()
    modifies j
    ensures j.Valid() && OnlyAfterDecision(j.trace) && closed == j.snapshot.closed
    ensures closed ==> forall i :: 0 <= i < |j.steps| ==> Succeeded(j.trace, j.steps[i])
    ensures old(j.snapshot.closed || Selected(FoundIn(j)) == Refuse) ==> unchanged(j)
    ensures Added(old(EffectsIn(j.trace)), EffectsIn(j.trace), j.session)
  {
    for i := 0 to |closes|
      invariant j.Valid()
      invariant old(j.snapshot.closed || Selected(FoundIn(j)) == Refuse) ==> unchanged(j)
      invariant Added(old(EffectsIn(j.trace)), EffectsIn(j.trace), j.session)
    {
      ghost var before := EffectsIn(j.trace);
      var ok := Run(j, closes[i].0, closes[i].1);
      AddedMore(old(EffectsIn(j.trace)), before, EffectsIn(j.trace), j.session);
    }
    return j.snapshot.closed;
  }
}
