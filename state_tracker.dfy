/** StateTracker: the listener bodies that turn the IDE's debug, focus, edit,
    window, build and idle signals into recordState / recordEvent calls on the
    recorder, and keep the tracker's own view of what the developer is doing. */
module Tracking {
  import opened Wrappers
  import opened ActivityModel
  import opened RecordingModel
  import opened BuildActivityEvent
  import opened FlushOutcomes
  import opened OfflineStore
  import opened Recording

  // ----- Debug events -----

  /** The Java type of a debug event's source. */
  datatype DebugSource = Process | DebugTarget | Thread | OtherSource

  /** The kind of a debug event. */
  datatype DebugKind = Create | Terminate | Suspend | Resume | OtherKind

  datatype DebugSignal = DebugSignal(source: DebugSource, kind: DebugKind)

  /** What handleDebugEvent does with one debug event. NullCurrentState is the
      NullPointerException its guards raise when there is no current state yet. */
  datatype DebugReaction = NoChange | NullCurrentState | EnterDebugging | LeaveDebugging

  function TypeOf(s: ActivityState?): Option<ActivityType> {
    if s == null then None else Some(s.activityType)
  }

  /** handleDebugEvent's decision, given the type of the current state (None
      when there is none). */
  function ReactTo(e: DebugSignal, current: Option<ActivityType>): (r: DebugReaction)
    ensures r == EnterDebugging <==>
              current.Some? && current.value != Debugging &&
              ((e.source == DebugTarget && e.kind == Create) || (e.source == Thread && e.kind == Suspend))
    ensures r == LeaveDebugging <==>
              (e.source == DebugTarget && e.kind == Terminate) || (e.source == Thread && e.kind == Resume) ||
              (e.source == Process && e.kind == Terminate && current == Some(Debugging))
    ensures r == NullCurrentState <==>
              current.None? &&
              ((e.source == Process && e.kind == Terminate) || (e.source == DebugTarget && e.kind == Create) ||
               (e.source == Thread && e.kind == Suspend))
  {
    match e.source
    case Process =>
      if e.kind != Terminate then NoChange
      else if current.None? then NullCurrentState
      else if current.value == Debugging then LeaveDebugging
      else NoChange
    case DebugTarget =>
      if e.kind == Create then
        if current.None? then NullCurrentState
        else if current.value != Debugging then EnterDebugging
        else NoChange
      else if e.kind == Terminate then LeaveDebugging
      else NoChange
    case Thread =>
      if e.kind == Suspend then
        if current.None? then NullCurrentState
        else if current.value != Debugging then EnterDebugging
        else NoChange
      else if e.kind == Resume then LeaveDebugging
      else NoChange
    case OtherSource => NoChange
  }

  /** The type of the current state after a reaction. */
  function AfterReaction(r: DebugReaction, current: Option<ActivityType>): Option<ActivityType> {
    match r
    case EnterDebugging => Some(Debugging)
    case LeaveDebugging => Some(Null)
    case _ => current
  }

  /** The debug listener's loop over a batch: how many events are handled before
      one raises, and the type of the current state afterwards. */
  function DebugBatch(events: seq<DebugSignal>, current: Option<ActivityType>): (r: (nat, Option<ActivityType>))
    ensures r.0 <= |events|
    ensures r.0 < |events| ==> ReactTo(events[r.0], r.1) == NullCurrentState
  {
    if |events| == 0 then (0, current)
    else
      var reaction := ReactTo(events[0], current);
      if reaction == NullCurrentState then (0, current)
      else
        var rest := DebugBatch(events[1..], AfterReaction(reaction, current));
        (rest.0 + 1, rest.1)
  }

  /** Once there is a current state, a batch is always handled to its end. */
  lemma {:induction false} DebugBatchCompletes(events: seq<DebugSignal>, current: Option<ActivityType>)
    requires current.Some?
    ensures DebugBatch(events, current).0 == |events| && DebugBatch(events, current).1.Some?
    decreases |events|
  {
    if |events| > 0 {
      DebugBatchCompletes(events[1..], AfterReaction(ReactTo(events[0], current), current));
    }
  }

  /** DebugBatch from index `from` on, by position rather than by suffix: the
      index of the first event that raises (or |events|) and the type reached. */
  function DebugBatchFrom(events: seq<DebugSignal>, from: nat, current: Option<ActivityType>): (r: (nat, Option<ActivityType>))
    decreases |events| - from
  {
    if from >= |events| then (from, current)
    else
      var reaction := ReactTo(events[from], current);
      if reaction == NullCurrentState then (from, current)
      else DebugBatchFrom(events, from + 1, AfterReaction(reaction, current))
  }

  /** The positional form agrees with the suffix form, offset by the start index. */
  lemma {:induction false} DebugBatchFromSuffix(events: seq<DebugSignal>, from: nat, current: Option<ActivityType>)
    requires from <= |events|
    ensures DebugBatchFrom(events, from, current) ==
              (from + DebugBatch(events[from..], current).0, DebugBatch(events[from..], current).1)
    decreases |events| - from
  {
    if from < |events| {
      var reaction := ReactTo(events[from], current);
      if reaction != NullCurrentState {
        DebugBatchFromSuffix(events, from + 1, AfterReaction(reaction, current));
        assert events[from..][1..] == events[from + 1..];
      }
    }
  }

  /** Records the debug listener may add: Debugging and Null states of UNASSIGNED_PROJECT. */
  predicate DebugRecords(r: seq<Record>) {
    forall k :: 0 <= k < |r| ==>
      r[k].StateRecord? && r[k].state.projectId == UNASSIGNED_PROJECT && r[k].state.activityType in {Debugging, Null}
  }

  lemma DebugRecordsAppend(a: seq<Record>, b: seq<Record>)
    requires DebugRecords(a) && DebugRecords(b)
    ensures DebugRecords(a + b)
  {
  }

  // ----- Focus, edit and build signals -----

  /** An editor part that got the focus or a new selection. */
  datatype FocusSignal = FocusSignal(
    isEditor: bool,
    /** The tracked id of the editor's project; None when it has none or it is not tracked. */
    project: Option<ProjectId>,
    /** The editor's resource; None when it has none. */
    resource: Option<Resource>,
    /** The code context ContextCreator builds for the editor. */
    context: CodeContext)

  /** A document change in the active editor. */
  datatype EditSignal = EditSignal(
    isEditor: bool,
    resource: Option<Resource>,
    /** The tracked id of the resource's project; None when it is not tracked. */
    project: Option<ProjectId>,
    context: CodeContext)

  /** A project the build changed, as the resource delta visitor reports it. */
  datatype AffectedProject = AffectedProject(
    /** The tracked id; None when the project is not tracked. */
    project: Option<ProjectId>,
    /** Whether EditorUtils.getCompilationErrors reports problems. */
    hasProblems: bool,
    context: CodeContext)

  /** How many projects, from the front, are tracked: the build handlers stop at
      the first one that is not. */
  function TrackedPrefix(ps: seq<AffectedProject>): (k: nat)
    ensures k <= |ps|
    ensures forall i :: 0 <= i < k ==> ps[i].project.Some?
    ensures k < |ps| ==> ps[k].project.None?
  {
    if |ps| == 0 || ps[0].project.None? then 0 else 1 + TrackedPrefix(ps[1..])
  }

  /** The tracked prefix ends at the first untracked project. */
  lemma TrackedPrefixAt(ps: seq<AffectedProject>, i: nat)
    requires i <= |ps| && forall j :: 0 <= j < i ==> ps[j].project.Some?
    requires i == |ps| || ps[i].project.None?
    ensures TrackedPrefix(ps) == i
  {
  }

  /** The project result type and the solution result type of post-build. */
  function PostBuildResults(hasProblems: bool): (r: (ActivityType, ActivityType))
    ensures r.0 in PostBuildTypes && r.1 in PostBuildTypes && IsMarker(r.0) && IsMarker(r.1)
    ensures r.0 != r.1
    ensures hasProblems <==> r.0 == BuildProjectFailed
    ensures hasProblems <==> r.1 == BuildSolutionFailed
  {
    if hasProblems then (BuildProjectFailed, BuildSolutionFailed)
    else (BuildProjectSucceeded, BuildSolutionSucceded)
  }

  /** What PRE_BUILD records for one tracked project. */
  datatype BuildStart = BuildStart(state: ActivityState, event: ActivityEvent)

  /** What POST_BUILD records for one tracked project. */
  datatype BuildEnd = BuildEnd(projectResult: ActivityEvent, solutionResult: ActivityEvent, nullState: ActivityState)

  /** PRE_BUILD for a tracked project: a Building state and a BuildProject event,
      both of that project and created at `now`. */
  predicate StartsBuild(p: AffectedProject, b: BuildStart, now: int, canSpan: (ActivityType, bool) -> bool) {
    p.project == Some(b.state.projectId) && IsNew(b.state, Building, b.state.projectId, PlainState, now) &&
    b.event.activityType == BuildProject && b.event.isBuild && b.event.projectId == b.state.projectId &&
    b.event.context == p.context && b.event.creationTime == now && b.event.spannable == canSpan(BuildProject, true)
  }

  /** POST_BUILD for a tracked project: the project result and the solution
      result, of the outcome its problems decide, and a Null state. */
  predicate FinishesBuild(p: AffectedProject, b: BuildEnd, now: int, canSpan: (ActivityType, bool) -> bool) {
    var types := PostBuildResults(p.hasProblems);
    var e1, e2, s := b.projectResult, b.solutionResult, b.nullState;
    p.project == Some(s.projectId) && IsNew(s, Null, s.projectId, NullActivityState, now) &&
    e1.activityType == types.0 && e1.isBuild && e1.projectId == s.projectId && e1.context == p.context &&
    e1.creationTime == now && e1.spannable == canSpan(types.0, true) &&
    e2.activityType == types.1 && e2.isBuild && e2.projectId == s.projectId && e2.context == p.context &&
    e2.creationTime == now && e2.spannable == canSpan(types.1, true)
  }

  /** StartsBuild for every project with an entry in `starts`, stated by recursion
      so that a loop can extend it one entry at a time. */
  predicate StartedBuilds(projects: seq<AffectedProject>, starts: seq<BuildStart>, now: int,
                          canSpan: (ActivityType, bool) -> bool)
    requires |starts| <= |projects|
    decreases |starts|
  {
    |starts| == 0 ||
    (StartedBuilds(projects, starts[..|starts| - 1], now, canSpan) &&
     StartsBuild(projects[|starts| - 1], starts[|starts| - 1], now, canSpan))
  }

  lemma StartedBuildsStep(projects: seq<AffectedProject>, starts: seq<BuildStart>, b: BuildStart, now: int,
                          canSpan: (ActivityType, bool) -> bool)
    requires |starts| < |projects| && StartedBuilds(projects, starts, now, canSpan)
    requires StartsBuild(projects[|starts|], b, now, canSpan)
    ensures StartedBuilds(projects, starts + [b], now, canSpan)
  {
    assert (starts + [b])[..|starts|] == starts;
  }

  lemma {:induction false} StartedBuildsEach(projects: seq<AffectedProject>, starts: seq<BuildStart>, now: int,
                                             canSpan: (ActivityType, bool) -> bool)
    requires |starts| <= |projects| && StartedBuilds(projects, starts, now, canSpan)
    ensures forall j :: 0 <= j < |starts| ==> StartsBuild(projects[j], starts[j], now, canSpan)
    decreases |starts|
  {
    if |starts| > 0 {
      var front := starts[..|starts| - 1];
      StartedBuildsEach(projects, front, now, canSpan);
      assert forall j :: 0 <= j < |front| ==> starts[j] == front[j];
    }
  }

  /** FinishesBuild for every project with an entry in `ends`, stated by recursion
      so that a loop can extend it one entry at a time. */
  predicate FinishedBuilds(projects: seq<AffectedProject>, ends: seq<BuildEnd>, now: int,
                           canSpan: (ActivityType, bool) -> bool)
    requires |ends| <= |projects|
    decreases |ends|
  {
    |ends| == 0 ||
    (FinishedBuilds(projects, ends[..|ends| - 1], now, canSpan) &&
     FinishesBuild(projects[|ends| - 1], ends[|ends| - 1], now, canSpan))
  }

  lemma FinishedBuildsStep(projects: seq<AffectedProject>, ends: seq<BuildEnd>, b: BuildEnd, now: int,
                           canSpan: (ActivityType, bool) -> bool)
    requires |ends| < |projects| && FinishedBuilds(projects, ends, now, canSpan)
    requires FinishesBuild(projects[|ends|], b, now, canSpan)
    ensures FinishedBuilds(projects, ends + [b], now, canSpan)
  {
    assert (ends + [b])[..|ends|] == ends;
  }

  lemma {:induction false} FinishedBuildsEach(projects: seq<AffectedProject>, ends: seq<BuildEnd>, now: int,
                                              canSpan: (ActivityType, bool) -> bool)
    requires |ends| <= |projects| && FinishedBuilds(projects, ends, now, canSpan)
    ensures forall j :: 0 <= j < |ends| ==> FinishesBuild(projects[j], ends[j], now, canSpan)
    decreases |ends|
  {
    if |ends| > 0 {
      var front := ends[..|ends| - 1];
      FinishedBuildsEach(projects, front, now, canSpan);
      assert forall j :: 0 <= j < |front| ==> ends[j] == front[j];
    }
  }

  /** The records of pre-build: each Building state followed by its BuildProject event. */
  function PreBuildLog(starts: seq<BuildStart>): (r: seq<Record>)
    ensures |r| == 2 * |starts|
  {
    var n := |starts|;
    if n == 0 then []
    else PreBuildLog(starts[..n - 1]) + [StateRecord(starts[n - 1].state), EventRecord(starts[n - 1].event)]
  }

  /** The records of post-build: each project result, solution result and Null state. */
  function PostBuildLog(ends: seq<BuildEnd>): (r: seq<Record>)
    ensures |r| == 3 * |ends|
  {
    var n := |ends|;
    if n == 0 then []
    else PostBuildLog(ends[..n - 1]) +
         [EventRecord(ends[n - 1].projectResult), EventRecord(ends[n - 1].solutionResult), StateRecord(ends[n - 1].nullState)]
  }

  lemma PreBuildStep(log: seq<Record>, starts: seq<BuildStart>, b: BuildStart)
    ensures log + PreBuildLog(starts) + [StateRecord(b.state), EventRecord(b.event)] == log + PreBuildLog(starts + [b])
  {
    assert (starts + [b])[..|starts|] == starts;
  }

  lemma PostBuildStep(log: seq<Record>, ends: seq<BuildEnd>, b: BuildEnd)
    ensures log + PostBuildLog(ends) + [EventRecord(b.projectResult), EventRecord(b.solutionResult), StateRecord(b.nullState)] ==
            log + PostBuildLog(ends + [b])
  {
    assert (ends + [b])[..|ends|] == ends;
  }

  // ----- Idle detection -----

  /** Java's integer division, which truncates toward zero. */
  function JavaDiv(a: int, b: int): (q: int)
    requires b != 0
    ensures b > 0 && a >= 0 ==> 0 <= a - q * b < b
    ensures b > 0 && a < 0 ==> -b < a - q * b <= 0
  {
    var m := (if a < 0 then -a else a) / (if b < 0 then -b else b);
    if (a < 0) == (b < 0) then m else -m
  }

  /** Duration.standardMinutes(idleMinInterval / 1000 / 60), in milliseconds. */
  function IdleThreshold(idleMinInterval: int): int {
    JavaDiv(JavaDiv(idleMinInterval, 1000), 60) * 60000
  }

  /** The two divisions only truncate the configured interval to whole minutes
      (toward zero); no unit is divided twice. */
  lemma IdleThresholdIsWholeMinutes(idleMinInterval: int)
    ensures IdleThreshold(idleMinInterval) % 60000 == 0
    ensures idleMinInterval >= 0 ==>
              IdleThreshold(idleMinInterval) <= idleMinInterval < IdleThreshold(idleMinInterval) + 60000
    ensures idleMinInterval < 0 ==>
              IdleThreshold(idleMinInterval) - 60000 < idleMinInterval <= IdleThreshold(idleMinInterval)
  {
    var seconds := JavaDiv(idleMinInterval, 1000);
    var minutes := JavaDiv(seconds, 60);
    assert IdleThreshold(idleMinInterval) == minutes * 60000;
    if idleMinInterval >= 0 {
      assert 0 <= idleMinInterval - seconds * 1000 < 1000;
      assert 0 <= seconds - minutes * 60 < 60;
      assert 0 <= seconds * 1000 - minutes * 60000 < 60000 by {
        assert seconds * 1000 - minutes * 60000 == (seconds - minutes * 60) * 1000;
      }
    } else {
      assert -1000 < idleMinInterval - seconds * 1000 <= 0;
      assert seconds <= 0;
      assert -60 < seconds - minutes * 60 <= 0;
      assert -60000 < seconds * 1000 - minutes * 60000 <= 0 by {
        assert seconds * 1000 - minutes * 60000 == (seconds - minutes * 60) * 1000;
      }
    }
  }

  /** The inputs of a flush that the recorder does not hold itself: the project
      ids of createNullState(), the processor's verdicts, whether building the
      ActivityInfo list throws, the ActivityInfo entries with their send attempts, whether
      the cache folder is available, the first entry whose cache-folder listing
      is null, and the server's answer to each cached file. */
  datatype FlushInputs = FlushInputs(
    nullProjects: seq<ProjectId>,
    processorValid: bool,
    buildThrows: bool,
    listValid: bool,
    entries: seq<Entry>,
    cacheAvailable: bool,
    listingFailsAt: Option<nat>,
    fileAttempt: string -> FileAttempt)
  {
    /** What StateTracker.flush answers: the recorder's result, or Report when it throws. */
    function Outcome(): FlushResult {
      GuardedOutcome(processorValid, buildThrows, listValid, entries, cacheAvailable, listingFailsAt)
    }

    /** The directories after the flush, from d: the entries the loop reached are
        delivered, or nothing changes when no list is built. */
    function Stored(d: Dirs): Dirs {
      if processorValid && !buildThrows && listValid
      then Delivered(d, entries[..Handled(entries, cacheAvailable, listingFailsAt)], cacheAvailable, fileAttempt)
      else d
    }
  }

  /** A state that was just created with the given fields. */
  predicate IsNew(s: ActivityState?, t: ActivityType, projectId: ProjectId, kind: StateClass, now: int) {
    s != null && s.activityType == t && s.projectId == projectId && s.kind == kind && s.creationTime == now
  }

  /** The design state trackDocumentFocus opens unless the developer is already
      coding in that project or is debugging. */
  predicate OpensDesign(current: ActivityState, projectId: ProjectId) {
    (current.activityType != Coding || current.projectId != projectId) && current.activityType != Debugging
  }

  class StateTracker {
    const recorder: ActivitiesRecorder
    var currentState: ActivityState?
    var lastState: ActivityState?
    var currentCompilationUnit: Option<Resource>
    var lastCodeContext: Option<CodeContext>
    var lastEvent: ActivityEvent?
    /** Whether the debug, window and build listeners are registered. */
    var listening: bool
    /** Whether the idle-detection executor exists. */
    var idleDetection: bool

    ghost predicate Valid()
      reads this, recorder
    {
      recorder.Valid()
    }

    constructor (canSpan: (ActivityType, bool) -> bool)
      ensures Valid() && fresh(recorder) && recorder.canSpan == canSpan
      ensures recorder.states == map[] && recorder.events == map[] && recorder.log == []
      ensures currentState == null && lastState == null && lastEvent == null
      ensures currentCompilationUnit == None && lastCodeContext == None
      ensures !listening && !idleDetection
    {
      recorder := new ActivitiesRecorder(canSpan);
      currentState := null;
      lastState := null;
      currentCompilationUnit := None;
      lastCodeContext := None;
      lastEvent := null;
      listening := false;
      idleDetection := false;
    }

    /** startTracking: registers the listeners and starts idle detection. */
    method StartTracking()
      modifies this
      ensures listening && idleDetection
      ensures currentState == old(currentState) && lastState == old(lastState) && lastEvent == old(lastEvent)
      ensures currentCompilationUnit == old(currentCompilationUnit) && lastCodeContext == old(lastCodeContext)
    {
      listening := true;
      if !idleDetection {
        idleDetection := true;
      }
    }

    /** stopTracking: removes the listeners and shuts idle detection down. */
    method StopTracking()
      modifies this
      ensures !listening && !idleDetection
      ensures currentState == old(currentState) && lastState == old(lastState) && lastEvent == old(lastEvent)
      ensures currentCompilationUnit == old(currentCompilationUnit) && lastCodeContext == old(lastCodeContext)
    {
      listening := false;
      idleDetection := false;
    }

    /** What a recording call may leave behind in the recorder: states filed and
        a last event that are either the old ones or new objects. */
    twostate predicate RecorderGrew()
      reads this, recorder
    {
      (forall s :: s in recorder.filed ==> s in old(recorder.filed) || fresh(s)) &&
      (recorder.lastEvent == old(recorder.lastEvent) || fresh(recorder.lastEvent))
    }

    /** recordState, as the handlers call it. */
    method Record(s: ActivityState, now: int)
      requires Valid()
      modifies recorder, recorder.filed`duration, recorder.EventFrame()`duration
      ensures Valid() && recorder.filed == old(recorder.filed) + {s} && unchanged(this)
      ensures recorder.lastEvent == old(recorder.lastEvent) || fresh(recorder.lastEvent)
      ensures recorder.log == old(recorder.log) + [StateRecord(s)]
    {
      var _ := recorder.RecordState(s, now);
    }

    /** recordEvent, as the handlers call it. */
    method Emit(e: ActivityEvent)
      requires Valid()
      modifies recorder
      ensures Valid() && recorder.filed == old(recorder.filed) && recorder.lastEvent == e && unchanged(this)
      ensures recorder.log == old(recorder.log) + [EventRecord(e)]
    {
      var _ := recorder.RecordEvent(e, false);
    }

    /** recordState followed by recordEvent. */
    method RecordThenEmit(s: ActivityState, e: ActivityEvent, now: int)
      requires Valid()
      modifies recorder, recorder.filed`duration, recorder.EventFrame()`duration
      ensures Valid() && recorder.filed == old(recorder.filed) + {s} && recorder.lastEvent == e && unchanged(this)
      ensures recorder.log == old(recorder.log) + [StateRecord(s), EventRecord(e)]
    {
      Record(s, now);
      Emit(e);
    }

    /** recordEvent followed by recordState. */
    method EmitThenRecord(e: ActivityEvent, s: ActivityState, now: int)
      requires Valid()
      modifies recorder, recorder.filed`duration, recorder.EventFrame()`duration, e`duration
      ensures Valid() && recorder.filed == old(recorder.filed) + {s} && unchanged(this)
      ensures recorder.lastEvent == e || fresh(recorder.lastEvent)
      ensures recorder.log == old(recorder.log) + [EventRecord(e), StateRecord(s)]
    {
      Emit(e);
      Record(s, now);
    }

    /** Creates a state at `now`, records it and makes it current. */
    method Open(t: ActivityType, projectId: ProjectId, kind: StateClass, now: int)
      requires Valid()
      modifies this`currentState, recorder, recorder.filed`duration, recorder.EventFrame()`duration
      ensures Valid() && RecorderGrew()
      ensures fresh(currentState) && IsNew(currentState, t, projectId, kind, now)
      ensures recorder.log == old(recorder.log) + [StateRecord(currentState)]
    {
      var s := new ActivityState(t, projectId, kind, now);
      Record(s, now);
      currentState := s;
    }

    /** handleDebugEvent: a debug target created or a thread suspended outside
        Debugging opens a Debugging state; a target terminated, a thread resumed,
        or a process terminated while Debugging, opens a Null state. All of them
        belong to UNASSIGNED_PROJECT. `failed` is the NullPointerException. */
    method HandleDebugEvent(e: DebugSignal, now: int) returns (failed: bool, ghost step: seq<Record>)
      requires Valid()
      modifies this`currentState, recorder, recorder.filed`duration, recorder.EventFrame()`duration
      ensures Valid()
      ensures var r := ReactTo(e, TypeOf(old(currentState)));
              (failed <==> r == NullCurrentState) &&
              if r == EnterDebugging then
                fresh(currentState) && IsNew(currentState, Debugging, UNASSIGNED_PROJECT, PlainState, now) &&
                recorder.log == old(recorder.log) + [StateRecord(currentState)]
              else if r == LeaveDebugging then
                fresh(currentState) && IsNew(currentState, Null, UNASSIGNED_PROJECT, NullActivityState, now) &&
                recorder.log == old(recorder.log) + [StateRecord(currentState)]
              else
                currentState == old(currentState) && recorder.log == old(recorder.log) &&
                recorder.states == old(recorder.states) && recorder.events == old(recorder.events)
      ensures recorder.log == old(recorder.log) + step && DebugRecords(step)
      ensures RecorderGrew()
    {
      var r := ReactTo(e, TypeOf(currentState));
      failed := r == NullCurrentState;
      step := [];
      if r == EnterDebugging {
        Open(Debugging, UNASSIGNED_PROJECT, PlainState, now);
        step := [StateRecord(currentState)];
      } else if r == LeaveDebugging {
        Open(Null, UNASSIGNED_PROJECT, NullActivityState, now);
        step := [StateRecord(currentState)];
      }
    }

    /** One event of the debug listener's loop, stated over the whole batch:
        either the event raises and the batch ends at `i`, or the loop moves on to
        `i + 1` with its records appended to `added`. */
    method DebugStep(events: seq<DebugSignal>, i: nat, now: int, ghost t0: Option<ActivityType>,
                     ghost log0: seq<Record>, ghost added: seq<Record>)
      returns (failed: bool, ghost added': seq<Record>)
      requires Valid() && i < |events|
      requires DebugBatchFrom(events, 0, t0) == DebugBatchFrom(events, i, TypeOf(currentState))
      requires recorder.log == log0 + added && DebugRecords(added)
      modifies this`currentState, recorder, recorder.filed`duration, recorder.EventFrame()`duration
      ensures Valid() && RecorderGrew()
      ensures failed ==> DebugBatchFrom(events, 0, t0) == (i, TypeOf(currentState))
      ensures !failed ==> DebugBatchFrom(events, 0, t0) == DebugBatchFrom(events, i + 1, TypeOf(currentState))
      ensures recorder.log == log0 + added' && DebugRecords(added')
    {
      ghost var step: seq<Record>;
      failed, step := HandleDebugEvent(events[i], now);
      DebugRecordsAppend(added, step);
      AppendTwice(log0, added, step);
      added' := added + step;
    }

    /** The debug listener: the events of a batch in order, up to the first that
        raises. `added` is what it records: Debugging and Null states of
        UNASSIGNED_PROJECT only. */
    method HandleDebugEvents(events: seq<DebugSignal>, now: int) returns (handled: nat, ghost added: seq<Record>)
      requires Valid()
      modifies this`currentState, recorder, recorder.filed`duration, recorder.EventFrame()`duration
      ensures Valid()
      ensures (handled, TypeOf(currentState)) == DebugBatch(events, TypeOf(old(currentState)))
      ensures recorder.log == old(recorder.log) + added && DebugRecords(added)
    {
      added := [];
      handled := 0;
      var i := 0;
      while i < |events|
        invariant Valid() && 0 <= i <= |events| && handled == i
        invariant DebugBatchFrom(events, 0, TypeOf(old(currentState))) == DebugBatchFrom(events, i, TypeOf(currentState))
        invariant recorder.log == old(recorder.log) + added && DebugRecords(added)
        invariant RecorderGrew()
      {
        var failed;
        failed, added := DebugStep(events, i, now, TypeOf(old(currentState)), old(recorder.log), added);
        if failed {
          break;
        }
        i := i + 1;
        handled := i;
      }
      DebugBatchFromSuffix(events, 0, TypeOf(old(currentState)));
      assert events[0..] == events;
    }

    /** trackDocumentFocus: for an editor of a tracked project, opens a design
        (Coding) state unless the developer is already coding in that project or
        is debugging, then tracks the selection when there is a resource. A
        missing current state raises before anything is recorded. */
    method TrackDocumentFocus(f: FocusSignal, now: int)
      requires Valid()
      modifies this, recorder, recorder.filed`duration, recorder.EventFrame()`duration
      ensures Valid()
      ensures lastState == old(lastState) && listening == old(listening) && idleDetection == old(idleDetection)
      ensures !f.isEditor || f.project.None? || old(currentState) == null ==>
                currentState == old(currentState) && lastEvent == old(lastEvent) &&
                currentCompilationUnit == old(currentCompilationUnit) && lastCodeContext == old(lastCodeContext) &&
                recorder.log == old(recorder.log) && recorder.states == old(recorder.states) &&
                recorder.events == old(recorder.events)
      ensures f.isEditor && f.project.Some? && old(currentState) != null ==>
                var design := OpensDesign(old(currentState), f.project.value);
                var focus := f.resource.Some? &&
                             (old(currentCompilationUnit) != f.resource || old(lastCodeContext) != Some(f.context));
                (if design then fresh(currentState) && IsNew(currentState, Coding, f.project.value, PlainState, now)
                 else currentState == old(currentState)) &&
                (if focus then
                   fresh(lastEvent) && lastEvent.activityType == DocumentFocus && lastEvent.projectId == f.project.value &&
                   lastEvent.context == f.context && lastEvent.creationTime == now && !lastEvent.isBuild &&
                   lastEvent.spannable == recorder.canSpan(DocumentFocus, false)
                 else lastEvent == old(lastEvent) && currentCompilationUnit == old(currentCompilationUnit) &&
                      lastCodeContext == old(lastCodeContext)) &&
                recorder.log == old(recorder.log) + (if design then [StateRecord(currentState)] else []) +
                                                    (if focus then [EventRecord(lastEvent)] else [])
      // afterwards the developer is coding in that project, or debugging
      ensures f.isEditor && f.project.Some? && old(currentState) != null ==>
                currentState.activityType == Debugging ||
                (currentState.activityType == Coding && currentState.projectId == f.project.value)
      // afterwards the resource and context are the remembered ones
      ensures f.isEditor && f.project.Some? && old(currentState) != null && f.resource.Some? ==>
                currentCompilationUnit == f.resource && lastCodeContext == Some(f.context)
    {
      if !f.isEditor || f.project.None? || currentState == null {
        return;
      }
      var projectId := f.project.value;
      if OpensDesign(currentState, projectId) {
        Open(Coding, projectId, PlainState, now);
      }
      if f.resource.None? {
        return;
      }
      TrackNewSelection(f.resource.value, f.context, projectId, now);
    }

    /** trackNewSelection: a DocumentFocus event is recorded only when the
        resource or the code context differs from the remembered one; both are
        then remembered. */
    method TrackNewSelection(resource: Resource, context: CodeContext, projectId: ProjectId, now: int)
      requires Valid()
      modifies this, recorder, recorder.EventFrame()`duration
      ensures Valid()
      ensures currentState == old(currentState) && lastState == old(lastState)
      ensures listening == old(listening) && idleDetection == old(idleDetection)
      ensures currentCompilationUnit == Some(resource) && lastCodeContext == Some(context)
      ensures recorder.filed == old(recorder.filed)
      ensures if old(currentCompilationUnit) != Some(resource) || old(lastCodeContext) != Some(context)
              then fresh(lastEvent) && lastEvent.activityType == DocumentFocus && lastEvent.projectId == projectId &&
                   lastEvent.context == context && lastEvent.creationTime == now && !lastEvent.isBuild &&
                   lastEvent.spannable == recorder.canSpan(DocumentFocus, false) &&
                   recorder.log == old(recorder.log) + [EventRecord(lastEvent)]
              else lastEvent == old(lastEvent) && recorder.log == old(recorder.log) &&
                   recorder.events == old(recorder.events)
    {
      if currentCompilationUnit != Some(resource) || lastCodeContext != Some(context) {
        var event := new ActivityEvent(projectId, DocumentFocus, context, now, recorder.canSpan(DocumentFocus, false));
        Emit(event);
        lastEvent := event;
        currentCompilationUnit := Some(resource);
        lastCodeContext := Some(context);
      }
    }

    /** trackCodingEvents: an edit of the remembered compilation unit records a
        DocumentEdit unless the last event is missing or already an edit.
        Afterwards a non-null last event is replaced by the new event, or by
        null when nothing was recorded. */
    method TrackCodingEvents(e: EditSignal, now: int)
      requires Valid()
      modifies this, recorder, recorder.EventFrame()`duration
      ensures Valid()
      ensures currentState == old(currentState) && lastState == old(lastState)
      ensures currentCompilationUnit == old(currentCompilationUnit) && lastCodeContext == old(lastCodeContext)
      ensures listening == old(listening) && idleDetection == old(idleDetection)
      ensures recorder.filed == old(recorder.filed)
      ensures var handled := e.isEditor && e.resource.Some? && e.project.Some?;
              var records := handled && old(currentCompilationUnit) == e.resource && old(lastEvent) != null &&
                             old(lastEvent).activityType != DocumentEdit;
              if records then
                fresh(lastEvent) && lastEvent.activityType == DocumentEdit && lastEvent.projectId == e.project.value &&
                lastEvent.context == e.context && lastEvent.creationTime == now && !lastEvent.isBuild &&
                lastEvent.spannable == recorder.canSpan(DocumentEdit, false) &&
                recorder.log == old(recorder.log) + [EventRecord(lastEvent)]
              else
                recorder.log == old(recorder.log) && recorder.events == old(recorder.events) &&
                lastEvent == (if handled && old(lastEvent) != null then null else old(lastEvent))
    {
      if !e.isEditor || e.resource.None? || e.project.None? {
        return;
      }
      var projectId := e.project.value;
      var event: ActivityEvent? := null;
      if e.resource == currentCompilationUnit && lastEvent != null && lastEvent.activityType != DocumentEdit {
        event := new ActivityEvent(projectId, DocumentEdit, e.context, now, recorder.canSpan(DocumentEdit, false));
        Emit(event);
      }
      if lastEvent != null {
        lastEvent := event;
      }
    }

    /** startTrackingProject: a System state and an OpenSolution event, both at
        the workspace start date, then a Null state at `now` that becomes current. */
    method StartTrackingProject(projectId: ProjectId, startWorkspaceDate: int, context: CodeContext, now: int)
      returns (ghost system: ActivityState, ghost openSolution: ActivityEvent)
      requires Valid()
      modifies this`currentState, recorder, recorder.filed`duration, recorder.EventFrame()`duration
      ensures Valid()
      ensures fresh(system) && IsNew(system, System, projectId, PlainState, startWorkspaceDate)
      ensures fresh(openSolution) && openSolution.activityType == OpenSolution && openSolution.projectId == projectId &&
              openSolution.context == context && openSolution.creationTime == startWorkspaceDate && !openSolution.isBuild
      ensures fresh(currentState) && IsNew(currentState, Null, projectId, NullActivityState, now)
      ensures recorder.log == old(recorder.log) + [StateRecord(system), EventRecord(openSolution), StateRecord(currentState)]
      ensures RecorderGrew()
    {
      var event := new ActivityEvent(projectId, OpenSolution, context, startWorkspaceDate, recorder.canSpan(OpenSolution, false));
      var s := new ActivityState(System, projectId, PlainState, startWorkspaceDate);
      var n := new ActivityState(Null, projectId, NullActivityState, now);
      currentState := n;
      RecordThenEmit(s, event, now);
      Record(n, now);
      system, openSolution := s, event;
    }

    /** windowActivated: re-opens the state saved in lastState (or a fresh idle
        state when there is none), and saves the replaced current state. */
    method WindowActivated(now: int)
      requires Valid()
      modifies this, recorder, recorder.filed`duration, recorder.EventFrame()`duration
      ensures Valid()
      ensures lastState == old(currentState)
      ensures fresh(currentState) && currentState.creationTime == now
      ensures if old(lastState) != null
              then IsNew(currentState, old(lastState).activityType, old(lastState).projectId, old(lastState).kind, now)
              else IsNew(currentState, Idle, UNASSIGNED_PROJECT, IdleActivityState, now)
      ensures recorder.log == old(recorder.log) + [StateRecord(currentState)]
      ensures lastEvent == old(lastEvent)
      ensures currentCompilationUnit == old(currentCompilationUnit) && lastCodeContext == old(lastCodeContext)
      ensures listening == old(listening) && idleDetection == old(idleDetection)
    {
      var newState: ActivityState;
      if lastState != null {
        newState := lastState.Recreate(now);
      } else {
        newState := new ActivityState(Idle, UNASSIGNED_PROJECT, IdleActivityState, now);
      }
      lastState := currentState;
      currentState := newState;
      Record(currentState, now);
    }

    /** windowDeactivated: records an idle state, saves the current state in
        lastState and makes the idle state current. */
    method WindowDeactivated(now: int)
      requires Valid()
      modifies this, recorder, recorder.filed`duration, recorder.EventFrame()`duration
      ensures Valid()
      ensures lastState == old(currentState)
      ensures fresh(currentState) && IsNew(currentState, Idle, UNASSIGNED_PROJECT, IdleActivityState, now)
      ensures recorder.log == old(recorder.log) + [StateRecord(currentState)]
      ensures lastEvent == old(lastEvent)
      ensures currentCompilationUnit == old(currentCompilationUnit) && lastCodeContext == old(lastCodeContext)
      ensures listening == old(listening) && idleDetection == old(idleDetection)
    {
      var idle := new ActivityState(Idle, UNASSIGNED_PROJECT, IdleActivityState, now);
      Record(idle, now);
      lastState := currentState;
      currentState := idle;
    }

    /** checkIdleStatus: only a current state of type Idle that is a
        NullActivityState is replaced, by a fresh idle state; a missing current
        state raises and is swallowed by the periodic task. */
    method CheckIdleStatus(now: int)
      requires Valid()
      modifies this, recorder, recorder.filed`duration, recorder.EventFrame()`duration
      ensures Valid()
      ensures if old(currentState) != null && old(currentState).activityType == Idle &&
                 old(currentState).kind == NullActivityState
              then fresh(currentState) && IsNew(currentState, Idle, UNASSIGNED_PROJECT, IdleActivityState, now) &&
                   recorder.log == old(recorder.log) + [StateRecord(currentState)]
              else currentState == old(currentState) && recorder.log == old(recorder.log) &&
                   recorder.states == old(recorder.states) && recorder.events == old(recorder.events)
      ensures lastState == old(lastState) && lastEvent == old(lastEvent)
      ensures currentCompilationUnit == old(currentCompilationUnit) && lastCodeContext == old(lastCodeContext)
      ensures listening == old(listening) && idleDetection == old(idleDetection)
    {
      if currentState == null {
        return;
      }
      if currentState.activityType == Idle && currentState.kind == NullActivityState {
        Open(Idle, UNASSIGNED_PROJECT, IdleActivityState, now);
      }
    }

    /** userActivityListener: input while an idle state is current moves its
        last activity to `now`, and re-opens a fresh idle state when the input
        came sooner than the configured interval, truncated to whole minutes. */
    method UserActivity(now: int, idleMinInterval: int)
      requires Valid()
      modifies this, recorder, recorder.filed`duration, recorder.EventFrame()`duration
      modifies if currentState != null then {currentState} else {}
      ensures Valid()
      ensures old(currentState) != null && old(currentState).kind == IdleActivityState ==>
                old(currentState).lastActivity == now
      ensures if old(currentState) != null && old(currentState).kind == IdleActivityState &&
                 now - old(currentState.lastActivity) < IdleThreshold(idleMinInterval)
              then fresh(currentState) && IsNew(currentState, Idle, UNASSIGNED_PROJECT, IdleActivityState, now) &&
                   recorder.log == old(recorder.log) + [StateRecord(currentState)]
              else currentState == old(currentState) && recorder.log == old(recorder.log) &&
                   recorder.states == old(recorder.states) && recorder.events == old(recorder.events)
      ensures lastState == old(lastState) && lastEvent == old(lastEvent)
      ensures currentCompilationUnit == old(currentCompilationUnit) && lastCodeContext == old(lastCodeContext)
      ensures listening == old(listening) && idleDetection == old(idleDetection)
    {
      if currentState != null && currentState.kind == IdleActivityState {
        var state := currentState;
        var idleFor := now - state.lastActivity;
        state.lastActivity := now;
        if idleFor < IdleThreshold(idleMinInterval) {
          Open(Idle, UNASSIGNED_PROJECT, IdleActivityState, now);
        }
      }
    }

    /** One project of PRE_BUILD: records a Building state and a BuildProject
        event and makes them current. */
    method StartBuild(p: AffectedProject, now: int) returns (ghost b: BuildStart)
      requires Valid() && p.project.Some?
      modifies this`currentState, this`lastEvent, recorder, recorder.filed`duration, recorder.EventFrame()`duration
      ensures Valid() && recorder.filed == old(recorder.filed) + {b.state} && recorder.lastEvent == b.event
      ensures fresh(b.state) && fresh(b.event) && StartsBuild(p, b, now, recorder.canSpan)
      ensures recorder.log == old(recorder.log) + [StateRecord(b.state), EventRecord(b.event)]
      ensures currentState == b.state && lastEvent == b.event
    {
      var projectId := p.project.value;
      var state := new ActivityState(Building, projectId, PlainState, now);
      var event := new ActivityEvent.Build(projectId, BuildProject, p.context, now, recorder.canSpan(BuildProject, true));
      RecordThenEmit(state, event, now);
      currentState := state;
      lastEvent := event;
      b := BuildStart(state, event);
    }

    /** One iteration of PRE_BUILD's loop, stated over the starts so far. */
    method PreBuildProject(projects: seq<AffectedProject>, i: nat, now: int, ghost log0: seq<Record>,
                           ghost starts: seq<BuildStart>) returns (ghost b: BuildStart)
      requires Valid() && i == |starts| < |projects| && projects[i].project.Some?
      requires StartedBuilds(projects, starts, now, recorder.canSpan)
      requires recorder.log == log0 + PreBuildLog(starts)
      modifies this`currentState, this`lastEvent, recorder, recorder.filed`duration, recorder.EventFrame()`duration
      ensures Valid() && RecorderGrew()
      ensures StartedBuilds(projects, starts + [b], now, recorder.canSpan)
      ensures recorder.log == log0 + PreBuildLog(starts + [b])
      ensures currentState == b.state && lastEvent == b.event
    {
      b := StartBuild(projects[i], now);
      PreBuildStep(log0, starts, b);
      StartedBuildsStep(projects, starts, b, now, recorder.canSpan);
    }

    /** The PRE_BUILD case of the build listener: StartBuild for each affected
        project up to the first untracked one. */
    method PreBuild(projects: seq<AffectedProject>, now: int) returns (ghost starts: seq<BuildStart>)
      requires Valid()
      modifies this`currentState, this`lastEvent, recorder, recorder.filed`duration, recorder.EventFrame()`duration
      ensures Valid()
      ensures |starts| == TrackedPrefix(projects)
      ensures forall j :: 0 <= j < |starts| ==> StartsBuild(projects[j], starts[j], now, recorder.canSpan)
      ensures recorder.log == old(recorder.log) + PreBuildLog(starts)
      ensures if |starts| > 0 then currentState == starts[|starts| - 1].state && lastEvent == starts[|starts| - 1].event
              else currentState == old(currentState) && lastEvent == old(lastEvent)
    {
      starts := [];
      var i := 0;
      while i < |projects| && projects[i].project.Some?
        invariant Valid() && 0 <= i <= |projects| && |starts| == i
        invariant StartedBuilds(projects, starts, now, recorder.canSpan)
        invariant recorder.log == old(recorder.log) + PreBuildLog(starts)
        invariant i > 0 ==> currentState == starts[i - 1].state && lastEvent == starts[i - 1].event
        invariant i == 0 ==> currentState == old(currentState) && lastEvent == old(lastEvent)
        invariant RecorderGrew()
      {
        ghost var b := PreBuildProject(projects, i, now, old(recorder.log), starts);
        starts := starts + [b];
        i := i + 1;
      }
      StartedBuildsEach(projects, starts, now, recorder.canSpan);
      TrackedPrefixAt(projects, i);
    }

    /** One project of POST_BUILD: records the project result and the solution
        result, then a Null state, and makes the last two current. */
    method FinishBuild(p: AffectedProject, now: int) returns (ghost b: BuildEnd)
      requires Valid() && p.project.Some?
      modifies this`currentState, this`lastEvent, recorder, recorder.filed`duration, recorder.EventFrame()`duration
      ensures Valid() && recorder.filed == old(recorder.filed) + {b.nullState}
      ensures recorder.lastEvent == old(recorder.lastEvent) || fresh(recorder.lastEvent)
      ensures fresh(b.projectResult) && fresh(b.solutionResult) && fresh(b.nullState)
      ensures FinishesBuild(p, b, now, recorder.canSpan)
      ensures recorder.log == old(recorder.log) + [EventRecord(b.projectResult), EventRecord(b.solutionResult), StateRecord(b.nullState)]
      ensures currentState == b.nullState && lastEvent == b.solutionResult
    {
      var projectId := p.project.value;
      var types := PostBuildResults(p.hasProblems);
      var first := new ActivityEvent.Build(projectId, types.0, p.context, now, recorder.canSpan(types.0, true));
      Emit(first);
      var second := new ActivityEvent.Build(projectId, types.1, p.context, now, recorder.canSpan(types.1, true));
      var state := new ActivityState(Null, projectId, NullActivityState, now);
      EmitThenRecord(second, state, now);
      lastEvent := second;
      currentState := state;
      b := BuildEnd(first, second, state);
    }

    /** One iteration of POST_BUILD's loop, stated over the ends so far. */
    method PostBuildProject(projects: seq<AffectedProject>, i: nat, now: int, ghost log0: seq<Record>,
                            ghost ends: seq<BuildEnd>) returns (ghost b: BuildEnd)
      requires Valid() && i == |ends| < |projects| && projects[i].project.Some?
      requires FinishedBuilds(projects, ends, now, recorder.canSpan)
      requires recorder.log == log0 + PostBuildLog(ends)
      modifies this`currentState, this`lastEvent, recorder, recorder.filed`duration, recorder.EventFrame()`duration
      ensures Valid() && RecorderGrew()
      ensures FinishedBuilds(projects, ends + [b], now, recorder.canSpan)
      ensures recorder.log == log0 + PostBuildLog(ends + [b])
      ensures currentState == b.nullState && lastEvent == b.solutionResult
    {
      b := FinishBuild(projects[i], now);
      PostBuildStep(log0, ends, b);
      FinishedBuildsStep(projects, ends, b, now, recorder.canSpan);
    }

    /** The POST_BUILD case of the build listener: FinishBuild for each affected
        project up to the first untracked one. */
    method PostBuild(projects: seq<AffectedProject>, now: int) returns (ghost ends: seq<BuildEnd>)
      requires Valid()
      modifies this`currentState, this`lastEvent, recorder, recorder.filed`duration, recorder.EventFrame()`duration
      ensures Valid()
      ensures |ends| == TrackedPrefix(projects)
      ensures forall j :: 0 <= j < |ends| ==> FinishesBuild(projects[j], ends[j], now, recorder.canSpan)
      ensures recorder.log == old(recorder.log) + PostBuildLog(ends)
      ensures if |ends| > 0 then currentState == ends[|ends| - 1].nullState && lastEvent == ends[|ends| - 1].solutionResult
              else currentState == old(currentState) && lastEvent == old(lastEvent)
    {
      ends := [];
      var i := 0;
      while i < |projects| && projects[i].project.Some?
        invariant Valid() && 0 <= i <= |projects| && |ends| == i
        invariant FinishedBuilds(projects, ends, now, recorder.canSpan)
        invariant recorder.log == old(recorder.log) + PostBuildLog(ends)
        invariant i > 0 ==> currentState == ends[i - 1].nullState && lastEvent == ends[i - 1].solutionResult
        invariant i == 0 ==> currentState == old(currentState) && lastEvent == old(lastEvent)
        invariant RecorderGrew()
      {
        ghost var b := PostBuildProject(projects, i, now, old(recorder.log), ends);
        ends := ends + [b];
        i := i + 1;
      }
      FinishedBuildsEach(projects, ends, now, recorder.canSpan);
      TrackedPrefixAt(projects, i);
    }

    /** flush: hands the flush to the recorder and returns its result, or Report
        when the recorder throws. `nulls` and `reopened` are the null states the
        recorder records and the state it re-opens. */
    method Flush(inputs: FlushInputs, now: int, store: OfflineCache)
      returns (result: FlushResult, ghost nulls: seq<ActivityState>, ghost reopened: ActivityState?)
      requires Valid()
      modifies recorder, recorder.filed`duration, recorder.EventFrame()`duration, store
      ensures Valid()
      ensures result == inputs.Outcome()
      ensures store.Contents() == inputs.Stored(old(store.Contents()))
      ensures |nulls| == |inputs.nullProjects|
      ensures forall i :: 0 <= i < |nulls| ==>
                fresh(nulls[i]) && nulls[i].activityType == Null && nulls[i].kind == NullActivityState &&
                nulls[i].projectId == inputs.nullProjects[i] && nulls[i].creationTime == now && nulls[i].duration == 0
      ensures forall s :: s in old(recorder.filed) ==>
                s.duration == if |inputs.nullProjects| == 0 then old(s.duration)
                              else StepDuration(old(recorder.states), old(recorder.lastStateDate), now, s, old(s.duration))
      ensures if |inputs.nullProjects| > 0 && !Settled(old(recorder.lastEvent))
              then fresh(recorder.lastEvent) &&
                   IsHousekeeping(recorder.lastEvent, old(recorder.lastEvent).projectId, now, recorder.canSpan) &&
                   recorder.lastEvent.duration == 0
              else recorder.lastEvent == old(recorder.lastEvent)
      ensures old(recorder.lastEvent) != null ==>
                old(recorder.lastEvent).duration ==
                  if |inputs.nullProjects| == 0 || old(recorder.lastEvent).spannable then old(recorder.lastEvent.duration)
                  else now - old(recorder.lastEvent).creationTime
      ensures recorder.events == map[]
      ensures var previous := FoldReturn(old(recorder.states), old(recorder.lastStateDate), nulls);
              if previous != null && previous.kind != NullActivityState
              then reopened != null && fresh(reopened) && reopened.activityType == previous.activityType &&
                   reopened.projectId == previous.projectId && reopened.kind == previous.kind &&
                   reopened.creationTime == now && reopened.duration == 0 && recorder.states == map[now := [reopened]] &&
                   recorder.log == old(recorder.log) + StateRecords(nulls) + [StateRecord(reopened)]
              else reopened == null && recorder.states == map[] && recorder.log == old(recorder.log) + StateRecords(nulls)
    {
      var threw;
      result, threw, nulls, reopened := recorder.Flush(inputs.nullProjects, now, inputs.processorValid, inputs.buildThrows, inputs.listValid,
                                                       inputs.entries, inputs.cacheAvailable, inputs.listingFailsAt, store,
                                                       inputs.fileAttempt);
      if threw {
        result := Report;
      }
    }
  }
}
