/** TrackingService: the plug-in's tracking lifecycle. It starts and stops the
    state tracker, keeps the map of tracked workspace projects, owns the
    periodic flush executor and reports flush outcomes on the status bar. */
module Service {
  import opened Wrappers
  import opened ActivityModel
  import opened RecordingModel
  import opened FlushOutcomes
  import opened OfflineStore
  import opened Tracking

  // ----- Status-bar messages -----

  const SendingMessage: string := "Codealike is sending activities..."
  const SentMessage: string := "Codealike sent activities"
  const NoDataMessage: string := "No data to be sent"
  const OfflineMessage: string := "Codealike is working in offline mode"
  const CorruptedMessage: string := "Codealike is storing corrupted entries for further inspection"
  const TrackingMessage: string := "Codealike is tracking your projects"
  const NotTrackingMessage: string := "Codealike is not tracking your projects"

  /** The messages flushTrackingInformation shows for a flush result. The Offline
      case has no break and falls through into the Report case. */
  function StatusMessages(r: FlushResult): (m: seq<string>)
    ensures |m| == 1 || |m| == 2
    ensures |m| == 2 <==> r == Offline
    ensures m[|m| - 1] == CorruptedMessage <==> r == Offline || r == Report
    ensures m[0] == OfflineMessage <==> r == Offline
  {
    match r
    case Succeded => [SentMessage]
    case Skip => [NoDataMessage]
    case Offline => [OfflineMessage, CorruptedMessage]
    case Report => [CorruptedMessage]
  }

  /** Different results show different messages, so the status bar tells every
      outcome apart. */
  lemma StatusMessagesDistinct(r1: FlushResult, r2: FlushResult)
    requires r1 != r2
    ensures StatusMessages(r1) != StatusMessages(r2)
  {
  }

  // ----- Tracked projects -----

  /** A workspace project: its name (the key of the tracked-projects map), whether
      it is open, the UUID PluginContext.getOrCreateUUID answers for it (None for
      null) and the code context ContextCreator builds for it. */
  datatype Project = Project(name: string, isOpen: bool, uuid: Option<ProjectId>, context: CodeContext)

  /** The tracked-projects map is a bidirectional map: no two projects share an id. */
  predicate Injective(tracked: map<string, ProjectId>) {
    forall a, b :: a in tracked && b in tracked && a != b ==> tracked[a] != tracked[b]
  }

  /** Whether startTracking(project) starts tracking the project: it is open, not
      tracked yet, has an id, and trackProject accepts the id, that is, no other
      tracked project has it. */
  predicate Admits(tracked: map<string, ProjectId>, p: Project) {
    p.isOpen && p.name !in tracked && p.uuid.Some? && p.uuid.value !in tracked.Values
  }

  /** The tracked-projects map after startTracking(project). */
  function TrackOne(tracked: map<string, ProjectId>, p: Project): map<string, ProjectId> {
    if Admits(tracked, p) then tracked[p.name := p.uuid.value] else tracked
  }

  /** The tracked-projects map after startTracking(project) for each project in turn. */
  function TrackAll(tracked: map<string, ProjectId>, ps: seq<Project>): map<string, ProjectId>
    decreases |ps|
  {
    if |ps| == 0 then tracked else TrackOne(TrackAll(tracked, ps[..|ps| - 1]), ps[|ps| - 1])
  }

  /** The projects, in order, that startTracking(project) for each in turn starts tracking. */
  function Started(tracked: map<string, ProjectId>, ps: seq<Project>): (r: seq<Project>)
    ensures |r| <= |ps|
    decreases |ps|
  {
    if |ps| == 0 then []
    else
      var front := ps[..|ps| - 1];
      Started(tracked, front) + (if Admits(TrackAll(tracked, front), ps[|ps| - 1]) then [ps[|ps| - 1]] else [])
  }

  /** Tracking one more project of the list, in terms of the prefixes. */
  lemma TrackPrefixStep(tracked: map<string, ProjectId>, ps: seq<Project>, i: nat)
    requires i < |ps|
    ensures TrackAll(tracked, ps[..i + 1]) == TrackOne(TrackAll(tracked, ps[..i]), ps[i])
    ensures Started(tracked, ps[..i + 1]) ==
            Started(tracked, ps[..i]) + (if Admits(TrackAll(tracked, ps[..i]), ps[i]) then [ps[i]] else [])
  {
    assert ps[..i + 1][..i] == ps[..i];
  }

  /** One map is contained in another: same ids for the names it has. */
  predicate Extends(big: map<string, ProjectId>, small: map<string, ProjectId>) {
    forall n :: n in small ==> n in big && big[n] == small[n]
  }

  lemma TrackOneKeeps(tracked: map<string, ProjectId>, p: Project)
    requires Injective(tracked)
    ensures Injective(TrackOne(tracked, p)) && Extends(TrackOne(tracked, p), tracked)
    ensures !Admits(TrackOne(tracked, p), p)
  {
    if Admits(tracked, p) {
      var t := tracked[p.name := p.uuid.value];
      forall a, b | a in t && b in t && a != b
        ensures t[a] != t[b]
      {
        if a == p.name {
          assert tracked[b] in tracked.Values;
        } else if b == p.name {
          assert tracked[a] in tracked.Values;
        }
      }
    }
  }

  /** Tracking a list of projects never untracks or re-maps a project, and keeps
      ids unique. */
  lemma {:induction false} TrackAllKeeps(tracked: map<string, ProjectId>, ps: seq<Project>)
    requires Injective(tracked)
    ensures Injective(TrackAll(tracked, ps)) && Extends(TrackAll(tracked, ps), tracked)
    decreases |ps|
  {
    if |ps| > 0 {
      var front := ps[..|ps| - 1];
      TrackAllKeeps(tracked, front);
      TrackOneKeeps(TrackAll(tracked, front), ps[|ps| - 1]);
    }
  }

  /** A project that a map does not admit is not admitted by any extension of it. */
  lemma NotAdmittedLater(small: map<string, ProjectId>, big: map<string, ProjectId>, p: Project)
    requires Extends(big, small) && !Admits(small, p)
    ensures !Admits(big, p)
  {
    if p.isOpen && p.uuid.Some? && p.name !in small {
      var n :| n in small && small[n] == p.uuid.value;
      assert big[n] == p.uuid.value;
    }
  }

  /** After startTracking(project) for each project, none of them is admitted any more. */
  lemma {:induction false} TrackAllSaturates(tracked: map<string, ProjectId>, ps: seq<Project>, j: nat)
    requires Injective(tracked) && j < |ps|
    ensures !Admits(TrackAll(tracked, ps), ps[j])
    decreases |ps|
  {
    var front := ps[..|ps| - 1];
    TrackAllKeeps(tracked, front);
    TrackOneKeeps(TrackAll(tracked, front), ps[|ps| - 1]);
    if j < |ps| - 1 {
      TrackAllSaturates(tracked, front, j);
      assert front[j] == ps[j];
      NotAdmittedLater(TrackAll(tracked, front), TrackAll(tracked, ps), ps[j]);
    }
  }

  lemma {:induction false} StartedNone(tracked: map<string, ProjectId>, ps: seq<Project>, qs: seq<Project>)
    requires forall j :: 0 <= j < |qs| ==> !Admits(tracked, qs[j])
    ensures TrackAll(tracked, qs) == tracked && Started(tracked, qs) == []
    decreases |qs|
  {
    if |qs| > 0 {
      StartedNone(tracked, ps, qs[..|qs| - 1]);
    }
  }

  /** Starting to track the same projects a second time starts nothing and
      changes no entry: startTracking() is idempotent on the tracked projects. */
  lemma TrackAllIdempotent(tracked: map<string, ProjectId>, ps: seq<Project>)
    requires Injective(tracked)
    ensures TrackAll(TrackAll(tracked, ps), ps) == TrackAll(tracked, ps)
    ensures Started(TrackAll(tracked, ps), ps) == []
  {
    forall j | 0 <= j < |ps|
      ensures !Admits(TrackAll(tracked, ps), ps[j])
    {
      TrackAllSaturates(tracked, ps, j);
    }
    StartedNone(TrackAll(tracked, ps), ps, ps);
  }

  /** Every project that is started gets tracked under its own id. */
  lemma {:induction false} StartedTracked(tracked: map<string, ProjectId>, ps: seq<Project>, k: nat)
    requires Injective(tracked) && k < |Started(tracked, ps)|
    ensures var p := Started(tracked, ps)[k];
            p.isOpen && p.uuid.Some? && p.name in TrackAll(tracked, ps) && TrackAll(tracked, ps)[p.name] == p.uuid.value
    decreases |ps|
  {
    var front := ps[..|ps| - 1];
    var last := ps[|ps| - 1];
    TrackAllKeeps(tracked, front);
    TrackOneKeeps(TrackAll(tracked, front), last);
    if k < |Started(tracked, front)| {
      StartedTracked(tracked, front, k);
      assert Started(tracked, ps)[k] == Started(tracked, front)[k];
    }
  }

  // ----- The records startTrackingProject leaves -----

  /** What a record tells about the activity it records: the fields fixed when
      the state or event was created. */
  datatype RecordView =
    | StateView(stateType: ActivityType, stateProject: ProjectId, kind: StateClass, stateTime: int)
    | EventView(eventType: ActivityType, eventProject: ProjectId, context: CodeContext, eventTime: int, isBuild: bool)

  function View(r: Record): RecordView {
    match r
    case StateRecord(s) => StateView(s.activityType, s.projectId, s.kind, s.creationTime)
    case EventRecord(e) => EventView(e.activityType, e.projectId, e.context, e.creationTime, e.isBuild)
  }

  function Views(r: seq<Record>): (v: seq<RecordView>)
    ensures |v| == |r|
  {
    if |r| == 0 then [] else Views(r[..|r| - 1]) + [View(r[|r| - 1])]
  }

  lemma {:induction false} ViewsAppend(a: seq<Record>, b: seq<Record>)
    ensures Views(a + b) == Views(a) + Views(b)
    decreases |b|
  {
    if |b| == 0 {
      assert a + b == a;
    } else {
      var init := b[..|b| - 1];
      assert (a + b)[..|a + b| - 1] == a + init;
      ViewsAppend(a, init);
      calc {
        Views(a + b);
        Views(a + init) + [View(b[|b| - 1])];
        Views(a) + Views(init) + [View(b[|b| - 1])];
        Views(a) + (Views(init) + [View(b[|b| - 1])]);
      }
    }
  }

  lemma ViewsOfThree(a: Record, b: Record, c: Record)
    ensures Views([a, b, c]) == [View(a), View(b), View(c)]
  {
    assert [a][..0] == [];
    assert Views([a]) == [View(a)];
    assert [a, b][..1] == [a];
    assert Views([a, b]) == [View(a), View(b)];
    assert [a, b, c][..2] == [a, b];
  }

  /** What startTrackingProject records for a project: its System state and
      OpenSolution event at the workspace start date, then its Null state. */
  function Opening(id: ProjectId, context: CodeContext, date: int, now: int): seq<RecordView> {
    [StateView(System, id, PlainState, date), EventView(OpenSolution, id, context, date, false),
     StateView(Null, id, NullActivityState, now)]
  }

  /** The records of startTrackingProject for each of the projects in turn, as
      views; a project without an id records nothing. */
  function StartViews(ps: seq<Project>, date: int, now: int): seq<RecordView>
    decreases |ps|
  {
    if |ps| == 0 then []
    else
      var p := ps[|ps| - 1];
      StartViews(ps[..|ps| - 1], date, now) + (if p.uuid.Some? then Opening(p.uuid.value, p.context, date, now) else [])
  }

  predicate StartLogs(r: seq<Record>, ps: seq<Project>, date: int, now: int) {
    Views(r) == StartViews(ps, date, now)
  }

  lemma StartLogsStep(r: seq<Record>, ps: seq<Project>, chunk: seq<Record>, p: Project, date: int, now: int)
    requires StartLogs(r, ps, date, now) && p.uuid.Some? && Views(chunk) == Opening(p.uuid.value, p.context, date, now)
    ensures StartLogs(r + chunk, ps + [p], date, now)
  {
    ViewsAppend(r, chunk);
    assert (ps + [p])[..|ps|] == ps;
  }

  /** Projects that all have an id leave three records each. */
  lemma {:induction false} StartViewsLength(ps: seq<Project>, date: int, now: int)
    requires forall k :: 0 <= k < |ps| ==> ps[k].uuid.Some?
    ensures |StartViews(ps, date, now)| == 3 * |ps|
    decreases |ps|
  {
    if |ps| > 0 {
      StartViewsLength(ps[..|ps| - 1], date, now);
    }
  }

  lemma StartLogsLength(r: seq<Record>, ps: seq<Project>, date: int, now: int)
    requires StartLogs(r, ps, date, now) && forall k :: 0 <= k < |ps| ==> ps[k].uuid.Some?
    ensures |r| == 3 * |ps|
  {
    StartViewsLength(ps, date, now);
  }

  class TrackingService {
    const tracker: StateTracker
    var isTracking: bool
    /** The flush executor: None when there is none, else its period in ms. */
    var flushExecutor: Option<int>
    /** Whether the workspace changes listener is registered. */
    var listening: bool
    /** Whether the unassigned project's context has been registered. */
    var unassignedRegistered: bool
    /** The tracked-projects manager's map from project names to ids. */
    var tracked: map<string, ProjectId>
    var startWorkspaceDate: int
    /** How many times the observers have been notified. */
    var notifications: nat
    /** The messages shown on the status bar, oldest first. */
    var statusBar: seq<string>

    /** Tracking needs a flush executor, and ids are unique. */
    ghost predicate Valid()
      reads this, tracker, tracker.recorder
    {
      tracker.Valid() && Injective(tracked) && (isTracking ==> flushExecutor.Some?)
    }

    constructor (canSpan: (ActivityType, bool) -> bool, startWorkspaceDate: int)
      ensures Valid() && fresh(tracker) && fresh(tracker.recorder) && tracker.recorder.log == []
      ensures !isTracking && flushExecutor == None && !listening && !unassignedRegistered
      ensures tracked == map[] && this.startWorkspaceDate == startWorkspaceDate
      ensures notifications == 0 && statusBar == []
    {
      tracker := new StateTracker(canSpan);
      isTracking := false;
      flushExecutor := None;
      listening := false;
      unassignedRegistered := false;
      tracked := map[];
      this.startWorkspaceDate := startWorkspaceDate;
      notifications := 0;
      statusBar := [];
    }

    /** isTracked(project). */
    function IsTracked(name: string): bool
      reads this
    {
      name in tracked
    }

    /** setBeforeOpenProjectDate: the clock reading becomes the workspace start date. */
    method SetBeforeOpenProjectDate(now: int)
      modifies this`startWorkspaceDate
      ensures startWorkspaceDate == now
    {
      startWorkspaceDate := now;
    }

    /** startFlushExecutor: schedules the periodic flush unless an executor exists. */
    method StartFlushExecutor(flushInterval: int)
      modifies this`flushExecutor
      ensures flushExecutor == if old(flushExecutor).Some? then old(flushExecutor) else Some(flushInterval)
    {
      if flushExecutor.Some? {
        return;
      }
      flushExecutor := Some(flushInterval);
    }

    /** startTracking(project): an open, untracked project with an id that
        trackProject accepts is tracked and handed to the tracker; any other
        project changes nothing. */
    method StartTrackingProject(p: Project, now: int) returns (ghost added: seq<Record>)
      requires Valid()
      modifies this`tracked, tracker`currentState, tracker.recorder, tracker.recorder.filed`duration, tracker.recorder.EventFrame()`duration
      ensures Valid() && tracker.RecorderGrew()
      ensures tracked == TrackOne(old(tracked), p)
      ensures tracker.recorder.log == old(tracker.recorder.log) + added
      ensures if Admits(old(tracked), p)
              then Views(added) == Opening(p.uuid.value, p.context, startWorkspaceDate, now)
              else added == [] && unchanged(tracker`currentState, tracker.recorder)
    {
      added := [];
      if !p.isOpen {
        return;
      }
      if IsTracked(p.name) {
        return;
      }
      if p.uuid.Some? && p.uuid.value !in tracked.Values {
        TrackOneKeeps(tracked, p);
        tracked := tracked[p.name := p.uuid.value];
        var system, openSolution := tracker.StartTrackingProject(p.uuid.value, startWorkspaceDate, p.context, now);
        added := [StateRecord(system), EventRecord(openSolution), StateRecord(tracker.currentState)];
        ViewsOfThree(added[0], added[1], added[2]);
      }
    }

    /** One iteration of startTracking()'s loop, stated over the projects so far. */
    method StartTrackingStep(projects: seq<Project>, i: nat, now: int, ghost tracked0: map<string, ProjectId>,
                             ghost log0: seq<Record>, ghost added: seq<Record>, ghost started: seq<Project>)
      returns (ghost added': seq<Record>, ghost started': seq<Project>)
      requires Valid() && i < |projects| && Injective(tracked0)
      requires tracked == TrackAll(tracked0, projects[..i]) && started == Started(tracked0, projects[..i])
      requires tracker.recorder.log == log0 + added && StartLogs(added, started, startWorkspaceDate, now)
      modifies this`tracked, tracker`currentState, tracker.recorder, tracker.recorder.filed`duration, tracker.recorder.EventFrame()`duration
      ensures Valid() && tracker.RecorderGrew()
      ensures tracked == TrackAll(tracked0, projects[..i + 1]) && started' == Started(tracked0, projects[..i + 1])
      ensures tracker.recorder.log == log0 + added' && StartLogs(added', started', startWorkspaceDate, now)
    {
      var p := projects[i];
      TrackPrefixStep(tracked0, projects, i);
      var admitted := Admits(tracked, p);
      var chunk := StartTrackingProject(p, now);
      AppendTwice(log0, added, chunk);
      if admitted {
        StartLogsStep(added, started, chunk, p, startWorkspaceDate, now);
        started' := started + [p];
      } else {
        assert added + chunk == added;
        started' := started;
      }
      added' := added + chunk;
    }

    /** startTracking()'s loop: startTracking(project) for each workspace project in turn. */
    method StartTrackingProjects(projects: seq<Project>, now: int) returns (ghost added: seq<Record>)
      requires Valid()
      modifies this`tracked, tracker`currentState, tracker.recorder, tracker.recorder.filed`duration, tracker.recorder.EventFrame()`duration
      ensures Valid()
      ensures tracked == TrackAll(old(tracked), projects)
      ensures tracker.recorder.log == old(tracker.recorder.log) + added
      ensures StartLogs(added, Started(old(tracked), projects), startWorkspaceDate, now)
    {
      added := [];
      ghost var started: seq<Project> := [];
      var i := 0;
      while i < |projects|
        invariant Valid() && 0 <= i <= |projects|
        invariant tracked == TrackAll(old(tracked), projects[..i]) && started == Started(old(tracked), projects[..i])
        invariant tracker.recorder.log == old(tracker.recorder.log) + added
        invariant StartLogs(added, started, startWorkspaceDate, now)
        invariant tracker.RecorderGrew()
      {
        added, started := StartTrackingStep(projects, i, now, old(tracked), old(tracker.recorder.log), added, started);
        i := i + 1;
      }
      assert projects[..i] == projects;
    }

    /** startTracking(): registers the tracker's listeners, starts the flush
        executor, starts tracking every workspace project in turn, registers the
        unassigned project and the changes listener, and notifies the observers. */
    method StartTracking(projects: seq<Project>, flushInterval: int, now: int) returns (ghost added: seq<Record>)
      requires Valid()
      modifies this`isTracking, this`flushExecutor, this`listening, this`unassignedRegistered, this`tracked, this`notifications
      modifies tracker, tracker.recorder, tracker.recorder.filed`duration, tracker.recorder.EventFrame()`duration
      ensures Valid() && isTracking && listening && unassignedRegistered
      ensures tracker.listening && tracker.idleDetection
      ensures flushExecutor == if old(flushExecutor).Some? then old(flushExecutor) else Some(flushInterval)
      ensures tracked == TrackAll(old(tracked), projects)
      ensures tracker.recorder.log == old(tracker.recorder.log) + added
      ensures StartLogs(added, Started(old(tracked), projects), startWorkspaceDate, now)
      ensures notifications == old(notifications) + 1
    {
      tracker.StartTracking();
      StartFlushExecutor(flushInterval);
      added := StartTrackingProjects(projects, now);
      FinishStartTracking();
    }

    /** The end of startTracking(): the unassigned project and the changes listener
        are registered, tracking is on and the observers are notified. */
    method FinishStartTracking()
      modifies this`unassignedRegistered, this`listening, this`isTracking, this`notifications
      ensures unassignedRegistered && listening && isTracking && notifications == old(notifications) + 1
    {
      unassignedRegistered := true;
      listening := true;
      isTracking := true;
      notifications := notifications + 1;
    }

    /** stopTracking(propagate): removes the tracker's listeners, shuts the flush
        executor down, stops tracking every project and removes the changes
        listener; the observers are notified only when `propagate` holds. */
    method StopTracking(propagate: bool)
      requires Valid()
      modifies this, tracker
      ensures Valid() && !isTracking && flushExecutor == None && !listening && tracked == map[]
      ensures !tracker.listening && !tracker.idleDetection
      ensures notifications == old(notifications) + (if propagate then 1 else 0)
      ensures statusBar == old(statusBar) && startWorkspaceDate == old(startWorkspaceDate)
      ensures unassignedRegistered == old(unassignedRegistered)
      ensures tracker.recorder.log == old(tracker.recorder.log)
    {
      tracker.StopTracking();
      if flushExecutor.Some? {
        flushExecutor := None;
      }
      tracked := map[];
      listening := false;
      isTracking := false;
      if propagate {
        notifications := notifications + 1;
      }
    }

    /** enableTracking: only an authenticated user starts tracking, and is then
        told so on the status bar. */
    method EnableTracking(authenticated: bool, projects: seq<Project>, flushInterval: int, now: int)
      returns (ghost added: seq<Record>)
      requires Valid()
      modifies this`isTracking, this`flushExecutor, this`listening, this`unassignedRegistered, this`tracked, this`notifications
      modifies this`statusBar, tracker, tracker.recorder, tracker.recorder.filed`duration, tracker.recorder.EventFrame()`duration
      ensures Valid()
      ensures tracker.recorder.log == old(tracker.recorder.log) + added
      ensures if authenticated
              then isTracking && tracked == TrackAll(old(tracked), projects) &&
                   StartLogs(added, Started(old(tracked), projects), startWorkspaceDate, now) &&
                   statusBar == old(statusBar) + [TrackingMessage] && notifications == old(notifications) + 1
              else added == [] && unchanged(this, tracker, tracker.recorder)
    {
      added := [];
      if authenticated {
        added := StartTracking(projects, flushInterval, now);
        statusBar := statusBar + [TrackingMessage];
      }
    }

    /** disableTracking: stops tracking, notifying the observers, and says so. */
    method DisableTracking()
      requires Valid()
      modifies this, tracker
      ensures Valid() && !isTracking && flushExecutor == None && tracked == map[]
      ensures statusBar == old(statusBar) + [NotTrackingMessage]
      ensures notifications == old(notifications) + 1
      ensures tracker.recorder.log == old(tracker.recorder.log)
    {
      StopTracking(true);
      statusBar := statusBar + [NotTrackingMessage];
    }

    /** flushTrackingInformation, the flush executor's periodic task: announces the
        flush, flushes the tracker and shows the messages of its result. The flush
        does not read the status bar, so the announcement is appended together with
        the result's messages. */
    method FlushTrackingInformation(inputs: FlushInputs, now: int, store: OfflineCache)
      returns (result: FlushResult, ghost nulls: seq<ActivityState>, ghost reopened: ActivityState?)
      requires Valid()
      modifies this`statusBar, tracker.recorder, tracker.recorder.filed`duration, tracker.recorder.EventFrame()`duration, store
      ensures Valid()
      ensures result == inputs.Outcome()
      ensures statusBar == old(statusBar) + [SendingMessage] + StatusMessages(result)
      ensures store.Contents() == inputs.Stored(old(store.Contents()))
      ensures forall s :: s in old(tracker.recorder.filed) ==>
                s.duration == if |inputs.nullProjects| == 0 then old(s.duration)
                              else StepDuration(old(tracker.recorder.states), old(tracker.recorder.lastStateDate), now, s,
                                                old(s.duration))
      ensures |nulls| == |inputs.nullProjects|
      ensures forall i :: 0 <= i < |nulls| ==>
                fresh(nulls[i]) && nulls[i].activityType == Null && nulls[i].kind == NullActivityState &&
                nulls[i].projectId == inputs.nullProjects[i] && nulls[i].creationTime == now && nulls[i].duration == 0
      ensures if |inputs.nullProjects| > 0 && !Settled(old(tracker.recorder.lastEvent))
              then fresh(tracker.recorder.lastEvent) &&
                   IsHousekeeping(tracker.recorder.lastEvent, old(tracker.recorder.lastEvent).projectId, now, tracker.recorder.canSpan) &&
                   tracker.recorder.lastEvent.duration == 0
              else tracker.recorder.lastEvent == old(tracker.recorder.lastEvent)
      ensures old(tracker.recorder.lastEvent) != null ==>
                old(tracker.recorder.lastEvent).duration ==
                  if |inputs.nullProjects| == 0 || old(tracker.recorder.lastEvent).spannable then old(tracker.recorder.lastEvent.duration)
                  else now - old(tracker.recorder.lastEvent).creationTime
      ensures tracker.recorder.events == map[]
      ensures var previous := FoldReturn(old(tracker.recorder.states), old(tracker.recorder.lastStateDate), nulls);
              if previous != null && previous.kind != NullActivityState
              then reopened != null && fresh(reopened) && reopened.activityType == previous.activityType &&
                   reopened.projectId == previous.projectId && reopened.kind == previous.kind &&
                   reopened.creationTime == now && reopened.duration == 0 && tracker.recorder.states == map[now := [reopened]] &&
                   tracker.recorder.log == old(tracker.recorder.log) + StateRecords(nulls) + [StateRecord(reopened)]
              else reopened == null && tracker.recorder.states == map[] && tracker.recorder.log == old(tracker.recorder.log) + StateRecords(nulls)
    {
      result, nulls, reopened := tracker.Flush(inputs, now, store);
      statusBar := statusBar + [SendingMessage] + StatusMessages(result);
    }

    /** flushRecorder: while tracking, hands a flush of the tracker to the flush
        executor, which exists whenever tracking is on; otherwise does nothing. */
    method FlushRecorder(inputs: FlushInputs, now: int, store: OfflineCache)
      returns (flushed: bool, ghost nulls: seq<ActivityState>, ghost reopened: ActivityState?)
      requires Valid()
      modifies tracker.recorder, tracker.recorder.filed`duration, tracker.recorder.EventFrame()`duration, store
      ensures Valid()
      ensures flushed <==> isTracking
      ensures flushed ==> flushExecutor.Some?
      ensures flushed ==> store.Contents() == inputs.Stored(old(store.Contents()))
      ensures flushed ==>
                forall s :: s in old(tracker.recorder.filed) ==>
                  s.duration == if |inputs.nullProjects| == 0 then old(s.duration)
                                else StepDuration(old(tracker.recorder.states), old(tracker.recorder.lastStateDate), now, s,
                                                  old(s.duration))
      ensures flushed ==> |nulls| == |inputs.nullProjects|
      ensures flushed ==> forall i :: 0 <= i < |nulls| ==>
                            fresh(nulls[i]) && nulls[i].activityType == Null && nulls[i].kind == NullActivityState &&
                            nulls[i].projectId == inputs.nullProjects[i] && nulls[i].creationTime == now && nulls[i].duration == 0
      ensures flushed ==> if |inputs.nullProjects| > 0 && !Settled(old(tracker.recorder.lastEvent))
                          then fresh(tracker.recorder.lastEvent) &&
                               IsHousekeeping(tracker.recorder.lastEvent, old(tracker.recorder.lastEvent).projectId, now, tracker.recorder.canSpan) &&
                               tracker.recorder.lastEvent.duration == 0
                          else tracker.recorder.lastEvent == old(tracker.recorder.lastEvent)
      ensures flushed ==> old(tracker.recorder.lastEvent) != null ==>
                            old(tracker.recorder.lastEvent).duration ==
                              if |inputs.nullProjects| == 0 || old(tracker.recorder.lastEvent).spannable then old(tracker.recorder.lastEvent.duration)
                              else now - old(tracker.recorder.lastEvent).creationTime
      ensures flushed ==> tracker.recorder.events == map[]
      ensures flushed ==> var previous := FoldReturn(old(tracker.recorder.states), old(tracker.recorder.lastStateDate), nulls);
                          if previous != null && previous.kind != NullActivityState
                          then reopened != null && fresh(reopened) && reopened.activityType == previous.activityType &&
                               reopened.projectId == previous.projectId && reopened.kind == previous.kind &&
                               reopened.creationTime == now && reopened.duration == 0 && tracker.recorder.states == map[now := [reopened]] &&
                               tracker.recorder.log == old(tracker.recorder.log) + StateRecords(nulls) + [StateRecord(reopened)]
                          else reopened == null && tracker.recorder.states == map[] && tracker.recorder.log == old(tracker.recorder.log) + StateRecords(nulls)
      ensures !flushed ==> unchanged(tracker.recorder, store)
    {
      flushed, nulls, reopened := false, [], null;
      if isTracking {
        var result;
        result, nulls, reopened := tracker.Flush(inputs, now, store);
        flushed := true;
      }
    }
  }
}
