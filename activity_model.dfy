/** The values and objects the tracking engine records: activity states and
    activity events. Both are objects whose duration is filled in after they
    have been recorded; everything else about them is fixed at creation. */
module ActivityModel {
  import opened Wrappers

  /** A project UUID. */
  type ProjectId = nat

  /** PluginContext.UNASSIGNED_PROJECT, the UUID 00000000-0000-0000-0000-0000000001. */
  const UNASSIGNED_PROJECT: ProjectId := 1

  /** A workspace resource, identified by its path. */
  type Resource = string

  /** ActivityType: state types first, then event types. */
  datatype ActivityType =
    | System | Coding | Debugging | Building | Idle | Null
    | OpenSolution | DocumentFocus | DocumentEdit | BuildProject
    | BuildProjectFailed | BuildProjectSucceeded | BuildSolutionFailed | BuildSolutionSucceded
    | Event

  /** A structural code context; two contexts are equal when all their parts are. */
  datatype CodeContext =
    | NullContext
    | StructuralContext(project: string, file: string, packageName: string, className: string, memberName: string)

  /** The Java class of a state object: ActivityState, NullActivityState or IdleActivityState. */
  datatype StateClass = PlainState | NullActivityState | IdleActivityState

  class ActivityState {
    const activityType: ActivityType
    const projectId: ProjectId
    const kind: StateClass
    const creationTime: int
    /** Milliseconds; 0 while the state is open. */
    var duration: int
    /** Time of the last user input (used by idle states). */
    var lastActivity: int

    constructor (activityType: ActivityType, projectId: ProjectId, kind: StateClass, creationTime: int)
      ensures this.activityType == activityType && this.projectId == projectId && this.kind == kind
      ensures this.creationTime == creationTime && duration == 0 && lastActivity == creationTime
    {
      this.activityType := activityType;
      this.projectId := projectId;
      this.kind := kind;
      this.creationTime := creationTime;
      duration := 0;
      lastActivity := creationTime;
    }

    /** recreate(): an open copy of this state starting at `now`. */
    method Recreate(now: int) returns (r: ActivityState)
      ensures fresh(r)
      ensures r.activityType == activityType && r.projectId == projectId && r.kind == kind
      ensures r.creationTime == now && r.duration == 0
    {
      r := new ActivityState(activityType, projectId, kind, now);
    }
  }

  class ActivityEvent {
    const projectId: ProjectId
    const activityType: ActivityType
    const context: CodeContext
    const creationTime: int
    /** canSpan(): whether the event may stay open across state changes. */
    const spannable: bool
    /** Whether the object is a BuildActivityEvent. */
    const isBuild: bool
    /** Milliseconds; 0 while the event is open. */
    var duration: int

    constructor (projectId: ProjectId, activityType: ActivityType, context: CodeContext, creationTime: int, spannable: bool)
      ensures this.projectId == projectId && this.activityType == activityType && this.context == context
      ensures this.creationTime == creationTime && this.spannable == spannable
      ensures !isBuild && duration == 0
    {
      this.projectId := projectId;
      this.activityType := activityType;
      this.context := context;
      this.creationTime := creationTime;
      this.spannable := spannable;
      isBuild := false;
      duration := 0;
    }

    /** The BuildActivityEvent constructor: hands project id, type and context on unchanged. */
    constructor Build(projectId: ProjectId, activityType: ActivityType, context: CodeContext, creationTime: int, spannable: bool)
      ensures this.projectId == projectId && this.activityType == activityType && this.context == context
      ensures this.creationTime == creationTime && this.spannable == spannable
      ensures isBuild && duration == 0
    {
      this.projectId := projectId;
      this.activityType := activityType;
      this.context := context;
      this.creationTime := creationTime;
      this.spannable := spannable;
      isBuild := true;
      duration := 0;
    }
  }
}
