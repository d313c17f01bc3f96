# Codealike for Eclipse: the activity-tracking engine in Dafny

This project models the core of the Codealike Eclipse plug-in. The plug-in
watches what a developer does in the IDE (editing, designing, debugging,
building, being idle) and sends it to the Codealike server.

The model follows the Java classes:

- **ActivitiesRecorder** (module `Recording`, with `RecordingModel`,
  `FlushOutcomes` and `OfflineStore`). It keeps states in a map from creation
  time to the states created then, and events in a map from project to that
  project's events.
  - `recordState` files a state, closes the open states of the bucket at the
    previous timestamp and returns the last of them. It also closes a last
    event that cannot span states and records a housekeeping `Event` for it.
  - `recordEvent` appends an event to its project's list.
  - `flush` records the null states of `createNullState()` (one per project id
    the flush is given) and hands over a snapshot of the maps, with the events regrouped by time (`flattenEvents`). It then sends the
    batch or writes it to the offline cache folder. After a successful send it
    retries every cached file, moving each one to the history folder by its
    outcome.
- **StateTracker** (module `Tracking`). These are the listener bodies that turn
  IDE signals into recorder calls and keep the tracker's current state, last
  state, focused compilation unit, code context and last event:
  - the debug events;
  - editor focus, selection and edits;
  - project start;
  - window activation and deactivation;
  - pre-build and post-build;
  - idle detection and user input.
- **BuildActivityEvent** (module `BuildActivityEvent`, with the constructor
  `ActivityModel.ActivityEvent.Build`).
- **TrackingService** (module `Service`). It covers:
  - starting and stopping tracking;
  - the tracked-projects map (a bidirectional map from projects to UUIDs);
  - the flush executor;
  - enabling and disabling tracking;
  - the status-bar messages of a periodic flush.
- **PeriodSerializer** and **DateTimeSerializer** (with the shared date-time
  formatter of PluginContext). These print a Joda Period as
  `hours:minutes:seconds.millis` and a timestamp as `yyyy-MM-ddTHH:mm:ss.SSSZ`.
  The date-time layout is RFC 3339, section 5.6, with milliseconds and a
  literal `Z`. Each is proved to read back unambiguously on a stated domain:
  a period whose four clock fields are non-negative (a negative field prints
  with a sign, such as `-05`, which the reader rejects), and a timestamp whose
  fields are in the ISO ranges and whose year is in 0..9999.
- **GenericExtensionFilter**, the file-name filter by extension.

Modelling conventions:

- The clock is a parameter (`now`), read once per handler call: every state and
  event one call creates carries that one instant, so the states of one call
  all land in one bucket. Times and durations are milliseconds, and the
  duration 0 means "open" (Period.ZERO).
- The recorder carries a ghost `log` of what callers asked it to record. The
  tracker contracts state exactly which states and events each handler records,
  in order.
- `canSpan()` of an event is a policy function of its type and of whether it is
  a build event. It is given to the recorder and fixed for each event when the
  event is created.
- Server answers, the ActivityInfo entries and the answer to each cached file
  are inputs (`FlushInputs`, `FileAttempt`).
- The two exceptions the recorder's flush can end in are inputs of the flush:
  building the ActivityInfo list (ActivityInfoProcessor.getSerializableEntities,
  which is not part of this model) throws, or the cache-folder
  listing after a sent entry is null. StateTracker.flush answers `Report` for
  both (`FlushOutcomes.GuardedOutcome`).
- A NullPointerException raised by a guard on a missing current state is
  modelled explicitly.
  - In the debug listener it ends the batch (`failed`).
  - In the focus handler and the idle check it is swallowed, and nothing
    changes.

Where the code and its documentation disagree, the model follows the code.
The idle threshold in the user-input listener divides the configured interval
by 1000 and then by 60, and builds whole minutes from the result. So the
threshold is the interval truncated toward zero to whole minutes, not a second
division of the same unit (`Tracking.IdleThresholdIsWholeMinutes`).

flushTrackingInformation's `Offline` case has no `break`, so an offline flush
shows the offline message and then the corrupted-entries message
(`Service.StatusMessages`). In trySendEntriesOnFile the `Succeded` case falls
through into the `.error` rename. That second rename finds no source file
because the first rename has moved it, so a sent file lands in history under
its own name only (`Recording.ActivitiesRecorder.TrySendEntriesOnFile`).

## Model

| member | source | states |
|---|---|---|
| Recording.ActivitiesRecorder.constructor | com.codealike.client.eclipse/src/main/java/com/codealike/client/eclipse/internal/tracking/ActivitiesRecorder.java:53-57 | a new recorder has no states, no events, no last event and no last state date |
| Recording.ActivitiesRecorder.LastBucket | com.codealike.client.eclipse/src/main/java/com/codealike/client/eclipse/internal/tracking/ActivitiesRecorder.java:64-66 | the bucket recordState may close holds only states the recorder filed itself |
| Recording.ActivitiesRecorder.GetProjectEvents | com.codealike.client.eclipse/src/main/java/com/codealike/client/eclipse/internal/tracking/ActivitiesRecorder.java:122-127 | gives the project's list (empty when the project had none); the only change is an empty list for a missing project |
| Recording.ActivitiesRecorder.GetLastEvent | com.codealike.client.eclipse/src/main/java/com/codealike/client/eclipse/internal/tracking/ActivitiesRecorder.java:103-112 | gives the tail of the project's list, or null for a missing or empty list; states and the log are untouched |
| Recording.ActivitiesRecorder.RecordEvent | com.codealike.client.eclipse/src/main/java/com/codealike/client/eclipse/internal/tracking/ActivitiesRecorder.java:129-142 | the event is appended to its own project's list only, becomes the last event, and the previous tail of that list is returned; the state map is untouched |
| Recording.ActivitiesRecorder.RecordState | com.codealike.client.eclipse/src/main/java/com/codealike/client/eclipse/internal/tracking/ActivitiesRecorder.java:59-101 | the state is filed under its creation time; lastStateDate moves only when a new bucket is made; exactly the open states of the previous-timestamp bucket are closed at the new time; the result is that bucket's last state; a last event that cannot span is closed and, unless it is an Event, one housekeeping Event is recorded, after which the last event is settled |
| Recording.ActivitiesRecorder.FileState | com.codealike.client.eclipse/src/main/java/com/codealike/client/eclipse/internal/tracking/ActivitiesRecorder.java:68-72 | the state goes at the end of its time's bucket, and lastStateDate moves to that time exactly when the bucket is new |
| Recording.ActivitiesRecorder.CloseBucket | com.codealike.client.eclipse/src/main/java/com/codealike/client/eclipse/internal/tracking/ActivitiesRecorder.java:74-86 | every state of the bucket that was open gets the duration up to the new time; every closed one keeps its duration |
| Recording.ActivitiesRecorder.CloseLastEvent | com.codealike.client.eclipse/src/main/java/com/codealike/client/eclipse/internal/tracking/ActivitiesRecorder.java:88-98 | a non-spanning last event is closed at the new time and, unless of type Event, followed by one housekeeping Event of its project; a spanning one is left alone |
| Recording.ActivitiesRecorder.RecordStates | com.codealike.client.eclipse/src/main/java/com/codealike/client/eclipse/internal/tracking/ActivitiesRecorder.java:114-120 | the maps and date are those of recordState applied to each state in turn, the result is the last call's result, every state is logged in order, and every filed or listed state ends with the duration the closings of those calls give it in turn (`FoldDuration`); the event that was last before the call ends with `ClosedEventDuration`: closed at the last state's time when it is settled and cannot span, at the first state's time when it is unsettled, unchanged when it can span; an unsettled one is replaced by exactly one housekeeping event, which ends with `HousekeepingDuration` |
| Recording.ActivitiesRecorder.RecordAt | com.codealike.client.eclipse/src/main/java/com/codealike/client/eclipse/internal/tracking/ActivitiesRecorder.java:59-101 | one recordState of a list's state, stated over the calls before it: the state is filed and logged, every state allocated before ends with `StepDuration`, and the event facts of the calls so far (`EventsSoFar`) extend by one state |
| Recording.ActivitiesRecorder.RecordNulls | com.codealike.client.eclipse/src/main/java/com/codealike/client/eclipse/internal/tracking/ActivitiesRecorder.java:150 | one open null state per project id, all at now, are recorded in order; the filed states end as one recordState at now closes them; the old last event is closed at now when there is a null state and it cannot span; a housekeeping event recorded for an unsettled last event stays open |
| Recording.ActivitiesRecorder.CreateNullStates | com.codealike.client.eclipse/src/main/java/com/codealike/client/eclipse/internal/tracking/ActivitiesRecorder.java:150 | one new open Null state per given project id, all created now; the ids stand for what the unseen `createNullState()` creates |
| Recording.ActivitiesRecorder.FlattenEvents | com.codealike.client.eclipse/src/main/java/com/codealike/client/eclipse/internal/tracking/ActivitiesRecorder.java:316-335 | the result is the events of all projects, concatenated in some order of the project keys, grouped by creation time |
| Recording.ActivitiesRecorder.ConcatInKeyOrder | com.codealike.client.eclipse/src/main/java/com/codealike/client/eclipse/internal/tracking/ActivitiesRecorder.java:321-324 | the lists are concatenated in an order that visits every project key exactly once |
| Recording.ActivitiesRecorder.GroupByTime | com.codealike.client.eclipse/src/main/java/com/codealike/client/eclipse/internal/tracking/ActivitiesRecorder.java:326-332 | each event is appended to the list of its creation time, in input order |
| Recording.ActivitiesRecorder.SwapMaps | com.codealike.client.eclipse/src/main/java/com/codealike/client/eclipse/internal/tracking/ActivitiesRecorder.java:152-156 | the live maps are handed over (events flattened) and replaced by empty maps; nothing else changes |
| Recording.ActivitiesRecorder.Reopen | com.codealike.client.eclipse/src/main/java/com/codealike/client/eclipse/internal/tracking/ActivitiesRecorder.java:159-161 | a last state that exists and is not a null state is re-opened as a new open copy at now, which becomes the only state; the last event stays the last event and, when a state is re-opened and it cannot span, is closed at now; otherwise nothing is recorded and the last event keeps its duration |
| Recording.ActivitiesRecorder.TakeSnapshot | com.codealike.client.eclipse/src/main/java/com/codealike/client/eclipse/internal/tracking/ActivitiesRecorder.java:149-161 | the states sent are the old states with the null states filed; when there is a null state, the open states of the bucket at lastStateDate are closed against now if that bucket is at another time, and every other filed state keeps its duration; the null states stay open; the old last event is closed at now when there is a null state and it cannot span, and keeps its duration otherwise; a housekeeping event recorded for an unsettled last event is open; the events sent are a flattening of the old events (plus that housekeeping event); the live maps become empty except for the re-opened state, which is an open copy of the state the null states interrupted unless that was a null state; the log gains the null states, then the re-opened state |
| Recording.ActivitiesRecorder.TrySendEntriesOnFile | com.codealike.client.eclipse/src/main/java/com/codealike/client/eclipse/internal/tracking/ActivitiesRecorder.java:245-291 | a cached file whose retry succeeds moves to history under its name; a rejected or unreadable one moves there with ".error"; otherwise it stays; nothing else moves |
| Recording.ActivitiesRecorder.RetryCachedFiles | com.codealike.client.eclipse/src/main/java/com/codealike/client/eclipse/internal/tracking/ActivitiesRecorder.java:187-189 | retrying every listed cache file once leaves the folders as the sweep function of the retry outcomes says |
| Recording.ActivitiesRecorder.Deliver | com.codealike.client.eclipse/src/main/java/com/codealike/client/eclipse/internal/tracking/ActivitiesRecorder.java:175-242 | it throws exactly at the first sent entry whose cache listing is null; otherwise the result is the fold of the entry results; the folders are what the entries before that point do to them: a sent entry sweeps the cache, an unsent one is cached |
| Recording.ActivitiesRecorder.SendBatch | com.codealike.client.eclipse/src/main/java/com/codealike/client/eclipse/internal/tracking/ActivitiesRecorder.java:163-243 | it throws exactly when the processor is valid and building the ActivityInfo list throws, or the list is valid and a sent entry's listing is null; otherwise the result is Skip exactly when the processor or the built list is invalid; the folders are untouched unless a list is built, and then hold what the entries the loop reached do to them |
| Recording.ActivitiesRecorder.Flush | com.codealike.client.eclipse/src/main/java/com/codealike/client/eclipse/internal/tracking/ActivitiesRecorder.java:144-243 | the exception, the result and the folders are those of SendBatch; the null states, the state durations, the last event and its duration, the re-opened state, the live maps and the log are those of TakeSnapshot |
| RecordingModel.AddState | com.codealike.client.eclipse/src/main/java/com/codealike/client/eclipse/internal/tracking/ActivitiesRecorder.java:68-72 | filing adds only the state's time to the keys and leaves every other bucket as it was |
| RecordingModel.AddStateAppends | com.codealike.client.eclipse/src/main/java/com/codealike/client/eclipse/internal/tracking/ActivitiesRecorder.java:72 | a bucket is only appended to: the new state is last and the old bucket is its prefix |
| RecordingModel.AddStateFiled | com.codealike.client.eclipse/src/main/java/com/codealike/client/eclipse/internal/tracking/ActivitiesRecorder.java:68-72 | filing keeps every bucket non-empty and holding only states of its own time |
| RecordingModel.ClosingIsPrevious | com.codealike.client.eclipse/src/main/java/com/codealike/client/eclipse/internal/tracking/ActivitiesRecorder.java:64-75 | recordState returns a state exactly when it closes a bucket, and that state belongs to the previous timestamp, never to the new one |
| RecordingModel.ClosedDurationIdempotent | com.codealike.client.eclipse/src/main/java/com/codealike/client/eclipse/internal/tracking/ActivitiesRecorder.java:77-80 | a closed state is never closed again, and closing leaves no state open |
| RecordingModel.FoldStatesFiles | com.codealike.client.eclipse/src/main/java/com/codealike/client/eclipse/internal/tracking/ActivitiesRecorder.java:114-120 | after recordStates every state of the list is in the bucket of its own time, and no earlier bucket is dropped |
| RecordingModel.SameTimeFold | com.codealike.client.eclipse/src/main/java/com/codealike/client/eclipse/internal/tracking/ActivitiesRecorder.java:114-120 | states of one time add that time to the keys, keep every other bucket and move the date as the first of them does |
| RecordingModel.SameTimeDuration | com.codealike.client.eclipse/src/main/java/com/codealike/client/eclipse/internal/tracking/ActivitiesRecorder.java:150 | recording several states of one time closes the bucket at the date once, against that time, as recording the first of them alone does |
| RecordingModel.EventFoldIsClosed | com.codealike.client.eclipse/src/main/java/com/codealike/client/eclipse/internal/tracking/ActivitiesRecorder.java:90-98 | closing the last event call by call over a list (`EventFold`) gives the closed form `ClosedEventDuration`: the span to the last state's time for a settled event that cannot span, to the first state's time for an unsettled one, the old duration for one that can span |
| RecordingModel.EventStep | com.codealike.client.eclipse/src/main/java/com/codealike/client/eclipse/internal/tracking/ActivitiesRecorder.java:90-92 | one more recordState extends `ClosedEventDuration` by one state: it closes the event when it is still the last event, and leaves it alone once a housekeeping event replaced it |
| RecordingModel.HousekeepingStep | com.codealike.client.eclipse/src/main/java/com/codealike/client/eclipse/internal/tracking/ActivitiesRecorder.java:90-98 | the housekeeping event the first call records is open, and each later call closes it again at its state's time unless it can span (`HousekeepingDuration`) |
| RecordingModel.SameTimeEventDuration | com.codealike.client.eclipse/src/main/java/com/codealike/client/eclipse/internal/tracking/ActivitiesRecorder.java:150 | over states that all share the time now, a last event that cannot span is closed at now, settled or not |
| RecordingModel.SameTimeHousekeeping | com.codealike.client.eclipse/src/main/java/com/codealike/client/eclipse/internal/tracking/ActivitiesRecorder.java:150 | over states that all share the time now, the housekeeping event recorded at now stays open |
| RecordingModel.AppendedIsConcat | com.codealike.client.eclipse/src/main/java/com/codealike/client/eclipse/internal/tracking/ActivitiesRecorder.java:114-120 | the records of recordStates are exactly the old records followed by one per state, in list order |
| RecordingModel.WithProject | com.codealike.client.eclipse/src/main/java/com/codealike/client/eclipse/internal/tracking/ActivitiesRecorder.java:122-127 | getProjectEvents only adds a missing project with an empty list and changes no existing list |
| RecordingModel.AddEvent | com.codealike.client.eclipse/src/main/java/com/codealike/client/eclipse/internal/tracking/ActivitiesRecorder.java:129-142 | recording an event adds only its project to the keys and leaves every other project's list as it was |
| RecordingModel.AddEventThenLast | com.codealike.client.eclipse/src/main/java/com/codealike/client/eclipse/internal/tracking/ActivitiesRecorder.java:129-142 | the event recorded last is what getLastEvent gives next for its project; the project's old list is a prefix; other projects' last events do not change |
| RecordingModel.AddEventFiled | com.codealike.client.eclipse/src/main/java/com/codealike/client/eclipse/internal/tracking/ActivitiesRecorder.java:129-142 | each project's list keeps holding only that project's events |
| RecordingModel.HousekeepingSettled | com.codealike.client.eclipse/src/main/java/com/codealike/client/eclipse/internal/tracking/ActivitiesRecorder.java:94-97 | the housekeeping Event never triggers another one |
| RecordingModel.ConcatMembers | com.codealike.client.eclipse/src/main/java/com/codealike/client/eclipse/internal/tracking/ActivitiesRecorder.java:321-324 | the concatenation holds exactly the events of the listed projects |
| RecordingModel.GroupIsOnDate | com.codealike.client.eclipse/src/main/java/com/codealike/client/eclipse/internal/tracking/ActivitiesRecorder.java:326-332 | a time is a key exactly when some event has it, and its list is those events in input order |
| RecordingModel.OnDateCounts | com.codealike.client.eclipse/src/main/java/com/codealike/client/eclipse/internal/tracking/ActivitiesRecorder.java:326-332 | within a time every event occurs exactly as often as in the input |
| RecordingModel.FlatteningKeepsEvents | com.codealike.client.eclipse/src/main/java/com/codealike/client/eclipse/internal/tracking/ActivitiesRecorder.java:316-335 | an event is in the flattened map, under its own creation time, exactly when it is in some project's list |
| FlushOutcomes.TrySendEntries | com.codealike.client.eclipse/src/main/java/com/codealike/client/eclipse/internal/tracking/ActivitiesRecorder.java:293-314 | never Skip; Succeded exactly on a success response; Offline exactly on a failure that is not a rejection; otherwise (rejection or exception) Report |
| FlushOutcomes.FileOutcome | com.codealike.client.eclipse/src/main/java/com/codealike/client/eclipse/internal/tracking/ActivitiesRecorder.java:247-267 | never Offline; Report exactly on an IOException or a rejection; Succeded exactly on a success that is not also a rejection |
| FlushOutcomes.ClassificationsDisagree | com.codealike.client.eclipse/src/main/java/com/codealike/client/eclipse/internal/tracking/ActivitiesRecorder.java:255-261 | a response flagged both success and rejected counts as sent for a fresh entry but as corrupted for a cached file |
| FlushOutcomes.FlushOutcome | com.codealike.client.eclipse/src/main/java/com/codealike/client/eclipse/internal/tracking/ActivitiesRecorder.java:163-174 | flush answers Skip if and only if the processor or the built list is invalid |
| FlushOutcomes.Handled | com.codealike.client.eclipse/src/main/java/com/codealike/client/eclipse/internal/tracking/ActivitiesRecorder.java:186-189 | the loop stops before the last entry exactly when a sent entry's cache listing is null |
| FlushOutcomes.GuardedOutcomes | com.codealike.client.eclipse/src/main/java/com/codealike/client/eclipse/internal/tracking/StateTracker.java:591-598 | the guarded flush answers Skip exactly when no list is built and building it did not throw first, and Succeded exactly when a list is built, nothing throws and no considered entry failed |
| FlushOutcomes.FoldResultsNeverSkip | com.codealike.client.eclipse/src/main/java/com/codealike/client/eclipse/internal/tracking/ActivitiesRecorder.java:175-242 | the entry loop never yields Skip |
| FlushOutcomes.FoldSucceeds | com.codealike.client.eclipse/src/main/java/com/codealike/client/eclipse/internal/tracking/ActivitiesRecorder.java:175-242 | the loop yields Succeded exactly when no considered entry failed |
| FlushOutcomes.FoldIsLastFailure | com.codealike.client.eclipse/src/main/java/com/codealike/client/eclipse/internal/tracking/ActivitiesRecorder.java:238-240 | otherwise it yields the result of the last considered entry that failed |
| FlushOutcomes.SweepMoves | com.codealike.client.eclipse/src/main/java/com/codealike/client/eclipse/internal/tracking/ActivitiesRecorder.java:270-286 | a retry sweep only moves files: a file stays cached exactly when its outcome is Skip, and lands in history under its name or with ".error" as its outcome says |
| FlushOutcomes.SweepKeeps | com.codealike.client.eclipse/src/main/java/com/codealike/client/eclipse/internal/tracking/ActivitiesRecorder.java:270-286 | a sweep never deletes a batch from disk |
| FlushOutcomes.NothingLost | com.codealike.client.eclipse/src/main/java/com/codealike/client/eclipse/internal/tracking/ActivitiesRecorder.java:176-236 | every file name that was cached, and the cache-file name of every considered entry that was not sent, is still present in the cache or in history after the flush |
| OfflineStore.OfflineCache.Write | com.codealike.client.eclipse/src/main/java/com/codealike/client/eclipse/internal/tracking/ActivitiesRecorder.java:217-235 | writing an unsent entry adds its file to the cache folder and touches nothing else |
| OfflineStore.OfflineCache.Rename | com.codealike.client.eclipse/src/main/java/com/codealike/client/eclipse/internal/tracking/ActivitiesRecorder.java:272-275 | a rename succeeds exactly when the source is cached, and then moves it to the destination name in history |
| ActivityModel.ActivityState.Recreate | com.codealike.client.eclipse/src/main/java/com/codealike/client/eclipse/internal/tracking/ActivitiesRecorder.java:159-161 | a new open state with the same type, project and class, created now |
| ActivityModel.ActivityEvent.Build | com.codealike.client.eclipse/src/main/java/com/codealike/client/eclipse/internal/model/BuildActivityEvent.java:9-11 | a build event carries the project, type and context it was given, and is open |
| BuildActivityEvent.MarkerClassification | com.codealike.client.eclipse/src/main/java/com/codealike/client/eclipse/internal/model/BuildActivityEvent.java:13-21 | every result type the post-build handler records is a marker and a build event |
| Tracking.ReactTo | com.codealike.client.eclipse/src/main/java/com/codealike/client/eclipse/internal/tracking/StateTracker.java:180-210 | Debugging is entered exactly on a target created or thread suspended outside Debugging; it is left exactly on target terminated, thread resumed, or process terminated while Debugging; the null-state exception happens exactly on the guards that read a missing current state |
| Tracking.DebugBatch | com.codealike.client.eclipse/src/main/java/com/codealike/client/eclipse/internal/tracking/StateTracker.java:170-178 | the listener handles a prefix of the batch, and stops early only at an event that raises |
| Tracking.DebugBatchCompletes | com.codealike.client.eclipse/src/main/java/com/codealike/client/eclipse/internal/tracking/StateTracker.java:170-178 | once a current state exists, every batch is handled to its end and a current state remains |
| Tracking.DebugBatchFromSuffix | com.codealike.client.eclipse/src/main/java/com/codealike/client/eclipse/internal/tracking/StateTracker.java:173-177 | handling from position i on is handling the suffix from i, offset by i |
| Tracking.TrackedPrefix | com.codealike.client.eclipse/src/main/java/com/codealike/client/eclipse/internal/tracking/StateTracker.java:101-104 | the build handlers handle exactly the projects before the first untracked one |
| Tracking.PostBuildResults | com.codealike.client.eclipse/src/main/java/com/codealike/client/eclipse/internal/tracking/StateTracker.java:135-149 | a project with problems gets BuildProjectFailed and BuildSolutionFailed, one without gets the two succeeded types; both are distinct markers |
| Tracking.StartedBuildsEach | com.codealike.client.eclipse/src/main/java/com/codealike/client/eclipse/internal/tracking/StateTracker.java:101-116 | the recursive account of pre-build gives StartsBuild for each handled project |
| Tracking.FinishedBuildsEach | com.codealike.client.eclipse/src/main/java/com/codealike/client/eclipse/internal/tracking/StateTracker.java:130-156 | the recursive account of post-build gives FinishesBuild for each handled project |
| Tracking.PreBuildLog | com.codealike.client.eclipse/src/main/java/com/codealike/client/eclipse/internal/tracking/StateTracker.java:101-116 | pre-build records two entries per handled project |
| Tracking.PostBuildLog | com.codealike.client.eclipse/src/main/java/com/codealike/client/eclipse/internal/tracking/StateTracker.java:130-156 | post-build records three entries per handled project |
| Tracking.JavaDiv | com.codealike.client.eclipse/src/main/java/com/codealike/client/eclipse/internal/tracking/StateTracker.java:557-559 | long division truncates toward zero: the remainder has the sign of the dividend and is smaller than the divisor |
| Tracking.IdleThresholdIsWholeMinutes | com.codealike.client.eclipse/src/main/java/com/codealike/client/eclipse/internal/tracking/StateTracker.java:557-559 | the idle threshold is whole minutes and is the configured interval truncated toward zero to the minute |
| Tracking.StateTracker.constructor | com.codealike.client.eclipse/src/main/java/com/codealike/client/eclipse/internal/tracking/StateTracker.java:466-472 | a new tracker has a new empty recorder, no current or last state, no last event or focus, and no listeners |
| Tracking.StateTracker.StartTracking | com.codealike.client.eclipse/src/main/java/com/codealike/client/eclipse/internal/tracking/StateTracker.java:474-487 | listeners are registered and idle detection runs; the tracked activity is untouched |
| Tracking.StateTracker.StopTracking | com.codealike.client.eclipse/src/main/java/com/codealike/client/eclipse/internal/tracking/StateTracker.java:568-589 | listeners are removed and idle detection stops; the tracked activity is untouched |
| Tracking.StateTracker.HandleDebugEvent | com.codealike.client.eclipse/src/main/java/com/codealike/client/eclipse/internal/tracking/StateTracker.java:180-210 | entering debugging records and makes current a new Debugging state of the unassigned project; leaving it records a new Null state; any other event records nothing; failure is exactly the null-state exception |
| Tracking.StateTracker.HandleDebugEvents | com.codealike.client.eclipse/src/main/java/com/codealike/client/eclipse/internal/tracking/StateTracker.java:170-178 | the handled count and the final state type are those of the batch function; only Debugging and Null states of the unassigned project are recorded |
| Tracking.StateTracker.TrackDocumentFocus | com.codealike.client.eclipse/src/main/java/com/codealike/client/eclipse/internal/tracking/StateTracker.java:270-311 | for an editor of a tracked project with a current state: a new Coding state unless already coding there or debugging, then a DocumentFocus event when resource or context changed; afterwards the developer is coding in that project or debugging; anything else changes nothing |
| Tracking.StateTracker.TrackNewSelection | com.codealike.client.eclipse/src/main/java/com/codealike/client/eclipse/internal/tracking/StateTracker.java:313-325 | a DocumentFocus event is recorded exactly when the resource or the code context differs from the remembered one; both are remembered afterwards |
| Tracking.StateTracker.TrackCodingEvents | com.codealike.client.eclipse/src/main/java/com/codealike/client/eclipse/internal/tracking/StateTracker.java:327-365 | an edit of the focused unit records a DocumentEdit exactly when a last event exists and is not an edit; a handled edit otherwise clears a non-null last event |
| Tracking.StateTracker.StartTrackingProject | com.codealike.client.eclipse/src/main/java/com/codealike/client/eclipse/internal/tracking/StateTracker.java:367-380 | records a System state and an OpenSolution event at the workspace start date, then a Null state at now, which becomes current |
| Tracking.StateTracker.WindowActivated | com.codealike.client.eclipse/src/main/java/com/codealike/client/eclipse/internal/tracking/StateTracker.java:431-442 | the saved state is re-opened at now (a new idle state when none was saved) and recorded; the replaced current state is saved |
| Tracking.StateTracker.WindowDeactivated | com.codealike.client.eclipse/src/main/java/com/codealike/client/eclipse/internal/tracking/StateTracker.java:450-455 | a new idle state of the unassigned project is recorded and made current; the old current state is saved |
| Tracking.StateTracker.CheckIdleStatus | com.codealike.client.eclipse/src/main/java/com/codealike/client/eclipse/internal/tracking/StateTracker.java:529-543 | exactly a current Idle state of class NullActivityState is replaced by a new recorded idle state; anything else records nothing |
| Tracking.StateTracker.UserActivity | com.codealike.client.eclipse/src/main/java/com/codealike/client/eclipse/internal/tracking/StateTracker.java:545-566 | input during an idle state moves its last activity to now, and a new idle state is recorded exactly when the input came within the threshold |
| Tracking.StateTracker.StartBuild | com.codealike.client.eclipse/src/main/java/com/codealike/client/eclipse/internal/tracking/StateTracker.java:105-115 | a new Building state and a new BuildProject build event of the project are recorded and become current |
| Tracking.StateTracker.PreBuild | com.codealike.client.eclipse/src/main/java/com/codealike/client/eclipse/internal/tracking/StateTracker.java:94-122 | StartsBuild for each project of the tracked prefix, recorded in order; current state and last event are the last ones recorded, or unchanged when none |
| Tracking.StateTracker.FinishBuild | com.codealike.client.eclipse/src/main/java/com/codealike/client/eclipse/internal/tracking/StateTracker.java:135-155 | the project result and the solution result its problems decide, then a Null state, are recorded; the last two become current |
| Tracking.StateTracker.PostBuild | com.codealike.client.eclipse/src/main/java/com/codealike/client/eclipse/internal/tracking/StateTracker.java:123-162 | FinishesBuild for each project of the tracked prefix, recorded in order; current state and last event are the last ones recorded, or unchanged when none |
| Tracking.StateTracker.Flush | com.codealike.client.eclipse/src/main/java/com/codealike/client/eclipse/internal/tracking/StateTracker.java:591-598 | Report when the recorder throws, the recorder's result otherwise; the folders, the null states, the state durations, the last event and its duration, the re-opened state, the live maps and the log are those of the recorder's flush |
| Service.StatusMessages | com.codealike.client.eclipse/src/com/codealike/client/eclipse/internal/services/TrackingService.java:104-115 | one message per result, except Offline, which falls through and shows two; the corrupted-entries message ends exactly the Offline and Report cases |
| Service.StatusMessagesDistinct | com.codealike.client.eclipse/src/com/codealike/client/eclipse/internal/services/TrackingService.java:104-115 | different results show different messages |
| Service.TrackOneKeeps | com.codealike.client.eclipse/src/com/codealike/client/eclipse/internal/services/TrackingService.java:148-164 | startTracking(project) keeps ids unique, never re-maps a tracked project, and the project is not admitted again |
| Service.TrackAllKeeps | com.codealike.client.eclipse/src/com/codealike/client/eclipse/internal/services/TrackingService.java:61-65 | tracking a list of projects keeps ids unique and never untracks or re-maps a project |
| Service.TrackAllSaturates | com.codealike.client.eclipse/src/com/codealike/client/eclipse/internal/services/TrackingService.java:152-156 | after tracking a list, none of its projects is admitted any more |
| Service.TrackAllIdempotent | com.codealike.client.eclipse/src/com/codealike/client/eclipse/internal/services/TrackingService.java:56-76 | tracking the same projects again starts nothing and changes no entry |
| Service.StartedTracked | com.codealike.client.eclipse/src/com/codealike/client/eclipse/internal/services/TrackingService.java:155-158 | every project handed to the tracker is open and is tracked under its own id |
| Service.StartLogsLength | com.codealike.client.eclipse/src/com/codealike/client/eclipse/internal/services/TrackingService.java:155-158 | projects with ids leave exactly three records each |
| Service.TrackingService.constructor | com.codealike.client.eclipse/src/com/codealike/client/eclipse/internal/services/TrackingService.java:49-54 | a new service tracks nothing, has no executor or listener, and its tracker's recorder is empty |
| Service.TrackingService.SetBeforeOpenProjectDate | com.codealike.client.eclipse/src/com/codealike/client/eclipse/internal/services/TrackingService.java:198-200 | the clock reading becomes the workspace start date |
| Service.TrackingService.StartFlushExecutor | com.codealike.client.eclipse/src/com/codealike/client/eclipse/internal/services/TrackingService.java:78-99 | an existing executor is kept; otherwise one is scheduled at the configured interval |
| Service.TrackingService.StartTrackingProject | com.codealike.client.eclipse/src/com/codealike/client/eclipse/internal/services/TrackingService.java:148-164 | an open, untracked project whose id no other project holds is tracked and gets its opening records; any other project changes neither the tracked map nor the tracker |
| Service.TrackingService.StartTrackingProjects | com.codealike.client.eclipse/src/com/codealike/client/eclipse/internal/services/TrackingService.java:61-65 | the tracked map is the fold over the workspace projects, and the records are the openings of exactly the projects started, in order |
| Service.TrackingService.StartTracking | com.codealike.client.eclipse/src/com/codealike/client/eclipse/internal/services/TrackingService.java:56-76 | listeners, executor and unassigned project are set up, every admitted project is started, tracking is on and the observers are notified once |
| Service.TrackingService.FinishStartTracking | com.codealike.client.eclipse/src/com/codealike/client/eclipse/internal/services/TrackingService.java:68-75 | the unassigned project and the changes listener are registered, tracking is on and the observers are notified once |
| Service.TrackingService.StopTracking | com.codealike.client.eclipse/src/com/codealike/client/eclipse/internal/services/TrackingService.java:118-133 | tracking, listeners and executor are off and no project is tracked; observers are notified exactly when propagate holds; nothing is recorded |
| Service.TrackingService.EnableTracking | com.codealike.client.eclipse/src/com/codealike/client/eclipse/internal/services/TrackingService.java:135-141 | only an authenticated user starts tracking and is told so; otherwise nothing changes |
| Service.TrackingService.DisableTracking | com.codealike.client.eclipse/src/com/codealike/client/eclipse/internal/services/TrackingService.java:143-146 | tracking stops with observers notified, and the status bar says so |
| Service.TrackingService.FlushTrackingInformation | com.codealike.client.eclipse/src/com/codealike/client/eclipse/internal/services/TrackingService.java:101-116 | the result is the tracker's (Report when the recorder throws); the status bar shows the sending message, then the messages of that result; the folders, the null states, the durations of states and of the last event, the re-opened state and the log are those of the tracker's flush |
| Service.TrackingService.FlushRecorder | com.codealike.client.eclipse/src/com/codealike/client/eclipse/internal/services/TrackingService.java:206-216 | a flush happens exactly while tracking, when an executor always exists, and then the folders, the null states, the durations of states and of the last event, the re-opened state and the log are those of the tracker's flush; otherwise the recorder and the folders are unchanged |
| PeriodSerializer.Serialize | com.codealike.client.eclipse/src/com/codealike/client/eclipse/internal/serialization/PeriodSerializer.java:22-26 | exactly one JSON string is written, the formatter's text of the period |
| PeriodSerializer.PrintParse | com.codealike.client.eclipse/src/com/codealike/client/eclipse/internal/serialization/PeriodSerializer.java:16-17 | the text of a period with non-negative clock fields reads back to exactly those fields |
| PeriodSerializer.ZeroPeriod | com.codealike.client.eclipse/src/com/codealike/client/eclipse/internal/serialization/PeriodSerializer.java:16-17 | zero fields are printed, two digits each: "00:00:00.00" |
| PeriodSerializer.WideMillis | com.codealike.client.eclipse/src/com/codealike/client/eclipse/internal/serialization/PeriodSerializer.java:16-17 | two digits are a minimum, not a maximum: 123 ms is printed in full |
| PeriodSerializer.FieldWidths | com.codealike.client.eclipse/src/com/codealike/client/eclipse/internal/serialization/PeriodSerializer.java:16-17 | fields below 100 give an 11-character text |
| PeriodSerializer.OnlyClockFields | com.codealike.client.eclipse/src/com/codealike/client/eclipse/internal/serialization/PeriodSerializer.java:16-17 | years, months, weeks and days never reach the output |
| DateTimeSerializer.Serialize | com.codealike.client.eclipse/src/com/codealike/client/eclipse/internal/serialization/DateTimeSerializer.java:16-22 | exactly one JSON string is written, the shared formatter's text of the timestamp |
| DateTimeSerializer.PrintParse | com.codealike.client.eclipse/src/com/codealike/client/eclipse/internal/startup/PluginContext.java:78-82 | for in-range fields and a four-digit year, the text reads back to exactly the fields |
| DateTimeSerializer.Length24 | com.codealike.client.eclipse/src/com/codealike/client/eclipse/internal/startup/PluginContext.java:78-82 | for a four-digit year the text is exactly 24 characters |
| DateTimeSerializer.EndsInZ | com.codealike.client.eclipse/src/com/codealike/client/eclipse/internal/startup/PluginContext.java:82 | the text always ends in a literal 'Z' |
| Decimal.ValueOfPadded | com.codealike.client.eclipse/src/com/codealike/client/eclipse/internal/serialization/PeriodSerializer.java:16 | zero padding to a minimum width never changes the value printed |
| Decimal.PaddedWidth | com.codealike.client.eclipse/src/com/codealike/client/eclipse/internal/startup/PluginContext.java:78-82 | a value below 10^width is printed in exactly width characters |
| GenericExtensionFilter.GenericExtensionFilter.constructor | com.codealike.client.eclipse/src/com/codealike/client/eclipse/internal/utils/GenericExtensionFilter.java:18-20 | the filter keeps the extension it is given |
| GenericExtensionFilter.GenericExtensionFilter.Accept | com.codealike.client.eclipse/src/com/codealike/client/eclipse/internal/utils/GenericExtensionFilter.java:22-25 | a name is accepted exactly when it is some prefix followed by the extension |
| GenericExtensionFilter.AcceptsSuffixed | com.codealike.client.eclipse/src/com/codealike/client/eclipse/internal/utils/GenericExtensionFilter.java:22-25 | any prefix followed by the extension is accepted |
| GenericExtensionFilter.DirectoryIrrelevant | com.codealike.client.eclipse/src/com/codealike/client/eclipse/internal/utils/GenericExtensionFilter.java:22-25 | the directory never affects the answer |
| GenericExtensionFilter.EmptyAcceptsAll | com.codealike.client.eclipse/src/com/codealike/client/eclipse/internal/utils/GenericExtensionFilter.java:22-25 | an empty extension accepts every name |
| GenericExtensionFilter.ByLength | com.codealike.client.eclipse/src/com/codealike/client/eclipse/internal/utils/GenericExtensionFilter.java:22-25 | the extension itself is accepted, and a shorter name never is |

## Left out

- Listener registration and deregistration (windows, parts, documents, the debug plug-in and the workspace) are modelled as flags. The same holds for the Display's `syncExec` and `asyncExec` and the idle-detection executor. The handlers run synchronously when called.
- The flush executor is only its scheduling period (`flushExecutor`). `Service.TrackingService.FlushRecorder` runs the flush synchronously instead of handing it to the executor.
- Service.TrackingService.FlushTrackingInformation: the sending message and the result's messages are appended to the status bar in one update after the flush; the flush does not read the status bar, so the messages and their order are the same.
- Recording.ActivitiesRecorder.Flush: the send is made before the snapshot. The send reads only its own inputs and changes only the store, and the snapshot does not touch the store, so the end state is the same.
- TrackingConsole, LogManager and the `trackSent` history-file write after a successful send are diagnostics that do not change what is tracked, so they are left out.
- Observers are modelled as a notification counter. The status bar is the list of messages shown.
- `ActivityInfoProcessor` is not part of this model. Its two validity verdicts and the ActivityInfo entries it builds are inputs of a flush. So the entries are not derived from the snapshot the flush takes.
- The HTTP client and the JSON reading of cached files are left out. Their outcomes are inputs (`SendAttempt`, `FileAttempt`). The ApiResponse classifications are five independent flags, so overlapping flags behave as in the code.
- `File.renameTo` is assumed to succeed exactly when the source file exists, replacing the destination. Writing a cache file is assumed to succeed, because the code only logs a failed write.
- The cache folder's file listing is its set of names. The retry walks them once each, in an unspecified order.
- `Period` arithmetic is the difference of two millisecond times. Joda's Period normalisation and time-zone rules are not modelled. The date-time serializer works on the UTC calendar fields.
- TrackedProjectManager is not part of this model. `trackProject` is assumed to accept a project exactly when no tracked project holds its id (bidirectional map), and `stopTracking()` is assumed to clear the map.
- `PluginContext.getOrCreateUUID` and `ContextCreator` are not part of this model. The id and the code context are fields of `Service.Project`, and a focus or edit signal carries them already resolved.
- `registerProjectContext` for the unassigned project is modelled as a flag.
- The identity and the token passed to flush are not modelled.
- `canSpan()`, `recreate()` and `createNullState()` are unseen ActivityEvent and ActivityState code. `canSpan` is a policy given to the recorder. `recreate` is an open copy with the same type, project and class. `createNullState()` takes no argument; the flush is given a list of project ids instead (`nullProjects`) and records one open Null state per id, so how many null states there are, and of which projects, is an assumption.
- The ActivityState factories are unseen code. Each is assumed to build an open state of one type and class, created at the clock reading: `createDesignState(id)` a Coding state of the plain class ActivityState (`PlainState`; so Tracking.StateTracker.TrackDocumentFocus's "afterwards coding in that project or debugging" rests on it), `createDebugState(id)` Debugging, `createBuildState(id)` Building and `createSystemState(id)` System, all `PlainState`; `createNullState(id)` Null of class NullActivityState; `createIdleState(id)` Idle of class IdleActivityState.
- One handler call reads the clock once. In the source each factory, `recreate()` (ActivitiesRecorder.java:160) and the housekeeping `new ActivityEvent` (ActivitiesRecorder.java:95) read the clock on their own, so their instants may differ by a millisecond or more. Recording.ActivitiesRecorder.RecordNulls, Recording.ActivitiesRecorder.TakeSnapshot, Recording.ActivitiesRecorder.Reopen and RecordingModel.SameTimeHousekeeping rely on the single reading: that the null states stay open, that the housekeeping event stays open, and that Reopen closes the last event at the same `now`. Across a clock tick in the source, a later null state closes earlier ones and the housekeeping event is closed with a span of zero or less.
- Tracking.StateTracker.TrackDocumentFocus: project ids are compared by value, while StateTracker.java:290 compares the UUID objects by reference. When a project is untracked and tracked again and its id comes back as an equal but distinct UUID object, the source opens a new Coding state where the model opens none.
- FlushOutcomes.NothingLost: it speaks of file names. Writing a cache file replaces a file of the same name and a rename replaces its destination, so a batch overwritten under a reused cache or history name still counts as present.
- Recording.ActivitiesRecorder.Deliver: `fileAttempt` gives a cached file one answer for the whole flush, while the source posts the file again on every sweep (one sweep per sent entry). A file that a first sweep leaves in the cache meets the same answer in every later sweep of that flush.
- Exceptions other than the two flush inputs are not modelled: those of ActivityInfoProcessor's constructor and validity checks, of the configuration, and of the HTTP client outside trySendEntries. Of the getters that feed the list at ActivitiesRecorder.java:169, getMachineName returns a name cached when the context is created, whose lookup catches UnknownHostException (PluginContext.java:87, 112-114, 204-210); the others are taken not to throw.
- The tracker handlers other than flush state which states and events their recordState calls add, not the durations those calls give the states they close or the last event they close. Recording.ActivitiesRecorder.RecordState and Recording.ActivitiesRecorder.RecordStates state both.
- `startWorkspaceDate` is an integer time, so the case where it was never set (null) is not modelled.
- Jackson itself is reduced to the list of string tokens the serializers write.
- Tracking.StateTracker.PreBuild: its ensures does not say that the recorded states and events are new objects. Tracking.StateTracker.StartBuild says so for each project.
- Tracking.StateTracker.PostBuild: its ensures does not say that the recorded events and states are new objects. Tracking.StateTracker.FinishBuild says so for each project.
- IDE classes (IProject, IEditorPart, IResourceDelta) are reduced to the few facts the handlers read (`FocusSignal`, `EditSignal`, `AffectedProject`).
