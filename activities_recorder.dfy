/** ActivitiesRecorder: the in-memory log of states and events, and the flush
    that hands a snapshot of it to the server or to the offline cache. */
module Recording {
  import opened Wrappers
  import opened ActivityModel
  import opened RecordingModel
  import opened FlushOutcomes
  import opened OfflineStore

  class ActivitiesRecorder {
    var states: StateMap
    var events: EventMap
    var lastEvent: ActivityEvent?
    var lastStateDate: Option<int>
    /** canSpan() of an event, by its type and by whether it is a build event. */
    const canSpan: (ActivityType, bool) -> bool
    /** Every state and event callers recorded so far, in order. */
    ghost var log: seq<Record>
    /** Every state ever filed in the map (the states recordState may close). */
    ghost var filed: set<ActivityState>

    ghost predicate Valid()
      reads this
    {
      WellFiled(states) && (lastStateDate.None? ==> states == map[]) &&
      Covered(states, filed)
    }

    constructor (canSpan: (ActivityType, bool) -> bool)
      ensures Valid() && this.canSpan == canSpan
      ensures states == map[] && events == map[] && lastEvent == null && lastStateDate == None && log == []
    {
      states := map[];
      events := map[];
      lastEvent := null;
      lastStateDate := None;
      this.canSpan := canSpan;
      log := [];
      filed := {};
    }

    /** The states of the bucket at lastStateDate. */
    function LastBucket(): (r: set<ActivityState>)
      reads this
      requires Valid()
      ensures r <= filed
    {
      if lastStateDate.Some? && lastStateDate.value in states then
        BucketCovered(states, lastStateDate.value, filed);
        set s | s in states[lastStateDate.value]
      else {}
    }

    function EventFrame(): set<ActivityEvent>
      reads this
    {
      if lastEvent != null then {lastEvent} else {}
    }

    /** getProjectEvents: the project's list, created empty when missing. */
    method GetProjectEvents(projectId: ProjectId) returns (list: seq<ActivityEvent>)
      requires Valid()
      modifies this
      ensures Valid()
      ensures events == WithProject(old(events), projectId) && list == ProjectEvents(old(events), projectId)
      ensures states == old(states) && lastEvent == old(lastEvent) && lastStateDate == old(lastStateDate) && log == old(log) && filed == old(filed)
    {
      if projectId !in events {
        events := events[projectId := []];
      }
      list := events[projectId];
    }

    /** getLastEvent: the tail of the project's list, or null. */
    method GetLastEvent(projectId: ProjectId) returns (last: ActivityEvent?)
      requires Valid()
      modifies this
      ensures Valid()
      ensures events == WithProject(old(events), projectId) && last == LastEvent(old(events), projectId)
      ensures states == old(states) && lastEvent == old(lastEvent) && lastStateDate == old(lastStateDate) && log == old(log) && filed == old(filed)
    {
      last := null;
      var projectEvents := GetProjectEvents(projectId);
      if |projectEvents| > 0 {
        last := projectEvents[|projectEvents| - 1];
      }
    }

    /** recordEvent: appends the event to its project's list, makes it the last
        event and returns the list's previous tail. `housekeeping` marks the calls
        recordState makes on its own. */
    method RecordEvent(event: ActivityEvent, ghost housekeeping: bool) returns (previous: ActivityEvent?)
      requires Valid()
      modifies this
      ensures Valid()
      ensures events == AddEvent(old(events), event)
      ensures previous == LastEvent(old(events), event.projectId)
      ensures lastEvent == event
      ensures states == old(states) && lastStateDate == old(lastStateDate) && filed == old(filed)
      ensures log == old(log) + if housekeeping then [] else [EventRecord(event)]
    {
      var projectEvents := GetProjectEvents(event.projectId);
      previous := GetLastEvent(event.projectId);
      WithProjectThenAppend(old(events), event);
      events := events[event.projectId := projectEvents + [event]];
      lastEvent := event;
      if !housekeeping {
        log := log + [EventRecord(event)];
      }
    }

    /** recordState: files the state under its creation time, closes the open
        states of the previous-timestamp bucket, closes a last event that cannot
        span states, and returns the last state of the previous bucket. */
    method RecordState(state: ActivityState, now: int) returns (closing: ActivityState?)
      requires Valid()
      modifies this, LastBucket()`duration, EventFrame()`duration
      ensures Valid()
      ensures states == AddState(old(states), state)
      ensures lastStateDate == NextDate(old(states), old(lastStateDate), state.creationTime)
      ensures closing == ClosingOf(old(states), old(lastStateDate), state.creationTime)
      ensures filed == old(filed) + {state}
      ensures log == old(log) + [StateRecord(state)]
      ensures Closes(old(states), old(lastStateDate), state.creationTime) ==>
                forall s :: s in old(states[lastStateDate.value]) ==>
                  s.duration == ClosedDuration(old(s.duration), s.creationTime, state.creationTime)
      ensures !Closes(old(states), old(lastStateDate), state.creationTime) ==>
                forall s :: s in old(LastBucket()) ==> s.duration == old(s.duration)
      ensures forall s: ActivityState :: old(allocated(s)) ==>
                s.duration == StepDuration(old(states), old(lastStateDate), state.creationTime, s, old(s.duration))
      ensures state.duration == StepDuration(old(states), old(lastStateDate), state.creationTime, state, old(state.duration))
      ensures old(lastEvent) != null ==>
                old(lastEvent).duration == if old(lastEvent).spannable then old(lastEvent.duration)
                                           else state.creationTime - old(lastEvent).creationTime
      ensures Settled(lastEvent)
      ensures if Settled(old(lastEvent))
              then lastEvent == old(lastEvent) && events == old(events)
              else fresh(lastEvent) && IsHousekeeping(lastEvent, old(lastEvent).projectId, now, canSpan) &&
                   lastEvent.duration == 0 && events == AddEvent(old(events), lastEvent)
    {
      var t := state.creationTime;
      closing := null;
      var lastStates: Option<seq<ActivityState>> := None;
      if lastStateDate.Some? && lastStateDate.value != t && lastStateDate.value in states {
        lastStates := Some(states[lastStateDate.value]);
      }

      FileState(state);

      if lastStates.Some? && |lastStates.value| > 0 {
        var ls := lastStates.value;
        closing := ls[|ls| - 1];
        CloseBucket(ls, t);
      }

      CloseLastEvent(t, now);
    }

    /** The part of recordState that files the state: the bucket for its time is
        created (moving lastStateDate to it) only when missing. */
    method FileState(state: ActivityState)
      requires Valid()
      modifies this
      ensures Valid()
      ensures states == AddState(old(states), state)
      ensures lastStateDate == NextDate(old(states), old(lastStateDate), state.creationTime)
      ensures events == old(events) && lastEvent == old(lastEvent) && log == old(log) + [StateRecord(state)]
      ensures filed == old(filed) + {state}
    {
      var t := state.creationTime;
      PutThenAppend(states, state, filed);
      if t !in states {
        states := states[t := []];
        lastStateDate := Some(t);
      }
      states := states[t := states[t] + [state]];
      log := log + [StateRecord(state)];
      filed := filed + {state};
    }

    /** The closing loop of recordState: every state of the bucket that is still
        open gets the duration up to t; closed ones keep theirs. */
    static method CloseBucket(ls: seq<ActivityState>, t: int)
      requires forall s :: s in ls ==> s.creationTime != t
      modifies (set s | s in ls)`duration
      ensures forall s :: s in ls ==> s.duration == ClosedDuration(old(s.duration), s.creationTime, t)
    {
      var i := 0;
      while i < |ls|
        invariant 0 <= i <= |ls|
        invariant forall s :: s in ls ==>
                    s.duration == if s in ls[..i] then ClosedDuration(old(s.duration), s.creationTime, t) else old(s.duration)
      {
        var s := ls[i];
        if s.duration == 0 {
          s.duration := t - s.creationTime;
        }
        assert ls[..i + 1] == ls[..i] + [s];
        i := i + 1;
      }
      assert ls[..|ls|] == ls;
    }

    /** The last part of recordState: a last event that cannot span states is
        closed at t, and unless it is itself an Event, one housekeeping Event of
        its project is recorded at `now`. */
    method CloseLastEvent(t: int, now: int)
      requires Valid() && lastStateDate.Some?
      modifies this, EventFrame()`duration
      ensures Valid()
      ensures states == old(states) && lastStateDate == old(lastStateDate) && filed == old(filed)
      ensures old(lastEvent) != null ==>
                old(lastEvent).duration == if old(lastEvent).spannable then old(lastEvent.duration)
                                           else t - old(lastEvent).creationTime
      ensures Settled(lastEvent) && log == old(log)
      ensures if Settled(old(lastEvent))
              then lastEvent == old(lastEvent) && events == old(events)
              else fresh(lastEvent) && IsHousekeeping(lastEvent, old(lastEvent).projectId, now, canSpan) &&
                   lastEvent.duration == 0 && events == AddEvent(old(events), lastEvent)
    {
      if lastStateDate.Some? && lastEvent != null && !lastEvent.spannable {
        lastEvent.duration := t - lastEvent.creationTime;
        if lastEvent.activityType != Event {
          var hk := new ActivityEvent(lastEvent.projectId, Event, NullContext, now, canSpan(Event, false));
          var _ := RecordEvent(hk, true);
        }
      }
    }

    /** recordStates: recordState on each state of the list in turn; the result is
        what the last call returned. Only the first call can record a housekeeping
        event, since the last event is settled afterwards. */
    method RecordStates(list: seq<ActivityState>, now: int) returns (last: ActivityState?)
      requires Valid()
      modifies this, filed`duration, (set s | s in list)`duration, EventFrame()`duration
      ensures Valid()
      ensures states == FoldStates(old(states), list)
      ensures lastStateDate == FoldDate(old(states), old(lastStateDate), list)
      ensures last == FoldReturn(old(states), old(lastStateDate), list)
      ensures Appended(log, old(log), list)
      ensures forall s :: s in old(filed) || s in list ==>
                s.duration == FoldDuration(old(states), old(lastStateDate), list, s, old(s.duration))
      ensures old(lastEvent) != null ==>
                old(lastEvent).duration == ClosedEventDuration(old(lastEvent).spannable, Settled(old(lastEvent)),
                                                               old(lastEvent).creationTime, old(lastEvent.duration), list)
      ensures |list| > 0 ==> Settled(lastEvent)
      ensures if |list| > 0 && !Settled(old(lastEvent))
              then fresh(lastEvent) && IsHousekeeping(lastEvent, old(lastEvent).projectId, now, canSpan) &&
                   lastEvent.duration == HousekeepingDuration(lastEvent.spannable, list, |list|, now) &&
                   events == AddEvent(old(events), lastEvent)
              else lastEvent == old(lastEvent) && events == old(events)
    {
      last := null;
      ghost var e0, d0 := lastEvent, if lastEvent != null then lastEvent.duration else 0;
      ghost var durations: map<ActivityState, int> := map s: ActivityState | s in filed + (set x | x in list) :: s.duration;
      assert forall s :: s in durations ==> durations[s] == old(s.duration);
      var i := 0;
      ghost var done: seq<ActivityState> := [];
      while i < |list|
        invariant 0 <= i <= |list| && done == list[..i]
        invariant Valid()
        invariant states == FoldStates(old(states), done)
        invariant lastStateDate == FoldDate(old(states), old(lastStateDate), done)
        invariant last == FoldReturn(old(states), old(lastStateDate), done)
        invariant Appended(log, old(log), done)
        invariant filed <= old(filed) + set s | s in list
        invariant forall s :: s in durations ==>
                    s.duration == FoldDuration(old(states), old(lastStateDate), done, s, durations[s])
        invariant EventsSoFar(list, i, now, e0, d0)
        invariant i > 0 ==> Settled(lastEvent)
        invariant if i > 0 && !Settled(e0)
                  then fresh(lastEvent) && IsHousekeeping(lastEvent, e0.projectId, now, canSpan) &&
                       events == AddEvent(old(events), lastEvent)
                  else lastEvent == e0 && events == old(events)
      {
        last := RecordStep(list, i, now, old(states), old(lastStateDate), old(log), durations, e0, d0);
        done := list[..i + 1];
        i := i + 1;
      }
      assert done == list;
      forall s | s in old(filed) || s in list
        ensures s.duration == FoldDuration(old(states), old(lastStateDate), list, s, old(s.duration))
      {
        assert s in durations;
      }
    }

    /** One turn of recordStates' loop, stated over the states and the last events
        recorded so far: e0 is the last event before the loop and d0 its duration. */
    method RecordStep(list: seq<ActivityState>, i: nat, now: int, ghost states0: StateMap, ghost date0: Option<int>,
                      ghost log0: seq<Record>, ghost durations0: map<ActivityState, int>,
                      ghost e0: ActivityEvent?, ghost d0: int)
      returns (last: ActivityState?)
      requires Valid() && i < |list|
      requires states == FoldStates(states0, list[..i]) && lastStateDate == FoldDate(states0, date0, list[..i])
      requires Appended(log, log0, list[..i])
      requires filed <= durations0.Keys && list[i] in durations0
      requires forall s :: s in durations0 ==> s.duration == FoldDuration(states0, date0, list[..i], s, durations0[s])
      requires EventsSoFar(list, i, now, e0, d0)
      modifies this, filed`duration, EventFrame()`duration
      ensures Valid()
      ensures states == FoldStates(states0, list[..i + 1]) && lastStateDate == FoldDate(states0, date0, list[..i + 1])
      ensures last == FoldReturn(states0, date0, list[..i + 1])
      ensures Appended(log, log0, list[..i + 1])
      ensures forall s :: s in durations0 ==> s.duration == FoldDuration(states0, date0, list[..i + 1], s, durations0[s])
      ensures filed == old(filed) + {list[i]}
      ensures EventsSoFar(list, i + 1, now, e0, d0)
      ensures Settled(lastEvent)
      ensures if Settled(old(lastEvent))
              then lastEvent == old(lastEvent) && events == old(events)
              else fresh(lastEvent) && IsHousekeeping(lastEvent, old(lastEvent).projectId, now, canSpan) &&
                   lastEvent.duration == 0 && events == AddEvent(old(events), lastEvent)
    {
      FoldStep(states0, date0, list, i);
      ghost var before := log;
      last := RecordAt(list, i, now, e0, d0);
      AppendedStep(log, before, log0, list, i);
      forall s | s in durations0
        ensures s.duration == FoldDuration(states0, date0, list[..i + 1], s, durations0[s])
      {
        FoldDurationStep(states0, date0, list, i, s, durations0[s]);
      }
    }

    /** What the calls on list[..i] left of the events: e0, the last event before
        them, closed as ClosedEventDuration says, and after a replacement the
        housekeeping event as the last event. */
    ghost predicate EventsSoFar(list: seq<ActivityState>, i: nat, now: int, e0: ActivityEvent?, d0: int)
      reads this, e0, EventFrame()
      requires i <= |list|
    {
      (e0 != null ==> e0.duration == ClosedEventDuration(e0.spannable, Settled(e0), e0.creationTime, d0, list[..i])) &&
      (i == 0 || Settled(e0) ==> lastEvent == e0) &&
      (i > 0 && !Settled(e0) ==>
         lastEvent != e0 && lastEvent != null && Settled(lastEvent) && lastEvent.creationTime == now &&
         lastEvent.duration == HousekeepingDuration(lastEvent.spannable, list, i, now))
    }

    /** recordState of list[i], with what it does to the events of the calls before. */
    method RecordAt(list: seq<ActivityState>, i: nat, now: int, ghost e0: ActivityEvent?, ghost d0: int)
      returns (last: ActivityState?)
      requires Valid() && i < |list| && EventsSoFar(list, i, now, e0, d0)
      modifies this, LastBucket()`duration, EventFrame()`duration
      ensures Valid()
      ensures states == AddState(old(states), list[i])
      ensures lastStateDate == NextDate(old(states), old(lastStateDate), list[i].creationTime)
      ensures last == ClosingOf(old(states), old(lastStateDate), list[i].creationTime)
      ensures filed == old(filed) + {list[i]}
      ensures log == old(log) + [StateRecord(list[i])]
      ensures forall s: ActivityState :: old(allocated(s)) ==>
                s.duration == StepDuration(old(states), old(lastStateDate), list[i].creationTime, s, old(s.duration))
      ensures EventsSoFar(list, i + 1, now, e0, d0)
      ensures Settled(lastEvent)
      ensures if Settled(old(lastEvent))
              then lastEvent == old(lastEvent) && events == old(events)
              else fresh(lastEvent) && IsHousekeeping(lastEvent, old(lastEvent).projectId, now, canSpan) &&
                   lastEvent.duration == 0 && events == AddEvent(old(events), lastEvent)
    {
      ghost var current := lastEvent;
      assert e0 != null && e0 != current ==> e0 !in EventFrame();
      label pre:
      last := RecordState(list[i], now);
      if e0 != null {
        EventStep(e0.spannable, Settled(e0), e0.creationTime, d0, list, i, old@pre(e0.duration), e0.duration, e0 == current);
        if !Settled(e0) {
          HousekeepingStep(lastEvent.spannable, list, i, now, old@pre(current.duration), lastEvent.duration);
        }
      }
    }

    /** createNullState(): one open Null state per project, all created at `now`. */
    static method CreateNullStates(projects: seq<ProjectId>, now: int) returns (nulls: seq<ActivityState>)
      ensures |nulls| == |projects|
      ensures forall i :: 0 <= i < |nulls| ==>
                fresh(nulls[i]) && nulls[i].activityType == Null && nulls[i].kind == NullActivityState &&
                nulls[i].projectId == projects[i] && nulls[i].creationTime == now && nulls[i].duration == 0
    {
      nulls := [];
      var i := 0;
      while i < |projects|
        invariant 0 <= i <= |projects| && |nulls| == i
        invariant forall k :: 0 <= k < i ==>
                    fresh(nulls[k]) && nulls[k].activityType == Null && nulls[k].kind == NullActivityState &&
                    nulls[k].projectId == projects[k] && nulls[k].creationTime == now && nulls[k].duration == 0
      {
        var s := new ActivityState(Null, projects[i], NullActivityState, now);
        nulls := nulls + [s];
        i := i + 1;
      }
    }

    /** flattenEvents: all project lists concatenated in key-set order, then
        regrouped by creation time. */
    static method FlattenEvents(events: EventMap) returns (flat: EventsByTime)
      ensures IsFlattening(flat, events)
    {
      var all, order := ConcatInKeyOrder(events);
      flat := GroupByTime(all);
    }

    /** The first loop of flattenEvents: addAll of every project's list, in the
        order the key set is visited. */
    static method ConcatInKeyOrder(events: EventMap) returns (all: seq<ActivityEvent>, ghost order: seq<ProjectId>)
      ensures IsEnumeration(order, events.Keys) && all == Concat(events, order)
    {
      all := [];
      var keys := events.Keys;
      order := [];
      while keys != {}
        invariant keys <= events.Keys
        invariant forall i :: 0 <= i < |order| ==> order[i] in events.Keys && order[i] !in keys
        invariant forall p :: p in events.Keys ==> p in keys || p in order
        invariant forall i, j :: 0 <= i < j < |order| ==> order[i] != order[j]
        invariant all == Concat(events, order)
        decreases keys
      {
        var p :| p in keys;
        ConcatStep(events, order, p);
        all := all + events[p];
        order := order + [p];
        keys := keys - {p};
      }
    }

    /** The second loop of flattenEvents: each event appended to the list of its
        creation time, the list created when missing. */
    static method GroupByTime(all: seq<ActivityEvent>) returns (flat: EventsByTime)
      ensures flat == Group(all)
    {
      flat := map[];
      var i := 0;
      while i < |all|
        invariant 0 <= i <= |all|
        invariant flat == Group(all[..i])
      {
        GroupStep(all, i);
        var event := all[i];
        var date := event.creationTime;
        if date !in flat {
          flat := flat[date := []];
        }
        flat := flat[date := flat[date] + [event]];
        i := i + 1;
      }
      assert all[..|all|] == all;
    }

    /** The first part of flush: one null state per project, all at `now`,
        recorded by recordStates. */
    method RecordNulls(nullProjects: seq<ProjectId>, now: int) returns (nulls: seq<ActivityState>, lastState: ActivityState?)
      requires Valid()
      modifies this, filed`duration, EventFrame()`duration
      ensures Valid()
      ensures |nulls| == |nullProjects|
      ensures forall i :: 0 <= i < |nulls| ==>
                fresh(nulls[i]) && nulls[i].activityType == Null && nulls[i].kind == NullActivityState &&
                nulls[i].projectId == nullProjects[i] && nulls[i].creationTime == now && nulls[i].duration == 0
      ensures states == FoldStates(old(states), nulls)
      ensures lastState == FoldReturn(old(states), old(lastStateDate), nulls)
      ensures log == old(log) + StateRecords(nulls)
      ensures forall s :: s in old(filed) ==>
                s.duration == if |nullProjects| == 0 then old(s.duration)
                              else StepDuration(old(states), old(lastStateDate), now, s, old(s.duration))
      ensures |nullProjects| > 0 ==> Settled(lastEvent)
      ensures if |nullProjects| > 0 && !Settled(old(lastEvent))
              then fresh(lastEvent) && IsHousekeeping(lastEvent, old(lastEvent).projectId, now, canSpan) &&
                   lastEvent.duration == 0 && events == AddEvent(old(events), lastEvent)
              else lastEvent == old(lastEvent) && events == old(events)
      ensures old(lastEvent) != null ==>
                old(lastEvent).duration == if |nullProjects| == 0 || old(lastEvent).spannable then old(lastEvent.duration)
                                           else now - old(lastEvent).creationTime
    {
      nulls := CreateNullStates(nullProjects, now);
      lastState := RecordStates(nulls, now);
      AppendedIsConcat(log, old(log), nulls);
      forall s | s in old(filed)
        ensures s.duration == if |nulls| == 0 then old(s.duration)
                              else StepDuration(old(states), old(lastStateDate), now, s, old(s.duration))
      {
        if |nulls| > 0 {
          SameTimeDuration(old(states), old(lastStateDate), nulls, now, s, old(s.duration));
        }
      }
      forall i | 0 <= i < |nulls|
        ensures nulls[i].duration == 0
      {
        SameTimeDuration(old(states), old(lastStateDate), nulls, now, nulls[i], 0);
      }
      if |nulls| > 0 {
        if old(lastEvent) != null {
          SameTimeEventDuration(old(lastEvent).spannable, Settled(old(lastEvent)), old(lastEvent).creationTime,
                                old(lastEvent.duration), nulls, now);
        }
        if lastEvent != null {
          SameTimeHousekeeping(lastEvent.spannable, nulls, now);
        }
      }
    }

    /** The synchronized part of flush: record the null states, hand over the
        maps (events flattened) and start afresh, then re-open the state the null
        states interrupted unless it was itself a null state. */
    method TakeSnapshot(nullProjects: seq<ProjectId>, now: int)
      returns (statesToSend: StateMap, eventsToSend: EventsByTime, nulls: seq<ActivityState>, reopened: ActivityState?)
      requires Valid()
      modifies this, filed`duration, EventFrame()`duration
      ensures Valid()
      ensures |nulls| == |nullProjects|
      ensures forall i :: 0 <= i < |nulls| ==>
                fresh(nulls[i]) && nulls[i].activityType == Null && nulls[i].kind == NullActivityState &&
                nulls[i].projectId == nullProjects[i] && nulls[i].creationTime == now && nulls[i].duration == 0
      ensures statesToSend == FoldStates(old(states), nulls)
      ensures forall s :: s in old(filed) ==>
                s.duration == if |nullProjects| == 0 then old(s.duration)
                              else StepDuration(old(states), old(lastStateDate), now, s, old(s.duration))
      ensures if |nullProjects| > 0 && !Settled(old(lastEvent))
              then fresh(lastEvent) && IsHousekeeping(lastEvent, old(lastEvent).projectId, now, canSpan) &&
                   lastEvent.duration == 0 && IsFlattening(eventsToSend, AddEvent(old(events), lastEvent))
              else lastEvent == old(lastEvent) && IsFlattening(eventsToSend, old(events))
      ensures old(lastEvent) != null ==>
                old(lastEvent).duration == if |nullProjects| == 0 || old(lastEvent).spannable then old(lastEvent.duration)
                                           else now - old(lastEvent).creationTime
      ensures events == map[]
      ensures var previous := FoldReturn(old(states), old(lastStateDate), nulls);
              if previous != null && previous.kind != NullActivityState
              then reopened != null && fresh(reopened) && reopened.activityType == previous.activityType &&
                   reopened.projectId == previous.projectId && reopened.kind == previous.kind &&
                   reopened.creationTime == now && reopened.duration == 0 && states == map[now := [reopened]] &&
                   log == old(log) + StateRecords(nulls) + [StateRecord(reopened)]
              else reopened == null && states == map[] && log == old(log) + StateRecords(nulls)
    {
      var lastState;
      nulls, lastState := RecordNulls(nullProjects, now);
      statesToSend, eventsToSend := SwapMaps();
      ghost var e0, current := old(lastEvent), lastEvent;
      assert e0 != null && e0 != current ==> e0 !in EventFrame();
      reopened := Reopen(lastState, now);
    }

    /** The hand-over of the maps inside flush: the live maps are sent, flattened
        for events, and replaced by empty ones. */
    method SwapMaps() returns (statesToSend: StateMap, eventsToSend: EventsByTime)
      requires Valid()
      modifies this
      ensures Valid()
      ensures statesToSend == old(states) && IsFlattening(eventsToSend, old(events))
      ensures states == map[] && events == map[]
      ensures lastEvent == old(lastEvent) && lastStateDate == old(lastStateDate) && log == old(log) && filed == old(filed)
    {
      statesToSend := states;
      eventsToSend := FlattenEvents(events);
      states := map[];
      events := map[];
    }

    /** The end of flush: the state the null states interrupted is re-opened at
        `now`, unless there is none or it is itself a null state. */
    method Reopen(lastState: ActivityState?, now: int) returns (reopened: ActivityState?)
      requires Valid() && states == map[] && events == map[] && (lastState != null ==> Settled(lastEvent))
      modifies this, EventFrame()`duration
      ensures Valid() && events == map[] && lastEvent == old(lastEvent)
      ensures lastEvent != null ==>
                lastEvent.duration == if reopened != null && !lastEvent.spannable then now - lastEvent.creationTime
                                      else old(lastEvent.duration)
      ensures if lastState != null && lastState.kind != NullActivityState
              then reopened != null && fresh(reopened) && reopened.activityType == lastState.activityType &&
                   reopened.projectId == lastState.projectId && reopened.kind == lastState.kind &&
                   reopened.creationTime == now && reopened.duration == 0 && states == map[now := [reopened]] &&
                   log == old(log) + [StateRecord(reopened)]
              else reopened == null && states == map[] && log == old(log)
    {
      reopened := null;
      if lastState != null && lastState.kind != NullActivityState {
        reopened := lastState.Recreate(now);
        var _ := RecordState(reopened, now);
        assert [] + [reopened] == [reopened];
        assert AddState(map[], reopened) == map[now := [reopened]];
      }
    }

    /** trySendEntriesOnFile: the file's result moves it to history (under its own
        name on success, with ".error" on a rejection or an IOException) or leaves it
        in the cache. A success falls through into the second rename, which then
        finds no source file. */
    static method TrySendEntriesOnFile(fileName: string, store: OfflineCache, fileAttempt: string -> FileAttempt)
      modifies store
      ensures var outcome := FileOutcome(fileAttempt(fileName));
              store.cache == (if fileName in old(store.cache) && outcome != Skip then old(store.cache) - {fileName} else old(store.cache)) &&
              store.history == old(store.history) +
                (if fileName !in old(store.cache) then {}
                 else if outcome == Succeded then {fileName}
                 else if outcome == Report then {fileName + ErrorSuffix}
                 else {})
    {
      var result := FileOutcome(fileAttempt(fileName));
      if result == Succeded {
        var _ := store.Rename(fileName, fileName);
      }
      if result == Succeded || result == Report {
        var _ := store.Rename(fileName, fileName + ErrorSuffix);
      }
    }

    /** The retry loop over the files listed in the cache folder once. */
    static method RetryCachedFiles(store: OfflineCache, fileAttempt: string -> FileAttempt)
      modifies store
      ensures store.Contents() == Sweep(old(store.Contents()), fileAttempt)
    {
      var files := store.cache;
      ghost var done: set<string> := {};
      while files != {}
        invariant files <= old(store.cache) && done == old(store.cache) - files
        invariant store.cache == files + (set f | f in done && FileOutcome(fileAttempt(f)) == Skip :: f)
        invariant store.history == old(store.history) +
                    (set f | f in done && FileOutcome(fileAttempt(f)) == Succeded :: f) +
                    (set f | f in done && FileOutcome(fileAttempt(f)) == Report :: f + ErrorSuffix)
        decreases files
      {
        var f :| f in files;
        TrySendEntriesOnFile(f, store, fileAttempt);
        files := files - {f};
        done := done + {f};
      }
    }

    /** The loop of flush over the ActivityInfo entries. It throws (`threw`) at the
        sent entry whose cache-folder listing is null, before any file is retried. */
    static method Deliver(entries: seq<Entry>, cacheAvailable: bool, listingFailsAt: Option<nat>, store: OfflineCache,
                          fileAttempt: string -> FileAttempt)
      returns (result: FlushResult, threw: bool)
      modifies store
      ensures threw <==> ListingThrows(entries, cacheAvailable, listingFailsAt)
      ensures !threw ==> result == FoldResults(entries, cacheAvailable)
      ensures store.Contents() == Delivered(old(store.Contents()), entries[..Handled(entries, cacheAvailable, listingFailsAt)],
                                            cacheAvailable, fileAttempt)
    {
      result, threw := Succeded, false;
      var i := 0;
      while i < |entries|
        invariant 0 <= i <= |entries|
        invariant result == FoldResults(entries[..i], cacheAvailable)
        invariant store.Contents() == Delivered(old(store.Contents()), entries[..i], cacheAvailable, fileAttempt)
        invariant listingFailsAt.Some? && SentEntry(entries, cacheAvailable, listingFailsAt.value) ==> i <= listingFailsAt.value
      {
        assert entries[..i + 1][..i] == entries[..i];
        var info := entries[i];
        if info.valid && cacheAvailable {
          var intermediate := TrySendEntries(info.attempt);
          if intermediate == Succeded {
            if listingFailsAt == Some(i) {
              threw := true;
              return;
            }
            RetryCachedFiles(store, fileAttempt);
          } else {
            store.Write(info.cacheFile);
          }
          if intermediate != Succeded && intermediate != Skip {
            result := intermediate;
          }
        }
        i := i + 1;
      }
      assert entries[..|entries|] == entries;
    }

    /** The part of flush after the snapshot: Skip when the processor or the built
        list is invalid, and otherwise the loop over the entries. `threw` says that
        it ends in an exception instead (building the ActivityInfo list throws, or a listing
        of the cache folder is null), and `result` is then meaningless. */
    static method SendBatch(processorValid: bool, buildThrows: bool, listValid: bool, entries: seq<Entry>,
                            cacheAvailable: bool, listingFailsAt: Option<nat>, store: OfflineCache,
                            fileAttempt: string -> FileAttempt)
      returns (result: FlushResult, threw: bool)
      modifies store
      ensures threw == FlushThrows(processorValid, buildThrows, listValid, entries, cacheAvailable, listingFailsAt)
      ensures !threw ==> result == FlushOutcome(processorValid, listValid, entries, cacheAvailable)
      ensures store.Contents() == if processorValid && !buildThrows && listValid
                                  then Delivered(old(store.Contents()), entries[..Handled(entries, cacheAvailable, listingFailsAt)],
                                                 cacheAvailable, fileAttempt)
                                  else old(store.Contents())
    {
      result, threw := Skip, false;
      if !processorValid {
        return;
      }
      if buildThrows {
        threw := true;
        return;
      }
      if !listValid {
        return;
      }
      result, threw := Deliver(entries, cacheAvailable, listingFailsAt, store, fileAttempt);
      FoldResultsNeverSkip(entries, cacheAvailable);
    }

    /** flush: take the snapshot, then send it. `nulls` and `reopened` are the
        null states it records and the state it re-opens. The send reads only its
        own parameters and changes only the store, which the snapshot does not
        touch, so the two calls commute; the send is made first here. */
    method Flush(nullProjects: seq<ProjectId>, now: int, processorValid: bool, buildThrows: bool, listValid: bool,
                 entries: seq<Entry>, cacheAvailable: bool, listingFailsAt: Option<nat>, store: OfflineCache,
                 fileAttempt: string -> FileAttempt)
      returns (result: FlushResult, threw: bool, ghost nulls: seq<ActivityState>, ghost reopened: ActivityState?)
      requires Valid()
      modifies this, filed`duration, EventFrame()`duration, store
      ensures Valid()
      ensures threw == FlushThrows(processorValid, buildThrows, listValid, entries, cacheAvailable, listingFailsAt)
      ensures !threw ==> result == FlushOutcome(processorValid, listValid, entries, cacheAvailable)
      ensures store.Contents() == if processorValid && !buildThrows && listValid
                                  then Delivered(old(store.Contents()), entries[..Handled(entries, cacheAvailable, listingFailsAt)],
                                                 cacheAvailable, fileAttempt)
                                  else old(store.Contents())
      ensures |nulls| == |nullProjects|
      ensures forall i :: 0 <= i < |nulls| ==>
                fresh(nulls[i]) && nulls[i].activityType == Null && nulls[i].kind == NullActivityState &&
                nulls[i].projectId == nullProjects[i] && nulls[i].creationTime == now && nulls[i].duration == 0
      ensures forall s :: s in old(filed) ==>
                s.duration == if |nullProjects| == 0 then old(s.duration)
                              else StepDuration(old(states), old(lastStateDate), now, s, old(s.duration))
      ensures if |nullProjects| > 0 && !Settled(old(lastEvent))
              then fresh(lastEvent) && IsHousekeeping(lastEvent, old(lastEvent).projectId, now, canSpan) &&
                   lastEvent.duration == 0
              else lastEvent == old(lastEvent)
      ensures old(lastEvent) != null ==>
                old(lastEvent).duration == if |nullProjects| == 0 || old(lastEvent).spannable then old(lastEvent.duration)
                                           else now - old(lastEvent).creationTime
      ensures events == map[]
      ensures var previous := FoldReturn(old(states), old(lastStateDate), nulls);
              if previous != null && previous.kind != NullActivityState
              then reopened != null && fresh(reopened) && reopened.activityType == previous.activityType &&
                   reopened.projectId == previous.projectId && reopened.kind == previous.kind &&
                   reopened.creationTime == now && reopened.duration == 0 && states == map[now := [reopened]] &&
                   log == old(log) + StateRecords(nulls) + [StateRecord(reopened)]
              else reopened == null && states == map[] && log == old(log) + StateRecords(nulls)
    {
      result, threw := SendBatch(processorValid, buildThrows, listValid, entries, cacheAvailable, listingFailsAt,
                                 store, fileAttempt);
      var statesToSend, eventsToSend;
      statesToSend, eventsToSend, nulls, reopened := TakeSnapshot(nullProjects, now);
    }
  }
}
