/** The recorder's maps as values: how recordState and recordEvent change them,
    what recordState hands back, and how flattenEvents regroups the events. */
module RecordingModel {
  import opened Wrappers
  import opened ActivityModel

  /** TreeMap<DateTime, List<ActivityState>>, keyed by creation time. */
  type StateMap = map<int, seq<ActivityState>>
  /** Map<UUID, List<ActivityEvent>>, keyed by project. */
  type EventMap = map<ProjectId, seq<ActivityEvent>>
  /** TreeMap<DateTime, List<ActivityEvent>>, the flattened events. */
  type EventsByTime = map<int, seq<ActivityEvent>>

  /** What callers asked the recorder to record, in order. */
  datatype Record = StateRecord(state: ActivityState) | EventRecord(event: ActivityEvent)

  function StateRecords(list: seq<ActivityState>): seq<Record> {
    if |list| == 0 then [] else StateRecords(list[..|list| - 1]) + [StateRecord(list[|list| - 1])]
  }

  /** Appending to a log in two steps is appending the two parts at once. */
  lemma AppendTwice(log: seq<Record>, a: seq<Record>, b: seq<Record>)
    ensures log + a + b == log + (a + b)
  {
  }

  /** Appending to a log keeps every prefix of it. */
  lemma PrefixKept(log: seq<Record>, more: seq<Record>, n: nat)
    requires n <= |log|
    ensures (log + more)[..n] == log[..n]
  {
    assert forall k :: 0 <= k < n ==> (log + more)[k] == log[k];
  }

  /** log is `before` followed by one StateRecord per state of the list. */
  predicate Appended(log: seq<Record>, before: seq<Record>, list: seq<ActivityState>) {
    |log| == |before| + |list| && log[..|before|] == before &&
    forall k :: 0 <= k < |list| ==> log[|before| + k] == StateRecord(list[k])
  }

  /** One more recordState call extends the records by exactly its state. */
  lemma AppendedStep(log': seq<Record>, log: seq<Record>, before: seq<Record>, list: seq<ActivityState>, i: int)
    requires 0 <= i < |list| && Appended(log, before, list[..i]) && log' == log + [StateRecord(list[i])]
    ensures Appended(log', before, list[..i + 1])
  {
    PrefixKept(log, [StateRecord(list[i])], |before|);
    var extended := list[..i + 1];
    forall k | 0 <= k < i + 1
      ensures log'[|before| + k] == StateRecord(extended[k])
    {
      if k < i {
        assert log'[|before| + k] == log[|before| + k];
      }
    }
  }

  /** Appended says the same as concatenating the records of the list. */
  lemma {:induction false} AppendedIsConcat(log: seq<Record>, before: seq<Record>, list: seq<ActivityState>)
    ensures Appended(log, before, list) <==> log == before + StateRecords(list)
    decreases |list|
  {
    var n := |list|;
    if n == 0 {
      if Appended(log, before, list) {
        assert log == log[..|before|];
      }
    } else {
      var init := list[..n - 1];
      assert list[..n - 1] == init && list[..n] == list;
      if Appended(log, before, list) {
        var l := log[..|log| - 1];
        assert l[..|before|] == log[..|before|];
        forall k | 0 <= k < n - 1
          ensures l[|before| + k] == StateRecord(init[k])
        {
          assert l[|before| + k] == log[|before| + k];
        }
        AppendedIsConcat(l, before, init);
        assert log == l + [StateRecord(list[n - 1])];
      }
      if log == before + StateRecords(list) {
        var l := before + StateRecords(init);
        AppendedIsConcat(l, before, init);
        AppendedStep(log, l, before, list, n - 1);
      }
    }
  }

  // ---------------------------------------------------------------- states

  function Bucket(states: StateMap, t: int): seq<ActivityState> {
    if t in states then states[t] else []
  }

  /** Every bucket is non-empty and holds only states created at its key. */
  predicate WellFiled(states: StateMap) {
    forall t :: t in states ==> |states[t]| > 0 && forall s :: s in states[t] ==> s.creationTime == t
  }

  /** recordState's update of the map: the state goes at the end of the bucket for
      its creation time, which is created empty when absent. */
  function AddState(states: StateMap, s: ActivityState): (r: StateMap)
    ensures r.Keys == states.Keys + {s.creationTime}
    ensures forall t :: t in states && t != s.creationTime ==> r[t] == states[t]
  {
    states[s.creationTime := Bucket(states, s.creationTime) + [s]]
  }

  /** lastStateDate moves to the new time only when a bucket is created for it. */
  function NextDate(states: StateMap, date: Option<int>, t: int): Option<int> {
    if t in states then date else Some(t)
  }

  /** Whether recordState at time t closes the bucket at lastStateDate: the dates
      differ and that bucket is still in the map. */
  predicate Closes(states: StateMap, date: Option<int>, t: int) {
    date.Some? && date.value != t && date.value in states
  }

  /** recordState's result: the last state of the previous-timestamp bucket. */
  function ClosingOf(states: StateMap, date: Option<int>, t: int): ActivityState? {
    if Closes(states, date, t) && |states[date.value]| > 0 then states[date.value][|states[date.value]| - 1]
    else null
  }

  /** Every filed state is in `filed`. */
  predicate Covered(states: StateMap, filed: set<ActivityState>) {
    forall t :: t in states ==> forall s :: s in states[t] ==> s in filed
  }

  lemma AddStateCovered(states: StateMap, s: ActivityState, filed: set<ActivityState>)
    requires Covered(states, filed)
    ensures Covered(AddState(states, s), filed + {s})
  {
    var r := AddState(states, s);
    forall t | t in r
      ensures forall x :: x in r[t] ==> x in filed + {s}
    {
      if t == s.creationTime {
        assert r[t] == Bucket(states, t) + [s];
      }
    }
  }

  /** recordState's two steps (put an empty bucket when missing, then append)
      are AddState, and they keep the map well filed and covered. */
  lemma PutThenAppend(states: StateMap, s: ActivityState, filed: set<ActivityState>)
    requires WellFiled(states) && Covered(states, filed)
    ensures var put := if s.creationTime in states then states else states[s.creationTime := []];
            var r := put[s.creationTime := put[s.creationTime] + [s]];
            r == AddState(states, s) && WellFiled(r) && Covered(r, filed + {s})
  {
    AddStateFiled(states, s);
    AddStateCovered(states, s, filed);
    var put := if s.creationTime in states then states else states[s.creationTime := []];
    assert put[s.creationTime] == Bucket(states, s.creationTime);
  }

  lemma BucketCovered(states: StateMap, t: int, filed: set<ActivityState>)
    requires Covered(states, filed) && t in states
    ensures (set x | x in states[t]) <= filed
  {
  }

  /** The duration a state of the closed bucket ends up with: an open one (0) is
      closed against t, a closed one keeps its duration. */
  function ClosedDuration(duration: int, creationTime: int, t: int): int {
    if duration == 0 then t - creationTime else duration
  }

  /** A bucket is appended to and never reordered: the new state is last, and the
      states before it are the old bucket. */
  lemma AddStateAppends(states: StateMap, s: ActivityState)
    ensures AddState(states, s)[s.creationTime] == Bucket(states, s.creationTime) + [s]
    ensures s.creationTime in states ==> AddState(states, s)[s.creationTime][..|states[s.creationTime]|] == states[s.creationTime]
  {
  }

  lemma AddStateFiled(states: StateMap, s: ActivityState)
    requires WellFiled(states)
    ensures WellFiled(AddState(states, s))
  {
  }

  /** The returned state belongs to the previous timestamp, never to the new one,
      and it is null exactly when nothing is closed or the old bucket is empty. */
  lemma ClosingIsPrevious(states: StateMap, date: Option<int>, t: int)
    requires WellFiled(states)
    ensures ClosingOf(states, date, t) != null <==> Closes(states, date, t)
    ensures ClosingOf(states, date, t) != null ==>
              ClosingOf(states, date, t).creationTime == date.value != t &&
              ClosingOf(states, date, t) in states[date.value]
  {
    if Closes(states, date, t) {
      var b := states[date.value];
      assert b[|b| - 1] in b;
    }
  }

  /** Closing a closed state again changes nothing. */
  lemma ClosedDurationIdempotent(duration: int, creationTime: int, t: int)
    requires t != creationTime
    ensures ClosedDuration(ClosedDuration(duration, creationTime, t), creationTime, t) == ClosedDuration(duration, creationTime, t)
    ensures ClosedDuration(duration, creationTime, t) != 0
  {
  }

  /** recordStates over a list: the maps, the date and the result after each call. */
  function FoldStates(states: StateMap, list: seq<ActivityState>): StateMap {
    if |list| == 0 then states else AddState(FoldStates(states, list[..|list| - 1]), list[|list| - 1])
  }

  function FoldDate(states: StateMap, date: Option<int>, list: seq<ActivityState>): Option<int> {
    if |list| == 0 then date
    else NextDate(FoldStates(states, list[..|list| - 1]), FoldDate(states, date, list[..|list| - 1]), list[|list| - 1].creationTime)
  }

  function FoldReturn(states: StateMap, date: Option<int>, list: seq<ActivityState>): ActivityState? {
    if |list| == 0 then null
    else ClosingOf(FoldStates(states, list[..|list| - 1]), FoldDate(states, date, list[..|list| - 1]), list[|list| - 1].creationTime)
  }

  /** After recordStates every state of the list is filed under its own creation
      time, the map stays well filed, and no earlier bucket is dropped. */
  lemma {:induction false} FoldStatesFiles(states: StateMap, list: seq<ActivityState>)
    requires WellFiled(states)
    ensures WellFiled(FoldStates(states, list))
    ensures states.Keys <= FoldStates(states, list).Keys
    ensures forall i :: 0 <= i < |list| ==> list[i].creationTime in FoldStates(states, list) && list[i] in FoldStates(states, list)[list[i].creationTime]
  {
    if |list| > 0 {
      var init := list[..|list| - 1];
      var s := list[|list| - 1];
      FoldStatesFiles(states, init);
      var before := FoldStates(states, init);
      AddStateFiled(before, s);
      AddStateAppends(before, s);
      forall i | 0 <= i < |list|
        ensures list[i].creationTime in FoldStates(states, list) && list[i] in FoldStates(states, list)[list[i].creationTime]
      {
        if i < |list| - 1 {
          assert list[i] == init[i];
          var t := init[i].creationTime;
          if t == s.creationTime {
            assert before[t] == Bucket(before, t);
          }
        }
      }
    }
  }

  /** One more call of recordState, in terms of the folds. */
  lemma FoldStep(states: StateMap, date: Option<int>, list: seq<ActivityState>, i: int)
    requires 0 <= i < |list|
    ensures FoldStates(states, list[..i + 1]) == AddState(FoldStates(states, list[..i]), list[i])
    ensures FoldDate(states, date, list[..i + 1]) == NextDate(FoldStates(states, list[..i]), FoldDate(states, date, list[..i]), list[i].creationTime)
    ensures FoldReturn(states, date, list[..i + 1]) == ClosingOf(FoldStates(states, list[..i]), FoldDate(states, date, list[..i]), list[i].creationTime)
    ensures StateRecords(list[..i + 1]) == StateRecords(list[..i]) + [StateRecord(list[i])]
  {
    assert list[..i + 1][..i] == list[..i];
  }

  /** The duration a state has after recordState at time t, from duration d, given
      the map and the date before the call: only the states of the bucket that
      closes change, each as ClosedDuration says. */
  function StepDuration(states: StateMap, date: Option<int>, t: int, s: ActivityState, d: int): int {
    if Closes(states, date, t) && s in states[date.value] then ClosedDuration(d, s.creationTime, t) else d
  }

  /** The duration a state has after recordStates over a list, from duration d. */
  function FoldDuration(states: StateMap, date: Option<int>, list: seq<ActivityState>, s: ActivityState, d: int): int {
    if |list| == 0 then d
    else
      var init := list[..|list| - 1];
      StepDuration(FoldStates(states, init), FoldDate(states, date, init), list[|list| - 1].creationTime, s,
                   FoldDuration(states, date, init, s, d))
  }

  lemma FoldDurationStep(states: StateMap, date: Option<int>, list: seq<ActivityState>, i: int, s: ActivityState, d: int)
    requires 0 <= i < |list|
    ensures FoldDuration(states, date, list[..i + 1], s, d) ==
            StepDuration(FoldStates(states, list[..i]), FoldDate(states, date, list[..i]), list[i].creationTime, s,
                         FoldDuration(states, date, list[..i], s, d))
  {
    assert list[..i + 1][..i] == list[..i];
  }

  /** States that all share one creation time t add t to the keys, leave every
      other bucket alone, and move the date as the first of them does. */
  lemma {:induction false} SameTimeFold(states: StateMap, date: Option<int>, list: seq<ActivityState>, t: int)
    requires |list| > 0 && forall i :: 0 <= i < |list| ==> list[i].creationTime == t
    ensures FoldStates(states, list).Keys == states.Keys + {t}
    ensures forall k :: k in states && k != t ==> FoldStates(states, list)[k] == states[k]
    ensures FoldDate(states, date, list) == NextDate(states, date, t)
  {
    var init := list[..|list| - 1];
    if |init| > 0 {
      SameTimeFold(states, date, init, t);
    }
  }

  /** Recording several states of one time t closes the bucket at the date once,
      against t, as recording only the first of them does: the later ones either
      find the date at t or close the same bucket again, which changes nothing. */
  lemma {:induction false} SameTimeDuration(states: StateMap, date: Option<int>, list: seq<ActivityState>, t: int,
                                           s: ActivityState, d: int)
    requires WellFiled(states)
    requires |list| > 0 && forall i :: 0 <= i < |list| ==> list[i].creationTime == t
    ensures FoldDuration(states, date, list, s, d) == StepDuration(states, date, t, s, d)
  {
    var init := list[..|list| - 1];
    if |init| > 0 {
      SameTimeDuration(states, date, init, t, s, d);
      SameTimeFold(states, date, init, t);
      var x := StepDuration(states, date, t, s, d);
      if Closes(states, date, t) && s in states[date.value] {
        ClosedDurationIdempotent(d, s.creationTime, t);
      }
      assert StepDuration(FoldStates(states, init), FoldDate(states, date, init), t, s, x) == x;
    }
  }

  // ---------------------------------------------------------------- events

  /** Every list holds only events of its own project. */
  predicate EventsFiled(events: EventMap) {
    forall p :: p in events ==> forall e :: e in events[p] ==> e.projectId == p
  }

  function ProjectEvents(events: EventMap, p: ProjectId): seq<ActivityEvent> {
    if p in events then events[p] else []
  }

  /** getProjectEvents' update: a missing project gets an empty list. */
  function WithProject(events: EventMap, p: ProjectId): (r: EventMap)
    ensures p in r && r[p] == ProjectEvents(events, p)
    ensures forall q :: q in events ==> q in r && r[q] == events[q]
    ensures r.Keys == events.Keys + {p}
  {
    if p in events then events else events[p := []]
  }

  /** recordEvent's steps (getProjectEvents, then append) are AddEvent. */
  lemma WithProjectThenAppend(events: EventMap, e: ActivityEvent)
    ensures WithProject(events, e.projectId)[e.projectId := ProjectEvents(events, e.projectId) + [e]] == AddEvent(events, e)
  {
  }

  /** getLastEvent: the tail of the project's list, or null. */
  function LastEvent(events: EventMap, p: ProjectId): ActivityEvent? {
    if p in events && |events[p]| > 0 then events[p][|events[p]| - 1] else null
  }

  /** recordEvent's update of the map: the event goes at the end of its project's
      list, which is created empty when absent; the other lists do not change. */
  function AddEvent(events: EventMap, e: ActivityEvent): (r: EventMap)
    ensures r.Keys == events.Keys + {e.projectId}
    ensures forall q :: q in events && q != e.projectId ==> r[q] == events[q]
  {
    events[e.projectId := ProjectEvents(events, e.projectId) + [e]]
  }

  /** The event recorded last is what getLastEvent gives next, and the list grows
      by exactly that event. */
  lemma AddEventThenLast(events: EventMap, e: ActivityEvent)
    ensures LastEvent(AddEvent(events, e), e.projectId) == e
    ensures AddEvent(events, e)[e.projectId][..|ProjectEvents(events, e.projectId)|] == ProjectEvents(events, e.projectId)
    ensures forall q :: q != e.projectId ==> LastEvent(AddEvent(events, e), q) == LastEvent(events, q)
  {
  }

  lemma AddEventFiled(events: EventMap, e: ActivityEvent)
    requires EventsFiled(events)
    ensures EventsFiled(AddEvent(events, e))
  {
  }

  /** A last event that recordState does not replace by a housekeeping event:
      none, one that may span states, or one of type Event. */
  predicate Settled(e: ActivityEvent?) {
    e == null || e.spannable || e.activityType == Event
  }

  /** The duration recordStates over `list` leaves on the event that was the last
      event before it, from duration d: while it is the last event, each recordState
      closes a non-spannable one at the state's time; an unsettled one stops being
      the last event after the first call. */
  function ClosedEventDuration(spannable: bool, settled: bool, creationTime: int, d: int, list: seq<ActivityState>): int {
    if |list| == 0 || spannable then d
    else if settled then list[|list| - 1].creationTime - creationTime
    else list[0].creationTime - creationTime
  }

  /** The same duration, one recordState at a time: while the event is the last
      event, each call gives a non-spannable one the span up to the state's time. */
  function EventFold(spannable: bool, settled: bool, creationTime: int, d: int, list: seq<ActivityState>): int {
    if |list| == 0 then d
    else
      var init := list[..|list| - 1];
      if spannable || (!settled && |init| > 0) then EventFold(spannable, settled, creationTime, d, init)
      else list[|list| - 1].creationTime - creationTime
  }

  /** One recordState on top of ClosedEventDuration: the call closes the event
      when it is still the last event, and leaves it alone otherwise. */
  lemma EventStep(spannable: bool, settled: bool, creationTime: int, d: int, list: seq<ActivityState>, i: int,
                  before: int, after: int, isLast: bool)
    requires 0 <= i < |list| && before == ClosedEventDuration(spannable, settled, creationTime, d, list[..i])
    requires isLast ==> (i == 0 || settled) && after == if spannable then before else list[i].creationTime - creationTime
    requires !isLast ==> i > 0 && !settled && after == before
    ensures after == ClosedEventDuration(spannable, settled, creationTime, d, list[..i + 1])
  {
    if i > 0 {
      assert list[..i][0] == list[0];
    }
  }

  /** Closing the last event call by call gives the closed form: the span to the
      last state's time for a settled event, to the first one's otherwise. */
  lemma {:induction false} EventFoldIsClosed(spannable: bool, settled: bool, creationTime: int, d: int,
                                            list: seq<ActivityState>)
    ensures EventFold(spannable, settled, creationTime, d, list) == ClosedEventDuration(spannable, settled, creationTime, d, list)
  {
    if |list| > 0 {
      var init := list[..|list| - 1];
      EventFoldIsClosed(spannable, settled, creationTime, d, init);
      if |init| > 0 {
        assert init[0] == list[0];
      }
    }
  }

  /** The duration of the housekeeping event that the first of recordStates' calls
      recorded, once the first i states are recorded: it is the last event from then
      on, so a non-spannable one is closed at each later state's time. */
  function HousekeepingDuration(spannable: bool, list: seq<ActivityState>, i: int, now: int): int
    requires 0 < i <= |list|
  {
    ClosedEventDuration(spannable, true, now, 0, list[1..i])
  }

  /** One recordState on top of HousekeepingDuration: the first call records the
      housekeeping event open, and each later one closes it again. */
  lemma HousekeepingStep(spannable: bool, list: seq<ActivityState>, i: int, now: int, before: int, after: int)
    requires 0 <= i < |list|
    requires i == 0 ==> after == 0
    requires i > 0 ==> before == HousekeepingDuration(spannable, list, i, now) &&
                       after == if spannable then before else list[i].creationTime - now
    ensures after == HousekeepingDuration(spannable, list, i + 1, now)
  {
  }

  /** Over states that all share the time `now`, a non-spannable last event is
      closed at `now`, settled or not. */
  lemma SameTimeEventDuration(spannable: bool, settled: bool, creationTime: int, d: int, list: seq<ActivityState>, now: int)
    requires |list| > 0 && forall i :: 0 <= i < |list| ==> list[i].creationTime == now
    ensures ClosedEventDuration(spannable, settled, creationTime, d, list) == if spannable then d else now - creationTime
  {
    assert list[0].creationTime == now && list[|list| - 1].creationTime == now;
  }

  /** Over states that all share the time `now`, the housekeeping event recorded
      at `now` keeps its duration 0. */
  lemma SameTimeHousekeeping(spannable: bool, list: seq<ActivityState>, now: int)
    requires |list| > 0 && forall i :: 0 <= i < |list| ==> list[i].creationTime == now
    ensures HousekeepingDuration(spannable, list, |list|, now) == 0
  {
    if |list| > 1 {
      assert list[1..|list|][|list| - 2] == list[|list| - 1];
    }
  }

  /** The event recordState records when it closes a non-spannable last event. */
  predicate IsHousekeeping(e: ActivityEvent, projectId: ProjectId, now: int, canSpan: (ActivityType, bool) -> bool) {
    e.activityType == Event && e.projectId == projectId && e.context == NullContext &&
    e.creationTime == now && e.spannable == canSpan(Event, false) && !e.isBuild
  }

  /** A housekeeping event is settled, so it never triggers another one. */
  lemma HousekeepingSettled(e: ActivityEvent, projectId: ProjectId, now: int, canSpan: (ActivityType, bool) -> bool)
    requires IsHousekeeping(e, projectId, now, canSpan)
    ensures Settled(e)
  {
  }

  // ---------------------------------------------------------------- flattening

  /** The per-project lists concatenated in the given key order. */
  function Concat(events: EventMap, order: seq<ProjectId>): seq<ActivityEvent> {
    if |order| == 0 then []
    else Concat(events, order[..|order| - 1]) + ProjectEvents(events, order[|order| - 1])
  }

  lemma ConcatStep(events: EventMap, order: seq<ProjectId>, p: ProjectId)
    ensures Concat(events, order + [p]) == Concat(events, order) + ProjectEvents(events, p)
  {
    assert (order + [p])[..|order|] == order;
  }

  /** order lists every key of the map exactly once (a key-set iteration order). */
  predicate IsEnumeration(order: seq<ProjectId>, keys: set<ProjectId>) {
    (forall i :: 0 <= i < |order| ==> order[i] in keys) &&
    (forall p :: p in keys ==> p in order) &&
    (forall i, j :: 0 <= i < j < |order| ==> order[i] != order[j])
  }

  /** The events of xs created at time d, in their order in xs. */
  function OnDate(xs: seq<ActivityEvent>, d: int): seq<ActivityEvent> {
    if |xs| == 0 then []
    else OnDate(xs[..|xs| - 1], d) + (if xs[|xs| - 1].creationTime == d then [xs[|xs| - 1]] else [])
  }

  /** The second loop of flattenEvents: each event appended to the list of its
      creation time. */
  function Group(xs: seq<ActivityEvent>): EventsByTime {
    if |xs| == 0 then map[]
    else
      var g := Group(xs[..|xs| - 1]);
      var e := xs[|xs| - 1];
      g[e.creationTime := (if e.creationTime in g then g[e.creationTime] else []) + [e]]
  }

  lemma GroupStep(xs: seq<ActivityEvent>, i: int)
    requires 0 <= i < |xs|
    ensures Group(xs[..i + 1]) == (var g := Group(xs[..i]); var e := xs[i];
                                   g[e.creationTime := (if e.creationTime in g then g[e.creationTime] else []) + [e]])
  {
    assert xs[..i + 1][..i] == xs[..i];
  }

  /** flattenEvents' result for some iteration order of the project keys. */
  ghost predicate IsFlattening(flat: EventsByTime, events: EventMap) {
    exists order :: IsEnumeration(order, events.Keys) && flat == Group(Concat(events, order))
  }

  /** Grouping files each event under its own creation time, keeps the input order
      within a time, and makes a key only for times that occur. */
  lemma {:induction false} GroupIsOnDate(xs: seq<ActivityEvent>, d: int)
    ensures d in Group(xs) <==> |OnDate(xs, d)| > 0
    ensures d in Group(xs) ==> Group(xs)[d] == OnDate(xs, d)
  {
    if |xs| > 0 {
      GroupIsOnDate(xs[..|xs| - 1], d);
    }
  }

  /** Within a time every event occurs as often as in the input: exactly once for
      events recorded once. */
  lemma {:induction false} OnDateCounts(xs: seq<ActivityEvent>, d: int, e: ActivityEvent)
    ensures multiset(OnDate(xs, d))[e] == if e.creationTime == d then multiset(xs)[e] else 0
  {
    if |xs| > 0 {
      var init := xs[..|xs| - 1];
      OnDateCounts(init, d, e);
      assert xs == init + [xs[|xs| - 1]];
    }
  }

  /** The concatenation holds exactly the events of the listed projects. */
  lemma {:induction false} ConcatMembers(events: EventMap, order: seq<ProjectId>, e: ActivityEvent)
    ensures e in Concat(events, order) <==> exists i :: 0 <= i < |order| && e in ProjectEvents(events, order[i])
  {
    if |order| > 0 {
      var init := order[..|order| - 1];
      ConcatMembers(events, init, e);
      if e in ProjectEvents(events, order[|order| - 1]) {
        assert 0 <= |order| - 1 < |order|;
      }
      if exists i :: 0 <= i < |order| && e in ProjectEvents(events, order[i]) {
        var i :| 0 <= i < |order| && e in ProjectEvents(events, order[i]);
        if i < |order| - 1 {
          assert order[i] == init[i];
        }
      }
    }
  }

  /** Every recorded event appears in the flattened map, under its own time, and
      only recorded events appear there. */
  lemma FlatteningKeepsEvents(flat: EventsByTime, events: EventMap, e: ActivityEvent)
    requires IsFlattening(flat, events)
    ensures (exists p :: p in events && e in events[p]) <==> (e.creationTime in flat && e in flat[e.creationTime])
  {
    var order :| IsEnumeration(order, events.Keys) && flat == Group(Concat(events, order));
    var xs := Concat(events, order);
    ConcatMembers(events, order, e);
    GroupIsOnDate(xs, e.creationTime);
    OnDateCounts(xs, e.creationTime, e);
    if exists p :: p in events && e in events[p] {
      var p :| p in events && e in events[p];
      var i :| 0 <= i < |order| && order[i] == p;
      assert e in ProjectEvents(events, order[i]);
    }
    if e.creationTime in flat && e in flat[e.creationTime] {
      var i :| 0 <= i < |order| && e in ProjectEvents(events, order[i]);
      assert order[i] in events;
    }
  }
}
