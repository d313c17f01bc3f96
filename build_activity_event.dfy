/** BuildActivityEvent: the event recorded around a build. Apart from the
    constructor (ActivityModel.ActivityEvent.Build) its only behaviour is two
    predicates over its immutable type. */
module BuildActivityEvent {
  import opened ActivityModel

  /** isMarker: every build event except the build start is a marker. */
  predicate IsMarker(t: ActivityType) {
    t != BuildProject
  }

  /** isBuildEvent: always true for a build event. */
  predicate IsBuildEvent(t: ActivityType) {
    true
  }

  /** The four result types the post-build handler records. */
  const PostBuildTypes: set<ActivityType> :=
    {BuildProjectFailed, BuildSolutionFailed, BuildProjectSucceeded, BuildSolutionSucceded}

  /** Every result type the post-build handler records is a marker build event. */
  lemma MarkerClassification(t: ActivityType)
    ensures t in PostBuildTypes ==> IsMarker(t) && IsBuildEvent(t)
  {
  }
}
