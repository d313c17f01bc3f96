/** How a flush turns server answers into a FlushResult and into moves of files
    between the offline cache directory and the history directory. Everything
    here is a function of the answers, which are inputs: the HTTP client itself
    is not part of this model. */
module FlushOutcomes {
  import opened Wrappers

  datatype FlushResult = Offline | Succeded | Report | Skip

  /** The classification predicates of an ApiResponse, as the client reports them. */
  datatype ApiResponse = ApiResponse(success: bool, conflict: bool, badRequest: bool, error: bool, notFound: bool)

  /** conflict, BadRequest, error or notFound: the server rejected the payload. */
  predicate Rejected(r: ApiResponse) {
    r.conflict || r.badRequest || r.error || r.notFound
  }

  /** Posting one fresh entry: a response, or an exception thrown on the way. */
  datatype SendAttempt = Responded(response: ApiResponse) | Threw

  /** Retrying one cached file: a response, an IOException (reading or posting),
      or any other exception. */
  datatype FileAttempt = FileResponded(response: ApiResponse) | ReadFailed | Crashed

  /** trySendEntries: success is Succeded; a rejection or an exception is Report;
      any other failure is Offline. */
  function TrySendEntries(a: SendAttempt): (r: FlushResult)
    ensures r != Skip
    ensures r == Succeded <==> a.Responded? && a.response.success
    ensures r == Offline <==> a.Responded? && !a.response.success && !Rejected(a.response)
  {
    match a
    case Threw => Report
    case Responded(resp) =>
      if !resp.success then (if Rejected(resp) then Report else Offline) else Succeded
  }

  /** The result trySendEntriesOnFile computes before it moves the file: it starts
      as Skip, success makes it Succeded, and a rejection (checked afterwards) or an
      IOException makes it Report. */
  function FileOutcome(a: FileAttempt): (r: FlushResult)
    ensures r != Offline
    ensures r == Report <==> a.ReadFailed? || (a.FileResponded? && Rejected(a.response))
    ensures r == Succeded <==> a.FileResponded? && a.response.success && !Rejected(a.response)
  {
    match a
    case Crashed => Skip
    case ReadFailed => Report
    case FileResponded(resp) =>
      var r := if resp.success then Succeded else Skip;
      if Rejected(resp) then Report else r
  }

  /** The two classifications disagree on a response flagged both as a success and
      as a rejection: a fresh entry counts as sent, a cached file as corrupted. */
  lemma ClassificationsDisagree(resp: ApiResponse)
    requires resp.success && Rejected(resp)
    ensures TrySendEntries(Responded(resp)) == Succeded && FileOutcome(FileResponded(resp)) == Report
  {
  }

  /** One ActivityInfo of the batch: whether info.isValid() holds, what posting it
      gives, and the cache file it is written to when it is not sent. */
  datatype Entry = Entry(valid: bool, attempt: SendAttempt, cacheFile: string)

  /** Entries that are invalid, or met while the cache folder is missing, are skipped. */
  predicate Considered(e: Entry, cacheAvailable: bool) {
    e.valid && cacheAvailable
  }

  /** The loop of flush over the entries: it starts as Succeded and every entry
      result other than Succeded or Skip overwrites it. */
  function FoldResults(entries: seq<Entry>, cacheAvailable: bool): FlushResult {
    if |entries| == 0 then Succeded
    else
      var r := FoldResults(entries[..|entries| - 1], cacheAvailable);
      var e := entries[|entries| - 1];
      if !Considered(e, cacheAvailable) then r
      else
        var ir := TrySendEntries(e.attempt);
        if ir != Succeded && ir != Skip then ir else r
  }

  /** flush's result: Skip when the processor or the built list is invalid. */
  function FlushOutcome(processorValid: bool, listValid: bool, entries: seq<Entry>, cacheAvailable: bool): (r: FlushResult)
    ensures !processorValid || !listValid ==> r == Skip
    ensures r == Skip ==> !processorValid || !listValid
  {
    FoldResultsNeverSkip(entries, cacheAvailable);
    if !processorValid then Skip
    else if !listValid then Skip
    else FoldResults(entries, cacheAvailable)
  }

  /** The two places where the recorder's flush throws instead of answering:
      building the ActivityInfo list from the snapshot (after a valid processor),
      which the processor does with code this model does not see, and the
      listing of the cache folder after a sent entry, which throws when the listing
      is null. `listingFailsAt` names the first entry whose listing is null; it
      throws only if that entry is reached as a sent one. */
  predicate SentEntry(entries: seq<Entry>, cacheAvailable: bool, i: int) {
    0 <= i < |entries| && Considered(entries[i], cacheAvailable) &&
    TrySendEntries(entries[i].attempt) == Succeded
  }

  predicate ListingThrows(entries: seq<Entry>, cacheAvailable: bool, listingFailsAt: Option<nat>) {
    listingFailsAt.Some? && SentEntry(entries, cacheAvailable, listingFailsAt.value)
  }

  predicate FlushThrows(processorValid: bool, buildThrows: bool, listValid: bool, entries: seq<Entry>,
                        cacheAvailable: bool, listingFailsAt: Option<nat>) {
    processorValid && (buildThrows || (listValid && ListingThrows(entries, cacheAvailable, listingFailsAt)))
  }

  /** How many entries the loop handles to the end: all, or those before the one
      whose listing throws. */
  function Handled(entries: seq<Entry>, cacheAvailable: bool, listingFailsAt: Option<nat>): (n: nat)
    ensures n <= |entries|
    ensures n < |entries| <==> ListingThrows(entries, cacheAvailable, listingFailsAt)
  {
    if ListingThrows(entries, cacheAvailable, listingFailsAt) then listingFailsAt.value else |entries|
  }

  /** StateTracker.flush around the recorder's flush: any exception is answered
      with Report. */
  function GuardedOutcome(processorValid: bool, buildThrows: bool, listValid: bool, entries: seq<Entry>,
                          cacheAvailable: bool, listingFailsAt: Option<nat>): FlushResult {
    if FlushThrows(processorValid, buildThrows, listValid, entries, cacheAvailable, listingFailsAt) then Report
    else FlushOutcome(processorValid, listValid, entries, cacheAvailable)
  }

  /** The guarded flush answers Skip exactly when nothing is built and nothing
      throws first, and Succeded exactly when every considered entry is sent and
      no listing throws. */
  lemma GuardedOutcomes(processorValid: bool, buildThrows: bool, listValid: bool, entries: seq<Entry>,
                        cacheAvailable: bool, listingFailsAt: Option<nat>)
    ensures var r := GuardedOutcome(processorValid, buildThrows, listValid, entries, cacheAvailable, listingFailsAt);
            (r == Skip <==> !processorValid || (!buildThrows && !listValid)) &&
            (r == Succeded <==> processorValid && !buildThrows && listValid &&
                                !ListingThrows(entries, cacheAvailable, listingFailsAt) &&
                                forall i :: 0 <= i < |entries| ==> !FailedEntry(entries, cacheAvailable, i))
  {
    FoldSucceeds(entries, cacheAvailable);
  }

  predicate FailedEntry(entries: seq<Entry>, cacheAvailable: bool, i: int) {
    0 <= i < |entries| && Considered(entries[i], cacheAvailable) &&
    TrySendEntries(entries[i].attempt) != Succeded
  }

  lemma {:induction false} FoldResultsNeverSkip(entries: seq<Entry>, cacheAvailable: bool)
    ensures FoldResults(entries, cacheAvailable) != Skip
  {
    if |entries| > 0 {
      FoldResultsNeverSkip(entries[..|entries| - 1], cacheAvailable);
    }
  }

  /** The folded result is Succeded exactly when no considered entry failed. */
  lemma {:induction false} FoldSucceeds(entries: seq<Entry>, cacheAvailable: bool)
    ensures FoldResults(entries, cacheAvailable) == Succeded <==>
            forall i :: 0 <= i < |entries| ==> !FailedEntry(entries, cacheAvailable, i)
  {
    if |entries| > 0 {
      var init := entries[..|entries| - 1];
      FoldSucceeds(init, cacheAvailable);
      FoldResultsNeverSkip(init, cacheAvailable);
      var n := |entries|;
      assert forall i :: 0 <= i < |init| ==> (FailedEntry(init, cacheAvailable, i) <==> FailedEntry(entries, cacheAvailable, i));
      if FailedEntry(entries, cacheAvailable, n - 1) {
        assert FoldResults(entries, cacheAvailable) == TrySendEntries(entries[n - 1].attempt);
      } else {
        assert FoldResults(entries, cacheAvailable) == FoldResults(init, cacheAvailable);
      }
    }
  }

  /** Otherwise the result is that of the last considered entry that failed. */
  lemma {:induction false} FoldIsLastFailure(entries: seq<Entry>, cacheAvailable: bool)
    requires FoldResults(entries, cacheAvailable) != Succeded
    ensures exists i :: FailedEntry(entries, cacheAvailable, i) &&
              FoldResults(entries, cacheAvailable) == TrySendEntries(entries[i].attempt) &&
              forall j :: i < j < |entries| ==> !FailedEntry(entries, cacheAvailable, j)
  {
    var n := |entries|;
    var init := entries[..n - 1];
    var e := entries[n - 1];
    if Considered(e, cacheAvailable) && TrySendEntries(e.attempt) != Succeded {
      assert FailedEntry(entries, cacheAvailable, n - 1);
    } else {
      FoldIsLastFailure(init, cacheAvailable);
      var i :| FailedEntry(init, cacheAvailable, i) &&
               FoldResults(init, cacheAvailable) == TrySendEntries(init[i].attempt) &&
               forall j :: i < j < |init| ==> !FailedEntry(init, cacheAvailable, j);
      assert FailedEntry(entries, cacheAvailable, i);
      assert forall j :: i < j < |init| ==> (FailedEntry(init, cacheAvailable, j) <==> FailedEntry(entries, cacheAvailable, j));
    }
  }

  /** The offline cache directory and the history directory, as sets of file names. */
  datatype Dirs = Dirs(cache: set<string>, history: set<string>)

  const ErrorSuffix: string := ".error"

  /** Retrying every cached file once: Succeded moves it to history under its own
      name, Report moves it there with ".error" appended, Skip leaves it in place. */
  function Sweep(d: Dirs, fileAttempt: string -> FileAttempt): Dirs {
    Dirs((set f | f in d.cache && FileOutcome(fileAttempt(f)) == Skip :: f),
         d.history + (set f | f in d.cache && FileOutcome(fileAttempt(f)) == Succeded :: f)
                   + (set f | f in d.cache && FileOutcome(fileAttempt(f)) == Report :: f + ErrorSuffix))
  }

  /** A sweep moves files and never copies them: a cached file stays exactly when
      its retry gave Skip, it lands in history under the name its outcome says,
      nothing enters the cache and nothing leaves history. */
  lemma SweepMoves(d: Dirs, fileAttempt: string -> FileAttempt, f: string)
    ensures Sweep(d, fileAttempt).cache <= d.cache
    ensures d.history <= Sweep(d, fileAttempt).history
    ensures f in d.cache ==> (f in Sweep(d, fileAttempt).cache <==> FileOutcome(fileAttempt(f)) == Skip)
    ensures f in d.cache && FileOutcome(fileAttempt(f)) == Succeded ==> f in Sweep(d, fileAttempt).history
    ensures f in d.cache && FileOutcome(fileAttempt(f)) == Report ==> f + ErrorSuffix in Sweep(d, fileAttempt).history
  {
  }

  /** What one entry does to the directories: a sent entry triggers a sweep, an
      entry that was not sent is written to its cache file. */
  function AfterEntry(d: Dirs, e: Entry, cacheAvailable: bool, fileAttempt: string -> FileAttempt): Dirs {
    if !Considered(e, cacheAvailable) then d
    else if TrySendEntries(e.attempt) == Succeded then Sweep(d, fileAttempt)
    else Dirs(d.cache + {e.cacheFile}, d.history)
  }

  /** The directories after the whole loop of flush over the entries. */
  function Delivered(d: Dirs, entries: seq<Entry>, cacheAvailable: bool, fileAttempt: string -> FileAttempt): Dirs {
    if |entries| == 0 then d
    else AfterEntry(Delivered(d, entries[..|entries| - 1], cacheAvailable, fileAttempt),
                    entries[|entries| - 1], cacheAvailable, fileAttempt)
  }

  /** A file name is still present: in the cache, or in history under itself or
      with ".error" appended. */
  predicate OnDisk(f: string, d: Dirs) {
    f in d.cache || f in d.history || f + ErrorSuffix in d.history
  }

  lemma SweepKeeps(d: Dirs, fileAttempt: string -> FileAttempt, f: string)
    requires OnDisk(f, d)
    ensures OnDisk(f, Sweep(d, fileAttempt))
  {
    SweepMoves(d, fileAttempt, f);
  }

  /** No file name is lost: every name that was cached, and the cache-file name of
      every considered entry that was not sent, is still present in the cache or
      in history after the flush. */
  lemma {:induction false} NothingLost(d: Dirs, entries: seq<Entry>, cacheAvailable: bool,
                                       fileAttempt: string -> FileAttempt, f: string)
    requires OnDisk(f, d) || exists i :: FailedEntry(entries, cacheAvailable, i) && entries[i].cacheFile == f
    ensures OnDisk(f, Delivered(d, entries, cacheAvailable, fileAttempt))
  {
    var n := |entries|;
    if n > 0 {
      var init := entries[..n - 1];
      var e := entries[n - 1];
      var before := Delivered(d, init, cacheAvailable, fileAttempt);
      if Considered(e, cacheAvailable) && TrySendEntries(e.attempt) != Succeded && e.cacheFile == f {
        assert f in AfterEntry(before, e, cacheAvailable, fileAttempt).cache;
      } else {
        if !OnDisk(f, d) {
          var i :| FailedEntry(entries, cacheAvailable, i) && entries[i].cacheFile == f;
          assert i < n - 1;
          assert FailedEntry(init, cacheAvailable, i);
        }
        NothingLost(d, init, cacheAvailable, fileAttempt, f);
        if Considered(e, cacheAvailable) && TrySendEntries(e.attempt) == Succeded {
          SweepKeeps(before, fileAttempt, f);
        }
      }
    }
  }
}
