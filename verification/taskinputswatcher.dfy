/** The task-inputs watcher: snapshots of every executed task's input files are
    accumulated into a union that is never cleared; when a build finishes, the
    watcher's events are filtered against that union and turned into triggers. */
module TaskInputsWatcher {
  import opened Wrappers
  import opened FileSystems
  import opened Triggers

  /** The accumulated union, kept as the list of snapshots added to it, and whether
      a build start has registered the task-execution listener that feeds it. */
  datatype InputsWatcher = InputsWatcher(snapshots: seq<set<Path>>, listening: bool)

  /** The union as created by the constructor: no snapshots, and no listener yet. */
  function NewInputsWatcher(): (w: InputsWatcher)
    ensures AccumulatedInputs(w) == {}
    ensures !w.listening
  {
    InputsWatcher([], false)
  }

  /** Whether some snapshot of the union holds `file`. */
  predicate WouldContain(w: InputsWatcher, file: Path) {
    exists i | 0 <= i < |w.snapshots| :: file in w.snapshots[i]
  }

  /** The union of all snapshots, as one set. */
  function AccumulatedInputs(w: InputsWatcher): (r: set<Path>)
    ensures forall p :: p in r <==> WouldContain(w, p)
    decreases |w.snapshots|
  {
    if w.snapshots == [] then {}
    else
      var rest := InputsWatcher(w.snapshots[..|w.snapshots| - 1], w.listening);
      var r := AccumulatedInputs(rest) + w.snapshots[|w.snapshots| - 1];
      assert forall i | 0 <= i < |rest.snapshots| :: rest.snapshots[i] == w.snapshots[i];
      r
  }

  /** A task about to execute adds a snapshot of its input files to the union. */
  function BeforeExecute(w: InputsWatcher, inputFiles: set<Path>): (w': InputsWatcher)
    ensures AccumulatedInputs(w') == AccumulatedInputs(w) + inputFiles
    ensures w'.listening == w.listening
  {
    var w' := InputsWatcher(w.snapshots + [inputFiles], w.listening);
    assert forall i | 0 <= i < |w.snapshots| :: w'.snapshots[i] == w.snapshots[i];
    assert w'.snapshots[|w.snapshots|] == inputFiles;
    w'
  }

  /** The build lifecycle as seen by the watcher. */
  datatype BuildEvent = BuildStarted | TaskExecuted(inputFiles: set<Path>) | BuildFinished

  /** A build start registers the listener; a task executed while the listener is
      registered adds its inputs; nothing else changes the union. */
  function Step(w: InputsWatcher, e: BuildEvent): (w': InputsWatcher)
    ensures w'.listening <==> w.listening || e.BuildStarted?
    ensures e.TaskExecuted? && w.listening ==> AccumulatedInputs(w') == AccumulatedInputs(w) + e.inputFiles
    ensures !(e.TaskExecuted? && w.listening) ==> AccumulatedInputs(w') == AccumulatedInputs(w)
  {
    match e
    case BuildStarted => w.(listening := true)
    case TaskExecuted(inputFiles) => if w.listening then BeforeExecute(w, inputFiles) else w
    case BuildFinished => w
  }

  /** Processes a sequence of lifecycle events, across any number of builds. */
  function Run(w: InputsWatcher, events: seq<BuildEvent>): InputsWatcher
    decreases |events|
  {
    if events == [] then w else Run(Step(w, events[0]), events[1..])
  }

  /** Whether the listener is registered when the `i`-th event arrives: it was
      registered already, or some earlier event started a build. */
  ghost predicate ListeningAt(w: InputsWatcher, events: seq<BuildEvent>, i: int)
    requires 0 <= i <= |events|
  {
    w.listening || exists j | 0 <= j < i :: events[j].BuildStarted?
  }

  /** A path is contributed by `events` when a task holding it executes while the
      listener is registered. */
  ghost predicate Contributed(w: InputsWatcher, events: seq<BuildEvent>, p: Path) {
    exists i | 0 <= i < |events| ::
      events[i].TaskExecuted? && p in events[i].inputFiles && ListeningAt(w, events, i)
  }

  /** After any sequence of builds the union holds exactly what it held before plus
      the input files of every task executed once a build had started: nothing is
      ever removed. */
  lemma {:induction false} AccumulatedInputsOnlyGrow(w: InputsWatcher, events: seq<BuildEvent>, p: Path)
    ensures p in AccumulatedInputs(Run(w, events)) <==> p in AccumulatedInputs(w) || Contributed(w, events, p)
    decreases |events|
  {
    if events != [] {
      var w1 := Step(w, events[0]);
      var tail := events[1..];
      AccumulatedInputsOnlyGrow(w1, tail, p);
      assert forall i | 0 <= i < |tail| :: tail[i] == events[i + 1];
      assert forall i | 0 <= i < |tail| :: ListeningAt(w1, tail, i) == ListeningAt(w, events, i + 1) by {
        forall i | 0 <= i < |tail|
          ensures ListeningAt(w1, tail, i) == ListeningAt(w, events, i + 1)
        {
          if exists j | 0 <= j < i + 1 :: events[j].BuildStarted? {
            var j :| 0 <= j < i + 1 && events[j].BuildStarted?;
            if j > 0 {
              assert tail[j - 1] == events[j];
            }
          }
        }
      }
      if Contributed(w, events, p) {
        var i :| 0 <= i < |events| && events[i].TaskExecuted? && p in events[i].inputFiles && ListeningAt(w, events, i);
        if i > 0 {
          assert tail[i - 1] == events[i];
        }
      }
      if Contributed(w1, tail, p) {
        var i :| 0 <= i < |tail| && tail[i].TaskExecuted? && p in tail[i].inputFiles && ListeningAt(w1, tail, i);
        assert events[i + 1] == tail[i];
      }
    }
  }

  /** Tasks executed before any build start are not captured: while no listener is
      registered and no build starts, the union does not change, whatever tasks run. */
  lemma TaskBeforeBuildStartIsDropped(w: InputsWatcher, events: seq<BuildEvent>)
    requires !w.listening
    requires forall i | 0 <= i < |events| :: !events[i].BuildStarted?
    ensures AccumulatedInputs(Run(w, events)) == AccumulatedInputs(w)
  {
    forall p
      ensures p in AccumulatedInputs(Run(w, events)) <==> p in AccumulatedInputs(w)
    {
      AccumulatedInputsOnlyGrow(w, events, p);
    }
  }

  /** An event kind reported by the file watcher. The filter tells apart only
      UNDEFINED; every other kind is `Defined`. */
  datatype EventType = Defined | Undefined

  datatype FileWatcherEvent = FileWatcherEvent(eventType: EventType, file: Path)

  /** The filter installed at build finish: an UNDEFINED event always passes;
      any other event passes iff the union would contain its file. */
  predicate Accepts(w: InputsWatcher, e: FileWatcherEvent) {
    e.eventType == Undefined || WouldContain(w, e.file)
  }

  /** What the watcher reports after build finish: a failure, with the failure's
      message (which may be absent), or an event. */
  datatype WatchOutcome = WatchError(message: Option<string>) | Event(event: FileWatcherEvent)

  /** The text of `"error " + throwable.getMessage()`; an absent message prints as "null". */
  function ErrorReason(message: Option<string>): (reason: string)
    ensures |reason| >= 6 && reason[..6] == "error "
    ensures message.Some? ==> reason[6..] == message.value
    ensures message.None? ==> reason[6..] == "null"
  {
    "error " + match message
               case Some(text) => text
               case None => "null"
  }

  /** The trigger an outcome produces: a failure stops continuous mode, an accepted
      event asks for a rebuild, a rejected event produces nothing. */
  function OnOutcome(w: InputsWatcher, o: WatchOutcome): (t: Option<TriggerDetails>)
    ensures o.WatchError? ==> t.Some? && t.value.triggerType == Stop && t.value.reason == ErrorReason(o.message)
    ensures o.Event? ==> (t.Some? <==> o.event.eventType == Undefined || o.event.file in AccumulatedInputs(w))
    ensures o.Event? && t.Some? ==> t.value == TriggerDetails(Rebuild, "file change")
  {
    match o
    case WatchError(message) => Some(TriggerDetails(Stop, ErrorReason(message)))
    case Event(e) => if Accepts(w, e) then Some(TriggerDetails(Rebuild, "file change")) else None
  }

  /** An UNDEFINED event triggers a rebuild whatever its file and whatever the union holds. */
  lemma UndefinedAlwaysRebuilds(w: InputsWatcher, file: Path)
    ensures OnOutcome(w, Event(FileWatcherEvent(Undefined, file))) == Some(TriggerDetails(Rebuild, "file change"))
  {
  }

  /** Because the union is never cleared, an event accepted now is still accepted
      after any further builds. */
  lemma AcceptanceIsPreserved(w: InputsWatcher, events: seq<BuildEvent>, e: FileWatcherEvent)
    requires Accepts(w, e)
    ensures Accepts(Run(w, events), e)
  {
    if e.eventType != Undefined {
      AccumulatedInputsOnlyGrow(w, events, e.file);
    }
  }

  /** The request made to the watcher factory at build finish: the roots to watch. */
  datatype WatchRequest = WatchRequest(roots: set<Path>)

  /** The roots handed to the watcher factory are the file-system roots of the union
      as accumulated at build finish. How roots are derived is a parameter. */
  function OnBuildFinished(w: InputsWatcher, fileSystemRoots: set<Path> -> set<Path>): (r: WatchRequest)
    ensures r.roots == fileSystemRoots(AccumulatedInputs(w))
  {
    WatchRequest(fileSystemRoots(AccumulatedInputs(w)))
  }

  /** Since the union is created once and never cleared, the roots requested at any
      build finish are derived from the inputs of every task executed since the first
      build start, not only from the tasks of the latest build. */
  lemma RootsCoverEveryBuildSinceConstruction(
    events: seq<BuildEvent>, fileSystemRoots: set<Path> -> set<Path>, executed: set<Path>)
    requires forall p :: p in executed <==>
               exists i | 0 <= i < |events| ::
                 events[i].TaskExecuted? && p in events[i].inputFiles &&
                 exists j | 0 <= j < i :: events[j].BuildStarted?
    ensures OnBuildFinished(Run(NewInputsWatcher(), events), fileSystemRoots).roots == fileSystemRoots(executed)
  {
    var w := Run(NewInputsWatcher(), events);
    forall p
      ensures p in AccumulatedInputs(w) <==> p in executed
    {
      AccumulatedInputsOnlyGrow(NewInputsWatcher(), events, p);
    }
    assert AccumulatedInputs(w) == executed;
  }
}
