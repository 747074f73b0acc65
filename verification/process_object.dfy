/** The command bookkeeping of a SimpleRTK process object: the list of
    (event, command, ITK observer tag) records, the ITK process currently
    running, and how records are registered with it as observers and
    removed again. The ITK process is a value here; the observer tags it
    hands out come from a counter. */
module SrtkProcessObject {
  import opened Results

  /** `std::numeric_limits<unsigned long>::max()`: the tag of a record not
      registered with any ITK process. */
  const Sentinel: nat := 0xFFFF_FFFF_FFFF_FFFF

  /** SimpleRTK's event enumeration; `UnknownEvent` stands for any other
      value the enum variable may hold. */
  datatype EventEnum =
    | AnyEvent | AbortEvent | DeleteEvent | EndEvent | IterationEvent
    | ProgressEvent | StartEvent | UserEvent | MultiResolutionIterationEvent
    | UnknownEvent(raw: int)

  /** The nine ITK event objects the enumeration maps to. */
  datatype ItkEvent =
    | ItkAnyEvent | ItkAbortEvent | ItkDeleteEvent | ItkEndEvent | ItkIterationEvent
    | ItkProgressEvent | ItkStartEvent | ItkUserEvent | ItkMultiResolutionIterationEvent

  function GetITKEventObject(e: EventEnum): (r: Result<ItkEvent>)
    ensures r.Err? <==> e.UnknownEvent?
  {
    match e
    case AnyEvent => Ok(ItkAnyEvent)
    case AbortEvent => Ok(ItkAbortEvent)
    case DeleteEvent => Ok(ItkDeleteEvent)
    case EndEvent => Ok(ItkEndEvent)
    case IterationEvent => Ok(ItkIterationEvent)
    case ProgressEvent => Ok(ItkProgressEvent)
    case StartEvent => Ok(ItkStartEvent)
    case UserEvent => Ok(ItkUserEvent)
    case MultiResolutionIterationEvent => Ok(ItkMultiResolutionIterationEvent)
    case UnknownEvent(_) => Err("LogicError: Unexpected event case!")
  }

  /** The SimpleRTK event an ITK event object stands for. */
  function EventOf(i: ItkEvent): EventEnum {
    match i
    case ItkAnyEvent => AnyEvent
    case ItkAbortEvent => AbortEvent
    case ItkDeleteEvent => DeleteEvent
    case ItkEndEvent => EndEvent
    case ItkIterationEvent => IterationEvent
    case ItkProgressEvent => ProgressEvent
    case ItkStartEvent => StartEvent
    case ItkUserEvent => UserEvent
    case ItkMultiResolutionIterationEvent => MultiResolutionIterationEvent
  }

  /** The mapping is a bijection between the nine known events and the ITK
      event objects. */
  lemma EventObjectRoundTrip(e: EventEnum, i: ItkEvent)
    ensures GetITKEventObject(EventOf(i)) == Ok(i)
    ensures GetITKEventObject(e).Ok? ==> EventOf(GetITKEventObject(e).value) == e
  {
  }

  /** The identity (address) of an srtk::Command. */
  type CommandId = nat

  datatype EventCommand = EventCommand(event: EventEnum, command: CommandId, itkTag: nat)

  /** An observer registered with the ITK process: the process object's own
      deletion callback, or an adaptor forwarding an event to a command. */
  datatype Observer = OnDeleteObserver | AdaptorObserver(event: ItkEvent, command: CommandId)

  /** The ITK process being run: its progress, its observers by tag, and the
      next tag it will hand out. */
  datatype ItkProcess = ItkProcess(progress: real, numberOfThreads: nat, observers: map<nat, Observer>, nextTag: nat)

  datatype ProcessObject = ProcessObject(
    commands: seq<EventCommand>,
    activeProcess: Option<ItkProcess>,
    progressMeasurement: real,
    numberOfThreads: nat)

  /** An operation that may throw after changing the state: the state it
      leaves and what it returns or throws. */
  datatype Updated<T> = Updated(state: ProcessObject, result: Result<T>)

  /** The constructor: no commands, no active process, progress 0. */
  function NewProcessObject(globalDefaultNumberOfThreads: nat): (po: ProcessObject)
    ensures po.commands == [] && po.activeProcess.None?
    ensures po.progressMeasurement == 0.0 && po.numberOfThreads == globalDefaultNumberOfThreads
  {
    ProcessObject([], None, 0.0, globalDefaultNumberOfThreads)
  }

  // ---------------------------------------------------------------- invariant

  /** The bookkeeping the operations keep: every record with a real tag is
      registered under that tag with the active process, as an adaptor for
      its own event and command; real tags are distinct; the process has
      handed out every tag it holds. */
  ghost predicate Valid(po: ProcessObject) {
    && (po.activeProcess.Some? ==>
          forall t :: t in po.activeProcess.value.observers ==> t < po.activeProcess.value.nextTag)
    && (forall k :: 0 <= k < |po.commands| && po.commands[k].itkTag != Sentinel ==> RegisteredWith(po, po.commands[k]))
    && (forall j, k :: 0 <= j < k < |po.commands| && po.commands[j].itkTag != Sentinel
          ==> po.commands[j].itkTag != po.commands[k].itkTag)
  }

  ghost predicate RegisteredWith(po: ProcessObject, c: EventCommand) {
    && po.activeProcess.Some?
    && c.itkTag in po.activeProcess.value.observers
    && GetITKEventObject(c.event).Ok?
    && po.activeProcess.value.observers[c.itkTag] == AdaptorObserver(GetITKEventObject(c.event).value, c.command)
  }

  lemma NewProcessObjectValid(n: nat)
    ensures Valid(NewProcessObject(n))
  {
  }

  // ---------------------------------------------------------------- observers

  /** Registers record `k` with the active process. Throws if the record
      already carries a tag or its event is unknown; otherwise the record
      takes the next fresh tag of the process. */
  function AddObserverToActiveProcessObject(po: ProcessObject, k: nat): (r: Result<ProcessObject>)
    requires po.activeProcess.Some? && k < |po.commands|
    requires po.activeProcess.value.nextTag < Sentinel
    ensures r.Ok? <==> po.commands[k].itkTag == Sentinel && !po.commands[k].event.UnknownEvent?
    ensures r.Ok? ==> r.value.activeProcess.Some?
    ensures r.Ok? ==>
      var p, p' := po.activeProcess.value, r.value.activeProcess.value;
      && r.value.commands == po.commands[k := po.commands[k].(itkTag := p.nextTag)]
      && p'.observers == p.observers[p.nextTag := AdaptorObserver(GetITKEventObject(po.commands[k].event).value, po.commands[k].command)]
      && p'.nextTag == p.nextTag + 1
      && p'.progress == p.progress
      && r.value.progressMeasurement == po.progressMeasurement
  {
    var c := po.commands[k];
    if c.itkTag != Sentinel then
      Err("Commands already registered to another process object!")
    else
      var itkEvent :- GetITKEventObject(c.event);
      var p := po.activeProcess.value;
      var p' := p.(observers := p.observers[p.nextTag := AdaptorObserver(itkEvent, c.command)], nextTag := p.nextTag + 1);
      Ok(po.(commands := po.commands[k := c.(itkTag := p.nextTag)], activeProcess := Some(p')))
  }

  /** Unregisters record `k` from the active process if it carries a tag,
      and resets the tag; a record without a tag is left alone. */
  function RemoveObserverFromActiveProcessObject(po: ProcessObject, k: nat): (r: ProcessObject)
    requires po.activeProcess.Some? && k < |po.commands|
    ensures r.activeProcess.Some? && |r.commands| == |po.commands|
    ensures r.commands[k].itkTag == Sentinel
    ensures r.commands[k].event == po.commands[k].event && r.commands[k].command == po.commands[k].command
    ensures forall j :: 0 <= j < |po.commands| && j != k ==> r.commands[j] == po.commands[j]
    ensures po.commands[k].itkTag != Sentinel ==>
      var p := po.activeProcess.value;
      r.activeProcess.value == p.(observers := p.observers - {po.commands[k].itkTag})
    ensures po.commands[k].itkTag == Sentinel ==> r == po
    ensures r.progressMeasurement == po.progressMeasurement && r.numberOfThreads == po.numberOfThreads
  {
    var c := po.commands[k];
    if c.itkTag != Sentinel then
      var p := po.activeProcess.value;
      po.(commands := po.commands[k := c.(itkTag := Sentinel)],
          activeProcess := Some(p.(observers := p.observers - {c.itkTag})))
    else
      po
  }

  /** Removing an observer twice is removing it once. */
  lemma RemoveObserverIdempotent(po: ProcessObject, k: nat)
    requires po.activeProcess.Some? && k < |po.commands|
    ensures var once := RemoveObserverFromActiveProcessObject(po, k);
      RemoveObserverFromActiveProcessObject(once, k) == once
  {
  }

  /** Registering then removing a record restores the record and the
      process's observers; only the tag counter has moved on. */
  lemma AddThenRemoveObserver(po: ProcessObject, k: nat)
    requires po.activeProcess.Some? && k < |po.commands|
    requires po.activeProcess.value.nextTag < Sentinel
    requires Valid(po)
    requires AddObserverToActiveProcessObject(po, k).Ok?
    ensures var back := RemoveObserverFromActiveProcessObject(AddObserverToActiveProcessObject(po, k).value, k);
      && back.commands == po.commands
      && back.activeProcess.value.observers == po.activeProcess.value.observers
  {
    var p := po.activeProcess.value;
    var added := AddObserverToActiveProcessObject(po, k).value;
    var back := RemoveObserverFromActiveProcessObject(added, k);
    assert p.nextTag !in p.observers;
    assert back.commands == po.commands;
    assert back.activeProcess.value.observers == p.observers;
  }

  lemma AddObserverKeepsValid(po: ProcessObject, k: nat)
    requires po.activeProcess.Some? && k < |po.commands|
    requires po.activeProcess.value.nextTag < Sentinel
    requires Valid(po)
    ensures AddObserverToActiveProcessObject(po, k).Ok? ==> Valid(AddObserverToActiveProcessObject(po, k).value)
  {
    var r := AddObserverToActiveProcessObject(po, k);
    if r.Ok? {
      var p := po.activeProcess.value;
      var po' := r.value;
      forall j | 0 <= j < |po'.commands| && po'.commands[j].itkTag != Sentinel
        ensures RegisteredWith(po', po'.commands[j])
      {
        if j != k {
          assert RegisteredWith(po, po.commands[j]);
          assert po.commands[j].itkTag < p.nextTag;
        }
      }
      forall i, j | 0 <= i < j < |po'.commands| && po'.commands[i].itkTag != Sentinel
        ensures po'.commands[i].itkTag != po'.commands[j].itkTag
      {
        if i != k && j != k {
        } else if i == k {
          if po'.commands[j].itkTag != Sentinel {
            assert RegisteredWith(po, po.commands[j]);
          }
        } else {
          assert RegisteredWith(po, po.commands[i]);
        }
      }
    }
  }

  lemma RemoveObserverKeepsValid(po: ProcessObject, k: nat)
    requires po.activeProcess.Some? && k < |po.commands|
    requires Valid(po)
    ensures Valid(RemoveObserverFromActiveProcessObject(po, k))
  {
    var po' := RemoveObserverFromActiveProcessObject(po, k);
    forall j | 0 <= j < |po'.commands| && po'.commands[j].itkTag != Sentinel
      ensures RegisteredWith(po', po'.commands[j])
    {
      assert RegisteredWith(po, po.commands[j]);
      if po.commands[k].itkTag != Sentinel {
        assert j != k;
        assert po.commands[j].itkTag != po.commands[k].itkTag;
      }
    }
  }

  // ---------------------------------------------------------------- commands

  /** Appends a record for `event` and `cmd`. Without an active process it
      keeps the sentinel tag; with one it is registered at once, and an
      unknown event throws after the record was appended. Returns 0. */
  function AddCommand(po: ProcessObject, event: EventEnum, cmd: CommandId): (r: Updated<int>)
    requires po.activeProcess.Some? ==> po.activeProcess.value.nextTag < Sentinel
    ensures |r.state.commands| == |po.commands| + 1
    ensures r.state.commands[..|po.commands|] == po.commands
    ensures var c := r.state.commands[|po.commands|]; c.event == event && c.command == cmd
    ensures po.activeProcess.None? ==> r.state.commands[|po.commands|].itkTag == Sentinel && r.result == Ok(0)
    ensures r.result.Ok? ==> r.result.value == 0
    ensures r.result.Err? <==> po.activeProcess.Some? && event.UnknownEvent?
    ensures po.activeProcess.Some? && r.result.Ok? ==>
      && r.state.commands[|po.commands|].itkTag == po.activeProcess.value.nextTag
      && RegisteredWith(r.state, r.state.commands[|po.commands|])
    ensures r.result.Err? || po.activeProcess.None? ==> r.state.activeProcess == po.activeProcess
    ensures r.state.progressMeasurement == po.progressMeasurement && r.state.numberOfThreads == po.numberOfThreads
  {
    var appended := po.(commands := po.commands + [EventCommand(event, cmd, Sentinel)]);
    if po.activeProcess.Some? then
      match AddObserverToActiveProcessObject(appended, |po.commands|)
      case Ok(registered) => Updated(registered, Ok(0))
      case Err(message) => Updated(appended, Err(message))
    else
      Updated(appended, Ok(0))
  }

  lemma AddCommandKeepsValid(po: ProcessObject, event: EventEnum, cmd: CommandId)
    requires po.activeProcess.Some? ==> po.activeProcess.value.nextTag < Sentinel
    requires Valid(po)
    ensures Valid(AddCommand(po, event, cmd).state)
  {
    var appended := po.(commands := po.commands + [EventCommand(event, cmd, Sentinel)]);
    assert Valid(appended) by {
      forall j | 0 <= j < |appended.commands| && appended.commands[j].itkTag != Sentinel
        ensures RegisteredWith(appended, appended.commands[j])
      {
        assert RegisteredWith(po, po.commands[j]);
      }
    }
    if po.activeProcess.Some? {
      AddObserverKeepsValid(appended, |po.commands|);
    }
  }

  /** `HasCommand`: whether some record is for `event`. */
  function HasCommand(commands: seq<EventCommand>, event: EventEnum): (r: bool)
    ensures r <==> exists k :: 0 <= k < |commands| && commands[k].event == event
  {
    if |commands| == 0 then false
    else if commands[0].event == event then true
    else
      var rest := HasCommand(commands[1..], event);
      assert forall k :: 1 <= k < |commands| ==> commands[k] == commands[1..][k - 1];
      rest
  }

  /** The records not for `cmd`, in their order. */
  function Without(commands: seq<EventCommand>, cmd: CommandId): (r: seq<EventCommand>)
    ensures |r| <= |commands|
    ensures forall k :: 0 <= k < |r| ==> r[k].command != cmd
  {
    if |commands| == 0 then []
    else if commands[0].command == cmd then Without(commands[1..], cmd)
    else [commands[0]] + Without(commands[1..], cmd)
  }

  /** A list with no record for `cmd` is left as it is. */
  lemma {:induction false} WithoutUnchanged(commands: seq<EventCommand>, cmd: CommandId)
    requires forall k :: 0 <= k < |commands| ==> commands[k].command != cmd
    ensures Without(commands, cmd) == commands
  {
    if |commands| > 0 {
      WithoutUnchanged(commands[1..], cmd);
      assert commands == [commands[0]] + commands[1..];
    }
  }

  /** `Without` drops every record for `cmd` and keeps every other one as
      often as it occurred. */
  lemma {:induction false} WithoutCounts(commands: seq<EventCommand>, cmd: CommandId, c: EventCommand)
    ensures multiset(Without(commands, cmd))[c] == if c.command == cmd then 0 else multiset(commands)[c]
  {
    if |commands| > 0 {
      assert commands == [commands[0]] + commands[1..];
      WithoutCounts(commands[1..], cmd, c);
    }
  }

  lemma {:induction false} WithoutSnoc(commands: seq<EventCommand>, c: EventCommand, cmd: CommandId)
    ensures Without(commands + [c], cmd) == Without(commands, cmd) + (if c.command == cmd then [] else [c])
  {
    if |commands| > 0 {
      assert (commands + [c])[1..] == commands[1..] + [c];
      WithoutSnoc(commands[1..], c, cmd);
    } else {
      assert (commands + [c])[1..] == [];
    }
  }

  /** The real tags of the records for `cmd`. */
  function TagsOf(commands: seq<EventCommand>, cmd: CommandId): set<nat> {
    set k | 0 <= k < |commands| && commands[k].command == cmd && commands[k].itkTag != Sentinel :: commands[k].itkTag
  }

  /** Appending a record adds its tag to `TagsOf` when it is a tagged record
      for `cmd`. */
  lemma TagsOfSnoc(commands: seq<EventCommand>, c: EventCommand, cmd: CommandId)
    ensures TagsOf(commands + [c], cmd)
         == TagsOf(commands, cmd) + (if c.command == cmd && c.itkTag != Sentinel then {c.itkTag} else {})
  {
    var s := commands + [c];
    var extra: set<nat> := if c.command == cmd && c.itkTag != Sentinel then {c.itkTag} else {};
    forall t | t in TagsOf(s, cmd)
      ensures t in TagsOf(commands, cmd) + extra
    {
      var k :| 0 <= k < |s| && s[k].command == cmd && s[k].itkTag != Sentinel && s[k].itkTag == t;
      if k < |commands| {
        assert s[k] == commands[k];
      }
    }
    forall t | t in TagsOf(commands, cmd)
      ensures t in TagsOf(s, cmd)
    {
      var k :| 0 <= k < |commands| && commands[k].command == cmd && commands[k].itkTag != Sentinel && commands[k].itkTag == t;
      assert s[k] == commands[k];
    }
    if c.command == cmd && c.itkTag != Sentinel {
      assert s[|commands|] == c;
    }
  }

  /** The real tags of all records. */
  function RealTags(commands: seq<EventCommand>): set<nat> {
    set k | 0 <= k < |commands| && commands[k].itkTag != Sentinel :: commands[k].itkTag
  }

  /** No two records share a real tag. */
  ghost predicate DistinctTags(commands: seq<EventCommand>) {
    forall j, k :: 0 <= j < k < |commands| && commands[j].itkTag != Sentinel
      ==> commands[j].itkTag != commands[k].itkTag
  }

  /** `Without` keeps only records of `commands` not for `cmd`, and keeps
      their tags distinct. */
  lemma {:induction false} WithoutSubset(commands: seq<EventCommand>, cmd: CommandId)
    requires DistinctTags(commands)
    ensures forall x :: x in Without(commands, cmd) ==> x in commands && x.command != cmd
    ensures DistinctTags(Without(commands, cmd))
  {
    if |commands| > 0 {
      var c, rest := commands[0], commands[1..];
      assert DistinctTags(rest) by {
        forall j, k | 0 <= j < k < |rest| && rest[j].itkTag != Sentinel
          ensures rest[j].itkTag != rest[k].itkTag
        {
          assert rest[j] == commands[j + 1] && rest[k] == commands[k + 1];
        }
      }
      WithoutSubset(rest, cmd);
      if c.command != cmd {
        var w := Without(rest, cmd);
        assert Without(commands, cmd) == [c] + w;
        forall k | 0 <= k < |w| && c.itkTag != Sentinel
          ensures c.itkTag != w[k].itkTag
        {
          assert w[k] in rest;
          var i :| 0 <= i < |rest| && rest[i] == w[k];
          assert commands[i + 1] == w[k];
        }
      }
    }
  }

  /** Deleting a command's records and unregistering their tags keeps the
      bookkeeping invariant. */
  lemma OnCommandDeleteKeepsValid(po: ProcessObject, cmd: CommandId)
    requires Valid(po)
    ensures var p := po.activeProcess;
      Valid(po.(commands := Without(po.commands, cmd),
                activeProcess := if p.Some? then Some(p.value.(observers := p.value.observers - TagsOf(po.commands, cmd))) else p))
  {
    var p := po.activeProcess;
    var r := po.(commands := Without(po.commands, cmd),
                 activeProcess := if p.Some? then Some(p.value.(observers := p.value.observers - TagsOf(po.commands, cmd))) else p);
    assert DistinctTags(po.commands);
    WithoutSubset(po.commands, cmd);
    forall k | 0 <= k < |r.commands| && r.commands[k].itkTag != Sentinel
      ensures RegisteredWith(r, r.commands[k])
    {
      var x := r.commands[k];
      assert x in Without(po.commands, cmd);
      var i :| 0 <= i < |po.commands| && po.commands[i] == x;
      assert RegisteredWith(po, po.commands[i]);
      forall j | 0 <= j < |po.commands| && po.commands[j].command == cmd && po.commands[j].itkTag != Sentinel
        ensures po.commands[j].itkTag != x.itkTag
      {
        assert i != j;
      }
      assert x.itkTag !in TagsOf(po.commands, cmd);
    }
    assert DistinctTags(r.commands);
  }

  /** The active process, if any, with the observers under `tags` removed. */
  function Unregister(active: Option<ItkProcess>, tags: set<nat>): (r: Option<ItkProcess>)
    ensures r.Some? <==> active.Some?
    ensures r.Some? ==> r.value.observers.Keys == active.value.observers.Keys - tags
  {
    if active.Some? then Some(active.value.(observers := active.value.observers - tags)) else None
  }

  /** Removing no tags changes nothing. */
  lemma UnregisterNothing(active: Option<ItkProcess>)
    ensures Unregister(active, {}) == active
  {
    if active.Some? {
      assert active.value.observers - {} == active.value.observers;
    }
  }

  /** Removing tags one at a time removes their union. */
  lemma UnregisterMore(active: Option<ItkProcess>, tags: set<nat>, more: set<nat>)
    ensures Unregister(Unregister(active, tags), more) == Unregister(active, tags + more)
  {
    if active.Some? {
      var p := active.value;
      assert p.observers - tags - more == p.observers - (tags + more);
    }
  }

  /** `onCommandDelete`: drops every record for the deleted command, in the
      list's order, and unregisters each one that carries a tag. */
  method OnCommandDelete(po: ProcessObject, cmd: CommandId) returns (r: ProcessObject)
    ensures r.commands == Without(po.commands, cmd)
    ensures r.activeProcess.Some? <==> po.activeProcess.Some?
    ensures po.activeProcess.Some? ==>
      r.activeProcess.value == po.activeProcess.value.(observers := po.activeProcess.value.observers - TagsOf(po.commands, cmd))
    ensures r.progressMeasurement == po.progressMeasurement && r.numberOfThreads == po.numberOfThreads
    ensures Valid(po) ==> Valid(r)
  {
    var kept: seq<EventCommand> := [];
    var active := po.activeProcess;
    var i := 0;
    assert TagsOf(po.commands[..0], cmd) == {};
    UnregisterNothing(active);
    while i < |po.commands|
      invariant 0 <= i <= |po.commands|
      invariant kept == Without(po.commands[..i], cmd)
      invariant active == Unregister(po.activeProcess, TagsOf(po.commands[..i], cmd))
    {
      var c := po.commands[i];
      assert po.commands[..i + 1] == po.commands[..i] + [c];
      WithoutSnoc(po.commands[..i], c, cmd);
      TagsOfSnoc(po.commands[..i], c, cmd);
      ghost var before := TagsOf(po.commands[..i], cmd);
      if c.command == cmd {
        if active.Some? && c.itkTag != Sentinel {
          UnregisterMore(po.activeProcess, before, {c.itkTag});
          active := Unregister(active, {c.itkTag});
        } else if c.itkTag == Sentinel {
          assert TagsOf(po.commands[..i + 1], cmd) == before;
        }
      } else {
        kept := kept + [c];
        assert TagsOf(po.commands[..i + 1], cmd) == before;
      }
      i := i + 1;
    }
    assert po.commands[..|po.commands|] == po.commands;
    r := po.(commands := kept, activeProcess := active);
    if Valid(po) {
      OnCommandDeleteKeepsValid(po, cmd);
    }
  }

  /** `RemoveAllCommands`: empties the list, unregisters every tagged record
      while a process is active, and reports each distinct command once
      (each is told to forget this process object). */
  method RemoveAllCommands(po: ProcessObject) returns (r: ProcessObject, notified: seq<CommandId>)
    ensures r.commands == []
    ensures r.activeProcess.Some? <==> po.activeProcess.Some?
    ensures po.activeProcess.Some? ==>
      var p := po.activeProcess.value;
      r.activeProcess.value == p.(observers := p.observers - RealTags(po.commands))
    ensures r.progressMeasurement == po.progressMeasurement && r.numberOfThreads == po.numberOfThreads
    ensures Valid(po) ==> Valid(r)
    ensures forall c :: c in notified <==> exists k :: 0 <= k < |po.commands| && po.commands[k].command == c
    ensures forall i, j :: 0 <= i < j < |notified| ==> notified[i] != notified[j]
  {
    var oldCommands := po.commands;
    r := po.(commands := []);
    ghost var removed: set<nat> := {};
    var i := 0;
    while i < |oldCommands| && r.activeProcess.Some?
      invariant 0 <= i <= |oldCommands|
      invariant r.commands == [] && r.activeProcess.Some? == po.activeProcess.Some?
      invariant removed == set k | 0 <= k < i && oldCommands[k].itkTag != Sentinel :: oldCommands[k].itkTag
      invariant po.activeProcess.Some? ==>
        r.activeProcess.value == po.activeProcess.value.(observers := po.activeProcess.value.observers - removed)
      invariant r.progressMeasurement == po.progressMeasurement && r.numberOfThreads == po.numberOfThreads
    {
      if oldCommands[i].itkTag != Sentinel {
        var p := r.activeProcess.value;
        r := r.(activeProcess := Some(p.(observers := p.observers - {oldCommands[i].itkTag})));
        removed := removed + {oldCommands[i].itkTag};
      }
      i := i + 1;
    }
    notified := [];
    var j := 0;
    while j < |oldCommands|
      invariant 0 <= j <= |oldCommands|
      invariant forall c :: c in notified <==> exists k :: 0 <= k < j && oldCommands[k].command == c
      invariant forall a, b :: 0 <= a < b < |notified| ==> notified[a] != notified[b]
    {
      if oldCommands[j].command !in notified {
        notified := notified + [oldCommands[j].command];
      }
      j := j + 1;
    }
  }

  // ---------------------------------------------------------------- process

  /** `GetProgress`: the active process's progress, or the stored
      measurement when nothing runs. */
  function GetProgress(po: ProcessObject): (r: real)
    ensures po.activeProcess.Some? ==> r == po.activeProcess.value.progress
    ensures po.activeProcess.None? ==> r == po.progressMeasurement
  {
    match po.activeProcess
    case Some(p) => p.progress
    case None => po.progressMeasurement
  }

  /** `GetActiveProcess`: throws when nothing runs. */
  function GetActiveProcess(po: ProcessObject): (r: Result<ItkProcess>)
    ensures r.Ok? <==> po.activeProcess.Some?
    ensures r.Ok? ==> r.value == po.activeProcess.value
  {
    match po.activeProcess
    case Some(p) => Ok(p)
    case None => Err("No active process")
  }

  /** `OnActiveProcessDelete`: keeps the dying process's progress (0 if there
      is none), resets every tag and forgets the process. */
  function OnActiveProcessDelete(po: ProcessObject): (r: ProcessObject)
    ensures r.activeProcess.None?
    ensures r.progressMeasurement == if po.activeProcess.Some? then po.activeProcess.value.progress else 0.0
    ensures |r.commands| == |po.commands|
    ensures forall k :: 0 <= k < |r.commands| ==>
      r.commands[k] == EventCommand(po.commands[k].event, po.commands[k].command, Sentinel)
  {
    var progress := if po.activeProcess.Some? then po.activeProcess.value.progress else 0.0;
    var commands := seq(|po.commands|, k requires 0 <= k < |po.commands| => po.commands[k].(itkTag := Sentinel));
    ProcessObject(commands, None, progress, po.numberOfThreads)
  }

  /** After the process dies the progress stays where it was. */
  lemma ProgressSurvivesDeletion(po: ProcessObject)
    ensures GetProgress(OnActiveProcessDelete(po)) == (if po.activeProcess.Some? then GetProgress(po) else 0.0)
    ensures Valid(OnActiveProcessDelete(po))
  {
  }

  /** The tag counter is ahead of every tag the process holds. */
  ghost predicate FreshTags(p: ItkProcess) {
    forall t :: t in p.observers ==> t < p.nextTag
  }

  /** `q` holds every observer `p` holds, under the same tag. */
  ghost predicate ObserversKept(p: ItkProcess, q: ItkProcess) {
    forall t :: t in p.observers ==> t in q.observers && q.observers[t] == p.observers[t]
  }

  /** Registers records `k..` in order; stops at the first that throws. */
  function RegisterFrom(po: ProcessObject, k: nat): (r: Updated<()>)
    requires po.activeProcess.Some? && k <= |po.commands|
    requires FreshTags(po.activeProcess.value)
    requires po.activeProcess.value.nextTag + (|po.commands| - k) <= Sentinel
    ensures r.state.activeProcess.Some? && |r.state.commands| == |po.commands|
    ensures r.state.progressMeasurement == po.progressMeasurement && r.state.numberOfThreads == po.numberOfThreads
    ensures r.result.Ok? <==>
      forall j :: k <= j < |po.commands| ==> po.commands[j].itkTag == Sentinel && !po.commands[j].event.UnknownEvent?
    decreases |po.commands| - k
  {
    if k == |po.commands| then Updated(po, Ok(()))
    else
      match AddObserverToActiveProcessObject(po, k)
      case Err(message) => Updated(po, Err(message))
      case Ok(next) =>
        var r := RegisterFrom(next, k + 1);
        assert po.commands[k].itkTag == Sentinel && !po.commands[k].event.UnknownEvent?;
        assert forall j :: k < j < |po.commands| ==> next.commands[j] == po.commands[j];
        r
  }

  /** Registering records `k..` keeps the process's tags fresh, its
      observers, progress and thread count, and leaves the records before
      `k` alone. */
  lemma {:induction false} RegisterFromFrame(po: ProcessObject, k: nat)
    requires po.activeProcess.Some? && k <= |po.commands|
    requires FreshTags(po.activeProcess.value)
    requires po.activeProcess.value.nextTag + (|po.commands| - k) <= Sentinel
    ensures var q := RegisterFrom(po, k).state.activeProcess.value;
      && FreshTags(q)
      && ObserversKept(po.activeProcess.value, q)
      && q.progress == po.activeProcess.value.progress
      && q.numberOfThreads == po.activeProcess.value.numberOfThreads
    ensures RegisterFrom(po, k).state.commands[..k] == po.commands[..k]
    decreases |po.commands| - k
  {
    if k < |po.commands| {
      match AddObserverToActiveProcessObject(po, k)
      case Err(_) =>
      case Ok(next) =>
        assert po.activeProcess.value.nextTag !in po.activeProcess.value.observers;
        RegisterFromFrame(next, k + 1);
        assert RegisterFrom(next, k + 1) == RegisterFrom(po, k);
        assert next.commands[..k] == po.commands[..k] by {
          assert forall j :: 0 <= j < k ==> next.commands[j] == po.commands[j];
        }
        assert RegisterFrom(po, k).state.commands[..k] == RegisterFrom(po, k).state.commands[..k + 1][..k];
    }
  }

  /** Registering records `k..` keeps the bookkeeping invariant. */
  lemma {:induction false} RegisterFromKeepsValid(po: ProcessObject, k: nat)
    requires po.activeProcess.Some? && k <= |po.commands|
    requires FreshTags(po.activeProcess.value)
    requires po.activeProcess.value.nextTag + (|po.commands| - k) <= Sentinel
    ensures Valid(po) ==> Valid(RegisterFrom(po, k).state)
    decreases |po.commands| - k
  {
    if k < |po.commands| && Valid(po) {
      match AddObserverToActiveProcessObject(po, k)
      case Err(_) =>
      case Ok(next) =>
        AddObserverKeepsValid(po, k);
        RegisterFromKeepsValid(next, k + 1);
        assert RegisterFrom(next, k + 1) == RegisterFrom(po, k);
    }
  }

  /** Every record from `k` on is tagged and registered with the active
      process. */
  ghost predicate RegisteredFrom(po: ProcessObject, k: nat) {
    forall j :: k <= j < |po.commands| ==> po.commands[j].itkTag != Sentinel && RegisteredWith(po, po.commands[j])
  }

  /** On success, every record from `k` on is tagged and registered. */
  lemma {:induction false} RegisterFromRegisters(po: ProcessObject, k: nat)
    requires po.activeProcess.Some? && k <= |po.commands|
    requires FreshTags(po.activeProcess.value)
    requires po.activeProcess.value.nextTag + (|po.commands| - k) <= Sentinel
    ensures RegisterFrom(po, k).result.Ok? ==> RegisteredFrom(RegisterFrom(po, k).state, k)
    decreases |po.commands| - k
  {
    if k < |po.commands| {
      match AddObserverToActiveProcessObject(po, k)
      case Err(_) =>
      case Ok(next) =>
        var r := RegisterFrom(next, k + 1);
        assert r == RegisterFrom(po, k);
        if r.result.Ok? {
          RegisterFromRegisters(next, k + 1);
          RegisterFromFrame(next, k + 1);
          var c := next.commands[k];
          assert r.state.commands[k] == c by {
            assert r.state.commands[..k + 1][k] == next.commands[..k + 1][k];
          }
          assert RegisteredWith(next, c);
          var p, q := next.activeProcess.value, r.state.activeProcess.value;
          assert c.itkTag in p.observers;
          assert RegisteredWith(r.state, c);
        }
    }
  }

  /** `PreUpdate`: makes `p` the active process, passes on the thread count,
      registers the deletion callback and then every record. If a record
      throws, the process object forgets `p` and rethrows; records
      registered before it keep their tags. */
  function PreUpdate(po: ProcessObject, p: ItkProcess): (r: Updated<()>)
    requires FreshTags(p)
    requires p.nextTag + 1 + |po.commands| <= Sentinel
    ensures r.result.Ok? <==>
      forall k :: 0 <= k < |po.commands| ==> po.commands[k].itkTag == Sentinel && !po.commands[k].event.UnknownEvent?
    ensures r.result.Ok? ==>
      && r.state.activeProcess.Some?
      && r.state.activeProcess.value.numberOfThreads == po.numberOfThreads
      && OnDeleteObserver in r.state.activeProcess.value.observers.Values
      && r.state.activeProcess.value.progress == p.progress
      && ObserversKept(p, r.state.activeProcess.value)
      && Valid(r.state)
      && forall k :: 0 <= k < |r.state.commands| ==>
           r.state.commands[k].itkTag != Sentinel && RegisteredWith(r.state, r.state.commands[k])
    ensures r.result.Err? ==> r.state.activeProcess.None?
    ensures |r.state.commands| == |po.commands|
  {
    var p' := p.(numberOfThreads := po.numberOfThreads,
                 observers := p.observers[p.nextTag := OnDeleteObserver],
                 nextTag := p.nextTag + 1);
    var started := po.(activeProcess := Some(p'));
    var registered := RegisterFrom(started, 0);
    RegisterFromKeepsValid(started, 0);
    RegisterFromRegisters(started, 0);
    RegisterFromFrame(started, 0);
    if registered.result.Ok? then
      assert Valid(started);
      assert registered.state.activeProcess.value.observers[p.nextTag] == OnDeleteObserver;
      registered
    else
      Updated(registered.state.(activeProcess := None), registered.result)
  }
}
