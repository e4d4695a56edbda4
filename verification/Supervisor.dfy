/** The supervisor: hot reload of the configuration file, with rollback if the new session fails. */
module Supervisor {
  import opened Prelude
  import opened Bytes

  /** Why a session task was launched; a reload names the file contents it came from. */
  datatype Cause = Initial | Reload(contents: seq<byte>) | Rollback

  /** A session task and how often its handle has been awaited. A task that was awaited has ended. */
  datatype Task<C> = Task(config: C, cause: Cause, awaited: nat)

  datatype State<C> = State(current: C, rollback: Option<C>, seen: seq<byte>, tasks: seq<Task<C>>, exited: bool)

  /**
   * `Tick` carries what the periodic read of the file gave, and what the second read, made only if the
   * bytes are new, gave to the parser.
   */
  datatype Event = Interrupt | Ended | Tick(bytes: Option<seq<byte>>, reread: Option<seq<byte>>)

  /** Parsing, role selection and file validation of some contents. */
  type Load<C> = seq<byte> -> Option<C>

  function Loaded<C>(load: Load<C>, contents: Option<seq<byte>>): Option<C> {
    if contents.Some? then load(contents.value) else None
  }

  function Awaited<C>(tasks: seq<Task<C>>): seq<Task<C>>
    requires tasks != []
  {
    var last := |tasks| - 1;
    tasks[last := tasks[last].(awaited := tasks[last].awaited + 1)]
  }

  function Launched<C>(s: State<C>, config: C, cause: Cause): State<C> {
    s.(current := config, tasks := s.tasks + [Task(config, cause, 0)])
  }

  function Next<C>(load: Load<C>, s: State<C>, e: Event): State<C>
    requires s.tasks != []
  {
    if s.exited then s
    else match e
      case Interrupt => s.(tasks := Awaited(s.tasks), exited := true)
      case Ended =>
        var t := s.(tasks := Awaited(s.tasks));
        if s.rollback.Some? then Launched(t.(rollback := None), s.rollback.value, Rollback)
        else t.(exited := true)
      case Tick(bytes, reread) =>
        if bytes.None? || bytes.value == s.seen then s
        else
          var t := s.(seen := bytes.value);
          match Loaded(load, reread)
          case None => t
          case Some(config) =>
            Launched(t.(tasks := Awaited(t.tasks), rollback := Some(t.current)), config, Reload(reread.value))
  }

  function Start<C>(config: C, seen: seq<byte>): State<C> {
    State(config, None, seen, [Task(config, Initial, 0)], false)
  }

  function Run<C>(load: Load<C>, config: C, seen: seq<byte>, events: seq<Event>): (s: State<C>)
    ensures s.tasks != []
  {
    if events == [] then Start(config, seen)
    else Next(load, Run(load, config, seen, events[..|events| - 1]), events[|events| - 1])
  }

  // ----- invariant

  /** Where the configuration of task `i` comes from. */
  predicate Justified<C(==)>(load: Load<C>, config: C, tasks: seq<Task<C>>, i: nat)
    requires i < |tasks|
  {
    match tasks[i].cause
    case Initial => i == 0 && tasks[i].config == config
    case Reload(contents) => i > 0 && load(contents) == Some(tasks[i].config)
    case Rollback => i > 1 && tasks[i - 1].cause.Reload? && tasks[i].config == tasks[i - 2].config
  }

  predicate Inv<C(==)>(load: Load<C>, config: C, s: State<C>) {
    && s.tasks != []
    && (forall i | 0 <= i < |s.tasks| - 1 :: s.tasks[i].awaited == 1)
    && (forall i | 0 <= i < |s.tasks| :: Justified(load, config, s.tasks, i))
    && var last := s.tasks[|s.tasks| - 1];
       && last.awaited == (if s.exited then 1 else 0)
       && last.config == s.current
       && (s.rollback.Some? ==>
             |s.tasks| > 1 && last.cause.Reload? && s.rollback.value == s.tasks[|s.tasks| - 2].config)
       && (!s.exited && last.cause.Reload? ==> s.rollback.Some?)
  }

  lemma JustifiedStays<C>(load: Load<C>, config: C, tasks: seq<Task<C>>, after: seq<Task<C>>, i: nat)
    requires i < |tasks| <= |after| && Justified(load, config, tasks, i)
    requires forall j | 0 <= j < |tasks| :: after[j].config == tasks[j].config && after[j].cause == tasks[j].cause
    ensures Justified(load, config, after, i)
  {
  }

  lemma NextKeepsInv<C>(load: Load<C>, config: C, s: State<C>, e: Event)
    requires Inv(load, config, s)
    ensures Inv(load, config, Next(load, s, e))
  {
    var after := Next(load, s, e);
    forall i | 0 <= i < |s.tasks|
      ensures Justified(load, config, after.tasks, i)
    {
      JustifiedStays(load, config, s.tasks, after.tasks, i);
    }
  }

  lemma {:induction false} RunKeepsInv<C>(load: Load<C>, config: C, seen: seq<byte>, events: seq<Event>)
    ensures Inv(load, config, Run(load, config, seen, events))
  {
    if events != [] {
      RunKeepsInv(load, config, seen, events[..|events| - 1]);
      NextKeepsInv(load, config, Run(load, config, seen, events[..|events| - 1]), events[|events| - 1]);
    }
  }

  // ----- what every run guarantees

  /**
   * Every task but the newest has ended and its handle was awaited exactly once; the newest runs
   * `current` and is awaited only on the way out. Every configuration launched is the first one, or
   * passed all checks, or is the one that ran before the reload just undone; so a reload is rolled back
   * at most once, and by the very next launch.
   */
  predicate OneAtATime<C(==)>(load: Load<C>, config: C, s: State<C>) {
    && s.tasks != []
    && (forall i | 0 <= i < |s.tasks| - 1 :: s.tasks[i].awaited == 1)
    && s.tasks[|s.tasks| - 1].awaited == (if s.exited then 1 else 0)
    && s.tasks[|s.tasks| - 1].config == s.current
    && (forall i | 0 <= i < |s.tasks| :: Justified(load, config, s.tasks, i))
  }

  lemma OneTaskAtATime<C>(load: Load<C>, config: C, seen: seq<byte>, events: seq<Event>)
    ensures OneAtATime(load, config, Run(load, config, seen, events))
  {
    RunKeepsInv(load, config, seen, events);
  }

  function Count<C>(tasks: seq<Task<C>>, reloads: bool): nat {
    if tasks == [] then 0
    else
      var last := tasks[|tasks| - 1].cause;
      Count(tasks[..|tasks| - 1], reloads) + if (if reloads then last.Reload? else last.Rollback?) then 1 else 0
  }

  lemma {:induction false} RollbacksFollowReloads<C>(load: Load<C>, config: C, tasks: seq<Task<C>>, n: nat)
    requires n <= |tasks| && forall i | 0 <= i < |tasks| :: Justified(load, config, tasks, i)
    ensures Count(tasks[..n], false) <= Count(tasks[..n], true)
    decreases n
  {
    if n > 0 {
      assert tasks[..n][..n - 1] == tasks[..n - 1];
      if tasks[n - 1].cause.Rollback? {
        assert Justified(load, config, tasks, n - 1);
        RollbacksFollowReloads(load, config, tasks, n - 2);
        assert tasks[..n - 1][..n - 2] == tasks[..n - 2];
      } else {
        RollbacksFollowReloads(load, config, tasks, n - 1);
      }
    }
  }

  /** There are never more rollbacks than accepted reloads. */
  lemma RollbacksAreBounded<C>(load: Load<C>, config: C, seen: seq<byte>, events: seq<Event>)
    ensures var tasks := Run(load, config, seen, events).tasks; Count(tasks, false) <= Count(tasks, true)
  {
    RunKeepsInv(load, config, seen, events);
    var tasks := Run(load, config, seen, events).tasks;
    RollbacksFollowReloads(load, config, tasks, |tasks|);
    assert tasks[..|tasks|] == tasks;
  }

  /** The supervisor stops only when interrupted, or when a task that is not a fresh reload ends. */
  lemma StopsOnlyWithoutRollback<C>(load: Load<C>, config: C, seen: seq<byte>, events: seq<Event>, e: Event)
    requires !Run(load, config, seen, events).exited
    ensures var s := Run(load, config, seen, events);
            Next(load, s, e).exited <==> e.Interrupt? || (e.Ended? && !s.tasks[|s.tasks| - 1].cause.Reload?)
  {
    RunKeepsInv(load, config, seen, events);
  }

  // ----- the whole history of launches

  /** The contents last read from the file. */
  function LastRead(initial: seq<byte>, events: seq<Event>): seq<byte> {
    if events == [] then initial
    else
      var e := events[|events| - 1];
      if e.Tick? && e.bytes.Some? then e.bytes.value else LastRead(initial, events[..|events| - 1])
  }

  /** The event is a tick that finds new bytes and, reading again, contents that pass all checks. */
  predicate GoodEdit<C>(load: Load<C>, last: seq<byte>, e: Event) {
    e.Tick? && e.bytes.Some? && e.bytes.value != last && e.reread.Some? && load(e.reread.value).Some?
  }

  /**
   * Why each task was launched, told from the events alone: the first configuration, then every good
   * edit, and after the end of a reloaded task its rollback, until the supervisor is done.
   */
  function History<C>(load: Load<C>, initial: seq<byte>, events: seq<Event>): (causes: seq<Cause>)
    ensures causes != []
    decreases |events|, 0
  {
    if events == [] then [Initial]
    else
      var before, e := events[..|events| - 1], events[|events| - 1];
      var causes := History(load, initial, before);
      if Over(load, initial, before) then causes
      else if GoodEdit(load, LastRead(initial, before), e) then causes + [Reload(e.reread.value)]
      else if e.Ended? && causes[|causes| - 1].Reload? then causes + [Rollback]
      else causes
  }

  /** The supervisor is done: it was interrupted, or a task ended that was not a fresh reload. */
  predicate Over<C>(load: Load<C>, initial: seq<byte>, events: seq<Event>)
    decreases |events|, 1
  {
    if events == [] then false
    else
      var before, e := events[..|events| - 1], events[|events| - 1];
      var causes := History(load, initial, before);
      Over(load, initial, before) || e.Interrupt? || (e.Ended? && !causes[|causes| - 1].Reload?)
  }

  function Causes<C>(tasks: seq<Task<C>>): (r: seq<Cause>)
    ensures |r| == |tasks|
  {
    seq(|tasks|, i requires 0 <= i < |tasks| => tasks[i].cause)
  }

  lemma AwaitedCauses<C>(tasks: seq<Task<C>>)
    requires tasks != []
    ensures Causes(Awaited(tasks)) == Causes(tasks)
  {
  }

  lemma OneEvent<C>(load: Load<C>, config: C, s: State<C>, e: Event)
    requires Inv(load, config, s) && !s.exited
    ensures var last, after := s.tasks[|s.tasks| - 1].cause, Next(load, s, e);
            && after.seen == (if e.Tick? && e.bytes.Some? then e.bytes.value else s.seen)
            && after.exited == (e.Interrupt? || (e.Ended? && !last.Reload?))
            && Causes(after.tasks)
               == Causes(s.tasks) + (if GoodEdit(load, s.seen, e) then [Reload(e.reread.value)]
                                     else if e.Ended? && last.Reload? then [Rollback] else [])
  {
    hide Awaited;
    AwaitedCauses(s.tasks);
    var t := Awaited(s.tasks);
    assert forall task: Task<C> :: Causes(t + [task]) == Causes(t) + [task.cause];
  }

  /** In every run the tasks were launched for exactly the reasons the events give, in that order. */
  lemma {:induction false} LaunchedAsTold<C>(load: Load<C>, config: C, seen: seq<byte>, events: seq<Event>)
    ensures var s := Run(load, config, seen, events);
            && Causes(s.tasks) == History(load, seen, events)
            && s.exited == Over(load, seen, events)
            && (!s.exited ==> s.seen == LastRead(seen, events))
  {
    hide Inv, Next;
    if events != [] {
      var before, e := events[..|events| - 1], events[|events| - 1];
      LaunchedAsTold(load, config, seen, before);
      RunKeepsInv(load, config, seen, before);
      var s := Run(load, config, seen, before);
      if s.exited {
        ExitedStays(load, s, e);
      } else {
        OneEvent(load, config, s, e);
      }
    }
  }

  lemma ExitedStays<C>(load: Load<C>, s: State<C>, e: Event)
    requires s.tasks != [] && s.exited
    ensures Next(load, s, e) == s
  {
  }

  /** The good edits among the events, in order, up to the moment the supervisor is done. */
  function GoodEdits<C>(load: Load<C>, initial: seq<byte>, events: seq<Event>): seq<seq<byte>> {
    if events == [] then []
    else
      var before, e := events[..|events| - 1], events[|events| - 1];
      GoodEdits(load, initial, before)
      + if !Over(load, initial, before) && GoodEdit(load, LastRead(initial, before), e) then [e.reread.value] else []
  }

  function Reloaded(causes: seq<Cause>): seq<seq<byte>> {
    if causes == [] then []
    else
      var last := causes[|causes| - 1];
      Reloaded(causes[..|causes| - 1]) + if last.Reload? then [last.contents] else []
  }

  lemma ReloadedSnoc(causes: seq<Cause>, cause: Cause)
    ensures Reloaded(causes + [cause]) == Reloaded(causes) + if cause.Reload? then [cause.contents] else []
  {
    assert (causes + [cause])[..|causes|] == causes;
  }

  /** The reloaded tasks are exactly the good edits, in order; no other tick launches anything. */
  lemma {:induction false} ReloadsAreGoodEdits<C>(load: Load<C>, initial: seq<byte>, events: seq<Event>)
    ensures Reloaded(History(load, initial, events)) == GoodEdits(load, initial, events)
  {
    if events == [] {
      ReloadedSnoc([], Initial);
      assert [] + [Initial] == [Initial];
    } else {
      var before, e := events[..|events| - 1], events[|events| - 1];
      ReloadsAreGoodEdits(load, initial, before);
      if GoodEdit(load, LastRead(initial, before), e) {
        ReloadedSnoc(History(load, initial, before), Reload(e.reread.value));
      } else {
        ReloadedSnoc(History(load, initial, before), Rollback);
      }
    }
  }

  // ----- the loop

  /**
   * The supervisor's loop on any sequence of events: one task at a time, each launch justified, no more
   * rollbacks than accepted reloads. The launches are those the events call for, in order, and the reloads
   * among them exactly the good edits: a rejected edit launches nothing and replaces nothing.
   */
  method Supervise<C(==)>(load: Load<C>, config: C, contents: seq<byte>, events: seq<Event>) returns (s: State<C>)
    ensures s == Run(load, config, contents, events)
    ensures OneAtATime(load, config, s)
    ensures Count(s.tasks, false) <= Count(s.tasks, true)
    ensures Causes(s.tasks) == History(load, contents, events) && s.exited == Over(load, contents, events)
    ensures Reloaded(Causes(s.tasks)) == GoodEdits(load, contents, events)
  {
    hide OneAtATime, Count, Causes, History, Over, Reloaded, GoodEdits;
    LaunchedAsTold(load, config, contents, events);
    ReloadsAreGoodEdits(load, contents, events);
    OneTaskAtATime(load, config, contents, events);
    RollbacksAreBounded(load, config, contents, events);
    var current, rollback: Option<C>, seen := config, None, contents;
    var tasks := [Task(current, Initial, 0)];
    var exited := false;
    for n := 0 to |events|
      invariant tasks != []
      invariant State(current, rollback, seen, tasks, exited) == Run(load, config, contents, events[..n])
    {
      assert events[..n + 1][..n] == events[..n];
      if !exited {
        match events[n] {
          case Interrupt =>
            tasks := Awaited(tasks);
            exited := true;
          case Ended =>
            tasks := Awaited(tasks);
            if rollback.Some? {
              current, rollback := rollback.value, None;
              tasks := tasks + [Task(current, Rollback, 0)];
            } else {
              exited := true;
            }
          case Tick(bytes, reread) =>
            if bytes.Some? && bytes.value != seen {
              seen := bytes.value;
              var next := Loaded(load, reread);
              if next.Some? {
                tasks := Awaited(tasks);
                rollback, current := Some(current), next.value;
                tasks := tasks + [Task(current, Reload(reread.value), 0)];
              }
            }
        }
      }
    }
    assert events[..|events|] == events;
    s := State(current, rollback, seen, tasks, exited);
  }
}
