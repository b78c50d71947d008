/**
 * src/code/logger.js: a logger that queues its messages until the `debugInfo` preference is known,
 * then prints them (and everything after) or drops them (and everything after).
 */
module Logging {
  import opened Wrappers
  import opened JsonValues
  import opened WebExtension
  import Defaults

  /** What the current `log` function does: push to the queue, print, or nothing. */
  datatype LogMode = Queueing | Printing | Silent

  /** The prefix the queueing `log` puts in front of a message. */
  const QueuedTag: Json := Str("Queued message:")

  /** The logger as a value: the queue, the current `log` behaviour, and what reached the console. */
  datatype LoggerState = LoggerState(queue: seq<seq<Json>>, mode: LogMode, printed: seq<seq<Json>>)

  /** Something that happens to a logger: a `log(...)` call, or a `storage.onChanged` notification. */
  datatype Event = LogCall(args: seq<Json>) | OptionsChange(changes: map<string, StorageChange>)

  /** The logger right after construction: nothing known about `debugInfo` yet. */
  const Initial: LoggerState := LoggerState([], Queueing, [])

  /** Only the queueing `log` pushes, so once a decision is made the queue is empty. */
  predicate Settled(s: LoggerState)
  {
    s.mode != Queueing ==> s.queue == []
  }

  /** Which mode a `debugInfo` change selects: only the value `true` turns printing on. */
  function ModeFor(newValue: Option<Json>): (m: LogMode)
    ensures m != Queueing
    ensures m == Printing <==> newValue == Some(Bool(true))
  {
    if newValue == Some(Bool(true)) then Printing else Silent
  }

  /** The effect of one event on the logger. */
  function Apply(s: LoggerState, e: Event): (r: LoggerState)
    ensures Settled(s) ==> Settled(r)
    ensures e.OptionsChange? && "debugInfo" in e.changes ==> r.queue == [] && r.mode == ModeFor(e.changes["debugInfo"].newValue)
    ensures e.OptionsChange? && "debugInfo" !in e.changes ==> r == s
    ensures e.LogCall? ==> r.mode == s.mode
  {
    match e
    case LogCall(args) =>
      (match s.mode
       case Queueing => s.(queue := s.queue + [[QueuedTag] + args])
       case Printing => s.(printed := s.printed + [args])
       case Silent => s)
    case OptionsChange(changes) =>
      if "debugInfo" !in changes then s
      else if changes["debugInfo"].newValue == Some(Bool(true)) then
        LoggerState([], Printing, s.printed + s.queue)
      else
        LoggerState([], Silent, s.printed)
  }

  /** The logger after a sequence of events, applied in order. */
  function Run(s: LoggerState, events: seq<Event>): (r: LoggerState)
    ensures Settled(s) ==> Settled(r)
  {
    if events == [] then s else Apply(Run(s, events[..|events| - 1]), events[|events| - 1])
  }

  /** The entries the queueing `log` makes of the messages `msgs`. */
  function Tagged(msgs: seq<seq<Json>>): (r: seq<seq<Json>>)
    ensures |r| == |msgs|
    ensures forall i :: 0 <= i < |msgs| ==> r[i] == [QueuedTag] + msgs[i]
  {
    if msgs == [] then [] else Tagged(msgs[..|msgs| - 1]) + [[QueuedTag] + msgs[|msgs| - 1]]
  }

  /** The events of calling `log` once with each of `msgs`. */
  function LogCalls(msgs: seq<seq<Json>>): (r: seq<Event>)
    ensures |r| == |msgs|
    ensures forall i :: 0 <= i < |msgs| ==> r[i] == LogCall(msgs[i])
  {
    seq(|msgs|, i requires 0 <= i < |msgs| => LogCall(msgs[i]))
  }

  /** Before the decision, each `log` call queues exactly one tagged entry and prints nothing. */
  lemma {:induction false} QueueingLogsAppend(msgs: seq<seq<Json>>)
    ensures Run(Initial, LogCalls(msgs)) == LoggerState(Tagged(msgs), Queueing, [])
  {
    if msgs != [] {
      var front := msgs[..|msgs| - 1];
      assert LogCalls(msgs)[..|msgs| - 1] == LogCalls(front);
      QueueingLogsAppend(front);
    }
  }

  /** Logging, then `debugInfo` turning out `true`: every queued message is printed once, in order. */
  lemma QueuedMessagesFlushedInOrder(msgs: seq<seq<Json>>, changes: map<string, StorageChange>)
    requires "debugInfo" in changes && changes["debugInfo"].newValue == Some(Bool(true))
    ensures Run(Initial, LogCalls(msgs) + [OptionsChange(changes)]) == LoggerState([], Printing, Tagged(msgs))
  {
    QueueingLogsAppend(msgs);
    assert (LogCalls(msgs) + [OptionsChange(changes)])[..|msgs|] == LogCalls(msgs);
  }

  /** Logging, then any other `debugInfo` value: the queue is dropped and nothing is printed. */
  lemma QueuedMessagesDiscarded(msgs: seq<seq<Json>>, changes: map<string, StorageChange>)
    requires "debugInfo" in changes && changes["debugInfo"].newValue != Some(Bool(true))
    ensures Run(Initial, LogCalls(msgs) + [OptionsChange(changes)]) == LoggerState([], Silent, [])
  {
    QueueingLogsAppend(msgs);
    assert (LogCalls(msgs) + [OptionsChange(changes)])[..|msgs|] == LogCalls(msgs);
  }

  /** Once a decision is made, the queue stays empty whatever happens next. */
  lemma {:induction false} QueueStaysEmpty(s: LoggerState, events: seq<Event>)
    requires s.mode != Queueing && s.queue == []
    ensures Run(s, events).queue == [] && Run(s, events).mode != Queueing
  {
    if events != [] {
      QueueStaysEmpty(s, events[..|events| - 1]);
    }
  }

  /** Later changes switch freely: after a decision, each `debugInfo` change alone decides what `log` does. */
  lemma SwitchesFreely(s: LoggerState, newValue: Option<Json>, args: seq<Json>)
    requires s.mode != Queueing && Settled(s)
    ensures var t := Apply(s, OptionsChange(map["debugInfo" := StorageChange(newValue)]));
      && t.printed == s.printed
      && Apply(t, LogCall(args)).printed == s.printed + (if newValue == Some(Bool(true)) then [args] else [])
  {
  }

  /** The logger object: the queue is `messagesReceivedDuringInit`, `mode` which function `this.log` is. */
  class Logger {
    var queue: seq<seq<Json>>
    var mode: LogMode
    /** The console output, one entry per `console.log` call. */
    var printed: seq<seq<Json>>

    function State(): LoggerState
      reads this
    {
      LoggerState(queue, mode, printed)
    }

    ghost predicate Valid()
      reads this
    {
      Settled(State())
    }

    constructor()
      ensures State() == Initial
      ensures Valid()
    {
      queue := [];
      mode := Queueing;
      printed := [];
    }

    /** `this.log(...args)`, whichever function it currently is. */
    method Log(args: seq<Json>)
      modifies this
      ensures State() == Apply(old(State()), LogCall(args))
      ensures old(Valid()) ==> Valid()
    {
      match mode
      case Queueing =>
        queue := queue + [[QueuedTag] + args];
      case Printing =>
        printed := printed + [args];
      case Silent =>
    }

    /** `handleOptionsChange(changes)`: the flush loop prints the queue front to back before clearing it. */
    method HandleOptionsChange(changes: map<string, StorageChange>)
      modifies this
      ensures State() == Apply(old(State()), OptionsChange(changes))
      ensures old(Valid()) ==> Valid()
    {
      if "debugInfo" in changes {
        if changes["debugInfo"].newValue == Some(Bool(true)) {
          if |queue| > 0 {
            for i := 0 to |queue|
              invariant queue == old(queue) && mode == old(mode)
              invariant printed == old(printed) + queue[..i]
            {
              printed := printed + [queue[i]];
            }
            assert queue[..|queue|] == queue;
            queue := [];
          }
          mode := Printing;
        } else {
          if |queue| > 0 {
            queue := [];
          }
          mode := Silent;
        }
      }
    }

    /**
     * The `storage.sync.get(defaultDebugSettings, ...)` callback: the stored `debugInfo`, or `false`
     * when none is stored, is handled as a change.
     */
    method ReceiveStoredDebugInfo(stored: Option<Json>)
      modifies this
      ensures State() == Apply(old(State()), OptionsChange(map["debugInfo" := StorageChange(Some(DebugInfoOrDefault(stored)))]))
      ensures old(Valid()) ==> Valid()
    {
      HandleOptionsChange(map["debugInfo" := StorageChange(Some(DebugInfoOrDefault(stored)))]);
    }
  }

  /** `items.debugInfo` after a `get` with `defaultDebugSettings` as the defaults. */
  function DebugInfoOrDefault(stored: Option<Json>): (v: Json)
    ensures stored.Some? ==> v == stored.value
    ensures stored.None? ==> v == Bool(false)
  {
    if stored.Some? then stored.value else Defaults.DefaultDebugSettings["debugInfo"]
  }

  /** With nothing stored, the logger goes silent and drops what it queued. */
  lemma NothingStoredMeansSilent(s: LoggerState)
    ensures Apply(s, OptionsChange(map["debugInfo" := StorageChange(Some(DebugInfoOrDefault(None)))])) == LoggerState([], Silent, s.printed)
  {
  }
}
