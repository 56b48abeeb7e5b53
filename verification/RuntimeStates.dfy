// The runtime's transition graph and its event records
// (agent-platform/runtimecontract/state.go, validate.go).
module RuntimeStates {
  import opened Collections

  datatype Kind = RunK | TaskK | SessionK | AttemptK | TurnK | BudgetK | IntentK

  datatype State =
    | Queued | Running | Waiting | Canceling | Succeeded | Failed | Canceled | Superseded | DeadLettered
    | Blocked | Ready | ResultCommitted | Open | Closed | Leased | Executing | TimedOut
    | Planned | Dispatched | Unknown | Exhausted | Disabled

  /** transitionGraph */
  function Successors(kind: Kind, from: State): set<State> {
    match (kind, from)
    case (RunK, Queued) => {Running, Canceled, Superseded, DeadLettered}
    case (RunK, Running) => {Waiting, Canceling, Succeeded, Failed, DeadLettered}
    case (RunK, Waiting) => {Running, Canceling, Failed, Canceled, Superseded, DeadLettered}
    case (RunK, Canceling) => {Canceled, Failed, DeadLettered}
    case (TaskK, Blocked) => {Ready, Canceled, Superseded, DeadLettered}
    case (TaskK, Ready) => {Running, Canceled, Superseded, DeadLettered}
    case (TaskK, Running) => {Waiting, ResultCommitted, Failed, Canceled, Superseded, DeadLettered}
    case (TaskK, Waiting) => {Ready, Running, Failed, Canceled, Superseded, DeadLettered}
    case (TaskK, ResultCommitted) => {Succeeded, Canceled, Superseded, DeadLettered}
    case (SessionK, Open) => {Closed}
    case (AttemptK, Leased) => {Executing, Failed, TimedOut, Canceled, Superseded}
    case (AttemptK, Executing) => {ResultCommitted, Failed, TimedOut, Canceled, Superseded}
    case (TurnK, Planned) => {Dispatched, Canceled}
    case (TurnK, Dispatched) => {ResultCommitted, Failed, Unknown, Canceled}
    case (TurnK, Unknown) => {ResultCommitted, Failed}
    case (BudgetK, Open) => {Exhausted, Closed}
    case (BudgetK, Exhausted) => {Closed}
    case _ => {}
  }

  predicate CanTransition(kind: Kind, from: State, to: State) {
    to in Successors(kind, from)
  }

  /** knownSubjectState */
  predicate Known(kind: Kind, s: State) {
    match kind
    case RunK => s in {Queued, Running, Waiting, Canceling, Succeeded, Failed, Canceled, Superseded, DeadLettered}
    case TaskK =>
      s in {Blocked, Ready, Running, Waiting, ResultCommitted, Succeeded, Failed, Canceled, Superseded, DeadLettered}
    case SessionK => s in {Open, Closed}
    case AttemptK => s in {Leased, Executing, ResultCommitted, Failed, TimedOut, Canceled, Superseded}
    case TurnK => s in {Planned, Dispatched, ResultCommitted, Failed, Unknown, Canceled}
    case BudgetK => s in {Open, Exhausted, Closed}
    case IntentK => s == Disabled
  }

  /** initialSubjectState */
  predicate Initial(kind: Kind, s: State) {
    match kind
    case RunK => s == Queued
    case TaskK => s == Blocked || s == Ready
    case SessionK => s == Open
    case AttemptK => s == Leased
    case TurnK => s == Planned
    case BudgetK => s == Open
    case IntentK => s == Disabled
  }

  /** terminalRunState, terminalTaskState, terminalAttemptState */
  predicate Terminal(kind: Kind, s: State) {
    match kind
    case RunK => s in {Succeeded, Failed, Canceled, Superseded, DeadLettered}
    case TaskK => s in {Succeeded, Failed, Canceled, Superseded, DeadLettered}
    case AttemptK => s in {ResultCommitted, Failed, TimedOut, Canceled, Superseded}
    case _ => false
  }

  /** The graph stays within the known states and never repeats a state in place. */
  lemma {:induction false} GraphIsClosed(kind: Kind, from: State, to: State)
    requires CanTransition(kind, from, to)
    ensures Known(kind, from) && Known(kind, to) && from != to
    ensures Initial(kind, to) ==> kind == TaskK && to == Ready
  {
  }

  /** The terminal predicates name exactly the known states without a way out. */
  lemma {:induction false} TerminalAbsorbs(kind: Kind, s: State)
    requires kind == RunK || kind == TaskK || kind == AttemptK
    ensures Terminal(kind, s) <==> Known(kind, s) && forall to :: !CanTransition(kind, s, to)
  {
    if Known(kind, s) && !Terminal(kind, s) {
      match (kind, s)
      case (RunK, Queued) => assert CanTransition(kind, s, Running);
      case (RunK, Running) => assert CanTransition(kind, s, Waiting);
      case (RunK, Waiting) => assert CanTransition(kind, s, Running);
      case (RunK, Canceling) => assert CanTransition(kind, s, Canceled);
      case (TaskK, Blocked) => assert CanTransition(kind, s, Ready);
      case (TaskK, Ready) => assert CanTransition(kind, s, Running);
      case (TaskK, Running) => assert CanTransition(kind, s, Waiting);
      case (TaskK, Waiting) => assert CanTransition(kind, s, Ready);
      case (TaskK, ResultCommitted) => assert CanTransition(kind, s, Succeeded);
      case (AttemptK, Leased) => assert CanTransition(kind, s, Executing);
      case (AttemptK, Executing) => assert CanTransition(kind, s, Failed);
    }
  }

  // ----- events -----

  datatype Subject = Subject(kind: Kind, id: nat)

  datatype Event = Event(subject: Subject, from: Option<State>, to: State, generation: int)

  /** The transition rules of RuntimeEvent.Validate. */
  predicate EventValid(e: Event) {
    && Known(e.subject.kind, e.to) && e.generation > 0
    && match e.from
       case Some(from) =>
         && Known(e.subject.kind, from) && e.generation > 1 && from != e.to
         && CanTransition(e.subject.kind, from, e.to)
       case None => e.generation == 1 && Initial(e.subject.kind, e.to)
  }

  datatype Cell = Cell(state: State, generation: int)

  /** The log of one subject ends in its cell: one valid event per generation, each
      starting where the one before it ended. */
  ghost predicate Traces(kind: Kind, log: seq<Event>, cell: Cell) {
    if log == [] then false
    else
      var last := log[|log| - 1];
      && EventValid(last) && last.subject.kind == kind && last.to == cell.state && last.generation == cell.generation
      && if |log| == 1 then last.from.None? else last.from.Some? && Traces(kind, log[..|log| - 1],
                                                                           Cell(last.from.value, cell.generation - 1))
  }

  /** How many transitions are left at most. Runs and Tasks may go on for ever. */
  function Steps(kind: Kind, s: State): nat {
    match (kind, s)
    case (SessionK, Open) => 1
    case (AttemptK, Leased) => 2
    case (AttemptK, Executing) => 1
    case (TurnK, Planned) => 3
    case (TurnK, Dispatched) => 2
    case (TurnK, Unknown) => 1
    case (BudgetK, Open) => 2
    case (BudgetK, Exhausted) => 1
    case _ => 0
  }

  function MostEvents(kind: Kind): nat {
    match kind
    case SessionK => 2
    case AttemptK => 3
    case TurnK => 4
    case BudgetK => 3
    case _ => 1
  }

  /** The generation counts the events, and an Attempt's log has at most three, a
      Turn's at most four. */
  lemma {:induction false} LogBounded(kind: Kind, log: seq<Event>, cell: Cell)
    requires Traces(kind, log, cell)
    ensures |log| == cell.generation
    ensures kind != RunK && kind != TaskK ==> |log| + Steps(kind, cell.state) <= MostEvents(kind)
  {
    var last := log[|log| - 1];
    if |log| > 1 {
      LogBounded(kind, log[..|log| - 1], Cell(last.from.value, cell.generation - 1));
    }
  }

  /** Nothing follows a terminal state. */
  lemma {:induction false} TerminalEndsLog(kind: Kind, log: seq<Event>, e: Event, cell: Cell, next: Cell)
    requires Traces(kind, log, cell) && Terminal(kind, cell.state)
    ensures !Traces(kind, log + [e], next)
  {
    if Traces(kind, log + [e], next) {
      assert (log + [e])[..|log|] == log;
      TraceEnds(kind, log, cell, Cell(e.from.value, next.generation - 1));
      TerminalAbsorbs(kind, cell.state);
      assert false;
    }
  }

  lemma {:induction false} TraceEnds(kind: Kind, log: seq<Event>, a: Cell, b: Cell)
    requires Traces(kind, log, a) && Traces(kind, log, b)
    ensures a == b
  {
  }

  /** A Run may leave and re-enter waiting without end: its log is unbounded. */
  lemma {:induction false} RunLogUnbounded(n: nat) returns (log: seq<Event>, cell: Cell)
    ensures |log| == 2 * n + 2 && cell.state == Running && Traces(RunK, log, cell)
  {
    var run := Subject(RunK, 0);
    if n == 0 {
      var first := [Event(run, None, Queued, 1)];
      log := TraceOneMore(RunK, first, Cell(Queued, 1), Event(run, Some(Queued), Running, 2));
      cell := Cell(Running, 2);
    } else {
      var before, at := RunLogUnbounded(n - 1);
      LogBounded(RunK, before, at);
      var paused := TraceOneMore(RunK, before, at, Event(run, Some(Running), Waiting, at.generation + 1));
      log := TraceOneMore(RunK, paused, Cell(Waiting, at.generation + 1),
                          Event(run, Some(Waiting), Running, at.generation + 2));
      cell := Cell(Running, at.generation + 2);
    }
  }

  lemma {:induction false} TraceOneMore(kind: Kind, log: seq<Event>, cell: Cell, e: Event) returns (more: seq<Event>)
    requires Traces(kind, log, cell) && EventValid(e) && e.subject.kind == kind
    requires e.from == Some(cell.state) && e.generation == cell.generation + 1
    ensures more == log + [e] && Traces(kind, more, Cell(e.to, e.generation))
  {
    more := log + [e];
    assert more[..|log|] == log;
  }
}
