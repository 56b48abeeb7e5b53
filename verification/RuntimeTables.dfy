// The same tables as the database keeps them
// (agent-platform/migrations/0005_ap1_runtime_state.sql).
module RuntimeTables {
  import opened RuntimeStates

  /** runtime_transition_allowed */
  predicate Allowed(kind: Kind, from: State, to: State) {
    match kind
    case RunK =>
      || (from == Queued && to in {Running, Canceled, Superseded, DeadLettered})
      || (from == Running && to in {Waiting, Canceling, Succeeded, Failed, DeadLettered})
      || (from == Waiting && to in {Running, Canceling, Failed, Canceled, Superseded, DeadLettered})
      || (from == Canceling && to in {Canceled, Failed, DeadLettered})
    case TaskK =>
      || (from == Blocked && to in {Ready, Canceled, Superseded, DeadLettered})
      || (from == Ready && to in {Running, Canceled, Superseded, DeadLettered})
      || (from == Running && to in {Waiting, ResultCommitted, Failed, Canceled, Superseded, DeadLettered})
      || (from == Waiting && to in {Ready, Running, Failed, Canceled, Superseded, DeadLettered})
      || (from == ResultCommitted && to in {Succeeded, Canceled, Superseded, DeadLettered})
    case SessionK => from == Open && to == Closed
    case AttemptK =>
      || (from == Leased && to in {Executing, Failed, TimedOut, Canceled, Superseded})
      || (from == Executing && to in {ResultCommitted, Failed, TimedOut, Canceled, Superseded})
    case TurnK =>
      || (from == Planned && to in {Dispatched, Canceled})
      || (from == Dispatched && to in {ResultCommitted, Failed, Unknown, Canceled})
      || (from == Unknown && to in {ResultCommitted, Failed})
    case BudgetK => (from == Open && to in {Exhausted, Closed}) || (from == Exhausted && to == Closed)
    case IntentK => false
  }

  /** runtime_terminal_state */
  predicate Final(kind: Kind, s: State) {
    match kind
    case RunK => s == Succeeded || s == Failed || s == Canceled || s == Superseded || s == DeadLettered
    case TaskK => s == Succeeded || s == Failed || s == Canceled || s == Superseded || s == DeadLettered
    case SessionK => s == Closed
    case AttemptK => s == ResultCommitted || s == Failed || s == TimedOut || s == Canceled || s == Superseded
    case TurnK => s == ResultCommitted || s == Failed || s == Canceled
    case BudgetK => s == Closed
    case IntentK => false
  }

  /** guard_runtime_initial_insert; it knows no intents. */
  predicate MayBegin(kind: Kind, s: State) {
    match kind
    case RunK => s == Queued
    case TaskK => s == Blocked || s == Ready
    case SessionK => s == Open
    case AttemptK => s == Leased
    case TurnK => s == Planned
    case BudgetK => s == Open
    case IntentK => false
  }

  /** Go contract and database admit the same changes. */
  lemma {:induction false} ChangesAgree(kind: Kind, from: State, to: State)
    ensures CanTransition(kind, from, to) <==> Allowed(kind, from, to)
  {
  }

  /** Every change is between known states. */
  lemma {:induction false} ChangesKnown(kind: Kind, from: State, to: State)
    requires Allowed(kind, from, to)
    ensures Known(kind, from) && Known(kind, to) && from != to && !Final(kind, from)
  {
  }

  /** The database's final states are the known states that nothing leaves; those of the Go
      contract are the same for Runs, Tasks and Attempts, the only ones it names. */
  lemma {:induction false} FinalIff(kind: Kind, s: State)
    requires kind != IntentK
    ensures Final(kind, s) <==> Known(kind, s) && forall to :: !Allowed(kind, s, to)
    ensures kind == RunK || kind == TaskK || kind == AttemptK ==> (Final(kind, s) <==> Terminal(kind, s))
  {
    if Known(kind, s) && !Final(kind, s) {
      var to := Onward(kind, s);
      assert Allowed(kind, s, to);
    }
  }

  /** Some state that follows, for a state that is not final. */
  function Onward(kind: Kind, s: State): State {
    match kind
    case RunK => if s == Running then Waiting else if s == Canceling then Canceled else Running
    case TaskK =>
      if s == Blocked then Ready else if s == Running then Waiting else if s == ResultCommitted then Succeeded
      else Running
    case TurnK => if s == Planned then Dispatched else ResultCommitted
    case AttemptK => if s == Leased then Executing else ResultCommitted
    case _ => Closed
  }

  lemma {:induction false} BeginningsAgree(kind: Kind, s: State)
    requires kind != IntentK
    ensures Initial(kind, s) <==> MayBegin(kind, s)
    ensures MayBegin(kind, s) ==> Known(kind, s) && !Final(kind, s)
  {
  }
}
