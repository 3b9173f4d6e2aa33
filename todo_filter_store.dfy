/**
 * The shared UI state that holds the selected list filter: one field,
 * initially "all", overwritten by `setFilter`.
 */
module TodoFilterStore {
  import opened TodoTypes

  /** The state transition `setFilter(value)` performs on a store holding `state`. */
  function SetFilterStep(state: TodoFilter, value: TodoFilter): TodoFilter
  {
    value
  }

  /** The filter after `setFilter` has been called with each of `values` in turn. */
  function Replay(state: TodoFilter, values: seq<TodoFilter>): TodoFilter
    decreases |values|
  {
    if values == [] then state else Replay(SetFilterStep(state, values[0]), values[1..])
  }

  /** Calling `setFilter(value)` a second time changes nothing. */
  lemma SetFilterIdempotent(state: TodoFilter, value: TodoFilter)
    ensures SetFilterStep(SetFilterStep(state, value), value) == SetFilterStep(state, value)
    ensures SetFilterStep(state, value) == value
  {
  }

  /** After a sequence of `setFilter` calls the filter is the last value set, or unchanged if none. */
  lemma {:induction false} ReplayYieldsLast(state: TodoFilter, values: seq<TodoFilter>)
    ensures Replay(state, values) == if values == [] then state else values[|values| - 1]
    decreases |values|
  {
    if values != [] {
      ReplayYieldsLast(SetFilterStep(state, values[0]), values[1..]);
    }
  }

  /** The store created by `useTodoFilterStore`. */
  class FilterStore {
    var filter: TodoFilter

    constructor ()
      ensures filter == All
    {
      filter := All;
    }

    method SetFilter(value: TodoFilter)
      modifies this
      ensures filter == value
      ensures filter == SetFilterStep(old(filter), value)
    {
      filter := value;
    }
  }
}
