/** `src/finder/sheets_logic/event_manager.py`: the manager that claims the oldest
    IN_PROGRESS event inside one transaction and settles it. The transaction and
    its row lock are one indivisible step here: each call is one atomic update
    of the event table. */
module SheetsLogic {
  import opened Wrappers
  import opened Exceptions
  import opened Models

  class EventManager {
    /** Set to None by `__init__` and never read or written again. */
    var event: Option<nat>

    constructor()
      ensures event.None?
    {
      event := None;
    }

    /** `process_event(event)`: mark row `i` IN_PROGRESS and save it. `step` says
        whether that returned or raised; a save that raised stored nothing. */
    method ProcessEvent(table: EventTable, i: nat, step: Completion) returns (raised: Option<string>)
      requires table.Valid() && i < |table.rows|
      modifies table
      ensures table.Valid()
      ensures step.Returned? ==> raised.None?
      ensures step.Returned? ==> table.rows == old(table.rows)[i := old(table.rows[i]).WithStatus(InProgress, old(table.clock))]
      ensures step.Returned? ==> table.clock == old(table.clock) + 1
      ensures step.Raised? ==> raised == Some(step.text)
      ensures step.Raised? ==> table.rows == old(table.rows) && table.clock == old(table.clock)
    {
      match step
      case Returned =>
        table.SaveStatus(i, InProgress);
        raised := None;
      case Raised(text) =>
        raised := Some(text);
    }

    /** `process()`: claim the oldest IN_PROGRESS event; if `process_event`
        returns, mark it successful and report True, and if it raises, record
        the error and report False. With nothing to claim, report False. */
    method Process(table: EventTable, step: Completion) returns (isProcessed: bool)
      requires table.Valid()
      modifies table
      ensures table.Valid()
      ensures FirstWithStatus(old(table.rows), InProgress).None? ==>
                !isProcessed && table.rows == old(table.rows) && table.clock == old(table.clock)
      ensures FirstWithStatus(old(table.rows), InProgress).Some? ==>
                var i := FirstWithStatus(old(table.rows), InProgress).value;
                && isProcessed == step.Returned?
                && table.rows == old(table.rows)[i := old(table.rows[i]).AfterProcessing(step, old(table.clock))]
                && table.clock == old(table.clock) + (if step.Returned? then 2 else 1)
      // WAITING and already settled events are never touched.
      ensures |table.rows| == |old(table.rows)|
      ensures forall j :: 0 <= j < |table.rows| && old(table.rows[j]).status != InProgress ==>
                table.rows[j] == old(table.rows[j])
    {
      isProcessed := false;
      var selected := FirstWithStatus(table.rows, InProgress);
      if selected.Some? {
        var i := selected.value;
        var raised := ProcessEvent(table, i, step);
        if raised.Some? {
          table.SetError(i, raised.value);
        } else {
          table.SetSuccess(i);
          isProcessed := true;
        }
      }
    }
  }
}
