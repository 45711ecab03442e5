/** `src/finder/event_logic/event_manager.py`: the dataclass manager that picks
    the oldest IN_PROGRESS event when it is built and settles it in `process`.
    The messages `_operate_success` and `_operate_error` hand over for logging and
    sending are kept, in order, in `notices`; the sending itself is not modelled. */
module EventLogic {
  import opened Wrappers
  import opened Exceptions
  import opened Constants
  import opened Models
  import Text

  /** A message and its level, as passed to `operate_message`. */
  datatype Notice = Notice(text: string, level: MessageLevel)

  /** The message of `_operate_success`: "Event {pk} operated successfully".
      It names its event: the key parses back from the text. */
  function SuccessText(pk: int): (r: string)
    ensures "Event " + Text.DecimalString(pk) + " " <= r
    ensures r[|"Event " + Text.DecimalString(pk)|..] == " operated successfully"
    ensures NoticePk(r) == Some(pk)
  {
    ManagerTextPk(pk, " operated successfully");
    "Event " + Text.DecimalString(pk) + " operated successfully"
  }

  /** The message of `_operate_error`: "Event {pk} failed with error: {error}".
      It names its event and ends with the error text. */
  function FailureText(pk: int, error: string): (r: string)
    ensures "Event " + Text.DecimalString(pk) + " failed with error: " <= r
    ensures r[|"Event " + Text.DecimalString(pk) + " failed with error: "|..] == error
    ensures NoticePk(r) == Some(pk)
  {
    var tail := " failed with error: " + error;
    assert "Event " + Text.DecimalString(pk) + " failed with error: " + error == "Event " + Text.DecimalString(pk) + tail;
    ManagerTextPk(pk, tail);
    "Event " + Text.DecimalString(pk) + " failed with error: " + error
  }

  /** The longest prefix of `s` that holds no space. */
  function UpToSpace(s: string): (r: string)
    ensures r <= s
  {
    if |s| == 0 || s[0] == ' ' then [] else [s[0]] + UpToSpace(s[1..])
  }

  /** The event key a manager message names: the integer after "Event ". */
  function NoticePk(text: string): Option<int>
  {
    if |text| >= 6 && text[..6] == "Event " then Text.ParseInt(UpToSpace(text[6..])) else None
  }

  lemma {:induction false} UpToSpaceOfWord(w: string, rest: string)
    requires forall i :: 0 <= i < |w| ==> w[i] != ' '
    requires |rest| > 0 && rest[0] == ' '
    ensures UpToSpace(w + rest) == w
  {
    if |w| > 0 {
      assert (w + rest)[1..] == w[1..] + rest;
      UpToSpaceOfWord(w[1..], rest);
    }
  }

  lemma ManagerTextPk(pk: int, tail: string)
    requires |tail| > 0 && tail[0] == ' '
    ensures NoticePk("Event " + Text.DecimalString(pk) + tail) == Some(pk)
  {
    var d := Text.DecimalString(pk);
    var text := "Event " + d + tail;
    assert text[..6] == "Event ";
    assert text[6..] == d + tail;
    forall i | 0 <= i < |d| ensures d[i] != ' ' {
      if pk < 0 && i > 0 {
        assert d[i] == d[1..][i - 1];
      }
    }
    UpToSpaceOfWord(d, tail);
    Text.ParseIntRoundTrip(pk);
  }

  /** `str(exc)` of the AttributeError `self.event.set_in_progress()` raises:
      the `Event` model defines no such method. */
  const SET_IN_PROGRESS_MISSING: string := AttributeErrorText("Event", "set_in_progress")

  /** `str(exc)` of the AttributeError `self.event.set_success()` raises when
      `self.event` is None. */
  const SET_SUCCESS_ON_NONE: string := AttributeErrorText("NoneType", "set_success")

  class EventManager {
    /** The table `Event.objects` reads and writes. */
    const table: EventTable
    /** `event`: position of the claimed row, None when nothing was claimed. */
    var event: Option<nat>
    var chatId: Option<int>
    var status: EventManagerStatus
    var error: Option<string>
    var notices: seq<Notice>

    ghost predicate Valid()
      reads this, table
    {
      && table.Valid()
      && (event.Some? ==> event.value < |table.rows| && chatId == Some(table.rows[event.value].chatId))
      && (event.None? ==> chatId.None?)
    }

    /** The dataclass defaults and `__post_init__`: select the oldest IN_PROGRESS
        event and copy its chat id (`self.event and self.event.chat_id`). */
    constructor(table: EventTable)
      requires table.Valid()
      ensures Valid() && this.table == table
      ensures event == FirstWithStatus(table.rows, EventStatus.InProgress)
      ensures event.None? ==> chatId.None?
      ensures event.Some? ==> chatId == Some(table.rows[event.value].chatId)
      ensures status == EventManagerStatus.InProgress && error.None? && notices == []
    {
      this.table := table;
      error := None;
      status := EventManagerStatus.InProgress;
      notices := [];
      var selected := FirstWithStatus(table.rows, EventStatus.InProgress);
      event := selected;
      chatId := if selected.Some? then Some(table.rows[selected.value].chatId) else None;
    }

    /** `_operate_success()`. */
    method OperateSuccess()
      requires Valid() && event.Some?
      modifies this, table
      ensures Valid()
      ensures event == old(event) && chatId == old(chatId) && error == old(error)
      ensures table.rows == old(table.rows)[event.value := old(table.rows[event.value]).SetSuccess(old(table.clock))]
      ensures table.clock == old(table.clock) + 1
      ensures status == EventManagerStatus.Success
      ensures notices == old(notices) + [Notice(SuccessText(old(table.rows[event.value]).pk), MessageLevel.Info)]
    {
      var i := event.value;
      table.SetSuccess(i);
      status := EventManagerStatus.Success;
      notices := notices + [Notice(SuccessText(table.rows[i].pk), MessageLevel.Info)];
    }

    /** `_operate_error(exc)`, where `excText` is `str(exc)`. */
    method OperateError(excText: string)
      requires Valid() && event.Some?
      modifies this, table
      ensures Valid()
      ensures event == old(event) && chatId == old(chatId)
      ensures table.rows == old(table.rows)[event.value := old(table.rows[event.value]).SetError(excText, old(table.clock))]
      ensures table.clock == old(table.clock) + 1
      ensures error == table.rows[event.value].error == Some(TruncateError(excText))
      ensures status == EventManagerStatus.Error
      ensures notices == old(notices) + [Notice(FailureText(old(table.rows[event.value]).pk, TruncateError(excText)), MessageLevel.Error)]
    {
      var i := event.value;
      table.SetError(i, excText);
      error := table.rows[i].error;
      status := EventManagerStatus.Error;
      notices := notices + [Notice(FailureText(table.rows[i].pk, error.value), MessageLevel.Error)];
    }

    /** `process_event()`: with no event, report SKIP; otherwise run
        `self.event.set_in_progress()`, whose completion is `setInProgress`.
        `Event` (src/finder/models.py:7-48) defines no `set_in_progress`, so as
        written the step is always `Raised(SET_IN_PROGRESS_MISSING)`. The
        `Returned` branch belongs to the corrected model only: there the step
        marks the row IN_PROGRESS and saves it, as the other manager's
        `process_event` does. */
    method ProcessEvent(setInProgress: Completion) returns (raised: Option<string>)
      requires Valid()
      modifies this, table
      ensures Valid()
      ensures event == old(event) && chatId == old(chatId) && error == old(error) && notices == old(notices)
      ensures old(event).None? ==> status == EventManagerStatus.Skip && raised.None?
      ensures old(event).None? ==> table.rows == old(table.rows) && table.clock == old(table.clock)
      ensures old(event).Some? ==> status == old(status)
      ensures old(event).Some? && setInProgress.Returned? ==>
                raised.None? && table.clock == old(table.clock) + 1 &&
                table.rows == old(table.rows)[event.value := old(table.rows[event.value]).WithStatus(EventStatus.InProgress, old(table.clock))]
      ensures old(event).Some? && setInProgress.Raised? ==>
                raised == Some(setInProgress.text) && table.rows == old(table.rows) && table.clock == old(table.clock)
    {
      raised := None;
      if event.None? {
        status := EventManagerStatus.Skip;
        return;
      }
      match setInProgress
      case Returned =>
        table.SaveStatus(event.value, EventStatus.InProgress);
      case Raised(text) =>
        raised := Some(text);
    }

    /** `process()` as written, with `Event` as defined in src/finder/models.py:7-48.
        With an event, `process_event` raises the AttributeError for the missing
        `set_in_progress`, which is handed to `_operate_error`. With no event,
        `process_event` returns after setting SKIP and the `else` clause runs
        `_operate_success`, whose first statement raises on the missing event.
        That exception leaves the `try` statement (an `else` clause is not guarded
        by its `except`) and the transaction rolls back; the method returns how
        the call ended. */
    method ProcessAsWritten() returns (c: Completion)
      requires Valid()
      modifies this, table
      ensures Valid()
      ensures event == old(event) && chatId == old(chatId)
      ensures old(event).None? ==>
                c == Raised(SET_SUCCESS_ON_NONE) && status == EventManagerStatus.Skip &&
                error == old(error) && notices == old(notices) &&
                table.rows == old(table.rows) && table.clock == old(table.clock)
      ensures old(event).Some? ==>
                && c == Returned
                && Settled(old(table.rows), old(table.clock), old(error), old(notices), Raised(SET_IN_PROGRESS_MISSING))
                && table.rows[event.value].status == EventStatus.Failed
                && status == EventManagerStatus.Error
                && error == table.rows[event.value].error == Some(SET_IN_PROGRESS_MISSING)
                && table.clock == old(table.clock) + 1
    {
      var raised := ProcessEvent(Raised(SET_IN_PROGRESS_MISSING));
      if raised.Some? {
        OperateError(raised.value);
        c := Returned;
      } else {
        // `raised` is None only when there is no event: `_operate_success`
        // then raises at `self.event.set_success()`.
        c := Raised(SET_SUCCESS_ON_NONE);
      }
    }

    /** `process()` with the skip honoured: with no event the pass ends normally
        with status SKIP, and nothing else is changed. */
    method Process(setInProgress: Completion)
      requires Valid()
      modifies this, table
      ensures Valid()
      ensures event == old(event) && chatId == old(chatId)
      ensures old(event).None? ==>
                status == EventManagerStatus.Skip && error == old(error) && notices == old(notices) &&
                table.rows == old(table.rows) && table.clock == old(table.clock)
      ensures old(event).Some? ==> Settled(old(table.rows), old(table.clock), old(error), old(notices), setInProgress)
      ensures old(event).Some? ==> table.clock == old(table.clock) + (if setInProgress.Returned? then 2 else 1)
    {
      var raised := ProcessEvent(setInProgress);
      if event.None? {
      } else if raised.Some? {
        OperateError(raised.value);
      } else {
        OperateSuccess();
      }
    }

    /** The state after settling the claimed event from table `rows0` at clock
        `t0`, with manager error `error0` and messages `notices0` before: the row
        went through `AfterProcessing`; on success the status is SUCCESS and the
        error is kept, on failure the status is ERROR and the manager's error is
        the row's stored, truncated error; one message of the matching level. */
    ghost predicate Settled(rows0: seq<Event>, t0: nat, error0: Option<string>, notices0: seq<Notice>, step: Completion)
      reads this, table
      requires Valid() && event.Some? && event.value < |rows0|
    {
      var i := event.value;
      && table.rows == rows0[i := rows0[i].AfterProcessing(step, t0)]
      && (step.Returned? ==>
            && status == EventManagerStatus.Success && error == error0
            && notices == notices0 + [Notice(SuccessText(rows0[i].pk), MessageLevel.Info)])
      && (step.Raised? ==>
            && status == EventManagerStatus.Error
            && error == table.rows[i].error == Some(TruncateError(step.text))
            && notices == notices0 + [Notice(FailureText(rows0[i].pk, TruncateError(step.text)), MessageLevel.Error)])
    }
  }

  /** Finding: with no IN_PROGRESS event, `process` as written raises. */
  method NoClaimAsWritten() returns (c: Completion, status: EventManagerStatus)
    ensures c == Raised(SET_SUCCESS_ON_NONE) && status == EventManagerStatus.Skip
  {
    var table := new EventTable();
    var pk := table.Create(100, 1234567);
    var manager := new EventManager(table);
    c := manager.ProcessAsWritten();
    status := manager.status;
  }

  /** Corrected: with no IN_PROGRESS event, `process` ends with SKIP and changes nothing. */
  method NoClaimSkips() returns (status: EventManagerStatus, notices: seq<Notice>, rows: seq<Event>)
    ensures status == EventManagerStatus.Skip && notices == []
    ensures |rows| == 1 && rows[0].status == EventStatus.Waiting
  {
    var table := new EventTable();
    var pk := table.Create(100, 1234567);
    var manager := new EventManager(table);
    manager.Process(Returned);
    status, notices, rows := manager.status, manager.notices, table.rows;
  }

  /** Finding: with `Event` as defined in src/finder/models.py:7-48,
      `set_in_progress` always raises, so
      every claimed event ends FAILED with the AttributeError's text. */
  method ClaimAsWritten() returns (eventStatus: EventStatus, status: EventManagerStatus, error: Option<string>)
    ensures eventStatus == EventStatus.Failed && status == EventManagerStatus.Error
    ensures error == Some(SET_IN_PROGRESS_MISSING)
  {
    var table := new EventTable();
    var pk := table.Create(100, 1234567);
    table.SaveStatus(0, EventStatus.InProgress);
    var manager := new EventManager(table);
    var c := manager.ProcessAsWritten();
    eventStatus, status, error := table.rows[0].status, manager.status, manager.error;
  }

  /** Corrected: when the step marking the event IN_PROGRESS returns, the event
      ends FINISHED and the manager reports SUCCESS with the success message. */
  method ClaimSucceeds() returns (eventStatus: EventStatus, status: EventManagerStatus, notices: seq<Notice>)
    ensures eventStatus == EventStatus.Finished && status == EventManagerStatus.Success
    ensures notices == [Notice(SuccessText(1), MessageLevel.Info)]
  {
    var table := new EventTable();
    var pk := table.Create(100, 1234567);
    table.SaveStatus(0, EventStatus.InProgress);
    var manager := new EventManager(table);
    manager.Process(Returned);
    eventStatus, status, notices := table.rows[0].status, manager.status, manager.notices;
  }
}
