/** The `Event` model of `src/finder/models.py`: one order-lookup request and
    its lifecycle, and the table that stores the events in creation order. */
module Models {
  import opened Wrappers
  import opened Exceptions

  /** `Event.ERROR_MAX_LENGTH`: the longest error text an event stores. */
  const ERROR_MAX_LENGTH: nat := 255

  /** `Event.EventStatus`. */
  datatype EventStatus = Waiting | InProgress | Finished | Failed {
    predicate IsTerminal() {
      this == Finished || this == Failed
    }
  }

  /** `str(exc)[:ERROR_MAX_LENGTH]`: the Python slice keeps a short text whole. */
  function TruncateError(text: string): (r: string)
    ensures r <= text
    ensures |r| <= ERROR_MAX_LENGTH
    ensures |text| <= ERROR_MAX_LENGTH ==> r == text
    ensures |text| > ERROR_MAX_LENGTH ==> |r| == ERROR_MAX_LENGTH
  {
    if |text| <= ERROR_MAX_LENGTH then text else text[..ERROR_MAX_LENGTH]
  }

  /** One row of the event table. Times are ticks of the table's logical clock;
      `error` and `finishedAt` are the nullable columns. */
  datatype Event = Event(
    pk: nat,
    chatId: int,
    orderId: int,
    status: EventStatus,
    error: Option<string>,
    createdAt: nat,
    updatedAt: nat,
    finishedAt: Option<nat>)
  {
    /** True when two rows are the same request: a transition may change only
        `status`, `error`, `updatedAt` and `finishedAt`. */
    predicate SameRequest(other: Event) {
      pk == other.pk && chatId == other.chatId && orderId == other.orderId && createdAt == other.createdAt
    }

    /** `event.status = s; event.save()` (`save` stamps `updated_at`). */
    function WithStatus(s: EventStatus, now: nat): (e: Event)
      ensures e.SameRequest(this)
      ensures e.status == s && e.updatedAt == now
      ensures e.error == error && e.finishedAt == finishedAt
    {
      this.(status := s, updatedAt := now)
    }

    /** `set_error(exc)`, where `excText` is `str(exc)`. */
    function SetError(excText: string, now: nat): (e: Event)
      ensures e.SameRequest(this)
      ensures e.status == Failed && e.updatedAt == now
      ensures e.error.Some? && e.error.value <= excText && |e.error.value| <= ERROR_MAX_LENGTH
      ensures |excText| <= ERROR_MAX_LENGTH ==> e.error == Some(excText)
      ensures |excText| > ERROR_MAX_LENGTH ==> |e.error.value| == ERROR_MAX_LENGTH
      ensures e.finishedAt == finishedAt
    {
      this.(status := Failed, error := Some(TruncateError(excText)), updatedAt := now)
    }

    /** `set_success()`: `finished_at` and `updated_at` both take the current time. */
    function SetSuccess(now: nat): (e: Event)
      ensures e.SameRequest(this)
      ensures e.status == Finished && e.finishedAt == Some(now) && e.updatedAt == now
      ensures e.error == error
    {
      this.(status := Finished, finishedAt := Some(now), updatedAt := now)
    }

    /** What a claim-and-process pass leaves in the claimed row, starting at clock
        `now`: when the step (which marks the row IN_PROGRESS and saves it) returns,
        the row is then marked successful one tick later; when it raises, nothing
        was saved and the row is marked failed with the exception's text. */
    function AfterProcessing(step: Completion, now: nat): (e: Event)
      ensures e.SameRequest(this) && e.status.IsTerminal()
      ensures step.Returned? <==> e.status == Finished
      ensures step.Returned? ==> e.finishedAt == Some(now + 1) && e.error == error
      ensures step.Raised? ==> e.error == Some(TruncateError(step.text)) && e.finishedAt == finishedAt
    {
      match step
      case Returned => WithStatus(InProgress, now).SetSuccess(now + 1)
      case Raised(text) => SetError(text, now)
    }
  }

  /** Each transition sets one fixed status whatever the previous one, so a
      repeated transition changes nothing but the time stamps. */
  lemma TransitionsIdempotent(e: Event, text: string, t1: nat, t2: nat)
    ensures e.SetError(text, t1).SetError(text, t2) == e.SetError(text, t2)
    ensures e.SetSuccess(t1).SetSuccess(t2) == e.SetSuccess(t2)
  {
  }

  /** `Meta.ordering = ["created_at"]` holds of a sequence kept in creation order. */
  ghost predicate Ordered(rows: seq<Event>) {
    forall i, j :: 0 <= i < j < |rows| ==> rows[i].createdAt < rows[j].createdAt
  }

  /** `Event.objects.filter(status=s).first()`: the position of the oldest row
      whose status is `s`, or None when there is none. */
  function FirstWithStatus(rows: seq<Event>, s: EventStatus): (r: Option<nat>)
    ensures r.Some? ==> r.value < |rows| && rows[r.value].status == s
    ensures r.Some? ==> forall j :: 0 <= j < r.value ==> rows[j].status != s
    ensures r.None? <==> forall j :: 0 <= j < |rows| ==> rows[j].status != s
    ensures r.Some? && Ordered(rows) ==>
              forall j :: 0 <= j < |rows| && rows[j].status == s ==> rows[r.value].createdAt <= rows[j].createdAt
  {
    if |rows| == 0 then None
    else if rows[0].status == s then Some(0)
    else
      match FirstWithStatus(rows[1..], s)
      case None => None
      case Some(i) => Some(i + 1)
  }

  /** The `finder_event` table: rows in creation order and the time source that
      `auto_now_add`, `auto_now` and `now()` read. */
  class EventTable {
    var rows: seq<Event>
    var clock: nat

    ghost predicate Valid()
      reads this
    {
      && Ordered(rows)
      && forall i :: 0 <= i < |rows| ==> rows[i].pk == i + 1 && rows[i].createdAt < clock
    }

    constructor()
      ensures Valid() && rows == [] && clock == 0
    {
      rows := [];
      clock := 0;
    }

    /** `Event.objects.create(chat_id=..., order_id=...)`: a new row with the
        field defaults (WAITING, no error, not finished), stamped now. */
    method Create(chatId: int, orderId: int) returns (pk: nat)
      requires Valid()
      modifies this
      ensures Valid()
      ensures pk == |old(rows)| + 1
      ensures rows == old(rows) + [Event(pk, chatId, orderId, Waiting, None, old(clock), old(clock), None)]
      ensures clock == old(clock) + 1
    {
      pk := |rows| + 1;
      rows := rows + [Event(pk, chatId, orderId, Waiting, None, clock, clock, None)];
      clock := clock + 1;
    }

    /** Assign `status` on row `i` and `save()` it. */
    method SaveStatus(i: nat, s: EventStatus)
      requires Valid() && i < |rows|
      modifies this
      ensures Valid()
      ensures rows == old(rows)[i := old(rows[i]).WithStatus(s, old(clock))]
      ensures clock == old(clock) + 1
    {
      rows := rows[i := rows[i].WithStatus(s, clock)];
      clock := clock + 1;
    }

    /** `set_error(exc)` on row `i`, saved. */
    method SetError(i: nat, excText: string)
      requires Valid() && i < |rows|
      modifies this
      ensures Valid()
      ensures rows == old(rows)[i := old(rows[i]).SetError(excText, old(clock))]
      ensures clock == old(clock) + 1
    {
      rows := rows[i := rows[i].SetError(excText, clock)];
      clock := clock + 1;
    }

    /** `set_success()` on row `i`, saved. */
    method SetSuccess(i: nat)
      requires Valid() && i < |rows|
      modifies this
      ensures Valid()
      ensures rows == old(rows)[i := old(rows[i]).SetSuccess(old(clock))]
      ensures clock == old(clock) + 1
    {
      rows := rows[i := rows[i].SetSuccess(clock)];
      clock := clock + 1;
    }
  }
}
