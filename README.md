# bot-status-finder: the event lifecycle in Dafny

This project models the sequential core of the order-status bot. A client sends an order number through Telegram, which becomes an `Event` row. A worker-side `EventManager` then claims the oldest `IN_PROGRESS` event and settles it as `FINISHED` or `FAILED`. The model also covers the small helpers around that lifecycle: the integer length validator on the order number, the `cached_method` decorator, and the extraction of the `Message` fields from a Telegram update.

Modules, one per source file:

- `Models` (`models.dfy`) covers `src/finder/models.py`. `Event` is a record, and each of its transitions is a function. `EventTable` is a class that holds the rows in creation order, together with a logical clock standing in for `created_at`, `updated_at` and `finished_at`. Every save ticks the clock. Keys (`pk`) are assigned 1, 2, 3… as rows are created.
- `SheetsLogic` (`sheets_event_manager.dfy`) covers `src/finder/sheets_logic/event_manager.py`.
- `EventLogic` (`event_manager.dfy`) covers `src/finder/event_logic/event_manager.py`. The manager's fields `event`, `chat_id`, `status` and `error` are class fields. The messages handed to `operate_message` are recorded in `notices`.
- `Helpers` (`helpers.dfy`) covers `src/helpers.py`: `IntegerLengthValidator` and `cached_method`.
- `TelegramData` (`telegram_data.dfy`) covers `src/finder/telegram_logic/data.py`, with a `Json` datatype for decoded request bodies.
- `Constants` (`constants.dfy`) covers `src/constants.py`.
- `Text` (`text.dfy`) gives Python's `str()` of an integer and its inverse.
- `Exceptions` (`exceptions.dfy`) says how a call ends: it returns, or it raises with a given text.
- `Wrappers` (`wrappers.dfy`) provides Option and Result.

The claim-and-process step runs inside `transaction.atomic()` with `select_for_update()`. Here it is one indivisible sequential update of the table. A step of the source that may raise becomes a `Completion` parameter (`Returned` or `Raised(text)`), so that both branches are stated.

## Behaviour of the code worth knowing

- Both managers claim events whose status is `IN_PROGRESS`, not `WAITING`. No code in the modelled files moves an event from `WAITING` to `IN_PROGRESS`. A freshly created event is therefore never claimed.
- Only `set_success` stamps `finished_at`. A `FAILED` event keeps `finished_at` as it was, usually empty.
- `set_error` and `set_success` do not look at the current status. Terminal states are kept only because the managers claim nothing but `IN_PROGRESS` events.
- The order-number check measures `len(str(value))` of the integer after conversion. Leading zeros are therefore lost, and a minus sign counts as a character, so `-123456` passes (`Helpers.OrderIdRange`).
- `Message.order_id` is declared `int` but holds the raw `text` value unchanged.

## Model

| member | source | states |
|---|---|---|
| `Models.TruncateError` | src/finder/models.py:42 | the stored error is a prefix of the exception text, at most `ERROR_MAX_LENGTH` = 255 characters long (src/finder/models.py:8); it is the whole text when that fits, and exactly 255 characters otherwise |
| `Models.Event.SetError` | src/finder/models.py:40-43 | status becomes FAILED, whatever it was; the error is the truncated prefix of `str(exc)`; `finished_at`, `chat_id`, `order_id`, `pk` and `created_at` are unchanged; the save stamps `updated_at` |
| `Models.Event.SetSuccess` | src/finder/models.py:45-48 | status becomes FINISHED, whatever it was; `finished_at` is set to now; the error and the request fields are unchanged |
| `Models.Event.WithStatus` | src/finder/sheets_logic/event_manager.py:13-14 | assigning a status and saving changes only the status and `updated_at` |
| `Models.TransitionsIdempotent` | src/finder/models.py:40-48 | applying `set_error` or `set_success` twice is the same as applying it once at the later time |
| `Models.Event.AfterProcessing` | src/finder/sheets_logic/event_manager.py:22-29 | a processed claim always ends terminal; it ends FINISHED with `finished_at` set exactly when the step returned, and FAILED with the truncated exception text when it raised; the request fields are kept |
| `Models.FirstWithStatus` | src/finder/sheets_logic/event_manager.py:19-21 | the selected row has the status, no earlier row has it, None exactly when no row has it; in a table ordered by `created_at` the selected row is the oldest with that status |
| `Models.EventTable.Create` | src/finder/models.py:16-35 | a new event is appended with status WAITING, no error and no `finished_at`, created and updated now; creation order is kept |
| `Models.EventTable.SaveStatus` | src/finder/sheets_logic/event_manager.py:13-14 | only the row named changes, by `WithStatus`; the ordering invariant is kept |
| `Models.EventTable.SetError` | src/finder/models.py:40-43 | only the row named changes, by `Event.SetError`; the ordering invariant is kept |
| `Models.EventTable.SetSuccess` | src/finder/models.py:45-48 | only the row named changes, by `Event.SetSuccess`; the ordering invariant is kept |
| `SheetsLogic.EventManager.constructor` | src/finder/sheets_logic/event_manager.py:9-10 | a new manager holds no event |
| `SheetsLogic.EventManager.ProcessEvent` | src/finder/sheets_logic/event_manager.py:12-14 | when the save returns, the row becomes IN_PROGRESS (a no-op on the status of a claimed row); when it raises, the exception text is passed on and the table is unchanged |
| `SheetsLogic.EventManager.Process` | src/finder/sheets_logic/event_manager.py:16-31 | with no IN_PROGRESS event it returns False and the table is unchanged; otherwise only the oldest IN_PROGRESS row changes, as `AfterProcessing` says, and the result is True exactly when `process_event` returned; WAITING and settled rows are never touched; a claim costs one save when `process_event` raised and two when it returned, so the clock moves forward |
| `Constants.ValuesUnique` | src/constants.py:5-23 | with `AutoName` each value is the member's name, and the values within each enumeration are distinct |
| `EventLogic.SuccessText` | src/finder/event_logic/event_manager.py:49 | the text is exactly "Event {pk} operated successfully", with `str(pk)` given by `Text.DecimalString`; the key parses back from it |
| `EventLogic.FailureText` | src/finder/event_logic/event_manager.py:56 | the text is exactly "Event {pk} failed with error: {error}", with `str(pk)` given by `Text.DecimalString`; it ends with the error, and the key parses back from it |
| `EventLogic.EventManager.constructor` | src/finder/event_logic/event_manager.py:29-43 | status starts at IN_PROGRESS with no error; the event is the oldest IN_PROGRESS row or None; `chat_id` is that row's chat id, or None when there is no event |
| `EventLogic.EventManager.OperateSuccess` | src/finder/event_logic/event_manager.py:46-50 | the event is marked successful; status SUCCESS; the error is unchanged; one INFO message with the success text |
| `EventLogic.EventManager.OperateError` | src/finder/event_logic/event_manager.py:52-57 | the event is marked failed; the manager's error equals the row's stored, truncated error; status ERROR; one ERROR message with the failure text |
| `EventLogic.EventManager.ProcessEvent` | src/finder/event_logic/event_manager.py:59-64 | with no event, the status becomes SKIP and no row changes; with an event, the raise of `set_in_progress` passes its text on and leaves the table unchanged. The returning branch, which saves the row as IN_PROGRESS, belongs to the corrected model only, since `Event` defines no `set_in_progress` |
| `EventLogic.EventManager.ProcessAsWritten` | src/finder/event_logic/event_manager.py:66-73 | with no event the call raises AttributeError from `_operate_success`, leaving SKIP and changing no row; with an event, that event ends FAILED, the status is ERROR, and the manager's and the row's error are both "'Event' object has no attribute 'set_in_progress'", for every table; the clock moves forward by the one `set_error` save |
| `EventLogic.EventManager.Process` | src/finder/event_logic/event_manager.py:66-73 | the corrected `process`: with no event it ends normally with SKIP and changes nothing; with an event, success gives FINISHED and SUCCESS with the error kept, and failure gives FAILED and ERROR with the error equal to the row's stored error; the clock moves forward by one save on failure and two on success |
| `EventLogic.NoClaimAsWritten` | src/finder/event_logic/event_manager.py:59-73 | with only a WAITING event, `process` as written raises the AttributeError text about `set_success` on None |
| `EventLogic.NoClaimSkips` | src/finder/event_logic/event_manager.py:60-62 | with only a WAITING event, the corrected `process` reports SKIP, sends nothing and leaves the event WAITING |
| `EventLogic.ClaimAsWritten` | src/finder/event_logic/event_manager.py:64 | with `Event` as defined in src/finder/models.py:7-48, a claimed event always ends FAILED, the manager reports ERROR, and the error is "'Event' object has no attribute 'set_in_progress'" |
| `EventLogic.ClaimSucceeds` | src/finder/event_logic/event_manager.py:64-73 | when the in-progress step returns, the claimed event ends FINISHED, the status is SUCCESS, and the one message is "Event 1 operated successfully" at INFO |
| `Text.DecimalString` | src/helpers.py:29 | `str(v)` consists of digits, with a leading `-` for a negative value that adds one to the length |
| `Helpers.NewIntegerLengthValidator` | src/helpers.py:18-26 | a truthy `length` sets both bounds to it; otherwise the bounds are `min_length` and `max_length` as given |
| `Helpers.OrderNumberError` | src/helpers.py:33 | the message is `str(value)` followed by the fixed hint " - неправильный номер заказа. Ваш заказ должен состоять из 7 цифр", and the rejected value parses back from the part before the hint |
| `Helpers.OrderNumberErrorNamesValue` | src/helpers.py:33 | the message names the rejected value: two values give the same message only when they are equal |
| `Helpers.OrderIdValidator` | src/finder/serializers.py:13 | `IntegerLengthValidator(length=7)` has both bounds equal to 7 |
| `Helpers.IntegerLengthValidator.Call` | src/helpers.py:28-34 | the value is rejected with the order-number message exactly when `str(value)` is shorter than a truthy minimum or longer than a truthy maximum |
| `Helpers.OrderIdLength` | src/finder/serializers.py:11-15 | the `length=7` validator accepts a value exactly when its string form has 7 characters |
| `Helpers.OrderIdRange` | src/helpers.py:28-34 | the `length=7` validator accepts exactly 1000000..9999999 and -999999..-100000 |
| `Helpers.FalsyBoundsAcceptAll` | src/helpers.py:30-31 | bounds that are None or 0 are not enforced: every value passes |
| `Helpers.CachedCall` | src/helpers.py:54-73 | with caching off, `func` runs and the cache is not touched; on a hit, the stored value is returned without calling `func`; on a miss, `func` runs once and its result is stored under the key only when it is not None; no other entry changes |
| `Helpers.RepeatedCall` | src/helpers.py:61-71 | on an empty, enabled cache, two calls with the same arguments both return `func`'s result, and the second call runs `func` only when the first result was None |
| `TelegramData.DictGet` | src/finder/telegram_logic/data.py:17-19 | `get` returns the stored value or the default, and raises AttributeError on anything that is not a dict |
| `TelegramData.ParseMessage` | src/finder/telegram_logic/data.py:16-19 | parsing succeeds exactly on well-shaped updates; with no `message` both fields are None; `order_id` is `message.text` unchanged; `chat_id` is `message.chat.id`; each is None when missing |
| `TelegramData.ParseUpdate` | src/finder/telegram_logic/data.py:16-19 | reading a message out of the update that carries it gives the message back |
| `TelegramData.MissingChatKeepsText` | src/finder/telegram_logic/data.py:18-19 | without `chat`, `chat_id` is None but `order_id` is still the text |
| `TelegramData.ToDict` | src/finder/telegram_logic/data.py:21-25 | exactly the keys `chat_id` and `order_id`, holding the parsed fields |

## Findings

| source | as written | input that shows it | evidently intended | confidence | as-written member | corrected member |
|---|---|---|---|---|---|---|
| src/finder/event_logic/event_manager.py:66-73 | after `process_event` sets SKIP, the `else` clause still runs `_operate_success`, whose `self.event.set_success()` raises AttributeError on None; the `except` does not guard the `else` clause | a table whose only event is WAITING (no IN_PROGRESS event) | end the pass normally with status SKIP and no message | high (Python semantics; not executed) | `EventLogic.NoClaimAsWritten` (on `EventLogic.EventManager.ProcessAsWritten`) | `EventLogic.EventManager.Process`, `EventLogic.NoClaimSkips` |
| src/finder/event_logic/event_manager.py:64 | `self.event.set_in_progress()` calls a method that `Event` (src/finder/models.py:7-48) does not define, so it always raises AttributeError, and every claimed event is marked FAILED | a table with one IN_PROGRESS event | mark the event IN_PROGRESS and save it, as the other manager's `process_event` does, then finish it successfully | high (not executed) | `EventLogic.ClaimAsWritten` | `EventLogic.EventManager.Process` with a returning step, `EventLogic.ClaimSucceeds` |

## Left out

- Sending and logging: `operate_message` (src/helpers.py:40-51), `telegram_logic/client.py` and `callbacks.py` are network I/O and logging. The model records only the text and level of each message, in `notices`.
- The spreadsheet side (`google_table_logic/`, `gspread_logic/`) is external API access with credentials and sessions. The manager's `gspread_client` and `client` fields are not modelled.
- The web wiring (`views.py`, `serializers.py`, `urls.py`) is not part of this model. Of its logic, only the `length=7` validator is modelled.
- `event_worker.py` is not part of this model: it is an endless polling loop with `sleep` and logging.
- Row locking and transactions are one atomic step. Two effects are not modelled: concurrent workers, and the rollback of writes when an exception leaves `transaction.atomic()`. In the one such case modelled, finding 1, nothing has been written before the exception.
- In `EventLogic.EventManager.constructor`, `select_for_update()` is evaluated outside `transaction.atomic()`. Django rejects that on databases with row locks. This is not modelled.
- Wall-clock times are replaced by a logical clock that ticks on every save.
- Models.EventTable.Create: `chat_id` and `order_id` are `models.IntegerField` columns (src/finder/models.py:16-17). Django documents their range as -2147483648..2147483647, and on PostgreSQL and MySQL the database enforces it. The model accepts any integer, so it does not capture the database error that creating an event with a larger value raises. `serializers.IntegerField()` sets no bound on `chat_id` (src/finder/serializers.py:10), and Telegram group chat ids can be larger.
- Failures of `save()` inside `set_error` and `set_success` are not modelled.
- SheetsLogic.EventManager.Process: the `Raised` branch does not follow Django's rule for a broken transaction. In src/finder/sheets_logic/event_manager.py:13-14 the only thing that can raise is `event.save()`. When that save fails inside `transaction.atomic()`, Django marks the transaction for rollback. The `set_error` save at line 26 then raises TransactionManagementError, `process()` passes it on, and every write is rolled back. So the code never returns False with a FAILED row. The model's `Raised` branch stands for an exception that leaves the transaction usable, and it stores nothing for the failed save. The same applies to `EventLogic.EventManager.Process`, whose returning step is assumed to be that save.
- Helpers.CachedCall: the `timeout` argument (entry expiry) and pickling are not modelled. Entries never expire, and the stored value is the value itself. The wrapped function is pure; its side effects and an exception raised by it are not modelled.
- TelegramData.Json: JSON numbers are integers; floating-point values are not modelled.
