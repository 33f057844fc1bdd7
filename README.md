# G-TASK manager: task lifecycle and balance ledger

G-TASK hands out Gmail credential pairs ("inventory items") to workers as
tasks. A worker claims an AVAILABLE item, submits a screenshot as proof, and
an admin verifies or rejects the submission. Each verified task credits the
worker 0.10. Workers withdraw their balance through payout requests, which an
admin marks paid or rejects with a refund. Admins fill the inventory by
pasting `username:password` lines.

This project models the four tables (users, inventory, tasks, payouts) and
the six handlers that change them. Each handler commits all of its updates
or none of them.

- `Schema`: the rows, the status enumerations and the two money constants in
  integer cents (both 10). It also defines the invariant every committed
  state satisfies:
  - ids come from the autoincrement counters;
  - foreign keys resolve;
  - `Task.inventory_id` and `Inventory.gmail_username` are unique;
  - every payout is at least the minimum;
  - per user, the ledger balances: `total_earned` equals the reward times
    the number of the user's VERIFIED tasks, and `pending_payout` plus the
    user's non-rejected payouts equals `total_earned`.
- `LineParse`: Python's `str.strip()`, `str.split('\n')`, `str.split(':', 1)`
  and the classification of one pasted line.
- `Workflow`: each handler as a transition of the whole database. It returns
  the new database and the outcome (the flash message).
- `Store`: the imperative model, a class whose map fields the handler methods
  update in place. Each method is proved to leave the tables exactly as its
  `Workflow` transition says, and to keep the invariant. The bulk import is a
  loop whose invariant is that the tables so far are the import of the lines
  read so far.
- `Invariants`: what each handler preserves, how each handler affects the
  one-open-task rule, and what the bulk import counts.
- `Scenarios`:
  - the balance bounds of every valid state;
  - the invariant over any sequence of requests;
  - the claim–submit–verify and payout round trips;
  - two consequences of the reject path, shown on a concrete trace.
- `Sums`: range sums over autoincrement ids, used to state the ledger.

Behaviour worth knowing, modelled as the code is written:

- **Recycled items.** Rejecting a task sets its item back to AVAILABLE, but
  the old task row still references the item and `Task.inventory_id` is
  unique. A claim that the inventory query answers with such an item fails
  on insert and is rolled back. No worker can ever claim a recycled item
  (`Scenarios.RejectedItemCannotBeReclaimed`).
- **Resubmitting a REJECTED task.** `submit_task` refuses only SUBMITTED and
  VERIFIED tasks, so a REJECTED task can be submitted again. "At most one
  PENDING or SUBMITTED task per worker" is enforced only by `take_task`.
  Resubmitting breaks the rule exactly when the worker already holds another
  PENDING or SUBMITTED task (`Invariants.SubmitTaskOneOpen`). That task may
  come from a new claim, or from resubmitting a second REJECTED task. A concrete trace
  reaches that state through accepted requests only
  (`Scenarios.ResubmitAfterRejectBreaksOneOpen`).
- **Unknown session user.** A session user with no account row:
  - `take_task` fails on the foreign key and rolls back (the foreign key is
    taken to be enforced, see "Left out");
  - `payout_request` raises when it reads the balance and rolls back.

  Both are modelled as "no change" with their own outcome. The minimum-amount
  check comes first, so a too-small amount is reported as such even then.

## Model

| member | source | states |
|---|---|---|
| Schema.EmptyTablesValid | main.py:41-83 | Empty inventory, task and payout tables with zero-balance accounts satisfy every table constraint and the ledger |
| LineParse.Strip | main.py:374 | The stripped text has no whitespace (Python's `isspace` set) at either end and is no longer than the input |
| LineParse.StripCuts | main.py:374 | Stripping removes only a leading and a trailing run of whitespace: the result is the infix between them |
| LineParse.StripTrimmed | main.py:374 | Stripping text that has no whitespace at either end returns it unchanged |
| LineParse.IndexOf | main.py:378 | The position found holds the separator, and no earlier position does |
| LineParse.Split | main.py:368 | Splitting at '\n' yields at least one piece, no piece contains '\n', and joining the pieces with '\n' gives back the text |
| LineParse.SplitEntry | main.py:378-381 | Split at position `k`: an entry exactly when both stripped sides are non-empty, and then it holds those stripped sides; otherwise "invalid format" for the whole line |
| LineParse.ParseLine | main.py:374-393 | The line is stripped first. It is blank exactly when it strips to nothing. It is "missing separator", carrying the stripped line, exactly when it is non-blank with no ':'. With a ':', it is split at the first one: an entry holding the two stripped sides exactly when both are non-empty, and "invalid format" with the stripped line otherwise. An entry's username has no ':' |
| LineParse.ParseLineRoundTrip | main.py:377-381 | A stripped, non-empty username without ':' and a stripped, non-empty password, written as `username:password`, parse back to exactly that pair, even when the password contains ':' |
| Workflow.TakeTask | main.py:220-247 | Refused with no change when the worker holds a PENDING/SUBMITTED task. No change when no item is AVAILABLE. On success, exactly the picked AVAILABLE item becomes ASSIGNED, one PENDING task owned by the caller is added at the next id, and nothing else changes. A failed commit (item already linked, or no user row) changes nothing |
| Workflow.SubmitTask | main.py:249-293 | Accepted exactly when a named file was saved, the caller owns the task and it is neither SUBMITTED nor VERIFIED, so only PENDING or REJECTED. Then only that task changes, to SUBMITTED with the code. Every refusal changes nothing |
| Workflow.RequestPayout | main.py:296-334 | Filed exactly when amount ≥ minimum, the account exists, amount ≤ `pending_payout` and the wallet is non-empty. Then one REQUESTED payout is added and `pending_payout` drops by exactly the amount. Otherwise nothing changes |
| Workflow.ActOnTask | main.py:432-476 | Only a SUBMITTED task moves, and only for "verify" or "reject". "verify": VERIFIED, item COMPLETED, worker credited the reward on both ledger fields. "reject": REJECTED, item AVAILABLE, no balance change. Anything else changes nothing |
| Workflow.ActOnPayout | main.py:495-533 | Only a REQUESTED payout moves. "paid" marks it PAID and leaves every user as is. "reject" marks it REJECTED and adds exactly its amount back to the requester's `pending_payout`. Anything else changes nothing |
| Workflow.ImportParsed | main.py:374-393 | One loop iteration: a blank line adds nothing to inserts plus failures, any other line adds exactly one. Users, tasks, payouts and their counters are untouched, and the inventory id counter moves by the inserts |
| Workflow.ImportLines | main.py:373-393 | The loop over all lines: `successful_inserts` plus the number of failures equals the number of non-blank lines |
| Workflow.PastedLines | main.py:368 | The pasted text is stripped and cut at '\n': at least one line, no line contains '\n', and joining them with '\n' gives the stripped text back |
| Workflow.BulkImport | main.py:361-368 | An empty form is refused and changes nothing; any other input is imported |
| Workflow.ImportLinesSnoc | main.py:373-393 | The import of one more line is one more loop iteration on the import so far |
| Invariants.TakeTaskIntegrity | main.py:232-238 | A successful claim keeps ids issued, foreign keys resolving and inventory links unique |
| Invariants.TakeTaskBalanced | main.py:234-238 | A claim keeps every user's ledger balanced |
| Invariants.TakeTaskKeepsValid | main.py:220-247 | `take_task` preserves the whole invariant and never lowers lifetime earnings |
| Invariants.SubmitTaskSameRows | main.py:283-284 | A submission changes only a status and a code: no row is added or relinked |
| Invariants.SubmitTaskBalanced | main.py:271-286 | A submission keeps every user's ledger balanced and changes no user |
| Invariants.SubmitTaskKeepsValid | main.py:249-293 | `submit_task` preserves the whole invariant |
| Invariants.RequestPayoutIntegrity | main.py:318-324 | A filed payout keeps every table constraint and the minimum payout amount |
| Invariants.RequestPayoutBalanced | main.py:310-324 | Filing moves the amount from the spendable balance to the reserved payouts, so `pending_payout` stays ≥ 0 and the ledger stays balanced |
| Invariants.RequestPayoutKeepsValid | main.py:296-334 | `payout_request` preserves the whole invariant, in particular `pending_payout >= 0` |
| Invariants.ActOnTaskSameRows | main.py:448-467 | A task verdict changes only statuses and balances |
| Invariants.ActOnTaskBalanced | main.py:448-467 | "verify" credits both ledger fields exactly as it adds one VERIFIED task; lifetime earnings never go down |
| Invariants.ActOnTaskKeepsValid | main.py:432-476 | `admin_action_task` preserves the whole invariant and never lowers `total_earned` |
| Invariants.ActOnPayoutSameRows | main.py:509-523 | A payout verdict changes only a status and a balance |
| Invariants.ActOnPayoutBalanced | main.py:509-523 | "paid" keeps the payout reserved; "reject" releases it and refunds the balance, so the ledger stays balanced |
| Invariants.ActOnPayoutKeepsValid | main.py:495-533 | `admin_action_payout` preserves the whole invariant and leaves `total_earned` unchanged |
| Invariants.ImportLineCases | main.py:374-393 | For each kind of raw line, the full effect. Blank: nothing. No ':': "Missing separator" with the stripped line appended. An empty side: "Invalid format" with the stripped line appended. An entry whose username is in use: "Duplicate/Error" with the username appended. Any other entry: one AVAILABLE row with its username and password at the next id, and one more insert. Only the insert changes the tables |
| Invariants.ImportParsedStep | main.py:377-393 | An iteration either changes no table or inserts one AVAILABLE row at the next id, for an entry whose username is unused |
| Invariants.ImportParsedFailures | main.py:387-393 | An iteration keeps the failures recorded so far and appends at most one, of the kind its line calls for |
| Invariants.InsertItemKeepsValid | main.py:383-385 | Inserting an item with an unused username at the next id keeps the invariant |
| Invariants.ImportParsedKeepsValid | main.py:373-393 | One iteration keeps the invariant and every account |
| Invariants.ImportLinesKeepsValid | main.py:373-393 | The whole loop keeps the invariant and every account |
| Invariants.BulkImportKeepsValid | main.py:356-402 | `admin_add_tasks` preserves the whole invariant |
| Invariants.TakeTaskKeepsOneOpen | main.py:227-238 | `take_task` never gives a worker a second PENDING/SUBMITTED task |
| Invariants.SubmitTaskOneOpen | main.py:271-284 | `submit_task` keeps "one open task per worker" exactly unless it reopens a REJECTED task of a worker who already holds an open one |
| Invariants.ActOnTaskKeepsOneOpen | main.py:448-467 | An admin verdict never breaks "one open task per worker" |
| Invariants.ImportLinesFrame | main.py:373-393 | The import changes no user, task or payout, and the inventory id counter moves by exactly the number of inserts |
| Invariants.ImportParsedAdds | main.py:377-393 | One iteration keeps every existing row and adds as many rows as it counts, all AVAILABLE at fresh ids |
| Invariants.ImportLinesAdds | main.py:373-393 | The import keeps every existing row and adds exactly `successful_inserts` rows, all AVAILABLE at fresh ids |
| Invariants.ImportLinesRowsFromLines | main.py:377-386 | Every row the import adds holds the username and password of an entry among the pasted lines |
| Invariants.ImportLinesFailuresFromLines | main.py:387-393 | Every recorded failure matches one pasted line. "Missing separator" matches a line without ':'. "Invalid format" matches a line with an empty side. "Duplicate/Error" matches an entry with that username |
| Invariants.ImportLinesEntriesPresent | main.py:377-389 | After the import, every pasted entry's username is in the inventory: it was either inserted or already there as a duplicate |
| Invariants.BulkImportAccounts | main.py:356-393 | For a non-empty form: inserts plus failures equal the non-blank pasted lines, and only the inventory changes. Old rows stay, and exactly the inserted rows are added, each a pasted entry's username and password. Every failure matches its line, and every pasted entry's username is in the inventory |
| Store.Store.constructor | main.py:41-83 | Fresh tables holding only the given zero-balance accounts, which satisfy the invariant |
| Store.Store.FirstAvailable | main.py:232 | The inventory query returns an AVAILABLE item when there is one, and nothing only when there is none |
| Store.Store.TakeTask | main.py:220-247 | The in-place claim leaves exactly the tables of `Workflow.TakeTask` and keeps the invariant |
| Store.Store.SubmitTask | main.py:249-293 | The in-place submission leaves exactly the tables of `Workflow.SubmitTask` and keeps the invariant |
| Store.Store.RequestPayout | main.py:296-334 | The in-place payout request leaves exactly the tables of `Workflow.RequestPayout` and keeps the invariant |
| Store.Store.ActOnTask | main.py:432-476 | The in-place task verdict leaves exactly the tables of `Workflow.ActOnTask` and keeps the invariant |
| Store.Store.ActOnPayout | main.py:495-533 | The in-place payout verdict leaves exactly the tables of `Workflow.ActOnPayout` and keeps the invariant |
| Store.Store.ImportLine | main.py:374-393 | One loop iteration updates the tables and the counters exactly as one step of the import |
| Store.Store.ImportAll | main.py:373-393 | The loop leaves the tables, `successful_inserts` and `failed_tasks` exactly as the import of all pasted lines |
| Store.Store.AddTasks | main.py:356-402 | The in-place bulk import leaves exactly the tables and report of `Workflow.BulkImport` and keeps the invariant |
| Scenarios.BalanceBounds | main.py:455-456 | In every valid state, 0 ≤ `pending_payout` ≤ `total_earned`, and `total_earned` is the per-task reward times the number of the user's VERIFIED tasks |
| Scenarios.HandleKeepsValid | main.py:220-533 | Every handler keeps the invariant and never lowers lifetime earnings |
| Scenarios.ServeKeepsValid | main.py:220-533 | After any sequence of requests the invariant holds, no account is lost, `total_earned` has not gone down, and every balance lies between 0 and `total_earned` |
| Scenarios.ClaimSubmitVerify | main.py:220-467 | After claim, submit and verify, the task is VERIFIED with its code, the item COMPLETED, and exactly the worker is credited the reward once on both fields. Verifying or submitting the task again is refused with no change |
| Scenarios.PayoutRoundTrip | main.py:310-523 | A filed payout debits exactly its amount and leaves the balance ≥ 0. Rejecting it restores every user exactly. Marking it paid changes no user, after which it can no longer be rejected |
| Scenarios.RejectedItemCannotBeReclaimed | main.py:461-464 | After a reject, the item is AVAILABLE, so the inventory query may return it. Yet every worker without an open task who is handed it sees the commit fail with no change |
| Scenarios.TraceStaysValid | main.py:220-293 | The states of the resubmission trace all satisfy the invariant |
| Scenarios.ResubmitAfterRejectBreaksOneOpen | main.py:227-284 | Concrete trace: claim, submit and reject a task; the recycled item is refused; a fresh item is claimed; the rejected task is resubmitted. Every step is accepted, and the worker ends with two open tasks |

## Left out

- HTTP routing, sessions, login and signup with password hashing, `flash`,
  templates and redirects are not modelled. The handlers take the session
  user id as a parameter.
- The admin-access check of the admin routes is not modelled: only admins
  reach those handlers.
- The screenshot upload is not modelled as file I/O. `screenshot` says
  whether a named file came with the request, `saved` whether writing it
  succeeded, and `code` is the file name the server chose (it depends on the
  clock).
- Timestamps (`date_added`, `date_assigned`, `date_completed`,
  `date_requested`, `date_paid`) are not modelled.
- Money is integer cents, not floats, so float rounding is not modelled.
  Python also lets `float('nan')` pass both payout comparisons, which
  integer cents cannot express.
- Parsing the amount is not modelled: the amount arrives already parsed, so
  the `ValueError` branch for a malformed amount is out. So is the
  `KeyError` for a missing form field: both leave the tables unchanged.
- Which AVAILABLE row `.first()` returns is not specified by the query.
  `pick` stands for it, and every property holds for any AVAILABLE pick.
- `Workflow.TakeTask` and the other transitions: ids are abstract
  autoincrement counters that advance only on commit. Sequence values a
  rolled-back insert may consume in the database are not modelled.
- Column length limits (`String(120)` and the like) are not modelled, nor
  are other database errors that would land in the same `except` branches.
- The foreign keys of `Task` and `Payout` are taken to be enforced, as
  PostgreSQL does. Under SQLite without `PRAGMA foreign_keys=ON`, a claim by
  a session user with no account row would insert the task instead of
  failing. That behaviour is not modelled.
- Requests are sequential: concurrent claims or payouts racing in separate
  transactions are not modelled.
- `init_db`, the environment configuration and the read-only pages
  (`dashboard`, `admin_dashboard`, `admin_verify_tasks`, `admin_payouts`)
  are not modelled, since they change no balance or status.
- `Store.Store.ImportLine` matches on `LineParse.ParseLine` for the split
  and trim of one line. The parsing is the pure function; only the table
  updates and the counters are imperative.
