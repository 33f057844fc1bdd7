/** The request handlers of the task manager as transitions of the whole
    database.  Each handler commits all of its updates or, on a refusal or a
    rolled-back commit, none of them; `After` pairs the resulting database
    with the outcome the handler reports (its flash message). */
module Workflow {
  import opened Schema
  import opened LineParse

  datatype After<O> = After(db: Db, out: O)

  // ---------------------------------------------------------------- take_task

  /** What `Inventory.query.filter_by(status='AVAILABLE').first()` may
      return: some AVAILABLE row (which one is unspecified), or nothing when
      there is none. */
  predicate FirstResult(inventory: map<ItemId, Item>, pick: Option<ItemId>) {
    match pick
    case Some(i) => i in inventory && inventory[i].status == Available
    case None => forall i :: i in inventory ==> inventory[i].status != Available
  }

  datatype TakeOutcome =
    | Claimed(task: TaskId, item: ItemId)   // the item is ASSIGNED to a new PENDING task
    | HasActiveTask                        // the worker must finish their open task first
    | NoWorkAvailable                      // no AVAILABLE item
    | CommitFailed(item: ItemId)           // the insert was refused and rolled back

  /** `take_task`: refuse while the worker holds a PENDING or SUBMITTED
      task; otherwise flip the AVAILABLE item the query returned (`pick`) to
      ASSIGNED and insert a PENDING task for it.  The insert violates the
      unique `inventory_id` when the item was recycled by a rejection (its
      old task row still references it), and the foreign key when the
      session user has no row; either way the transaction is rolled back. */
  function TakeTask(db: Db, uid: UserId, pick: Option<ItemId>): (r: After<TakeOutcome>)
    requires FirstResult(db.inventory, pick)
    ensures r.out == HasActiveTask <==> HasOpenTask(db.tasks, uid)
    ensures r.out == NoWorkAvailable <==>
              !HasOpenTask(db.tasks, uid) && forall i :: i in db.inventory ==> db.inventory[i].status != Available
    ensures r.out.Claimed? || r.out.CommitFailed? ==>
              !HasOpenTask(db.tasks, uid) && pick == Some(r.out.item) && db.inventory[r.out.item].status == Available
    ensures r.out.CommitFailed? <==>
              !HasOpenTask(db.tasks, uid) && pick.Some? && (uid !in db.users || ItemLinked(db.tasks, pick.value))
    ensures r.out.Claimed? ==> uid in db.users && !ItemLinked(db.tasks, r.out.item)
    ensures !r.out.Claimed? ==> r.db == db
    ensures r.out.Claimed? ==>
              && r.out.task == db.nextTask
              && r.db == db.(inventory := db.inventory[r.out.item := db.inventory[r.out.item].(status := Assigned)],
                             tasks := db.tasks[r.out.task := Task(r.out.item, uid, None, Pending)],
                             nextTask := db.nextTask + 1)
  {
    if HasOpenTask(db.tasks, uid) then After(db, HasActiveTask)
    else match pick
      case None => After(db, NoWorkAvailable)
      case Some(i) =>
        if uid !in db.users || ItemLinked(db.tasks, i) then After(db, CommitFailed(i))
        else
          var t := db.nextTask;
          After(db.(inventory := db.inventory[i := db.inventory[i].(status := Assigned)],
                    tasks := db.tasks[t := Task(i, uid, None, Pending)],
                    nextTask := t + 1),
                Claimed(t, i))
  }

  // -------------------------------------------------------------- submit_task

  datatype SubmitOutcome =
    | Accepted           // the task is SUBMITTED with its completion code
    | NoScreenshot       // no file, or a file with an empty name, was uploaded
    | NotOwnTask         // no such task, or another worker's
    | AlreadySubmitted   // the task is SUBMITTED or VERIFIED already
    | SaveFailed         // writing the screenshot failed; rolled back

  /** `submit_task`: the owner of a task that is neither SUBMITTED nor
      VERIFIED (so PENDING, or REJECTED) stores the proof and the task
      becomes SUBMITTED.  `screenshot` says a named file was uploaded,
      `saved` whether writing it to disk succeeded, `code` is the file name
      the server gave it. */
  function SubmitTask(db: Db, uid: UserId, taskId: TaskId, screenshot: bool, saved: bool, code: string)
    : (r: After<SubmitOutcome>)
    ensures r.out == Accepted <==>
              && screenshot && saved && taskId in db.tasks && db.tasks[taskId].user == uid
              && db.tasks[taskId].status != Submitted && db.tasks[taskId].status != Verified
    ensures r.out == Accepted ==> db.tasks[taskId].status.Pending? || db.tasks[taskId].status.Rejected?
    ensures r.out == NotOwnTask <==> screenshot && (taskId !in db.tasks || db.tasks[taskId].user != uid)
    ensures r.out == AlreadySubmitted ==>
              taskId in db.tasks && (db.tasks[taskId].status == Submitted || db.tasks[taskId].status == Verified)
    ensures r.out != Accepted ==> r.db == db
    ensures r.out == Accepted ==>
              r.db == db.(tasks := db.tasks[taskId := db.tasks[taskId].(completionCode := Some(code), status := Submitted)])
  {
    if !screenshot then After(db, NoScreenshot)
    else if taskId !in db.tasks || db.tasks[taskId].user != uid then After(db, NotOwnTask)
    else if db.tasks[taskId].status == Submitted || db.tasks[taskId].status == Verified then After(db, AlreadySubmitted)
    else if !saved then After(db, SaveFailed)
    else After(db.(tasks := db.tasks[taskId := db.tasks[taskId].(completionCode := Some(code), status := Submitted)]), Accepted)
  }

  // ----------------------------------------------------------- payout_request

  datatype RequestOutcome =
    | Filed(payout: PayoutId)   // a REQUESTED payout was inserted and the balance debited
    | BelowMinimum              // amount < MIN_PAYOUT
    | NoAccount                 // the session user has no row; the handler's exception rolls back
    | OverBalance               // amount > pending_payout
    | NoWallet                  // empty wallet address

  /** `payout_request`: check the minimum, then the balance, then the
      wallet; on success insert a REQUESTED payout and debit the amount. */
  function RequestPayout(db: Db, uid: UserId, amount: int, wallet: string): (r: After<RequestOutcome>)
    ensures r.out.Filed? <==>
              amount >= MIN_PAYOUT && uid in db.users && amount <= db.users[uid].pendingPayout && wallet != []
    ensures r.out == BelowMinimum <==> amount < MIN_PAYOUT
    ensures r.out == OverBalance ==> uid in db.users && amount > db.users[uid].pendingPayout
    ensures !r.out.Filed? ==> r.db == db
    ensures r.out.Filed? ==>
              && r.out.payout == db.nextPayout
              && r.db == db.(users := db.users[uid := db.users[uid].(pendingPayout := db.users[uid].pendingPayout - amount)],
                             payouts := db.payouts[r.out.payout := Payout(uid, amount, wallet, Requested)],
                             nextPayout := db.nextPayout + 1)
  {
    if amount < MIN_PAYOUT then After(db, BelowMinimum)
    else if uid !in db.users then After(db, NoAccount)
    else if amount > db.users[uid].pendingPayout then After(db, OverBalance)
    else if wallet == [] then After(db, NoWallet)
    else
      var p := db.nextPayout;
      After(db.(users := db.users[uid := db.users[uid].(pendingPayout := db.users[uid].pendingPayout - amount)],
                payouts := db.payouts[p := Payout(uid, amount, wallet, Requested)],
                nextPayout := p + 1),
            Filed(p))
  }

  // ------------------------------------------------- admin_action_task / _payout

  datatype ActionOutcome =
    | Applied         // the transition was committed
    | NotEligible     // no such row, or not in the state the action needs
    | UnknownAction   // the action is neither of the two the route knows

  /** A user credited with one task's reward on both ledger fields. */
  function Credit(u: User): User {
    u.(pendingPayout := u.pendingPayout + PAYOUT_AMOUNT_PER_TASK, totalEarned := u.totalEarned + PAYOUT_AMOUNT_PER_TASK)
  }

  /** Set the status of an inventory row if it exists. */
  function SetItemStatus(inventory: map<ItemId, Item>, i: ItemId, s: ItemStatus): map<ItemId, Item> {
    if i in inventory then inventory[i := inventory[i].(status := s)] else inventory
  }

  /** `admin_action_task`: only a SUBMITTED task moves.  "verify" makes it
      VERIFIED, completes its item and credits its worker; "reject" makes it
      REJECTED and returns its item to AVAILABLE; anything else is refused. */
  function ActOnTask(db: Db, taskId: TaskId, action: string): (r: After<ActionOutcome>)
    ensures r.out == NotEligible <==> taskId !in db.tasks || db.tasks[taskId].status != Submitted
    ensures r.out == Applied <==>
              taskId in db.tasks && db.tasks[taskId].status == Submitted && (action == "verify" || action == "reject")
    ensures r.out != Applied ==> r.db == db
    ensures r.out == Applied ==>
              && r.db.tasks == db.tasks[taskId := db.tasks[taskId].(status := if action == "verify" then Verified else TaskStatus.Rejected)]
              && r.db.payouts == db.payouts
              && r.db.nextItem == db.nextItem && r.db.nextTask == db.nextTask && r.db.nextPayout == db.nextPayout
    ensures r.out == Applied && action == "verify" ==>
              && r.db.inventory == SetItemStatus(db.inventory, db.tasks[taskId].item, Completed)
              && r.db.users == (var u := db.tasks[taskId].user; if u in db.users then db.users[u := Credit(db.users[u])] else db.users)
    ensures r.out == Applied && action == "reject" ==>
              r.db.inventory == SetItemStatus(db.inventory, db.tasks[taskId].item, Available) && r.db.users == db.users
  {
    if taskId !in db.tasks || db.tasks[taskId].status != Submitted then After(db, NotEligible)
    else
      var t := db.tasks[taskId];
      if action == "verify" then
        After(db.(tasks := db.tasks[taskId := t.(status := Verified)],
                  inventory := SetItemStatus(db.inventory, t.item, Completed),
                  users := if t.user in db.users then db.users[t.user := Credit(db.users[t.user])] else db.users),
              Applied)
      else if action == "reject" then
        After(db.(tasks := db.tasks[taskId := t.(status := TaskStatus.Rejected)],
                  inventory := SetItemStatus(db.inventory, t.item, Available)),
              Applied)
      else After(db, UnknownAction)
  }

  /** `admin_action_payout`: only a REQUESTED payout moves.  "paid" marks it
      PAID and leaves every balance alone; "reject" marks it REJECTED and
      refunds its amount to the requester's spendable balance. */
  function ActOnPayout(db: Db, payoutId: PayoutId, action: string): (r: After<ActionOutcome>)
    ensures r.out == NotEligible <==> payoutId !in db.payouts || db.payouts[payoutId].status != Requested
    ensures r.out == Applied <==>
              payoutId in db.payouts && db.payouts[payoutId].status == Requested && (action == "paid" || action == "reject")
    ensures r.out != Applied ==> r.db == db
    ensures r.out == Applied ==>
              r.db.payouts == db.payouts[payoutId := db.payouts[payoutId].(status := if action == "paid" then Paid else PayoutStatus.Rejected)]
              && r.db.tasks == db.tasks && r.db.inventory == db.inventory
              && r.db.nextItem == db.nextItem && r.db.nextTask == db.nextTask && r.db.nextPayout == db.nextPayout
    ensures r.out == Applied && action == "paid" ==> r.db.users == db.users
    ensures r.out == Applied && action == "reject" ==>
              var p := db.payouts[payoutId];
              r.db.users == if p.user in db.users
                            then db.users[p.user := db.users[p.user].(pendingPayout := db.users[p.user].pendingPayout + p.amount)]
                            else db.users
  {
    if payoutId !in db.payouts || db.payouts[payoutId].status != Requested then After(db, NotEligible)
    else
      var p := db.payouts[payoutId];
      if action == "paid" then
        After(db.(payouts := db.payouts[payoutId := p.(status := Paid)]), Applied)
      else if action == "reject" then
        After(db.(payouts := db.payouts[payoutId := p.(status := PayoutStatus.Rejected)],
                  users := if p.user in db.users
                           then db.users[p.user := db.users[p.user].(pendingPayout := db.users[p.user].pendingPayout + p.amount)]
                           else db.users),
              Applied)
      else After(db, UnknownAction)
  }

  // --------------------------------------------------------- admin_add_tasks

  /** One entry of `failed_tasks`. */
  datatype ImportFailure =
    | DuplicateOrError(username: string)   // the insert broke the unique gmail username
    | InvalidFormat(line: string)          // a side of the first ':' is empty
    | MissingSeparator(line: string)       // no ':' at all

  /** `successful_inserts` and `failed_tasks` as the loop leaves them. */
  datatype Tally = Tally(inserted: nat, failures: seq<ImportFailure>)

  datatype ImportReport =
    | NoInput                                              // the form field was empty
    | Imported(inserted: nat, failures: seq<ImportFailure>)

  /** One iteration of the import loop, on a line already classified: a
      blank line is skipped; every other line is either inserted or recorded
      as one failure; only the inventory and its id counter can change. */
  function ImportParsed(acc: After<Tally>, p: Parsed): (r: After<Tally>)
    ensures r.out.inserted + |r.out.failures| == acc.out.inserted + |acc.out.failures| + (if p.Blank? then 0 else 1)
    ensures r.db.users == acc.db.users && r.db.tasks == acc.db.tasks && r.db.payouts == acc.db.payouts
    ensures r.db.nextTask == acc.db.nextTask && r.db.nextPayout == acc.db.nextPayout
    ensures r.db.nextItem == acc.db.nextItem + (r.out.inserted - acc.out.inserted)
  {
    var db := acc.db;
    var tally := acc.out;
    match p
    case Blank => acc
    case NoSeparator(line) => After(db, tally.(failures := tally.failures + [MissingSeparator(line)]))
    case BadFormat(line) => After(db, tally.(failures := tally.failures + [InvalidFormat(line)]))
    case Entry(username, password) =>
      if UsernameTaken(db.inventory, username) then
        After(db, tally.(failures := tally.failures + [DuplicateOrError(username)]))
      else
        After(db.(inventory := db.inventory[db.nextItem := Item(username, password, Available)],
                  nextItem := db.nextItem + 1),
              tally.(inserted := tally.inserted + 1))
  }

  /** How many of `lines` are not blank once stripped. */
  function NonBlank(lines: seq<string>): nat {
    if lines == [] then 0
    else NonBlank(lines[..|lines| - 1]) + (if ParseLine(lines[|lines| - 1]).Blank? then 0 else 1)
  }

  /** The import loop run over `lines` in order, from an empty tally: every
      non-blank line is either inserted or reported, so `successful_inserts`
      plus the number of failures is the number of non-blank lines. */
  function ImportLines(db: Db, lines: seq<string>): (r: After<Tally>)
    ensures r.out.inserted + |r.out.failures| == NonBlank(lines)
  {
    if lines == [] then After(db, Tally(0, []))
    else ImportParsed(ImportLines(db, lines[..|lines| - 1]), ParseLine(lines[|lines| - 1]))
  }

  /** The loop after one more line: the step applied to the loop so far. */
  lemma ImportLinesSnoc(db: Db, lines: seq<string>, n: nat)
    requires n < |lines|
    ensures ImportLines(db, lines[..n + 1]) == ImportParsed(ImportLines(db, lines[..n]), ParseLine(lines[n]))
  {
    assert lines[..n + 1][..n] == lines[..n];
  }

  /** The lines of the pasted text: stripped as a whole, then split at '\n'. */
  function PastedLines(taskData: string): (lines: seq<string>)
    ensures |lines| >= 1 && forall k :: 0 <= k < |lines| ==> '\n' !in lines[k]
    ensures Join(lines, '\n') == Strip(taskData)
  {
    Split(Strip(taskData), '\n')
  }

  /** `admin_add_tasks`: an empty form is refused; otherwise every pasted
      line goes through the import loop. */
  function BulkImport(db: Db, taskData: string): (r: After<ImportReport>)
    ensures taskData == [] <==> r.out == NoInput
    ensures r.out == NoInput ==> r.db == db
  {
    if taskData == [] then After(db, NoInput)
    else
      var r := ImportLines(db, PastedLines(taskData));
      After(r.db, Imported(r.out.inserted, r.out.failures))
  }
}
