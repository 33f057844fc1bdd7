/** The database as the request handlers see it: four tables that the
    handlers update in place, plus the autoincrement counters.  Every
    handler is proved to leave the tables exactly as the matching transition
    of `Workflow` says, and to keep the integrity and ledger invariant. */
module Store {
  import opened Schema
  import opened LineParse
  import opened Workflow
  import opened Invariants

  /** Some AVAILABLE item, when there is one: what the inventory query would
      have returned on a path where the handler does not run it. */
  ghost function SomeAvailable(inventory: map<ItemId, Item>): (r: Option<ItemId>)
    ensures FirstResult(inventory, r)
  {
    if exists i :: i in inventory && inventory[i].status == Available then
      var i :| i in inventory && inventory[i].status == Available; Some(i)
    else None
  }

  class Store {
    var users: map<UserId, User>
    var inventory: map<ItemId, Item>
    var tasks: map<TaskId, Task>
    var payouts: map<PayoutId, Payout>
    var nextItem: ItemId
    var nextTask: TaskId
    var nextPayout: PayoutId

    /** The current contents of the tables. */
    function Snapshot(): Db
      reads this
    {
      Db(users, inventory, tasks, payouts, nextItem, nextTask, nextPayout)
    }

    ghost predicate Valid()
      reads this
    {
      Schema.Valid(Snapshot())
    }

    /** Fresh tables holding only the given accounts, all at zero balance. */
    constructor (accounts: map<UserId, User>)
      requires forall u :: u in accounts ==> accounts[u].totalEarned == 0 && accounts[u].pendingPayout == 0
      ensures Valid()
      ensures Snapshot() == Db(accounts, map[], map[], map[], 0, 0, 0)
    {
      users := accounts;
      inventory := map[];
      tasks := map[];
      payouts := map[];
      nextItem := 0;
      nextTask := 0;
      nextPayout := 0;
      EmptyTablesValid(accounts);
    }

    /** The inventory query of `take_task`: some AVAILABLE item, or none. */
    method FirstAvailable() returns (pick: Option<ItemId>)
      ensures FirstResult(inventory, pick)
    {
      if exists i :: i in inventory && inventory[i].status == Available {
        var i :| i in inventory && inventory[i].status == Available;
        pick := Some(i);
      } else {
        pick := None;
      }
    }

    /** `take_task` for worker `uid`; `pick` is the row the inventory query returned. */
    method TakeTask(uid: UserId) returns (outcome: TakeOutcome, ghost pick: Option<ItemId>)
      requires Valid()
      modifies this
      ensures FirstResult(old(inventory), pick)
      ensures After(Snapshot(), outcome) == Workflow.TakeTask(old(Snapshot()), uid, pick)
      ensures Valid()
    {
      ghost var before := Snapshot();
      if HasOpenTask(tasks, uid) {
        pick := SomeAvailable(inventory);
        outcome := HasActiveTask;
        return;
      }
      var found := FirstAvailable();
      pick := found;
      match found {
        case None =>
          outcome := NoWorkAvailable;
        case Some(i) =>
          if uid !in users || ItemLinked(tasks, i) {
            // the unique or foreign key refuses the new task: rolled back
            outcome := CommitFailed(i);
          } else {
            inventory := inventory[i := inventory[i].(status := Assigned)];
            var t := nextTask;
            tasks := tasks[t := Task(i, uid, None, Pending)];
            nextTask := nextTask + 1;
            outcome := Claimed(t, i);
          }
      }
      assert After(Snapshot(), outcome) == Workflow.TakeTask(before, uid, pick);
      TakeTaskKeepsValid(before, uid, pick);
    }

    /** `submit_task` by worker `uid` for task `taskId`. */
    method SubmitTask(uid: UserId, taskId: TaskId, screenshot: bool, saved: bool, code: string)
      returns (outcome: SubmitOutcome)
      requires Valid()
      modifies this
      ensures After(Snapshot(), outcome) == Workflow.SubmitTask(old(Snapshot()), uid, taskId, screenshot, saved, code)
      ensures Valid()
    {
      ghost var before := Snapshot();
      if !screenshot {
        outcome := NoScreenshot;
      } else if taskId !in tasks || tasks[taskId].user != uid {
        outcome := NotOwnTask;
      } else if tasks[taskId].status == Submitted || tasks[taskId].status == Verified {
        outcome := AlreadySubmitted;
      } else if !saved {
        outcome := SaveFailed;
      } else {
        tasks := tasks[taskId := tasks[taskId].(completionCode := Some(code), status := Submitted)];
        outcome := Accepted;
      }
      assert After(Snapshot(), outcome) == Workflow.SubmitTask(before, uid, taskId, screenshot, saved, code);
      SubmitTaskKeepsValid(before, uid, taskId, screenshot, saved, code);
    }

    /** `payout_request` by user `uid`. */
    method RequestPayout(uid: UserId, amount: int, wallet: string) returns (outcome: RequestOutcome)
      requires Valid()
      modifies this
      ensures After(Snapshot(), outcome) == Workflow.RequestPayout(old(Snapshot()), uid, amount, wallet)
      ensures Valid()
    {
      ghost var before := Snapshot();
      if amount < MIN_PAYOUT {
        outcome := BelowMinimum;
      } else if uid !in users {
        outcome := NoAccount;
      } else if amount > users[uid].pendingPayout {
        outcome := OverBalance;
      } else if wallet == [] {
        outcome := NoWallet;
      } else {
        var p := nextPayout;
        payouts := payouts[p := Payout(uid, amount, wallet, Requested)];
        nextPayout := nextPayout + 1;
        users := users[uid := users[uid].(pendingPayout := users[uid].pendingPayout - amount)];
        outcome := Filed(p);
      }
      assert After(Snapshot(), outcome) == Workflow.RequestPayout(before, uid, amount, wallet);
      RequestPayoutKeepsValid(before, uid, amount, wallet);
    }

    /** `admin_action_task`: "verify" or "reject" a SUBMITTED task. */
    method ActOnTask(taskId: TaskId, action: string) returns (outcome: ActionOutcome)
      requires Valid()
      modifies this
      ensures After(Snapshot(), outcome) == Workflow.ActOnTask(old(Snapshot()), taskId, action)
      ensures Valid()
    {
      ghost var before := Snapshot();
      if taskId !in tasks || tasks[taskId].status != Submitted {
        outcome := NotEligible;
      } else {
        var t := tasks[taskId];
        if action == "verify" {
          tasks := tasks[taskId := t.(status := Verified)];
          inventory := SetItemStatus(inventory, t.item, Completed);
          if t.user in users {
            users := users[t.user := Credit(users[t.user])];
          }
          outcome := Applied;
        } else if action == "reject" {
          tasks := tasks[taskId := t.(status := TaskStatus.Rejected)];
          inventory := SetItemStatus(inventory, t.item, Available);
          outcome := Applied;
        } else {
          outcome := UnknownAction;
        }
      }
      assert After(Snapshot(), outcome) == Workflow.ActOnTask(before, taskId, action);
      ActOnTaskKeepsValid(before, taskId, action);
    }

    /** `admin_action_payout`: mark a REQUESTED payout "paid", or "reject" it with a refund. */
    method ActOnPayout(payoutId: PayoutId, action: string) returns (outcome: ActionOutcome)
      requires Valid()
      modifies this
      ensures After(Snapshot(), outcome) == Workflow.ActOnPayout(old(Snapshot()), payoutId, action)
      ensures Valid()
    {
      ghost var before := Snapshot();
      if payoutId !in payouts || payouts[payoutId].status != Requested {
        outcome := NotEligible;
      } else {
        var p := payouts[payoutId];
        if action == "paid" {
          payouts := payouts[payoutId := p.(status := Paid)];
          outcome := Applied;
        } else if action == "reject" {
          payouts := payouts[payoutId := p.(status := PayoutStatus.Rejected)];
          if p.user in users {
            users := users[p.user := users[p.user].(pendingPayout := users[p.user].pendingPayout + p.amount)];
          }
          outcome := Applied;
        } else {
          outcome := UnknownAction;
        }
      }
      assert After(Snapshot(), outcome) == Workflow.ActOnPayout(before, payoutId, action);
      ActOnPayoutKeepsValid(before, payoutId, action);
    }

    /** One iteration of the import loop of `admin_add_tasks` on a pasted
        line already classified as `p`, given the counts so far. */
    method ImportLine(p: Parsed, inserted: nat, failures: seq<ImportFailure>)
      returns (inserted': nat, failures': seq<ImportFailure>)
      modifies this
      ensures After(Snapshot(), Tally(inserted', failures')) ==
              ImportParsed(After(old(Snapshot()), Tally(inserted, failures)), p)
    {
      inserted', failures' := inserted, failures;
      match p {
        case Blank =>
        case NoSeparator(line) =>
          failures' := failures + [MissingSeparator(line)];
        case BadFormat(line) =>
          failures' := failures + [InvalidFormat(line)];
        case Entry(username, password) =>
          if UsernameTaken(inventory, username) {
            // the unique gmail username refuses the row: rolled back
            failures' := failures + [DuplicateOrError(username)];
          } else {
            inventory := inventory[nextItem := Item(username, password, Available)];
            nextItem := nextItem + 1;
            inserted' := inserted + 1;
          }
      }
    }

    /** The import loop of `admin_add_tasks` over the pasted lines. */
    method ImportAll(lines: seq<string>) returns (inserted: nat, failures: seq<ImportFailure>)
      modifies this
      ensures After(Snapshot(), Tally(inserted, failures)) == ImportLines(old(Snapshot()), lines)
    {
      inserted, failures := 0, [];
      var n := 0;
      while n < |lines|
        invariant n <= |lines|
        invariant After(Snapshot(), Tally(inserted, failures)) == ImportLines(old(Snapshot()), lines[..n])
      {
        ImportLinesSnoc(old(Snapshot()), lines, n);
        inserted, failures := ImportLine(ParseLine(lines[n]), inserted, failures);
        n := n + 1;
      }
      assert lines[..n] == lines;
    }

    /** `admin_add_tasks`: refuse an empty form; otherwise import the pasted
        `username:password` lines one by one, each insert committed or rolled
        back on its own. */
    method AddTasks(taskData: string) returns (report: ImportReport)
      requires Valid()
      modifies this
      ensures After(Snapshot(), report) == BulkImport(old(Snapshot()), taskData)
      ensures Valid()
    {
      if taskData == [] {
        return NoInput;
      }
      ghost var before := Snapshot();
      var lines := PastedLines(taskData);
      var inserted, failures := ImportAll(lines);
      report := Imported(inserted, failures);
      ImportLinesKeepsValid(before, lines);
    }
  }
}
