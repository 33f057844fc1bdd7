/** What every handler preserves: the integrity constraints and the
    balance ledger (`Schema.Valid`), and lifetime earnings that never go
    down; and how each handler affects the rule that a worker holds at most
    one PENDING or SUBMITTED task. */
module Invariants {
  import opened Schema
  import opened Sums
  import opened Workflow
  import opened LineParse

  // ------------------------------------------------------------ ledger sums

  /** Re-weighing one task row changes every user's credited earnings by the
      change of that row's weight for them. */
  lemma CreditedAfterTaskUpdate(db: Db, db': Db, k: TaskId, v: Task)
    requires IdsIssued(db) && k in db.tasks
    requires db'.tasks == db.tasks[k := v] && db'.nextTask == db.nextTask
    ensures forall u :: Credited(db', u) == Credited(db, u) - EarnedBy(u)(db.tasks[k]) + EarnedBy(u)(v)
  {
    forall u ensures Credited(db', u) == Credited(db, u) - EarnedBy(u)(db.tasks[k]) + EarnedBy(u)(v) {
      SumToUpdate(db.tasks, EarnedBy(u), db.nextTask, k, v);
    }
  }

  /** Re-weighing one payout row changes every user's reserved amount by the
      change of that row's weight for them. */
  lemma ReservedAfterPayoutUpdate(db: Db, db': Db, k: PayoutId, v: Payout)
    requires IdsIssued(db) && k in db.payouts
    requires db'.payouts == db.payouts[k := v] && db'.nextPayout == db.nextPayout
    ensures forall u :: Reserved(db', u) == Reserved(db, u) - ReservedBy(u)(db.payouts[k]) + ReservedBy(u)(v)
  {
    forall u ensures Reserved(db', u) == Reserved(db, u) - ReservedBy(u)(db.payouts[k]) + ReservedBy(u)(v) {
      SumToUpdate(db.payouts, ReservedBy(u), db.nextPayout, k, v);
    }
  }

  // ---------------------------------------------- rows keep their identities

  /** `after` has the same rows as `before`, with the same keys, usernames,
      links and amounts; only statuses, codes and balances may differ. */
  ghost predicate SameRows(before: Db, after: Db) {
    && after.users.Keys == before.users.Keys
    && after.inventory.Keys == before.inventory.Keys
    && (forall i :: i in before.inventory ==> after.inventory[i].username == before.inventory[i].username)
    && after.tasks.Keys == before.tasks.Keys
    && (forall t :: t in before.tasks ==>
          after.tasks[t].item == before.tasks[t].item && after.tasks[t].user == before.tasks[t].user)
    && after.payouts.Keys == before.payouts.Keys
    && (forall p :: p in before.payouts ==>
          after.payouts[p].user == before.payouts[p].user && after.payouts[p].amount == before.payouts[p].amount)
    && after.nextItem == before.nextItem && after.nextTask == before.nextTask && after.nextPayout == before.nextPayout
  }

  /** Changing statuses and balances keeps ids, foreign keys, unique columns
      and payout minimums intact. */
  lemma SameRowsKeepIntegrity(before: Db, after: Db)
    requires Integrity(before) && SameRows(before, after)
    ensures Integrity(after)
  {
  }

  // ------------------------------------------------- each handler keeps Valid

  /** A claim inserts a task at a fresh id for an existing worker and an
      existing, unlinked item, so every constraint still holds. */
  lemma TakeTaskIntegrity(db: Db, uid: UserId, pick: Option<ItemId>)
    requires Integrity(db) && FirstResult(db.inventory, pick)
    ensures var r := TakeTask(db, uid, pick); Integrity(r.db) && r.db.users == db.users
  {
    var r := TakeTask(db, uid, pick);
    if r.out.Claimed? {
      assert r.out.task !in db.tasks;
    }
  }

  /** A claim adds a PENDING task, which weighs nothing in anyone's earnings. */
  lemma TakeTaskBalanced(db: Db, uid: UserId, pick: Option<ItemId>, u: UserId)
    requires IdsIssued(db) && FirstResult(db.inventory, pick) && u in db.users && Balanced(db, u)
    ensures var r := TakeTask(db, uid, pick); u in r.db.users && Balanced(r.db, u)
  {
    var r := TakeTask(db, uid, pick);
    if r.out.Claimed? {
      SumToInsert(db.tasks, EarnedBy(u), db.nextTask, Task(r.out.item, uid, None, Pending));
    }
  }

  lemma TakeTaskKeepsValid(db: Db, uid: UserId, pick: Option<ItemId>)
    requires Valid(db) && FirstResult(db.inventory, pick)
    ensures Valid(TakeTask(db, uid, pick).db) && EarningsKept(db, TakeTask(db, uid, pick).db)
  {
    var r := TakeTask(db, uid, pick);
    TakeTaskIntegrity(db, uid, pick);
    forall u | u in r.db.users ensures Balanced(r.db, u) {
      TakeTaskBalanced(db, uid, pick, u);
    }
  }

  /** A submission changes a status and a code only. */
  lemma SubmitTaskSameRows(db: Db, uid: UserId, taskId: TaskId, screenshot: bool, saved: bool, code: string)
    ensures SameRows(db, SubmitTask(db, uid, taskId, screenshot, saved, code).db)
  {
  }

  /** A submitted task was PENDING or REJECTED, so it weighed nothing in
      anyone's earnings, and as a SUBMITTED task it still weighs nothing. */
  lemma SubmitTaskBalanced(db: Db, uid: UserId, taskId: TaskId, screenshot: bool, saved: bool, code: string, u: UserId)
    requires IdsIssued(db) && u in db.users && Balanced(db, u)
    ensures var r := SubmitTask(db, uid, taskId, screenshot, saved, code);
            u in r.db.users && Balanced(r.db, u) && r.db.users == db.users
  {
    var r := SubmitTask(db, uid, taskId, screenshot, saved, code);
    if r.out == Accepted {
      CreditedAfterTaskUpdate(db, r.db, taskId, r.db.tasks[taskId]);
    }
  }

  lemma SubmitTaskKeepsValid(db: Db, uid: UserId, taskId: TaskId, screenshot: bool, saved: bool, code: string)
    requires Valid(db)
    ensures var r := SubmitTask(db, uid, taskId, screenshot, saved, code);
            Valid(r.db) && EarningsKept(db, r.db)
  {
    var r := SubmitTask(db, uid, taskId, screenshot, saved, code);
    SubmitTaskSameRows(db, uid, taskId, screenshot, saved, code);
    SameRowsKeepIntegrity(db, r.db);
    forall u | u in r.db.users ensures Balanced(r.db, u) {
      SubmitTaskBalanced(db, uid, taskId, screenshot, saved, code, u);
    }
  }

  /** A filed payout is a fresh row of at least the minimum, for an existing user. */
  lemma RequestPayoutIntegrity(db: Db, uid: UserId, amount: int, wallet: string)
    requires Integrity(db)
    ensures var r := RequestPayout(db, uid, amount, wallet); Integrity(r.db) && r.db.users.Keys == db.users.Keys
  {
  }

  /** Filing moves `amount` from the spendable balance into the reserved
      payouts; the balance stays non-negative because `amount` was at most it. */
  lemma RequestPayoutBalanced(db: Db, uid: UserId, amount: int, wallet: string, u: UserId)
    requires IdsIssued(db) && u in db.users && Balanced(db, u)
    ensures var r := RequestPayout(db, uid, amount, wallet);
            u in r.db.users && Balanced(r.db, u) && r.db.users[u].totalEarned == db.users[u].totalEarned
  {
    var r := RequestPayout(db, uid, amount, wallet);
    if r.out.Filed? {
      SumToInsert(db.payouts, ReservedBy(u), db.nextPayout, Payout(uid, amount, wallet, Requested));
    }
  }

  lemma RequestPayoutKeepsValid(db: Db, uid: UserId, amount: int, wallet: string)
    requires Valid(db)
    ensures var r := RequestPayout(db, uid, amount, wallet);
            Valid(r.db) && EarningsKept(db, r.db)
  {
    var r := RequestPayout(db, uid, amount, wallet);
    RequestPayoutIntegrity(db, uid, amount, wallet);
    forall u | u in r.db.users ensures Balanced(r.db, u) && r.db.users[u].totalEarned == db.users[u].totalEarned {
      RequestPayoutBalanced(db, uid, amount, wallet, u);
    }
  }

  /** An admin verdict on a task changes statuses and balances only. */
  lemma ActOnTaskSameRows(db: Db, taskId: TaskId, action: string)
    ensures SameRows(db, ActOnTask(db, taskId, action).db)
  {
  }

  /** A verdict keeps each user balanced: "verify" credits the reward to
      both ledger fields of the owner exactly as it adds one VERIFIED task. */
  lemma ActOnTaskBalanced(db: Db, taskId: TaskId, action: string, u: UserId)
    requires IdsIssued(db) && u in db.users && Balanced(db, u)
    ensures var r := ActOnTask(db, taskId, action);
            u in r.db.users && Balanced(r.db, u) && r.db.users[u].totalEarned >= db.users[u].totalEarned
  {
    var r := ActOnTask(db, taskId, action);
    if r.out == Applied {
      CreditedAfterTaskUpdate(db, r.db, taskId, r.db.tasks[taskId]);
      assert Reserved(r.db, u) == Reserved(db, u);
    }
  }

  lemma ActOnTaskKeepsValid(db: Db, taskId: TaskId, action: string)
    requires Valid(db)
    ensures var r := ActOnTask(db, taskId, action);
            Valid(r.db) && EarningsKept(db, r.db)
  {
    var r := ActOnTask(db, taskId, action);
    ActOnTaskSameRows(db, taskId, action);
    SameRowsKeepIntegrity(db, r.db);
    forall u | u in r.db.users ensures Balanced(r.db, u) && r.db.users[u].totalEarned >= db.users[u].totalEarned {
      ActOnTaskBalanced(db, taskId, action, u);
    }
  }

  /** An admin verdict on a payout changes a status and a balance only. */
  lemma ActOnPayoutSameRows(db: Db, payoutId: PayoutId, action: string)
    ensures SameRows(db, ActOnPayout(db, payoutId, action).db)
  {
  }

  /** "paid" keeps the payout reserved; "reject" releases it from the
      reserved amount and refunds it to the spendable balance. */
  lemma ActOnPayoutBalanced(db: Db, payoutId: PayoutId, action: string, u: UserId)
    requires IdsIssued(db) && u in db.users && Balanced(db, u)
    requires payoutId in db.payouts ==> db.payouts[payoutId].amount >= MIN_PAYOUT
    ensures var r := ActOnPayout(db, payoutId, action);
            u in r.db.users && Balanced(r.db, u) && r.db.users[u].totalEarned == db.users[u].totalEarned
  {
    var r := ActOnPayout(db, payoutId, action);
    if r.out == Applied {
      ReservedAfterPayoutUpdate(db, r.db, payoutId, r.db.payouts[payoutId]);
      assert Credited(r.db, u) == Credited(db, u);
    }
  }

  lemma ActOnPayoutKeepsValid(db: Db, payoutId: PayoutId, action: string)
    requires Valid(db)
    ensures var r := ActOnPayout(db, payoutId, action);
            Valid(r.db) && EarningsKept(db, r.db)
  {
    var r := ActOnPayout(db, payoutId, action);
    ActOnPayoutSameRows(db, payoutId, action);
    SameRowsKeepIntegrity(db, r.db);
    forall u | u in r.db.users ensures Balanced(r.db, u) && r.db.users[u].totalEarned == db.users[u].totalEarned {
      ActOnPayoutBalanced(db, payoutId, action, u);
    }
  }

  /** What one pasted line does: a blank line nothing; a line without ':'
      records "Missing separator" with the stripped line; a line with an
      empty side records "Invalid format"; an entry whose username is in use
      records "Duplicate/Error" with the username; any other entry is
      inserted as an AVAILABLE row at the next id.  Only an insert changes
      the tables. */
  lemma ImportLineCases(acc: After<Tally>, raw: string)
    ensures var line := Strip(raw);
            var q := ParseLine(raw);
            var r := ImportParsed(acc, q);
            && (line == [] ==> r == acc)
            && (line != [] && ':' !in line ==>
                  r.db == acc.db && r.out == acc.out.(failures := acc.out.failures + [MissingSeparator(line)]))
            && (q.BadFormat? ==>
                  ':' in line && r.db == acc.db && r.out == acc.out.(failures := acc.out.failures + [InvalidFormat(line)]))
            && (q.Entry? && UsernameTaken(acc.db.inventory, q.username) ==>
                  r.db == acc.db && r.out == acc.out.(failures := acc.out.failures + [DuplicateOrError(q.username)]))
            && (q.Entry? && !UsernameTaken(acc.db.inventory, q.username) ==>
                  && r.out == acc.out.(inserted := acc.out.inserted + 1)
                  && r.db == acc.db.(inventory := acc.db.inventory[acc.db.nextItem := Item(q.username, q.password, Available)],
                                     nextItem := acc.db.nextItem + 1))
  {
    var q := ParseLine(raw);
    match q
    case Blank =>
    case NoSeparator(line) =>
    case BadFormat(line) =>
    case Entry(username, password) =>
  }

  /** One import step changes the tables only by inserting an entry whose
      username is not in use, at the next id. */
  lemma ImportParsedStep(acc: After<Tally>, p: LineParse.Parsed)
    ensures var r := ImportParsed(acc, p);
            && (r.db.nextItem == acc.db.nextItem ==> r.db == acc.db)
            && (r.db.nextItem != acc.db.nextItem ==>
                  && p.Entry? && !UsernameTaken(acc.db.inventory, p.username)
                  && r.db == acc.db.(inventory := acc.db.inventory[acc.db.nextItem := Item(p.username, p.password, Available)],
                                     nextItem := acc.db.nextItem + 1))
  {
  }

  /** Inserting an inventory row at the next id with an unused username
      keeps the store valid. */
  lemma InsertItemKeepsValid(db: Db, item: Item)
    requires Valid(db) && !UsernameTaken(db.inventory, item.username)
    ensures Valid(db.(inventory := db.inventory[db.nextItem := item], nextItem := db.nextItem + 1))
  {
    var db' := db.(inventory := db.inventory[db.nextItem := item], nextItem := db.nextItem + 1);
    forall u | u in db'.users ensures Balanced(db', u) {
      assert Balanced(db, u);
      assert Credited(db', u) == Credited(db, u) && Reserved(db', u) == Reserved(db, u);
    }
  }

  lemma ImportParsedKeepsValid(acc: After<Tally>, p: LineParse.Parsed)
    requires Valid(acc.db)
    ensures Valid(ImportParsed(acc, p).db) && ImportParsed(acc, p).db.users == acc.db.users
  {
    var r := ImportParsed(acc, p);
    ImportParsedStep(acc, p);
    if r.db.nextItem != acc.db.nextItem {
      InsertItemKeepsValid(acc.db, Item(p.username, p.password, Available));
    }
  }

  lemma {:induction false} ImportLinesKeepsValid(db: Db, lines: seq<string>)
    requires Valid(db)
    ensures Valid(ImportLines(db, lines).db) && ImportLines(db, lines).db.users == db.users
    decreases |lines|
  {
    if lines != [] {
      var prev := ImportLines(db, lines[..|lines| - 1]);
      ImportLinesKeepsValid(db, lines[..|lines| - 1]);
      ImportParsedKeepsValid(prev, LineParse.ParseLine(lines[|lines| - 1]));
    }
  }

  lemma BulkImportKeepsValid(db: Db, taskData: string)
    requires Valid(db)
    ensures Valid(BulkImport(db, taskData).db) && EarningsKept(db, BulkImport(db, taskData).db)
  {
    if taskData != [] {
      ImportLinesKeepsValid(db, PastedLines(taskData));
    }
  }

  // ---------------------------------------------------- one open task per worker

  /** `take_task` never gives a worker a second open task. */
  lemma TakeTaskKeepsOneOpen(db: Db, uid: UserId, pick: Option<ItemId>)
    requires IdsIssued(db) && OneOpenPerUser(db.tasks) && FirstResult(db.inventory, pick)
    ensures OneOpenPerUser(TakeTask(db, uid, pick).db.tasks)
  {
    var r := TakeTask(db, uid, pick);
    if r.out.Claimed? {
      assert r.out.task !in db.tasks;
    }
  }

  /** `submit_task` breaks the rule exactly when it reopens a REJECTED task of
      a worker who already holds another open task: its guard only excludes
      SUBMITTED and VERIFIED. */
  lemma SubmitTaskOneOpen(db: Db, uid: UserId, taskId: TaskId, screenshot: bool, saved: bool, code: string)
    requires OneOpenPerUser(db.tasks)
    ensures var r := SubmitTask(db, uid, taskId, screenshot, saved, code);
            OneOpenPerUser(r.db.tasks) <==>
              !(r.out == Accepted && db.tasks[taskId].status.Rejected? && HasOpenTask(db.tasks, uid))
  {
    var r := SubmitTask(db, uid, taskId, screenshot, saved, code);
    if r.out == Accepted {
      var tasks' := r.db.tasks;
      if db.tasks[taskId].status.Rejected? && HasOpenTask(db.tasks, uid) {
        var t :| t in db.tasks && db.tasks[t].user == uid && IsOpen(db.tasks[t]);
        assert t != taskId && t in tasks' && tasks'[t] == db.tasks[t];
        assert IsOpen(tasks'[taskId]) && tasks'[taskId].user == uid;
      }
    }
  }

  /** An admin verdict closes a task and opens none. */
  lemma ActOnTaskKeepsOneOpen(db: Db, taskId: TaskId, action: string)
    requires OneOpenPerUser(db.tasks)
    ensures OneOpenPerUser(ActOnTask(db, taskId, action).db.tasks)
  {
  }

  // ---------------------------------------------------- the bulk-import count

  /** The import touches no table but the inventory, and moves the inventory
      id counter by exactly the number of rows it inserted. */
  lemma {:induction false} ImportLinesFrame(db: Db, lines: seq<string>)
    ensures var r := ImportLines(db, lines);
            && r.db.users == db.users && r.db.tasks == db.tasks && r.db.payouts == db.payouts
            && r.db.nextTask == db.nextTask && r.db.nextPayout == db.nextPayout
            && r.db.nextItem == db.nextItem + r.out.inserted
    decreases |lines|
  {
    if lines != [] {
      var prev := ImportLines(db, lines[..|lines| - 1]);
      ImportLinesFrame(db, lines[..|lines| - 1]);
      ImportParsedStep(prev, LineParse.ParseLine(lines[|lines| - 1]));
    }
  }

  /** Inventory ids below the id counter. */
  ghost predicate ItemIdsIssued(db: Db) {
    forall i :: i in db.inventory ==> i < db.nextItem
  }

  /** `after` keeps every inventory row of `before` and adds `added` rows,
      all AVAILABLE and all at ids between the two id counters. */
  ghost predicate RowsAdded(before: Db, after: Db, added: int) {
    && |after.inventory| == |before.inventory| + added
    && (forall i :: i in before.inventory ==> i in after.inventory && after.inventory[i] == before.inventory[i])
    && (forall i :: i in after.inventory && i !in before.inventory ==>
          before.nextItem <= i < after.nextItem && after.inventory[i].status == Available)
  }

  /** One import step adds the row it counts, and no other. */
  lemma ImportParsedAdds(acc: After<Tally>, p: LineParse.Parsed)
    requires ItemIdsIssued(acc.db)
    ensures var r := ImportParsed(acc, p);
            && ItemIdsIssued(r.db) && acc.db.nextItem <= r.db.nextItem
            && RowsAdded(acc.db, r.db, r.out.inserted - acc.out.inserted)
  {
    var r := ImportParsed(acc, p);
    ImportParsedStep(acc, p);
    if r.db.nextItem != acc.db.nextItem {
      assert acc.db.nextItem !in acc.db.inventory;
    }
  }

  /** The import adds exactly `inserted` inventory rows, at fresh ids and all
      AVAILABLE; the rows that were there are untouched. */
  lemma {:induction false} ImportLinesAdds(db: Db, lines: seq<string>)
    requires ItemIdsIssued(db)
    ensures var r := ImportLines(db, lines);
            ItemIdsIssued(r.db) && db.nextItem <= r.db.nextItem && RowsAdded(db, r.db, r.out.inserted)
    decreases |lines|
  {
    if lines != [] {
      var prev := ImportLines(db, lines[..|lines| - 1]);
      var p := LineParse.ParseLine(lines[|lines| - 1]);
      var r := ImportLines(db, lines);
      assert r == ImportParsed(prev, p);
      ImportLinesAdds(db, lines[..|lines| - 1]);
      ImportParsedAdds(prev, p);
      forall i | i in r.db.inventory && i !in db.inventory
        ensures db.nextItem <= i < r.db.nextItem && r.db.inventory[i].status == Available
      {
        if i in prev.db.inventory {
          assert r.db.inventory[i] == prev.db.inventory[i];
        }
      }
    }
  }

  /** `f` is the entry of `failed_tasks` recorded for a line parsed as `p`. */
  predicate Explains(p: Parsed, f: ImportFailure) {
    match f
    case MissingSeparator(line) => p == NoSeparator(line)
    case InvalidFormat(line) => p == BadFormat(line)
    case DuplicateOrError(username) => p.Entry? && p.username == username
  }

  /** Some line of `lines` parses as `p`. */
  ghost predicate Pasted(lines: seq<string>, p: Parsed) {
    exists k :: 0 <= k < |lines| && ParseLine(lines[k]) == p
  }

  /** Some line of `lines` records the failure `f`. */
  ghost predicate Reported(lines: seq<string>, f: ImportFailure) {
    exists k :: 0 <= k < |lines| && Explains(ParseLine(lines[k]), f)
  }

  /** A line of a prefix is a line of the whole, and so is the last line. */
  lemma PastedGrow(lines: seq<string>, n: nat)
    requires n < |lines|
    ensures forall p :: Pasted(lines[..n], p) ==> Pasted(lines, p)
    ensures forall f :: Reported(lines[..n], f) ==> Reported(lines, f)
    ensures Pasted(lines, ParseLine(lines[n]))
    ensures forall f :: Explains(ParseLine(lines[n]), f) ==> Reported(lines, f)
  {
    forall p | Pasted(lines[..n], p) ensures Pasted(lines, p) {
      var k :| 0 <= k < n && ParseLine(lines[..n][k]) == p;
      assert lines[..n][k] == lines[k];
    }
    forall f | Reported(lines[..n], f) ensures Reported(lines, f) {
      var k :| 0 <= k < n && Explains(ParseLine(lines[..n][k]), f);
      assert lines[..n][k] == lines[k];
    }
  }

  /** Every row of `after` with an id not in `before` holds the username
      and password of a pasted entry. */
  ghost predicate RowsPasted(lines: seq<string>, before: map<ItemId, Item>, after: map<ItemId, Item>) {
    forall i :: i in after && i !in before ==> Pasted(lines, Entry(after[i].username, after[i].password))
  }

  /** Every row the import inserts carries the username and password of
      one of the pasted lines. */
  lemma {:induction false} ImportLinesRowsFromLines(db: Db, lines: seq<string>)
    ensures RowsPasted(lines, db.inventory, ImportLines(db, lines).db.inventory)
    decreases |lines|
  {
    if lines != [] {
      var n := |lines| - 1;
      var prev := ImportLines(db, lines[..n]);
      var p := ParseLine(lines[n]);
      var r := ImportLines(db, lines);
      assert r == ImportParsed(prev, p);
      ImportLinesRowsFromLines(db, lines[..n]);
      ImportParsedStep(prev, p);
      PastedGrow(lines, n);
      forall i | i in r.db.inventory && i !in db.inventory
        ensures Pasted(lines, Entry(r.db.inventory[i].username, r.db.inventory[i].password))
      {
        if r.db.nextItem == prev.db.nextItem || i != prev.db.nextItem {
          assert i in prev.db.inventory && r.db.inventory[i] == prev.db.inventory[i];
          assert Pasted(lines[..n], Entry(r.db.inventory[i].username, r.db.inventory[i].password));
        }
      }
    }
  }

  /** One import step keeps the failures recorded so far and appends at
      most one, the one its kind of line records. */
  lemma ImportParsedFailures(acc: After<Tally>, p: Parsed)
    ensures var r := ImportParsed(acc, p);
            && |acc.out.failures| <= |r.out.failures| && r.out.failures[..|acc.out.failures|] == acc.out.failures
            && forall j :: |acc.out.failures| <= j < |r.out.failures| ==> Explains(p, r.out.failures[j])
  {
  }

  /** Every failure in `failures` is recorded by some line of `lines`. */
  ghost predicate AllReported(lines: seq<string>, failures: seq<ImportFailure>) {
    forall j :: 0 <= j < |failures| ==> Reported(lines, failures[j])
  }

  /** Every entry of `failed_tasks` is the one its kind of line records,
      for one of the pasted lines. */
  lemma {:induction false} ImportLinesFailuresFromLines(db: Db, lines: seq<string>)
    ensures AllReported(lines, ImportLines(db, lines).out.failures)
    decreases |lines|
  {
    if lines != [] {
      var n := |lines| - 1;
      var prev := ImportLines(db, lines[..n]);
      var p := ParseLine(lines[n]);
      var r := ImportLines(db, lines);
      assert r == ImportParsed(prev, p);
      ImportLinesFailuresFromLines(db, lines[..n]);
      ImportParsedFailures(prev, p);
      PastedGrow(lines, n);
      forall j | 0 <= j < |r.out.failures| ensures Reported(lines, r.out.failures[j]) {
        var f := r.out.failures[j];
        if j < |prev.out.failures| {
          assert f == r.out.failures[..|prev.out.failures|][j] == prev.out.failures[j];
          assert Reported(lines[..n], f);
        } else {
          assert Explains(p, f);
        }
      }
    }
  }

  /** After the import every entry's username is in the inventory: it was
      inserted, or the row that made it a duplicate is there. */
  lemma {:induction false} ImportLinesEntriesPresent(db: Db, lines: seq<string>)
    requires ItemIdsIssued(db)
    ensures forall k :: 0 <= k < |lines| && ParseLine(lines[k]).Entry? ==>
              UsernameTaken(ImportLines(db, lines).db.inventory, ParseLine(lines[k]).username)
    decreases |lines|
  {
    if lines != [] {
      var n := |lines| - 1;
      var prev := ImportLines(db, lines[..n]);
      var p := ParseLine(lines[n]);
      var r := ImportLines(db, lines);
      assert r == ImportParsed(prev, p);
      ImportLinesEntriesPresent(db, lines[..n]);
      ImportLinesAdds(db, lines[..n]);
      ImportParsedAdds(prev, p);
      forall k | 0 <= k < |lines| && ParseLine(lines[k]).Entry?
        ensures UsernameTaken(r.db.inventory, ParseLine(lines[k]).username)
      {
        var u := ParseLine(lines[k]).username;
        if k < n {
          assert lines[..n][k] == lines[k];
          assert UsernameTaken(prev.db.inventory, u);
        }
        if UsernameTaken(prev.db.inventory, u) {
          var i :| i in prev.db.inventory && prev.db.inventory[i].username == u;
          assert r.db.inventory[i] == prev.db.inventory[i];
        } else {
          assert k == n;
          assert r.db.inventory[prev.db.nextItem].username == u;
        }
      }
    }
  }

  /** `admin_add_tasks` as a whole, for a non-empty form: every non-blank
      pasted line is either inserted or reported; only the inventory
      changes; the rows that were there stay; the inserted rows are new
      AVAILABLE rows, each holding the username and password of a pasted
      entry; every failure is the one its line records; and every pasted
      entry's username is in the inventory afterwards. */
  lemma BulkImportAccounts(db: Db, taskData: string)
    requires ItemIdsIssued(db)
    ensures var r := BulkImport(db, taskData);
            var lines := PastedLines(taskData);
            r.out.Imported? ==>
              && r.out.inserted + |r.out.failures| == NonBlank(lines)
              && r.db.users == db.users && r.db.tasks == db.tasks && r.db.payouts == db.payouts
              && RowsAdded(db, r.db, r.out.inserted)
              && RowsPasted(lines, db.inventory, r.db.inventory)
              && AllReported(lines, r.out.failures)
              && (forall k :: 0 <= k < |lines| && ParseLine(lines[k]).Entry? ==>
                    UsernameTaken(r.db.inventory, ParseLine(lines[k]).username))
  {
    if taskData != [] {
      var lines := PastedLines(taskData);
      ImportLinesFrame(db, lines);
      ImportLinesAdds(db, lines);
      ImportLinesRowsFromLines(db, lines);
      ImportLinesFailuresFromLines(db, lines);
      ImportLinesEntriesPresent(db, lines);
    }
  }
}
