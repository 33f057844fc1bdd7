/** Properties of whole conversations with the task manager: the ledger
    bounds every reachable state satisfies, the worker and payout round
    trips, and two traces that show how the handlers behave once an admin
    rejects a task. */
module Scenarios {
  import opened Sums
  import opened Schema
  import opened Workflow
  import opened Invariants

  // ------------------------------------------------------------ ledger bounds

  /** The weight of a task in the count of a user's VERIFIED tasks. */
  function VerifiedBy(u: UserId): Task -> int {
    (t: Task) => if t.user == u && t.status == TaskStatus.Verified then 1 else 0
  }

  /** How many VERIFIED tasks user `u` has. */
  function VerifiedCount(db: Db, u: UserId): int {
    SumTo(db.tasks, VerifiedBy(u), db.nextTask)
  }

  /** In a valid state a user's spendable balance lies between zero and
      their lifetime earnings, and those earnings are exactly the per-task
      reward times the number of their verified tasks. */
  lemma BalanceBounds(db: Db, u: UserId)
    requires Valid(db) && u in db.users
    ensures 0 <= db.users[u].pendingPayout <= db.users[u].totalEarned
    ensures db.users[u].totalEarned == PAYOUT_AMOUNT_PER_TASK * VerifiedCount(db, u)
  {
    forall k: nat | k < db.nextPayout ensures At(db.payouts, ReservedBy(u), k) >= 0 {
    }
    SumToNonNegative(db.payouts, ReservedBy(u), db.nextPayout);
    SumToScale(db.tasks, EarnedBy(u), VerifiedBy(u), PAYOUT_AMOUNT_PER_TASK, db.nextTask);
  }

  // ------------------------------------------------------- serving requests

  /** One request to one of the modelled handlers, with its parameters. */
  datatype Request =
    | Take(uid: UserId, pick: Option<ItemId>)
    | Submit(uid: UserId, taskId: TaskId, screenshot: bool, saved: bool, code: string)
    | AskPayout(uid: UserId, amount: int, wallet: string)
    | JudgeTask(taskId: TaskId, action: string)
    | JudgePayout(payoutId: PayoutId, action: string)
    | Import(taskData: string)

  /** The database can answer the request as described: a claim names an
      item the inventory query could return. */
  predicate Possible(db: Db, req: Request) {
    req.Take? ==> FirstResult(db.inventory, req.pick)
  }

  /** The database after the handler for `req` has run. */
  function Handle(db: Db, req: Request): (after: Db)
    requires Possible(db, req)
  {
    match req
    case Take(uid, pick) => TakeTask(db, uid, pick).db
    case Submit(uid, taskId, screenshot, saved, code) => SubmitTask(db, uid, taskId, screenshot, saved, code).db
    case AskPayout(uid, amount, wallet) => RequestPayout(db, uid, amount, wallet).db
    case JudgeTask(taskId, action) => ActOnTask(db, taskId, action).db
    case JudgePayout(payoutId, action) => ActOnPayout(db, payoutId, action).db
    case Import(taskData) => BulkImport(db, taskData).db
  }

  /** Every request of the sequence is possible when its turn comes. */
  predicate Feasible(db: Db, reqs: seq<Request>)
    decreases |reqs|
  {
    reqs == [] || (Possible(db, reqs[0]) && Feasible(Handle(db, reqs[0]), reqs[1..]))
  }

  /** The database after the requests have been served one after another. */
  function Serve(db: Db, reqs: seq<Request>): (after: Db)
    requires Feasible(db, reqs)
    decreases |reqs|
  {
    if reqs == [] then db else Serve(Handle(db, reqs[0]), reqs[1..])
  }

  lemma HandleKeepsValid(db: Db, req: Request)
    requires Valid(db) && Possible(db, req)
    ensures Valid(Handle(db, req)) && EarningsKept(db, Handle(db, req))
  {
    match req
    case Take(uid, pick) => TakeTaskKeepsValid(db, uid, pick);
    case Submit(uid, taskId, screenshot, saved, code) => SubmitTaskKeepsValid(db, uid, taskId, screenshot, saved, code);
    case AskPayout(uid, amount, wallet) => RequestPayoutKeepsValid(db, uid, amount, wallet);
    case JudgeTask(taskId, action) => ActOnTaskKeepsValid(db, taskId, action);
    case JudgePayout(payoutId, action) => ActOnPayoutKeepsValid(db, payoutId, action);
    case Import(taskData) => BulkImportKeepsValid(db, taskData);
  }

  /** Whatever the handlers are asked, in whatever order, the database stays
      valid, no account disappears, lifetime earnings never go down, and every
      spendable balance stays between zero and the lifetime earnings. */
  lemma {:induction false} ServeKeepsValid(db: Db, reqs: seq<Request>)
    requires Valid(db) && Feasible(db, reqs)
    ensures Valid(Serve(db, reqs)) && EarningsKept(db, Serve(db, reqs))
    ensures forall u :: u in Serve(db, reqs).users ==>
              0 <= Serve(db, reqs).users[u].pendingPayout <= Serve(db, reqs).users[u].totalEarned
    decreases |reqs|
  {
    var last := Serve(db, reqs);
    if reqs != [] {
      var next := Handle(db, reqs[0]);
      HandleKeepsValid(db, reqs[0]);
      ServeKeepsValid(next, reqs[1..]);
      assert last == Serve(next, reqs[1..]);
    }
    forall u | u in last.users ensures 0 <= last.users[u].pendingPayout <= last.users[u].totalEarned {
      BalanceBounds(last, u);
    }
  }

  // ------------------------------------------------------------ round trips

  /** A worker claims an item, submits it, and the admin verifies it: the
      task ends VERIFIED with the submitted code, the item COMPLETED, the
      worker is credited once on both ledger fields and no one else is; a
      second verification and a second submission are refused. */
  lemma ClaimSubmitVerify(db: Db, uid: UserId, pick: Option<ItemId>, code: string)
    requires FirstResult(db.inventory, pick) && TakeTask(db, uid, pick).out.Claimed?
    ensures
      var claim := TakeTask(db, uid, pick);
      var t := claim.out.task;
      var i := claim.out.item;
      var submit := SubmitTask(claim.db, uid, t, true, true, code);
      var verify := ActOnTask(submit.db, t, "verify");
      && submit.out == Accepted && verify.out == Applied
      && verify.db.tasks[t] == Task(i, uid, Some(code), TaskStatus.Verified)
      && verify.db.inventory[i].status == Completed
      && verify.db.users == db.users[uid := db.users[uid].(
           pendingPayout := db.users[uid].pendingPayout + PAYOUT_AMOUNT_PER_TASK,
           totalEarned := db.users[uid].totalEarned + PAYOUT_AMOUNT_PER_TASK)]
      && ActOnTask(verify.db, t, "verify") == After(verify.db, NotEligible)
      && SubmitTask(verify.db, uid, t, true, true, code) == After(verify.db, AlreadySubmitted)
  {
  }

  /** A filed payout debits exactly its amount; rejecting it gives every
      balance back exactly, marking it paid changes no balance, and a paid
      payout can no longer be rejected. */
  lemma PayoutRoundTrip(db: Db, uid: UserId, amount: int, wallet: string)
    requires RequestPayout(db, uid, amount, wallet).out.Filed?
    ensures
      var ask := RequestPayout(db, uid, amount, wallet);
      var p := ask.out.payout;
      var paid := ActOnPayout(ask.db, p, "paid").db;
      && ask.db.users[uid].pendingPayout == db.users[uid].pendingPayout - amount >= 0
      && ActOnPayout(ask.db, p, "reject").db.users == db.users
      && paid.users == ask.db.users && paid.payouts[p].status == Paid
      && ActOnPayout(paid, p, "reject") == After(paid, NotEligible)
  {
    var ask := RequestPayout(db, uid, amount, wallet);
    assert ask.db.users[uid].(pendingPayout := ask.db.users[uid].pendingPayout + amount) == db.users[uid];
    assert ActOnPayout(ask.db, ask.out.payout, "reject").db.users == db.users[uid := db.users[uid]];
  }

  // ------------------------------------------------- after a task is rejected

  /** Rejecting a task makes its item AVAILABLE again, so the inventory query
      may hand it out, yet the old task row still references it: no worker
      can ever claim it, and a worker without an open task who is handed it
      sees the commit fail. */
  lemma RejectedItemCannotBeReclaimed(db: Db, taskId: TaskId)
    requires Valid(db) && ActOnTask(db, taskId, "reject").out == Applied
    ensures
      var after := ActOnTask(db, taskId, "reject").db;
      var i := db.tasks[taskId].item;
      && FirstResult(after.inventory, Some(i))
      && forall u :: !HasOpenTask(after.tasks, u) ==> TakeTask(after, u, Some(i)).out == CommitFailed(i)
  {
    var after := ActOnTask(db, taskId, "reject").db;
    assert after.tasks[taskId].item == db.tasks[taskId].item;
  }

  // The states of the trace below: one worker (id 1) and two AVAILABLE items.

  const FIRST_CODE: string := "task_0_1.png"
  const SECOND_CODE: string := "task_0_1_again.png"

  function Start(): Db {
    Db(map[1 := User("worker", false, 0, 0)],
       map[0 := Item("first@gmail.com", "pw1", Available), 1 := Item("second@gmail.com", "pw2", Available)],
       map[], map[], 2, 0, 0)
  }

  /** Item 0 is claimed by the worker as task 0. */
  function HoldsFirst(): Db {
    Start().(inventory := Start().inventory[0 := Item("first@gmail.com", "pw1", Assigned)],
             tasks := map[0 := Task(0, 1, None, Pending)], nextTask := 1)
  }

  /** Task 0 is submitted. */
  function SubmittedFirst(): Db {
    HoldsFirst().(tasks := map[0 := Task(0, 1, Some(FIRST_CODE), Submitted)])
  }

  /** Task 0 is rejected and item 0 is AVAILABLE again. */
  function RejectedFirst(): Db {
    Start().(tasks := map[0 := Task(0, 1, Some(FIRST_CODE), TaskStatus.Rejected)], nextTask := 1)
  }

  /** Item 1 is claimed as task 1. */
  function HoldsSecond(): Db {
    RejectedFirst().(inventory := Start().inventory[1 := Item("second@gmail.com", "pw2", Assigned)],
                     tasks := RejectedFirst().tasks[1 := Task(1, 1, None, Pending)], nextTask := 2)
  }

  /** Task 0 is submitted again while task 1 is still PENDING. */
  function TwoOpen(): Db {
    HoldsSecond().(tasks := HoldsSecond().tasks[0 := Task(0, 1, Some(SECOND_CODE), Submitted)])
  }

  lemma StartValid()
    ensures Valid(Start()) && OneOpenPerUser(Start().tasks)
  {
    var db := Start();
    forall u | u in db.users ensures Balanced(db, u) {
    }
  }

  lemma ClaimFirstStep()
    ensures FirstResult(Start().inventory, Some(0))
    ensures TakeTask(Start(), 1, Some(0)) == After(HoldsFirst(), Claimed(0, 0))
  {
    assert !HasOpenTask(Start().tasks, 1);
  }

  lemma SubmitFirstStep()
    ensures SubmitTask(HoldsFirst(), 1, 0, true, true, FIRST_CODE) == After(SubmittedFirst(), Accepted)
  {
  }

  lemma RejectFirstStep()
    ensures ActOnTask(SubmittedFirst(), 0, "reject") == After(RejectedFirst(), Applied)
  {
    assert SetItemStatus(SubmittedFirst().inventory, 0, Available) == Start().inventory;
  }

  lemma ReclaimFirstStep()
    ensures FirstResult(RejectedFirst().inventory, Some(0))
    ensures TakeTask(RejectedFirst(), 1, Some(0)) == After(RejectedFirst(), CommitFailed(0))
  {
    var db := RejectedFirst();
    assert !HasOpenTask(db.tasks, 1);
    assert ItemLinked(db.tasks, 0) by { assert db.tasks[0].item == 0; }
  }

  lemma ClaimSecondStep()
    ensures FirstResult(RejectedFirst().inventory, Some(1))
    ensures TakeTask(RejectedFirst(), 1, Some(1)) == After(HoldsSecond(), Claimed(1, 1))
  {
    var db := RejectedFirst();
    assert !HasOpenTask(db.tasks, 1);
    assert !ItemLinked(db.tasks, 1);
  }

  lemma ResubmitFirstStep()
    ensures SubmitTask(HoldsSecond(), 1, 0, true, true, SECOND_CODE) == After(TwoOpen(), Accepted)
  {
  }

  /** Every state of the trace is valid. */
  lemma TraceStaysValid()
    ensures Valid(Start()) && Valid(HoldsFirst()) && Valid(SubmittedFirst())
    ensures Valid(RejectedFirst()) && Valid(HoldsSecond()) && Valid(TwoOpen())
  {
    StartValid();
    ClaimFirstStep();
    TakeTaskKeepsValid(Start(), 1, Some(0));
    SubmitFirstStep();
    SubmitTaskKeepsValid(HoldsFirst(), 1, 0, true, true, FIRST_CODE);
    assert Valid(SubmittedFirst());
    RejectFirstStep();
    ActOnTaskKeepsValid(SubmittedFirst(), 0, "reject");
    ClaimSecondStep();
    TakeTaskKeepsValid(RejectedFirst(), 1, Some(1));
    assert Valid(HoldsSecond());
    ResubmitFirstStep();
    SubmitTaskKeepsValid(HoldsSecond(), 1, 0, true, true, SECOND_CODE);
  }

  /** A worker whose task was rejected is refused the recycled item, claims
      a fresh one, and then resubmits the rejected task: every step is
      accepted (and the database stays valid, `TraceStaysValid`), but the
      worker now holds two open tasks, which `take_task` alone was meant to prevent. */
  lemma ResubmitAfterRejectBreaksOneOpen()
    ensures OneOpenPerUser(Start().tasks)
    ensures FirstResult(Start().inventory, Some(0)) && TakeTask(Start(), 1, Some(0)) == After(HoldsFirst(), Claimed(0, 0))
    ensures SubmitTask(HoldsFirst(), 1, 0, true, true, FIRST_CODE) == After(SubmittedFirst(), Accepted)
    ensures ActOnTask(SubmittedFirst(), 0, "reject") == After(RejectedFirst(), Applied)
    ensures FirstResult(RejectedFirst().inventory, Some(0))
    ensures TakeTask(RejectedFirst(), 1, Some(0)) == After(RejectedFirst(), CommitFailed(0))
    ensures FirstResult(RejectedFirst().inventory, Some(1))
    ensures TakeTask(RejectedFirst(), 1, Some(1)) == After(HoldsSecond(), Claimed(1, 1))
    ensures SubmitTask(HoldsSecond(), 1, 0, true, true, SECOND_CODE) == After(TwoOpen(), Accepted)
    ensures !OneOpenPerUser(TwoOpen().tasks)
  {
    ClaimFirstStep();
    SubmitFirstStep();
    RejectFirstStep();
    ReclaimFirstStep();
    ClaimSecondStep();
    ResubmitFirstStep();
    assert TwoOpen().tasks[0].status == Submitted && TwoOpen().tasks[1].status == Pending;
  }
}
