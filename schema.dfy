/** The four tables of the task manager (users, inventory, tasks, payouts),
    their closed status enumerations, the two money constants in integer
    cents, and the integrity invariant every committed state satisfies. */
module Schema {
  import opened Sums

  datatype Option<T> = None | Some(value: T)

  type UserId = nat
  type ItemId = nat
  type TaskId = nat
  type PayoutId = nat

  /** Minimum payout, 0.10 in the source, in cents. */
  const MIN_PAYOUT: int := 10
  /** Reward credited for one verified task, 0.10 in the source, in cents. */
  const PAYOUT_AMOUNT_PER_TASK: int := 10

  /** A worker or admin account with its balance ledger (in cents). */
  datatype User = User(username: string, isAdmin: bool, totalEarned: int, pendingPayout: int)

  datatype ItemStatus = Available | Assigned | Completed

  /** One claimable credential pair. */
  datatype Item = Item(username: string, password: string, status: ItemStatus)

  datatype TaskStatus = Pending | Submitted | Verified | Rejected

  /** One worker's attempt at one inventory item; the completion code is
      absent until the task is submitted. */
  datatype Task = Task(item: ItemId, user: UserId, completionCode: Option<string>, status: TaskStatus)

  datatype PayoutStatus = Requested | Paid | Rejected

  /** A withdrawal request, debited from the balance when it is filed. */
  datatype Payout = Payout(user: UserId, amount: int, wallet: string, status: PayoutStatus)

  /** The whole database: one map per table keyed by primary key, and the
      next value of each autoincrement id. */
  datatype Db = Db(
    users: map<UserId, User>,
    inventory: map<ItemId, Item>,
    tasks: map<TaskId, Task>,
    payouts: map<PayoutId, Payout>,
    nextItem: ItemId,
    nextTask: TaskId,
    nextPayout: PayoutId)

  /** A task that still occupies its worker: PENDING or SUBMITTED. */
  predicate IsOpen(t: Task) {
    t.status == Pending || t.status == Submitted
  }

  /** The weight of a task in a user's lifetime earnings: the per-task
      reward when it is that user's VERIFIED task. */
  function EarnedBy(u: UserId): Task -> int {
    (t: Task) => if t.user == u && t.status == TaskStatus.Verified then PAYOUT_AMOUNT_PER_TASK else 0
  }

  /** The weight of a payout in the amount reserved from a user's balance:
      its amount unless it was rejected (and so refunded). */
  function ReservedBy(u: UserId): Payout -> int {
    (p: Payout) => if p.user == u && p.status != PayoutStatus.Rejected then p.amount else 0
  }

  /** What user `u` has earned: the reward for each of their VERIFIED tasks. */
  function Credited(db: Db, u: UserId): (earned: int) {
    SumTo(db.tasks, EarnedBy(u), db.nextTask)
  }

  /** What user `u` has withdrawn or asked to withdraw: the amounts of their
      REQUESTED and PAID payouts. */
  function Reserved(db: Db, u: UserId): (reserved: int) {
    SumTo(db.payouts, ReservedBy(u), db.nextPayout)
  }

  /** Every row id was handed out by its table's autoincrement counter. */
  ghost predicate IdsIssued(db: Db) {
    && (forall i :: i in db.inventory ==> i < db.nextItem)
    && (forall t :: t in db.tasks ==> t < db.nextTask)
    && (forall p :: p in db.payouts ==> p < db.nextPayout)
  }

  /** Foreign keys point at existing rows. */
  ghost predicate ForeignKeys(db: Db) {
    && (forall t :: t in db.tasks ==> db.tasks[t].item in db.inventory && db.tasks[t].user in db.users)
    && (forall p :: p in db.payouts ==> db.payouts[p].user in db.users)
  }

  /** The unique constraints: `Task.inventory_id` and `Inventory.gmail_username`. */
  ghost predicate Unique(db: Db) {
    && (forall t1, t2 :: t1 in db.tasks && t2 in db.tasks && t1 != t2 ==> db.tasks[t1].item != db.tasks[t2].item)
    && (forall i1, i2 :: i1 in db.inventory && i2 in db.inventory && i1 != i2 ==>
          db.inventory[i1].username != db.inventory[i2].username)
  }

  /** The balance ledger of one user: the spendable balance is never
      negative, lifetime earnings are exactly the rewards of the user's
      verified tasks, and earnings are split between the spendable balance
      and the payouts that were not rejected. */
  ghost predicate Balanced(db: Db, u: UserId)
    requires u in db.users
  {
    && db.users[u].pendingPayout >= 0
    && db.users[u].totalEarned == Credited(db, u)
    && db.users[u].pendingPayout + Reserved(db, u) == db.users[u].totalEarned
  }

  /** The table constraints, and every payout at least the minimum. */
  ghost predicate Integrity(db: Db) {
    && IdsIssued(db) && ForeignKeys(db) && Unique(db)
    && forall p :: p in db.payouts ==> db.payouts[p].amount >= MIN_PAYOUT
  }

  /** Every user is balanced. */
  ghost predicate Ledger(db: Db) {
    forall u :: u in db.users ==> Balanced(db, u)
  }

  ghost predicate Valid(db: Db) {
    Integrity(db) && Ledger(db)
  }

  /** `u` holds a task that is still PENDING or SUBMITTED. */
  predicate HasOpenTask(tasks: map<TaskId, Task>, u: UserId) {
    exists t :: t in tasks && tasks[t].user == u && IsOpen(tasks[t])
  }

  /** Some task row already references inventory item `i`. */
  predicate ItemLinked(tasks: map<TaskId, Task>, i: ItemId) {
    exists t :: t in tasks && tasks[t].item == i
  }

  /** Some inventory row already carries this gmail username. */
  predicate UsernameTaken(inventory: map<ItemId, Item>, username: string) {
    exists i :: i in inventory && inventory[i].username == username
  }

  /** At most one open task per worker (the rule `take_task` enforces). */
  ghost predicate OneOpenPerUser(tasks: map<TaskId, Task>) {
    forall t1, t2 :: t1 in tasks && t2 in tasks && t1 != t2 && IsOpen(tasks[t1]) && IsOpen(tasks[t2]) ==>
      tasks[t1].user != tasks[t2].user
  }

  /** Lifetime earnings never go down, and no user disappears. */
  ghost predicate EarningsKept(before: Db, after: Db) {
    forall u :: u in before.users ==> u in after.users && after.users[u].totalEarned >= before.users[u].totalEarned
  }

  /** A fresh database with the given accounts, all at zero balance, and
      empty inventory, task and payout tables is valid. */
  lemma EmptyTablesValid(users: map<UserId, User>)
    requires forall u :: u in users ==> users[u].totalEarned == 0 && users[u].pendingPayout == 0
    ensures Valid(Db(users, map[], map[], map[], 0, 0, 0))
  {
  }
}
