/**
 * The in-memory database: five id-keyed tables, five independent id
 * counters, the password store, and the user lookup functions.
 */
module Database {
  import opened Wrappers
  import opened Models
  import opened Seqs

  /**
   * The values of `m` stored under ids 1 .. n-1, in ascending id order.
   * Every table is keyed by counter-issued ids that are inserted in
   * increasing order and never re-inserted after deletion, so this is the
   * iteration order of the table's `values()`.
   */
  function InIdOrder<T>(m: map<int, T>, n: int): (r: seq<T>)
    ensures |r| <= if n <= 1 then 0 else n - 1
    decreases n
  {
    if n <= 1 then []
    else InIdOrder(m, n - 1) + (if n - 1 in m then [m[n - 1]] else [])
  }

  /** Every value listed by `InIdOrder` is stored under some id below `n`, and every such id is listed. */
  lemma {:induction false} InIdOrderMembers<T>(m: map<int, T>, n: int)
    ensures forall v :: v in InIdOrder(m, n) ==> exists id :: 1 <= id < n && id in m && m[id] == v
    ensures forall id :: 1 <= id < n && id in m ==> m[id] in InIdOrder(m, n)
    decreases n
  {
    if n > 1 {
      InIdOrderMembers(m, n - 1);
    }
  }

  /** Ids at or above `n` are not listed. */
  lemma {:induction false} InIdOrderIgnoresAbove<T>(m: map<int, T>, n: int, id: int, v: T)
    requires id >= n
    ensures InIdOrder(m[id := v], n) == InIdOrder(m, n)
    decreases n
  {
    if n > 1 {
      InIdOrderIgnoresAbove(m, n - 1, id, v);
    }
  }

  /** Filtering the listing up to `n + 1` extends the filtered listing up to `n` by the value under `n`, if kept. */
  lemma FilterInIdOrderNext<T>(m: map<int, T>, n: int, p: T -> bool)
    requires n >= 1
    ensures Filter(InIdOrder(m, n + 1), p)
            == Filter(InIdOrder(m, n), p) + (if n in m && p(m[n]) then [m[n]] else [])
  {
    var tail := if n in m then [m[n]] else [];
    assert InIdOrder(m, n + 1) == InIdOrder(m, n) + tail;
    FilterAppend(InIdOrder(m, n), tail, p);
  }

  /** Storing a value under the next id appends it at the end. */
  lemma InIdOrderInsertNext<T>(m: map<int, T>, n: int, v: T)
    requires n >= 1
    ensures InIdOrder(m[n := v], n + 1) == InIdOrder(m, n) + [v]
  {
    InIdOrderIgnoresAbove(m, n, n, v);
  }

  /** No two inventory items share a SKU. */
  ghost predicate SkusDistinct(inventory: map<int, InventoryItem>)
  {
    forall i, j :: i in inventory && j in inventory && i != j ==> inventory[i].sku != inventory[j].sku
  }

  /** Every stored unit price passed the model validator. */
  ghost predicate PricesPositive(inventory: map<int, InventoryItem>)
  {
    forall i :: i in inventory ==> inventory[i].unitPrice > 0.0
  }

  /** No two users share a username. */
  ghost predicate UsernamesDistinct(users: map<int, User>)
  {
    forall i, j :: i in users && j in users && i != j ==> users[i].username != users[j].username
  }

  /** Each table's keys lie in [1, counter), and each record is stored under its own id. */
  ghost predicate UsersValid(users: map<int, User>, counter: int)
  {
    counter >= 1 && forall id :: id in users ==> 1 <= id < counter && users[id].id == id
  }

  /** The inventory is keyed by id, its SKUs are distinct and its prices positive. */
  ghost predicate InventoryValid(inventory: map<int, InventoryItem>, counter: int)
  {
    && counter >= 1
    && (forall id :: id in inventory ==> 1 <= id < counter && inventory[id].id == id)
    && SkusDistinct(inventory)
    && PricesPositive(inventory)
  }

  ghost predicate TransactionsValid(table: map<int, Transaction>, counter: int)
  {
    counter >= 1 && forall id :: id in table ==> 1 <= id < counter && table[id].id == id
  }

  /** Storing a transaction under the id just issued keeps the table valid. */
  lemma StoreTransaction(table: map<int, Transaction>, id: int, t: Transaction)
    requires 1 <= id && TransactionsValid(table, id + 1) && id !in table && t.id == id
    ensures TransactionsValid(table[id := t], id + 1)
  {
  }

  /** An entry's stored pay balances: net pay plus deductions is gross pay. */
  predicate PayBalances(e: PayrollEntry)
  {
    e.netPay + e.data.deductions == e.grossPay
  }

  /** Stored payroll entries sit under their own ids below the counter, and their pay balances. */
  ghost predicate PayrollValid(payroll: map<int, PayrollEntry>, counter: int)
  {
    counter >= 1 && forall id :: id in payroll ==> 1 <= id < counter && payroll[id].id == id && PayBalances(payroll[id])
  }

  class DB {
    var users: map<int, User>
    var inventory: map<int, InventoryItem>
    var sales: map<int, Transaction>
    var purchases: map<int, Transaction>
    var payroll: map<int, PayrollEntry>

    var userCounter: int
    var inventoryCounter: int
    var saleCounter: int
    var purchaseCounter: int
    var payrollCounter: int

    /** Absent until the first password is stored (the store is created on demand). */
    var userPasswords: Option<map<string, string>>

    ghost predicate Valid()
      reads this
    {
      && UsersValid(users, userCounter)
      && InventoryValid(inventory, inventoryCounter)
      && TransactionsValid(sales, saleCounter)
      && TransactionsValid(purchases, purchaseCounter)
      && PayrollValid(payroll, payrollCounter)
    }

    constructor()
      ensures Valid()
      ensures users == map[] && inventory == map[] && sales == map[] && purchases == map[] && payroll == map[]
      ensures userCounter == 1 && inventoryCounter == 1 && saleCounter == 1
      ensures purchaseCounter == 1 && payrollCounter == 1
      ensures userPasswords == None
    {
      users := map[];
      inventory := map[];
      sales := map[];
      purchases := map[];
      payroll := map[];
      userCounter := 1;
      inventoryCounter := 1;
      saleCounter := 1;
      purchaseCounter := 1;
      payrollCounter := 1;
      userPasswords := None;
    }

    /** Draws the next user id; no other field changes. */
    method NextUserId() returns (id: int)
      requires Valid()
      modifies this`userCounter
      ensures Valid()
      ensures id == old(userCounter) && userCounter == id + 1
      ensures id !in users
    {
      userCounter := userCounter + 1;
      id := userCounter - 1;
    }

    /** Draws the next inventory id; no other field changes. */
    method NextInventoryId() returns (id: int)
      requires Valid()
      modifies this`inventoryCounter
      ensures Valid()
      ensures id == old(inventoryCounter) && inventoryCounter == id + 1
      ensures id !in inventory
    {
      inventoryCounter := inventoryCounter + 1;
      id := inventoryCounter - 1;
    }

    /** Draws the next sale id; no other field changes. */
    method NextSaleId() returns (id: int)
      requires Valid()
      modifies this`saleCounter
      ensures Valid()
      ensures id == old(saleCounter) && saleCounter == id + 1
      ensures id !in sales
    {
      saleCounter := saleCounter + 1;
      id := saleCounter - 1;
    }

    /** Draws the next purchase id; no other field changes. */
    method NextPurchaseId() returns (id: int)
      requires Valid()
      modifies this`purchaseCounter
      ensures Valid()
      ensures id == old(purchaseCounter) && purchaseCounter == id + 1
      ensures id !in purchases
    {
      purchaseCounter := purchaseCounter + 1;
      id := purchaseCounter - 1;
    }

    /** Draws the next payroll id; no other field changes. */
    method NextPayrollId() returns (id: int)
      requires Valid()
      modifies this`payrollCounter
      ensures Valid()
      ensures id == old(payrollCounter) && payrollCounter == id + 1
      ensures id !in payroll
    {
      payrollCounter := payrollCounter + 1;
      id := payrollCounter - 1;
    }
  }

  /**
   * Seeds the default administrator under the next user id and stores the
   * hash of its default password, creating the password store if absent.
   */
  method InitializeDatabase(db: DB, now: int, hash: string -> string) returns (admin: User)
    requires db.Valid()
    modifies db`users, db`userCounter, db`userPasswords
    ensures db.Valid()
    ensures admin == User(old(db.userCounter), "admin", "admin@company.com", "System Administrator", Manager, true, now)
    ensures db.users == old(db.users)[admin.id := admin]
    ensures db.userCounter == old(db.userCounter) + 1
    ensures db.userPasswords == Some(old(db.userPasswords).GetOr(map[])["admin" := hash("admin123")])
  {
    var id := db.NextUserId();
    admin := User(id, "admin", "admin@company.com", "System Administrator", Manager, true, now);
    db.users := db.users[admin.id := admin];
    var store := db.userPasswords.GetOr(map[]);
    db.userPasswords := Some(store[admin.username := hash("admin123")]);
  }

  /** On a fresh database the administrator is user 1, an active manager, and the only user. */
  method FreshDatabase(now: int, hash: string -> string) returns (db: DB, admin: User)
    ensures db.Valid()
    ensures admin.id == 1 && admin.username == "admin" && admin.role == Manager && admin.isActive
    ensures db.users == map[1 := admin] && db.userCounter == 2
    ensures db.userPasswords == Some(map["admin" := hash("admin123")])
  {
    db := new DB();
    admin := InitializeDatabase(db, now, hash);
  }

  /** The first user, in the order given, whose username is `username`. */
  function FirstWithUsername(us: seq<User>, username: string): (r: Option<User>)
    ensures r.Some? ==> r.value in us && r.value.username == username
    ensures r.None? <==> forall i :: 0 <= i < |us| ==> us[i].username != username
  {
    if us == [] then None
    else if us[0].username == username then Some(us[0])
    else FirstWithUsername(us[1..], username)
  }

  /** A matching user that follows a non-matching prefix is the one found. */
  lemma {:induction false} FirstWithUsernameIsFirst(us: seq<User>, username: string, k: nat)
    requires k < |us| && us[k].username == username
    requires forall i :: 0 <= i < k ==> us[i].username != username
    ensures FirstWithUsername(us, username) == Some(us[k])
    decreases k
  {
    if k > 0 {
      FirstWithUsernameIsFirst(us[1..], username, k - 1);
    }
  }

  /** Scans the users in id order and returns the first whose username matches. */
  method GetUserByUsername(db: DB, username: string) returns (r: Option<User>)
    ensures r == FirstWithUsername(InIdOrder(db.users, db.userCounter), username)
  {
    var id := 1;
    while id < db.userCounter
      invariant 1 <= id <= if db.userCounter < 1 then 1 else db.userCounter
      invariant FirstWithUsername(InIdOrder(db.users, id), username).None?
      decreases db.userCounter - id
    {
      if id in db.users && db.users[id].username == username {
        FirstNotInPrefix(db.users, id, username);
        InIdOrderPrefix(db.users, id + 1, db.userCounter);
        FirstWithUsernameKeepsPrefix(InIdOrder(db.users, id + 1),
          InIdOrder(db.users, db.userCounter)[|InIdOrder(db.users, id + 1)|..], username);
        return Some(db.users[id]);
      }
      NoneExtends(db.users, id, username);
      id := id + 1;
    }
    assert db.userCounter <= 1 || id == db.userCounter;
    if db.userCounter <= 1 {
      assert InIdOrder(db.users, db.userCounter) == [];
    }
    return None;
  }

  /** A match found in a prefix is the match of the whole sequence. */
  lemma {:induction false} FirstWithUsernameKeepsPrefix(a: seq<User>, b: seq<User>, username: string)
    requires FirstWithUsername(a, username).Some?
    ensures FirstWithUsername(a + b, username) == FirstWithUsername(a, username)
  {
    if a[0].username != username {
      assert (a + b)[1..] == a[1..] + b;
      FirstWithUsernameKeepsPrefix(a[1..], b, username);
    }
  }

  /** The listing up to `k` is a prefix of the listing up to `n`. */
  lemma {:induction false} InIdOrderPrefix<T>(m: map<int, T>, k: int, n: int)
    requires k <= n
    ensures |InIdOrder(m, k)| <= |InIdOrder(m, n)|
    ensures InIdOrder(m, n) == InIdOrder(m, k) + InIdOrder(m, n)[|InIdOrder(m, k)|..]
    decreases n - k
  {
    if k < n {
      InIdOrderPrefix(m, k, n - 1);
      if n - 1 <= 1 {
        assert InIdOrder(m, k) == [];
      }
    }
  }

  lemma FirstNotInPrefix(m: map<int, User>, id: int, username: string)
    requires id >= 1 && id in m && m[id].username == username
    requires FirstWithUsername(InIdOrder(m, id), username).None?
    ensures FirstWithUsername(InIdOrder(m, id + 1), username) == Some(m[id])
  {
    var pre := InIdOrder(m, id);
    assert InIdOrder(m, id + 1) == pre + [m[id]];
    FirstWithUsernameIsFirst(pre + [m[id]], username, |pre|);
  }

  lemma NoneExtends(m: map<int, User>, id: int, username: string)
    requires id >= 1 && !(id in m && m[id].username == username)
    requires FirstWithUsername(InIdOrder(m, id), username).None?
    ensures FirstWithUsername(InIdOrder(m, id + 1), username).None?
  {
    var s := InIdOrder(m, id + 1);
    assert forall i :: 0 <= i < |s| ==> s[i].username != username by {
      forall i | 0 <= i < |s| ensures s[i].username != username {
        if i < |InIdOrder(m, id)| {
          assert s[i] == InIdOrder(m, id)[i];
        }
      }
    }
  }

  /** The user stored under `userId`, if any. */
  function GetUserById(db: DB, userId: int): (r: Option<User>)
    reads db
    ensures r.Some? <==> userId in db.users
    ensures r.Some? ==> r.value == db.users[userId]
  {
    if userId in db.users then Some(db.users[userId]) else None
  }

  /**
   * Stores a new active user under the next user id and the hash of its
   * password under its username.
   */
  method CreateUser(db: DB, data: UserCreate, now: int, hash: string -> string) returns (user: User)
    requires db.Valid()
    modifies db`users, db`userCounter, db`userPasswords
    ensures db.Valid()
    ensures user == User(old(db.userCounter), data.username, data.email, data.fullName, data.role, true, now)
    ensures old(db.userCounter) !in old(db.users)
    ensures db.users == old(db.users)[user.id := user]
    ensures db.userCounter == old(db.userCounter) + 1
    ensures db.userPasswords == Some(old(db.userPasswords).GetOr(map[])[data.username := hash(data.password)])
  {
    var userId := db.NextUserId();
    user := User(userId, data.username, data.email, data.fullName, data.role, true, now);
    db.users := db.users[userId := user];
    var store := db.userPasswords.GetOr(map[]);
    db.userPasswords := Some(store[user.username := hash(data.password)]);
  }

  /**
   * Checks a password against the stored hash; `verify` is the password
   * hashing library's check.  An absent store, an absent entry and an
   * empty stored hash all fail without consulting `verify`.
   */
  function VerifyUserPassword(db: DB, username: string, password: string,
                              verify: (string, string) -> bool): (ok: bool)
    reads db
    ensures db.userPasswords.None? ==> !ok
    ensures db.userPasswords.Some? && username !in db.userPasswords.value ==> !ok
    ensures ok <==> (db.userPasswords.Some? && username in db.userPasswords.value
                     && db.userPasswords.value[username] != ""
                     && verify(password, db.userPasswords.value[username]))
  {
    match db.userPasswords
    case None => false
    case Some(store) =>
      if username !in store || store[username] == "" then false
      else verify(password, store[username])
  }
}
