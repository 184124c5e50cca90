/** The user-management endpoints. */
module UsersRouter {
  import opened Wrappers
  import opened Http
  import opened Models
  import opened Database

  /** All users in id order, for managers only. */
  function GetUsers(db: DB, currentUser: User): (r: Result<seq<User>, ApiError>)
    reads db
    ensures r.Failure? <==> currentUser.role != Manager
    ensures r.Failure? ==> r.error == Forbidden
    ensures r.Success? ==> r.value == InIdOrder(db.users, db.userCounter)
  {
    if currentUser.role != Manager then Failure(Forbidden)
    else Success(InIdOrder(db.users, db.userCounter))
  }

  /** A username that the id-order scan does not find belongs to no stored user. */
  lemma UnfoundUsernameIsFree(users: map<int, User>, counter: int, username: string)
    requires UsersValid(users, counter)
    requires FirstWithUsername(InIdOrder(users, counter), username).None?
    ensures forall id :: id in users ==> users[id].username != username
  {
    InIdOrderMembers(users, counter);
    var listed := InIdOrder(users, counter);
    forall id | id in users ensures users[id].username != username {
      assert users[id] in listed;
      var i :| 0 <= i < |listed| && listed[i] == users[id];
    }
  }

  /**
   * Creates a user: managers only (403), then 400 for a username already
   * registered; otherwise the user is stored active under the next user id.
   * Usernames stay distinct.
   */
  method CreateNewUser(db: DB, data: UserCreate, currentUser: User, now: int, hash: string -> string)
    returns (r: Result<User, ApiError>)
    requires db.Valid()
    modifies db`users, db`userCounter, db`userPasswords
    ensures db.Valid()
    ensures UsernamesDistinct(old(db.users)) ==> UsernamesDistinct(db.users)
    ensures r.Failure? ==>
              db.users == old(db.users) && db.userCounter == old(db.userCounter)
              && db.userPasswords == old(db.userPasswords)
    ensures currentUser.role != Manager ==> r == Failure(Forbidden)
    ensures currentUser.role == Manager ==>
              (r == Failure(UsernameExists) <==> exists id :: id in old(db.users) && old(db.users)[id].username == data.username)
    ensures r.Success? ==>
              && r.value == User(old(db.userCounter), data.username, data.email, data.fullName, data.role, true, now)
              && db.users == old(db.users)[r.value.id := r.value]
              && db.userCounter == old(db.userCounter) + 1
              && db.userPasswords == Some(old(db.userPasswords).GetOr(map[])[data.username := hash(data.password)])
  {
    if currentUser.role != Manager {
      return Failure(Forbidden);
    }
    var existing := GetUserByUsername(db, data.username);
    if existing.Some? {
      InIdOrderMembers(db.users, db.userCounter);
      return Failure(UsernameExists);
    }
    UnfoundUsernameIsFree(db.users, db.userCounter, data.username);
    var user := CreateUser(db, data, now, hash);
    return Success(user);
  }

  /** A user's own record, or any record for a manager (403 otherwise), or 404. */
  function GetUser(db: DB, userId: int, currentUser: User): (r: Result<User, ApiError>)
    reads db
    ensures currentUser.role != Manager && currentUser.id != userId ==> r == Failure(Forbidden)
    ensures (currentUser.role == Manager || currentUser.id == userId) ==>
              (r.Success? <==> userId in db.users) && (r.Success? ==> r.value == db.users[userId])
              && (r.Failure? ==> r.error == NotFound)
  {
    if currentUser.role != Manager && currentUser.id != userId then Failure(Forbidden)
    else if userId in db.users then Success(db.users[userId])
    else Failure(NotFound)
  }

  /** The table with one user's active flag set to `active`. */
  function WithActive(users: map<int, User>, userId: int, active: bool): (r: map<int, User>)
    requires userId in users
    ensures r.Keys == users.Keys
    ensures r[userId].isActive == active
    ensures r[userId].(isActive := users[userId].isActive) == users[userId]
    ensures forall id :: id in users && id != userId ==> r[id] == users[id]
  {
    users[userId := users[userId].(isActive := active)]
  }

  /** Setting the flag twice is setting it once. */
  lemma WithActiveIdempotent(users: map<int, User>, userId: int, active: bool)
    requires userId in users
    ensures WithActive(WithActive(users, userId, active), userId, active) == WithActive(users, userId, active)
  {
  }

  /** Deactivating and then re-activating an active user gives back the table it started from. */
  lemma DeactivateThenActivate(users: map<int, User>, userId: int)
    requires userId in users && users[userId].isActive
    ensures WithActive(WithActive(users, userId, false), userId, true) == users
  {
    assert users[userId].(isActive := true) == users[userId];
  }

  /** Flipping an active flag changes no username. */
  lemma WithActiveKeepsUsernames(users: map<int, User>, userId: int, active: bool)
    requires userId in users && UsernamesDistinct(users)
    ensures UsernamesDistinct(WithActive(users, userId, active))
  {
  }

  /**
   * Deactivates a user: managers only (403), not oneself (400), then 404;
   * otherwise only that user's active flag changes, to false.
   */
  method DeactivateUser(db: DB, userId: int, currentUser: User) returns (r: Result<string, ApiError>)
    requires db.Valid()
    modifies db`users
    ensures db.Valid()
    ensures r.Failure? ==> db.users == old(db.users)
    ensures currentUser.role != Manager ==> r == Failure(Forbidden)
    ensures currentUser.role == Manager && currentUser.id == userId ==> r == Failure(CannotDeactivateSelf)
    ensures currentUser.role == Manager && currentUser.id != userId && userId !in old(db.users) ==>
              r == Failure(NotFound)
    ensures currentUser.role == Manager && currentUser.id != userId && userId in old(db.users) ==>
              r == Success("User deactivated successfully") && db.users == WithActive(old(db.users), userId, false)
  {
    if currentUser.role != Manager {
      return Failure(Forbidden);
    }
    if currentUser.id == userId {
      return Failure(CannotDeactivateSelf);
    }
    if userId !in db.users {
      return Failure(NotFound);
    }
    var user := db.users[userId];
    db.users := db.users[userId := user.(isActive := false)];
    return Success("User deactivated successfully");
  }

  /**
   * Activates a user: managers only (403), then 404; otherwise only that
   * user's active flag changes, to true.
   */
  method ActivateUser(db: DB, userId: int, currentUser: User) returns (r: Result<string, ApiError>)
    requires db.Valid()
    modifies db`users
    ensures db.Valid()
    ensures r.Failure? ==> db.users == old(db.users)
    ensures currentUser.role != Manager ==> r == Failure(Forbidden)
    ensures currentUser.role == Manager && userId !in old(db.users) ==> r == Failure(NotFound)
    ensures currentUser.role == Manager && userId in old(db.users) ==>
              r == Success("User activated successfully") && db.users == WithActive(old(db.users), userId, true)
  {
    if currentUser.role != Manager {
      return Failure(Forbidden);
    }
    if userId !in db.users {
      return Failure(NotFound);
    }
    var user := db.users[userId];
    db.users := db.users[userId := user.(isActive := true)];
    return Success("User activated successfully");
  }
}
