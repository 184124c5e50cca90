/**
 * The client's user-management screen: the search, role and status
 * filters over the fetched users, the two summary counts, and the choice
 * of endpoint when a user's status is toggled.
 */
module UsersView {
  import opened Wrappers
  import opened Models
  import opened Seqs
  import opened Text
  import UsersRouter

  /** The role as it appears in JSON and in the role filter's options. */
  function RoleName(r: UserRole): (name: string)
    ensures name == "manager" <==> r == Manager
    ensures name == "staff" <==> r == Staff
  {
    match r
    case Manager => "manager"
    case Staff => "staff"
  }

  /** The lowercased term occurs in the user's lowercased full name, username or email. */
  predicate SearchHit(term: string, user: User)
  {
    Contains(Lower(user.fullName), term) || Contains(Lower(user.username), term) || Contains(Lower(user.email), term)
  }

  predicate SearchOk(term: string, user: User)
  {
    term == "" || SearchHit(term, user)
  }

  /** Exact role match; a blank choice keeps everyone. */
  predicate RoleOk(roleFilter: string, user: User)
  {
    roleFilter == "" || RoleName(user.role) == roleFilter
  }

  /** "active" keeps active users, "inactive" the others, anything else everyone. */
  predicate StatusOk(statusFilter: string, user: User)
  {
    if statusFilter == "active" then user.isActive
    else if statusFilter == "inactive" then !user.isActive
    else true
  }

  predicate Selected(term: string, roleFilter: string, statusFilter: string, user: User)
  {
    SearchOk(term, user) && RoleOk(roleFilter, user) && StatusOk(statusFilter, user)
  }

  /** The users the filtered table lists, for the raw search text and the two selections. */
  function Filtered(data: seq<User>, search: string, roleFilter: string, statusFilter: string): (r: seq<User>)
    ensures forall i :: 0 <= i < |r| ==> r[i] in data && Selected(Lower(search), roleFilter, statusFilter, r[i])
    ensures forall i :: 0 <= i < |data| && Selected(Lower(search), roleFilter, statusFilter, data[i]) ==> data[i] in r
  {
    Filter(data, user => Selected(Lower(search), roleFilter, statusFilter, user))
  }

  /** The filtered list keeps the users in the order they were fetched. */
  lemma FilteredInOrder(data: seq<User>, search: string, roleFilter: string, statusFilter: string)
    ensures SubseqOf(Filtered(data, search, roleFilter, statusFilter), data)
  {
    FilterIsSubseq(data, user => Selected(Lower(search), roleFilter, statusFilter, user));
  }

  /** The "Active Users" card: the number of active users, which is what the "active" filter lists. */
  function ActiveCount(data: seq<User>): (n: nat)
    ensures n == |Filtered(data, "", "", "active")|
  {
    CountIsFilterLength(data, (u: User) => u.isActive);
    FilterExt(data, (u: User) => u.isActive, user => Selected(Lower(""), "", "active", user));
    Count(data, (u: User) => u.isActive)
  }

  /** The "Managers" card: the number of managers, which is what the "manager" role filter lists. */
  function ManagersCount(data: seq<User>): (n: nat)
    ensures n == |Filtered(data, "", "manager", "")|
  {
    CountIsFilterLength(data, (u: User) => u.role == Manager);
    FilterExt(data, (u: User) => u.role == Manager, user => Selected(Lower(""), "manager", "", user));
    Count(data, (u: User) => u.role == Manager)
  }

  /** The "active" and "inactive" filters split the list between them. */
  lemma ActiveAndInactivePartition(data: seq<User>)
    ensures ActiveCount(data) + |Filtered(data, "", "", "inactive")| == |data|
  {
    CountComplement(data, (u: User) => u.isActive, (u: User) => !u.isActive);
    CountIsFilterLength(data, (u: User) => !u.isActive);
    FilterExt(data, (u: User) => !u.isActive, user => Selected(Lower(""), "", "inactive", user));
  }

  /** The filter chain, one optional stage after another, as the screen applies it. */
  function Staged(data: seq<User>, term: string, roleFilter: string, statusFilter: string): seq<User>
  {
    var bySearch := if term != "" then Filter(data, (user: User) => SearchHit(term, user)) else data;
    var byRole := if roleFilter != "" then Filter(bySearch, (user: User) => RoleName(user.role) == roleFilter)
                  else bySearch;
    if statusFilter == "active" then Filter(byRole, (user: User) => user.isActive)
    else if statusFilter == "inactive" then Filter(byRole, (user: User) => !user.isActive)
    else byRole
  }

  /** Applying the stages one after another is filtering once by their conjunction. */
  lemma StagesSelect(data: seq<User>, search: string, roleFilter: string, statusFilter: string)
    ensures Staged(data, Lower(search), roleFilter, statusFilter) == Filtered(data, search, roleFilter, statusFilter)
  {
    var term := Lower(search);
    var all := (user: User) => true;
    var s1 := (user: User) => SearchOk(term, user);
    var s2 := (user: User) => SearchOk(term, user) && RoleOk(roleFilter, user);
    var s3 := (user: User) => Selected(term, roleFilter, statusFilter, user);
    FilterKeepsAll(data, all);
    FilterStage(data, all, term != "", (user: User) => SearchHit(term, user), s1);
    FilterStage(data, s1, roleFilter != "", (user: User) => RoleName(user.role) == roleFilter, s2);
    if statusFilter == "active" {
      FilterStage(data, s2, true, (user: User) => user.isActive, s3);
    } else if statusFilter == "inactive" {
      FilterStage(data, s2, true, (user: User) => !user.isActive, s3);
    } else {
      FilterStage(data, s2, false, all, s3);
    }
  }

  /** The user list as the screen holds it: the fetched users and the rows the table shows. */
  class UsersList {
    var data: seq<User>
    var shown: seq<User>

    constructor()
      ensures data == [] && shown == []
    {
      data := [];
      shown := [];
    }

    /** Fetching and rendering: the table lists every fetched user. */
    method Load(users: seq<User>)
      modifies this`data, this`shown
      ensures data == users && shown == users
    {
      data := users;
      shown := data;
    }

    /**
     * Narrows the list stage by stage, renders the result through `data`,
     * and puts the fetched list back.
     */
    method ApplyFilters(search: string, roleFilter: string, statusFilter: string)
      modifies this`data, this`shown
      ensures data == old(data)
      ensures shown == Filtered(data, search, roleFilter, statusFilter)
    {
      var term := Lower(search);
      var filtered := data;
      if term != "" {
        filtered := Filter(filtered, (user: User) => SearchHit(term, user));
      }
      if roleFilter != "" {
        filtered := Filter(filtered, (user: User) => RoleName(user.role) == roleFilter);
      }
      if statusFilter == "active" {
        filtered := Filter(filtered, (user: User) => user.isActive);
      } else if statusFilter == "inactive" {
        filtered := Filter(filtered, (user: User) => !user.isActive);
      }
      StagesSelect(data, search, roleFilter, statusFilter);
      var original := data;
      data := filtered;
      shown := data;
      data := original;
    }
  }

  /** The first listed user with the given id (`Array.prototype.find`). */
  function FindUser(data: seq<User>, userId: int): (r: Option<User>)
    ensures r.None? <==> forall i :: 0 <= i < |data| ==> data[i].id != userId
    ensures r.Some? ==> exists i :: 0 <= i < |data| && data[i] == r.value && r.value.id == userId
                                    && forall j :: 0 <= j < i ==> data[j].id != userId
  {
    if data == [] then None
    else if data[0].id == userId then Some(data[0])
    else
      var r := FindUser(data[1..], userId);
      assert r.Some? ==> exists i :: 0 <= i < |data[1..]| && data[1..][i] == r.value && r.value.id == userId
                                      && forall j :: 0 <= j < i ==> data[1..][j].id != userId;
      assert r.Some? ==> exists i :: 1 <= i < |data| && data[i] == r.value && r.value.id == userId
                                      && forall j :: 1 <= j < i ==> data[j].id != userId;
      r
  }

  /** The status request a toggle sends. */
  datatype StatusCall = Deactivate(userId: int) | Activate(userId: int)

  /**
   * The request a confirmed toggle sends: deactivate exactly when the
   * listed user is active; nothing when the id is not listed.
   */
  function ToggleCall(data: seq<User>, userId: int): (r: Option<StatusCall>)
    ensures r.None? <==> FindUser(data, userId).None?
    ensures r.Some? ==> r.value.userId == userId
    ensures r.Some? ==> (r.value.Deactivate? <==> FindUser(data, userId).value.isActive)
  {
    match FindUser(data, userId)
    case None => None
    case Some(u) => if u.isActive then Some(Deactivate(u.id)) else Some(Activate(u.id))
  }

  /**
   * Toggling a user, applying the flag change (what `DeactivateUser` and
   * `ActivateUser` do for a manager acting on another account), reloading,
   * and toggling again gives back the stored users the client started from.
   */
  lemma ToggleTwiceRestores(users: map<int, User>, userId: int)
    requires userId in users && users[userId].id == userId
    ensures var first := ToggleCall([users[userId]], userId);
            first.Some? &&
            var after := UsersRouter.WithActive(users, userId, first.value.Activate?);
            var second := ToggleCall([after[userId]], userId);
            second.Some? && second.value.Activate? == !first.value.Activate?
            && UsersRouter.WithActive(after, userId, second.value.Activate?) == users
  {
    var first := ToggleCall([users[userId]], userId);
    var after := UsersRouter.WithActive(users, userId, first.value.Activate?);
    assert after[userId].isActive == !users[userId].isActive;
    var second := ToggleCall([after[userId]], userId);
    assert UsersRouter.WithActive(after, userId, second.value.Activate?)[userId] == users[userId];
  }
}
