/** The administrators' user list (src/UserManagement.jsx): selection of
    users, the guards in front of every approve, unapprove, remove and
    role-change request, the two-step promotion to admin, and the status
    and search filters. A request that passes its guards becomes the
    update it would send to the backend. */
module UserManagement {
  import opened Wrappers
  import opened Text
  import opened Roles

  /** A row of `get_all_users_with_emails`. */
  datatype User = User(id: string, firstName: string, lastName: string, email: string, approved: bool, role: Role)

  /** The status tabs: all, pending only, approved only. */
  datatype StatusFilter = AllUsers | PendingUsers | ApprovedUsers

  /** A write the page would send. */
  datatype Update =
    | SetApproved(ids: set<string>, approved: bool)
    | SetRole(id: string, role: Role)
    | DeleteUsers(ids: set<string>)

  /** The result of a handler: refused with a message, abandoned without one
      (a declined confirmation, or a promotion waiting for its
      confirmation), or the update sent. */
  datatype Outcome = Refused(message: string) | NoRequest | Send(update: Update)

  // =====================================================================
  // Filters
  // =====================================================================

  /** `first last email`, lower-cased. */
  function SearchText(u: User): (r: string)
    ensures r == ToLower(u.firstName) + " " + ToLower(u.lastName) + " " + ToLower(u.email)
    ensures |r| == |u.firstName| + |u.lastName| + |u.email| + 2
    ensures forall i :: 0 <= i < |r| ==> !('A' <= r[i] <= 'Z')
  {
    var first, last := u.firstName + " ", u.lastName + " ";
    assert ToLower(first + last + u.email) == ToLower(u.firstName) + " " + ToLower(u.lastName) + " " + ToLower(u.email) by {
      ToLowerConcat(first + last, u.email);
      ToLowerConcat(first, last);
      ToLowerConcat(u.firstName, " ");
      ToLowerConcat(u.lastName, " ");
      assert ToLower(" ") == " ";
    }
    assert u.firstName + " " + u.lastName + " " + u.email == first + last + u.email;
    ToLower(u.firstName + " " + u.lastName + " " + u.email)
  }

  /** The status tabs: every user is in exactly one of "pending" and
      "approved", and in "all". */
  predicate StatusMatches(u: User, filter: StatusFilter)
    ensures filter == PendingUsers ==> (StatusMatches(u, filter) <==> !u.approved)
    ensures filter == ApprovedUsers ==> (StatusMatches(u, filter) <==> u.approved)
    ensures filter == AllUsers ==> StatusMatches(u, filter)
  {
    match filter
    case PendingUsers => !u.approved
    case ApprovedUsers => u.approved
    case AllUsers => true
  }

  /** `getFilteredUsers()`, in list order. */
  function FilteredUsers(users: seq<User>, searchTerm: string, filter: StatusFilter): (r: seq<User>)
    ensures |r| <= |users|
    ensures forall u :: u in r <==>
              u in users && Contains(SearchText(u), ToLower(searchTerm)) && StatusMatches(u, filter)
    decreases |users|
  {
    if users == [] then []
    else
      var u := users[|users| - 1];
      FilteredUsers(users[..|users| - 1], searchTerm, filter)
        + (if Contains(SearchText(u), ToLower(searchTerm)) && StatusMatches(u, filter) then [u] else [])
  }

  /** `users.filter(u => !u.approved).length` */
  function PendingCount(users: seq<User>): (r: nat)
    ensures r <= |users|
    ensures r == 0 <==> forall i :: 0 <= i < |users| ==> users[i].approved
    decreases |users|
  {
    if users == [] then 0
    else
      var init := users[..|users| - 1];
      assert forall i :: 0 <= i < |init| ==> init[i] == users[i];
      PendingCount(init) + (if users[|users| - 1].approved then 0 else 1)
  }

  /** The pending badge counts what the pending tab lists with an empty
      search box. */
  lemma {:induction false} PendingCountIsPendingTab(users: seq<User>)
    ensures PendingCount(users) == |FilteredUsers(users, "", PendingUsers)|
    decreases |users|
  {
    if users != [] {
      var u := users[|users| - 1];
      PendingCountIsPendingTab(users[..|users| - 1]);
      assert ToLower("") == "";
      ContainsEmpty(SearchText(u));
    }
  }

  /** For any search, the pending and approved tabs split the all tab. */
  lemma {:induction false} TabsPartition(users: seq<User>, searchTerm: string)
    ensures |FilteredUsers(users, searchTerm, PendingUsers)| + |FilteredUsers(users, searchTerm, ApprovedUsers)|
         == |FilteredUsers(users, searchTerm, AllUsers)|
    decreases |users|
  {
    if users != [] {
      TabsPartition(users[..|users| - 1], searchTerm);
    }
  }

  // =====================================================================
  // Guards
  // =====================================================================

  /** `handleApproveSelected` */
  function ApproveSelected(selected: set<string>): (r: Outcome)
    ensures r.Send? <==> selected != {}
    ensures r.Send? ==> r.update == SetApproved(selected, true)
  {
    if |selected| == 0 then Refused("No users selected")
    else Send(SetApproved(selected, true))
  }

  /** Some listed user with an id in `ids` is an admin. */
  predicate HasAdmin(users: seq<User>, ids: set<string>) {
    exists i :: 0 <= i < |users| && users[i].id in ids && users[i].role == Admin
  }

  /** `handleUnapproveSelected`, for the signed-in user `me`. */
  function UnapproveSelected(selected: set<string>, me: string, users: seq<User>): (r: Outcome)
    ensures r.Send? <==> selected != {} && me !in selected && !HasAdmin(users, selected)
    ensures r.Send? ==> r.update == SetApproved(selected, false)
  {
    if |selected| == 0 then Refused("No users selected")
    else if me in selected then Refused("You cannot unapprove yourself")
    else if HasAdmin(users, selected) then Refused("You cannot unapprove admins. Admins must be removed instead.")
    else Send(SetApproved(selected, false))
  }

  /** `handleRemoveSelected`; `confirmed` is the answer to the confirmation
      dialog. */
  function RemoveSelected(selected: set<string>, me: string, confirmed: bool): (r: Outcome)
    ensures r.Send? <==> selected != {} && me !in selected && confirmed
    ensures r.Send? ==> r.update == DeleteUsers(selected)
    ensures r == NoRequest <==> selected != {} && me !in selected && !confirmed
  {
    if |selected| == 0 then Refused("No users selected")
    else if me in selected then Refused("You cannot remove yourself")
    else if !confirmed then NoRequest
    else Send(DeleteUsers(selected))
  }

  /** `users.find(u => u.id === id)` */
  function Find(users: seq<User>, id: string): (r: Option<User>)
    ensures r.Some? ==> r.value in users && r.value.id == id
    ensures r.None? ==> forall i :: 0 <= i < |users| ==> users[i].id != id
    decreases |users|
  {
    if users == [] then None
    else if users[0].id == id then Some(users[0])
    else Find(users[1..], id)
  }

  /** `handleUnapproveUser(userId)` */
  function UnapproveUser(userId: string, me: string, users: seq<User>): (r: Outcome)
    ensures r.Send? <==> userId != me && !(Find(users, userId).Some? && Find(users, userId).value.role == Admin)
    ensures r.Send? ==> r.update == SetApproved({userId}, false)
  {
    if userId == me then Refused("You cannot unapprove yourself")
    else
      var user := Find(users, userId);
      if user.Some? && user.value.role == Admin then
        Refused("You cannot unapprove admins. Admins must be removed instead.")
      else Send(SetApproved({userId}, false))
  }

  /** `handleRemoveUser(userId)` */
  function RemoveUser(userId: string, me: string, confirmed: bool): (r: Outcome)
    ensures r.Send? <==> userId != me && confirmed
    ensures r.Send? ==> r.update == DeleteUsers({userId})
  {
    if userId == me then Refused("You cannot remove yourself")
    else if !confirmed then NoRequest
    else Send(DeleteUsers({userId}))
  }

  /** The direct part of `handleChangeRole(userId, newRole)`: a request for
      admin sends nothing (the confirmation opens instead). */
  function ChangeRole(userId: string, newRole: Role, me: string): (r: Outcome)
    ensures r.Send? <==> !(userId == me && newRole != Admin) && newRole != Admin
    ensures r.Send? ==> r.update == SetRole(userId, newRole)
    ensures userId == me && newRole != Admin ==> r == Refused("You cannot change your own admin role")
  {
    if userId == me && newRole != Admin then Refused("You cannot change your own admin role")
    else if newRole == Admin then NoRequest
    else Send(SetRole(userId, newRole))
  }

  /** Whatever the selection and the answer to the dialog, no unapprove ever
      targets the signed-in user or a listed admin, and no removal targets
      the signed-in user. */
  lemma NoSelfHarm(selected: set<string>, userId: string, me: string, users: seq<User>, confirmed: bool)
    ensures UnapproveSelected(selected, me, users).Send? ==>
              var ids := UnapproveSelected(selected, me, users).update.ids;
              me !in ids && forall i :: 0 <= i < |users| && users[i].id in ids ==> users[i].role != Admin
    ensures RemoveSelected(selected, me, confirmed).Send? ==> me !in RemoveSelected(selected, me, confirmed).update.ids
    ensures UnapproveUser(userId, me, users).Send? ==> me !in UnapproveUser(userId, me, users).update.ids
    ensures RemoveUser(userId, me, confirmed).Send? ==> me !in RemoveUser(userId, me, confirmed).update.ids
  {
  }

  /** Profile ids are the table's primary key. */
  predicate UniqueIds(users: seq<User>) {
    forall j, k :: 0 <= j < k < |users| ==> users[j].id != users[k].id
  }

  /** A single unapprove never targets a listed admin. */
  lemma UnapproveUserSparesAdmins(userId: string, me: string, users: seq<User>)
    requires UniqueIds(users)
    ensures UnapproveUser(userId, me, users).Send? ==>
              forall i :: 0 <= i < |users| && users[i].id == userId ==> users[i].role != Admin
  {
    if UnapproveUser(userId, me, users).Send? {
      forall i | 0 <= i < |users| && users[i].id == userId ensures users[i].role != Admin {
        FindFirst(users, userId, i);
      }
    }
  }

  /** `Find` returns the first row carrying the id. */
  lemma {:induction false} FindFirst(users: seq<User>, id: string, i: int)
    requires 0 <= i < |users| && users[i].id == id
    requires forall j :: 0 <= j < i ==> users[j].id != id
    ensures Find(users, id) == Some(users[i])
    decreases |users|
  {
    if users[0].id != id {
      FindFirst(users[1..], id, i - 1);
    }
  }

  // =====================================================================
  // Promotion to admin
  // =====================================================================

  /** `confirmAdminPromotion` for the user waiting for it: only the exact
      text "admin" sends the promotion. */
  function PromotionRequest(adminConfirmText: string, pendingUser: string): (r: Outcome)
    ensures r.Send? <==> adminConfirmText == "admin"
    ensures r.Send? ==> r.update == SetRole(pendingUser, Admin)
    ensures !r.Send? ==> r.Refused?
  {
    if adminConfirmText != "admin" then Refused("You must type \"admin\" to confirm")
    else Send(SetRole(pendingUser, Admin))
  }

  /** The only request that makes anyone an admin is a typed confirmation:
      a role change never sends the admin role directly. */
  lemma AdminOnlyThroughConfirmation(userId: string, newRole: Role, me: string)
    ensures ChangeRole(userId, newRole, me).Send? ==> ChangeRole(userId, newRole, me).update.role != Admin
    ensures newRole == Admin ==> ChangeRole(userId, newRole, me) == NoRequest
  {
  }

  // =====================================================================
  // Select all
  // =====================================================================

  function Elements(s: seq<string>): set<string> {
    set x | x in s
  }

  predicate DistinctIds(s: seq<string>) {
    forall i, j :: 0 <= i < j < |s| ==> s[i] != s[j]
  }

  /** `handleSelectAll` as written: the selection is cleared when its size
      equals the number of filtered users, whoever is selected. */
  function SelectAllAsWritten(selected: set<string>, filteredIds: seq<string>): (r: set<string>)
    ensures r == {} || forall x :: x in r <==> x in filteredIds
    ensures |selected| == |filteredIds| ==> r == {}
    ensures |selected| != |filteredIds| ==> forall x :: x in r <==> x in filteredIds
  {
    if |selected| == |filteredIds| then {} else Elements(filteredIds)
  }

  /** Select-all as the header checkbox means it: clear the selection when it
      is exactly the filtered users, otherwise select exactly them. */
  function SelectAll(selected: set<string>, filteredIds: seq<string>): (r: set<string>)
    ensures r == {} || r == Elements(filteredIds)
    ensures selected != Elements(filteredIds) ==> r == Elements(filteredIds)
    ensures selected == Elements(filteredIds) ==> r == {}
    ensures r != {} ==> forall x :: x in r <==> x in filteredIds
  {
    if selected == Elements(filteredIds) then {} else Elements(filteredIds)
  }

  /** Two users selected under an earlier search, two other users listed
      now: the written handler clears the selection instead of selecting
      the listed users. */
  lemma SelectAllAsWrittenClearsHiddenSelection()
    ensures SelectAllAsWritten({"c", "d"}, ["a", "b"]) == {}
    ensures SelectAll({"c", "d"}, ["a", "b"]) == {"a", "b"}
  {
    assert |{"c", "d"}| == 2;
    assert Elements(["a", "b"]) == {"a", "b"};
  }

  lemma {:induction false} ElementsCard(s: seq<string>)
    requires DistinctIds(s)
    ensures |Elements(s)| == |s|
    decreases |s|
  {
    if s != [] {
      var init, last := s[..|s| - 1], s[|s| - 1];
      ElementsCard(init);
      assert Elements(s) == Elements(init) + {last};
      assert last !in Elements(init);
    }
  }

  /** Selecting the same users twice with the intended handler clears the
      selection, and the two handlers agree whenever nothing outside the
      listed users is selected. */
  lemma SelectAllAgreesOnVisibleSelection(selected: set<string>, filteredIds: seq<string>)
    requires DistinctIds(filteredIds) && selected <= Elements(filteredIds)
    ensures SelectAllAsWritten(selected, filteredIds) == SelectAll(selected, filteredIds)
  {
    ElementsCard(filteredIds);
    SubsetCard(selected, Elements(filteredIds));
  }

  /** A subset is no larger than its superset, and equal to it when as
      large. */
  lemma {:induction false} SubsetCard<T>(a: set<T>, b: set<T>)
    requires a <= b
    ensures |a| <= |b|
    ensures |a| == |b| ==> a == b
    decreases |b|
  {
    if b != {} {
      var y :| y in b;
      SubsetCard(a - {y}, b - {y});
      if y in a {
        assert a == (a - {y}) + {y};
        assert b == (b - {y}) + {y};
      } else {
        assert a - {y} == a;
      }
    }
  }

  // =====================================================================
  // Page state
  // =====================================================================

  /** The selection and the promotion dialog of the page. */
  class Management {
    var selectedUsers: set<string>
    var showAdminModal: bool
    var adminConfirmText: string
    var pendingAdminUser: Option<string>

    /** The dialog is open exactly while a user waits for promotion. */
    predicate Valid()
      reads this
    {
      showAdminModal <==> pendingAdminUser.Some?
    }

    constructor()
      ensures Valid() && selectedUsers == {} && !showAdminModal && adminConfirmText == ""
    {
      selectedUsers := {};
      showAdminModal := false;
      adminConfirmText := "";
      pendingAdminUser := None;
    }

    /** `handleSelectUser(userId)`: flip exactly that user. */
    method SelectUser(userId: string)
      modifies this
      ensures forall x :: x in selectedUsers <==> (x in old(selectedUsers)) != (x == userId)
      ensures showAdminModal == old(showAdminModal) && pendingAdminUser == old(pendingAdminUser)
      ensures adminConfirmText == old(adminConfirmText)
    {
      var newSelected := selectedUsers;
      if userId in newSelected {
        newSelected := newSelected - {userId};
      } else {
        newSelected := newSelected + {userId};
      }
      selectedUsers := newSelected;
    }

    /** The header checkbox, with the intended test. */
    method SelectAllUsers(filteredIds: seq<string>)
      modifies this
      ensures selectedUsers == SelectAll(old(selectedUsers), filteredIds)
      ensures showAdminModal == old(showAdminModal) && pendingAdminUser == old(pendingAdminUser)
      ensures adminConfirmText == old(adminConfirmText)
    {
      var ids := Elements(filteredIds);
      if selectedUsers == ids {
        selectedUsers := {};
      } else {
        selectedUsers := ids;
      }
    }

    /** A bulk action: the request its guard allows; a successful update
        (`succeeded`) clears the selection, anything else keeps it. */
    method Bulk(request: Outcome, succeeded: bool) returns (out: Outcome)
      requires Valid()
      modifies this
      ensures Valid()
      ensures out == request
      ensures selectedUsers == if request.Send? && succeeded then {} else old(selectedUsers)
      ensures showAdminModal == old(showAdminModal) && pendingAdminUser == old(pendingAdminUser)
      ensures adminConfirmText == old(adminConfirmText)
    {
      out := request;
      if out.Send? && succeeded {
        selectedUsers := {};
      }
    }

    /** `handleApproveSelected` */
    method ApproveSelectedUsers(succeeded: bool) returns (out: Outcome)
      requires Valid()
      modifies this
      ensures Valid()
      ensures out == ApproveSelected(old(selectedUsers))
      ensures selectedUsers == if out.Send? && succeeded then {} else old(selectedUsers)
      ensures showAdminModal == old(showAdminModal) && pendingAdminUser == old(pendingAdminUser)
      ensures adminConfirmText == old(adminConfirmText)
    {
      out := Bulk(ApproveSelected(selectedUsers), succeeded);
    }

    /** `handleUnapproveSelected` */
    method UnapproveSelectedUsers(me: string, users: seq<User>, succeeded: bool) returns (out: Outcome)
      requires Valid()
      modifies this
      ensures Valid()
      ensures out == UnapproveSelected(old(selectedUsers), me, users)
      ensures selectedUsers == if out.Send? && succeeded then {} else old(selectedUsers)
      ensures showAdminModal == old(showAdminModal) && pendingAdminUser == old(pendingAdminUser)
      ensures adminConfirmText == old(adminConfirmText)
    {
      out := Bulk(UnapproveSelected(selectedUsers, me, users), succeeded);
    }

    /** `handleRemoveSelected` */
    method RemoveSelectedUsers(me: string, confirmed: bool, succeeded: bool) returns (out: Outcome)
      requires Valid()
      modifies this
      ensures Valid()
      ensures out == RemoveSelected(old(selectedUsers), me, confirmed)
      ensures selectedUsers == if out.Send? && succeeded then {} else old(selectedUsers)
      ensures showAdminModal == old(showAdminModal) && pendingAdminUser == old(pendingAdminUser)
      ensures adminConfirmText == old(adminConfirmText)
    {
      out := Bulk(RemoveSelected(selectedUsers, me, confirmed), succeeded);
    }

    /** `handleChangeRole(userId, newRole)`: a request for admin opens the
        dialog with an empty confirmation and the user recorded. */
    method ChangeUserRole(userId: string, newRole: Role, me: string) returns (out: Outcome)
      requires Valid()
      modifies this
      ensures Valid()
      ensures out == ChangeRole(userId, newRole, me)
      ensures selectedUsers == old(selectedUsers)
      ensures out == NoRequest ==> showAdminModal && pendingAdminUser == Some(userId) && adminConfirmText == ""
      ensures out != NoRequest ==>
                showAdminModal == old(showAdminModal) && pendingAdminUser == old(pendingAdminUser)
                && adminConfirmText == old(adminConfirmText)
    {
      if userId == me && newRole != Admin {
        return Refused("You cannot change your own admin role");
      }
      if newRole == Admin {
        pendingAdminUser := Some(userId);
        showAdminModal := true;
        adminConfirmText := "";
        return NoRequest;
      }
      out := Send(SetRole(userId, newRole));
    }

    method TypeConfirmation(text: string)
      modifies this
      ensures adminConfirmText == text
      ensures selectedUsers == old(selectedUsers)
      ensures showAdminModal == old(showAdminModal) && pendingAdminUser == old(pendingAdminUser)
    {
      adminConfirmText := text;
    }

    /** `confirmAdminPromotion`: a wrong text leaves the dialog open; the
        right one sends the promotion and closes the dialog whatever the
        outcome of the update. */
    method ConfirmAdminPromotion() returns (out: Outcome)
      requires Valid() && showAdminModal
      modifies this
      ensures Valid()
      ensures out == PromotionRequest(old(adminConfirmText), old(pendingAdminUser).value)
      ensures selectedUsers == old(selectedUsers)
      ensures !out.Send? ==>
                showAdminModal && pendingAdminUser == old(pendingAdminUser) && adminConfirmText == old(adminConfirmText)
      ensures out.Send? ==> !showAdminModal && pendingAdminUser.None? && adminConfirmText == ""
    {
      if adminConfirmText != "admin" {
        return PromotionRequest(adminConfirmText, pendingAdminUser.value);
      }
      out := Send(SetRole(pendingAdminUser.value, Admin));
      showAdminModal := false;
      pendingAdminUser := None;
      adminConfirmText := "";
    }

    /** `cancelAdminPromotion` */
    method CancelAdminPromotion()
      modifies this
      ensures Valid() && !showAdminModal && adminConfirmText == ""
      ensures selectedUsers == old(selectedUsers)
    {
      showAdminModal := false;
      pendingAdminUser := None;
      adminConfirmText := "";
    }
  }
}
