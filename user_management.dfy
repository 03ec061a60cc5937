/** The admin's user list (src/components/admin/UserManagementModal.tsx): the search and tab
    filter, the block/unblock toggle with its optimistic update, and the closure-request badge. */
module UserManagement {
  import opened Common
  import opened Records
  import opened Sorting
  import opened Strings

  /** A user as the list shows it. */
  datatype ListedUser = ListedUser(id: Id, name: string, email: string, status: AccountStatus, closureStatus: ClosureStatus)

  datatype Tab = AllUsers | ClosureRequests

  /** The lower-cased search text occurs in the lower-cased name or e-mail. */
  predicate MatchesSearch(u: ListedUser, search: string) {
    Contains(ToLower(u.name), ToLower(search)) || Contains(ToLower(u.email), ToLower(search))
  }

  /** The closure tab also asks for a pending closure request. */
  predicate Shown(u: ListedUser, search: string, tab: Tab) {
    MatchesSearch(u, search) && (tab == ClosureRequests ==> u.closureStatus == Requested)
  }

  /** `periodFilteredUsers`. */
  function Listed(users: seq<ListedUser>, search: string, tab: Tab): seq<ListedUser> {
    Filter(users, (u: ListedUser) => Shown(u, search, tab))
  }

  /** The list holds exactly the users that match the search, and on the closure tab exactly those
      of them with a pending request. */
  lemma ListedExactly(users: seq<ListedUser>, search: string, tab: Tab)
    ensures var r := Listed(users, search, tab);
            && (forall k :: 0 <= k < |r| ==> r[k] in users && MatchesSearch(r[k], search)
                                             && (tab == ClosureRequests ==> r[k].closureStatus == Requested))
            && (forall k :: 0 <= k < |users| && Shown(users[k], search, tab) ==> users[k] in r)
  {
    var r := Listed(users, search, tab);
    forall k | 0 <= k < |r|
      ensures r[k] in users && MatchesSearch(r[k], search) && (tab == ClosureRequests ==> r[k].closureStatus == Requested)
    {
      assert Shown(r[k], search, tab);
    }
  }

  /** Lower-casing is the same whatever the case of the input. */
  lemma LowerOfUpper(s: string)
    ensures ToLower(ToUpper(s)) == ToLower(s)
  {
    forall i | 0 <= i < |s|
      ensures ToLower(ToUpper(s))[i] == ToLower(s)[i]
    {
      var c := s[i];
      assert ToUpper(s)[i] == UpperChar(c);
      if 'a' <= c <= 'z' {
        assert LowerChar(UpperChar(c)) == c == LowerChar(c);
      }
    }
  }

  /** The search ignores case: typing it in capitals finds the same users. */
  lemma {:induction false} SearchIgnoresCase(users: seq<ListedUser>, search: string, tab: Tab)
    ensures Listed(users, ToUpper(search), tab) == Listed(users, search, tab)
  {
    if users != [] {
      LowerOfUpper(search);
      assert Shown(users[0], ToUpper(search), tab) == Shown(users[0], search, tab);
      SearchIgnoresCase(users[1..], search, tab);
    }
  }

  /** With an empty search the all-users tab lists everyone, in order. */
  lemma {:induction false} EmptySearchListsAll(users: seq<ListedUser>)
    ensures Listed(users, "", AllUsers) == users
  {
    if users != [] {
      var u := users[0];
      assert OccursAt(ToLower(u.name), "", 0);
      assert Shown(u, "", AllUsers);
      EmptySearchListsAll(users[1..]);
      assert users == [u] + users[1..];
    }
  }

  /** The number of users with a pending closure request, counted one by one. */
  function RequestedCount(users: seq<ListedUser>): nat {
    if users == [] then 0
    else (if users[0].closureStatus == Requested then 1 else 0) + RequestedCount(users[1..])
  }

  /** The badge on the closure tab: `users.filter(u => u.closureStatus === 'REQUESTED').length`. */
  function Badge(users: seq<ListedUser>): nat {
    |Filter(users, (u: ListedUser) => u.closureStatus == Requested)|
  }

  /** The badge shows the number of pending closure requests, and that is how many users the
      closure tab lists before anything is searched. */
  lemma {:induction false} BadgeCountsRequests(users: seq<ListedUser>)
    ensures Badge(users) == RequestedCount(users)
    ensures |Listed(users, "", ClosureRequests)| == RequestedCount(users)
  {
    if users != [] {
      var u := users[0];
      assert OccursAt(ToLower(u.name), "", 0);
      assert MatchesSearch(u, "");
      BadgeCountsRequests(users[1..]);
    }
  }

  datatype ToggleAction = Block | Unblock

  /** The action the toggle button sends: BLOCK for an active user, UNBLOCK otherwise. */
  function ActionFor(current: AccountStatus): (a: ToggleAction)
    ensures a == Block <==> current == Active
  {
    if current == Active then Block else Unblock
  }

  /** The status the list shows after a successful action. */
  function StatusAfter(a: ToggleAction): (r: AccountStatus)
    ensures r == Blocked <==> a == Block
  {
    if a == Block then Blocked else Active
  }

  /** The toggle always flips the status it was pressed on. */
  lemma ToggleFlips(current: AccountStatus)
    ensures StatusAfter(ActionFor(current)) != current
  {
  }

  /** The optimistic update: the user with that id takes the new status, every other entry is
      kept as it was, in place. */
  function AfterToggle(users: seq<ListedUser>, id: Id, a: ToggleAction): (r: seq<ListedUser>)
    ensures |r| == |users|
    ensures forall k :: 0 <= k < |users| && users[k].id != id ==> r[k] == users[k]
    ensures forall k :: 0 <= k < |users| && users[k].id == id ==> r[k] == users[k].(status := StatusAfter(a))
  {
    if users == [] then []
    else [if users[0].id == id then users[0].(status := StatusAfter(a)) else users[0]] + AfterToggle(users[1..], id, a)
  }

  /** The update is idempotent: a repeated toggle response leaves the list as the first made it. */
  lemma AfterToggleIdempotent(users: seq<ListedUser>, id: Id, a: ToggleAction)
    ensures AfterToggle(AfterToggle(users, id, a), id, a) == AfterToggle(users, id, a)
  {
    var once := AfterToggle(users, id, a);
    var twice := AfterToggle(once, id, a);
    forall k | 0 <= k < |users| ensures twice[k] == once[k] {
      if users[k].id == id {
        assert once[k].id == id;
      }
    }
  }
}
