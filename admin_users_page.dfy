/**
 * The administrator's user page: a client-side user list that the status,
 * edit and delete handlers replace with new lists. Each handler is a
 * transition from one page state to the next; the list on screen
 * (filtered, sorted, one page of ten) and the status counts are functions
 * of the state.
 */
module AdminUsersPage {
  import opened Wrappers
  import Text
  import Seqs
  import Sorting
  import Pagination
  import DbQueries

  const PerPage: nat := 10

  datatype Status = Active | Suspended

  /** A row of the user list; `registeredAt` and `lastLogin` are the instants the page's date strings denote. */
  datatype Account = Account(
    id: string,
    name: string,
    email: string,
    registeredAt: int,
    balance: int,
    status: Status,
    lastLogin: int,
    lineUserId: string,
    phoneNumber: Option<string>,
    totalPurchased: int,
    totalUsed: int,
    suspensionReason: Option<string>,
    suspendedAt: Option<string>,
    notes: Option<string>)

  datatype EditForm = EditForm(name: string, email: string, phoneNumber: string, notes: string)

  datatype SortKey = ByName | ByRegisteredAt | ByLastLogin | ByBalance

  /** The page's state: the list, the filter and sort controls, the current page and the two forms. */
  datatype Page = Page(
    users: seq<Account>,
    searchQuery: string,
    statusFilter: Option<Status>,
    sortBy: SortKey,
    descending: bool,
    currentPage: int,
    selected: Option<Account>,
    showSuspendModal: bool,
    suspensionReason: string,
    editForm: EditForm,
    showEditModal: bool)

  /** The search: name or e-mail ignoring case; id, a non-empty phone number or a non-empty LINE id as typed. */
  predicate MatchesSearch(u: Account, query: string)
  {
    || Text.Contains(Text.ToLower(u.name), Text.ToLower(query))
    || Text.Contains(Text.ToLower(u.email), Text.ToLower(query))
    || Text.Contains(u.id, query)
    || (Truthy(u.phoneNumber) && Text.Contains(u.phoneNumber.value, query))
    || (u.lineUserId != "" && Text.Contains(u.lineUserId, query))
  }

  predicate Shown(u: Account, query: string, status: Option<Status>)
  {
    MatchesSearch(u, query) && (status.None? || u.status == status.value)
  }

  /**
   * The comparator's verdict "`a` may stand before `b`": names compare as
   * strings, the two dates and the balance as numbers.
   */
  predicate Before(key: SortKey, descending: bool, a: Account, b: Account)
  {
    match key
    case ByName => if descending then !Text.TextLess(a.name, b.name) else !Text.TextLess(b.name, a.name)
    case ByRegisteredAt => Sorting.InOrder(a.registeredAt, b.registeredAt, descending)
    case ByLastLogin => Sorting.InOrder(a.lastLogin, b.lastLogin, descending)
    case ByBalance => Sorting.InOrder(a.balance, b.balance, descending)
  }

  /** The comparator of a sort control, as a test on pairs. */
  function Comparator(key: SortKey, descending: bool): (Account, Account) -> bool
  {
    (a: Account, b: Account) => Before(key, descending, a, b)
  }

  /** Every sort control ranks all rows consistently. */
  lemma BeforeIsTotalPreorder(key: SortKey, descending: bool)
    ensures Sorting.TotalPreorder(Comparator(key, descending))
  {
    if key == ByName {
      forall a: Account, b: Account ensures Before(key, descending, a, b) || Before(key, descending, b, a) {
        Text.TextLessTrichotomy(a.name, b.name);
      }
      forall a: Account, b: Account, c: Account | Before(key, descending, a, b) && Before(key, descending, b, c)
        ensures Before(key, descending, a, c)
      {
        Text.TextLessTrichotomy(a.name, b.name);
        Text.TextLessTrichotomy(b.name, c.name);
        Text.TextLessTrichotomy(a.name, c.name);
        if descending {
          if Text.TextLess(a.name, c.name) && Text.TextLess(b.name, a.name) {
            Text.TextLessTransitive(b.name, a.name, c.name);
          }
        } else {
          if Text.TextLess(c.name, a.name) && Text.TextLess(a.name, b.name) {
            Text.TextLessTransitive(c.name, a.name, b.name);
          }
        }
      }
    }
  }

  /** `filteredUsers`: the users the filter keeps, ordered by the sort control. */
  function FilteredUsers(p: Page): (r: seq<Account>)
    ensures forall u :: u in r <==> u in p.users && Shown(u, p.searchQuery, p.statusFilter)
    ensures Sorting.SortedWith(r, Comparator(p.sortBy, p.descending))
  {
    var kept := Seqs.Filter(p.users, (u: Account) => Shown(u, p.searchQuery, p.statusFilter));
    BeforeIsTotalPreorder(p.sortBy, p.descending);
    var r := Sorting.SortWith(kept, Comparator(p.sortBy, p.descending));
    Sorting.SameElements(r, kept);
    r
  }

  /** The filtered list is a rearrangement of the matching users, each kept as often as it occurs. */
  lemma FilteredUsersPermutation(p: Page)
    ensures multiset(FilteredUsers(p)) == multiset(Seqs.Filter(p.users, (u: Account) => Shown(u, p.searchQuery, p.statusFilter)))
  {
  }

  function TotalPages(p: Page): nat
  {
    DbQueries.TotalPages(|FilteredUsers(p)|, PerPage)
  }

  /** `paginatedUsers`: the ten rows of the current page. */
  function PaginatedUsers(p: Page): (r: seq<Account>)
    requires p.currentPage >= 1
    ensures |r| <= PerPage
    ensures var start, n := Pagination.PageStart(p.currentPage, PerPage), |FilteredUsers(p)|;
            |r| == (if start >= n then 0 else if start + PerPage <= n then PerPage else n - start)
    ensures forall i :: 0 <= i < |r| ==>
              var k := Pagination.PageStart(p.currentPage, PerPage) + i; k < |FilteredUsers(p)| && r[i] == FilteredUsers(p)[k]
  {
    var shown := FilteredUsers(p);
    var start := Pagination.PageStart(p.currentPage, PerPage);
    var r := Pagination.PageSlice(shown, p.currentPage, PerPage);
    assert forall i :: 0 <= i < |r| ==> start + i < |shown| && r[i] == shown[start + i];
    r
  }

  /** Every listed user is on exactly one page: user `i` is row `i % PerPage` of page `i / PerPage + 1`. */
  lemma EveryUserOnItsPage(p: Page, i: nat)
    requires i < |FilteredUsers(p)|
    ensures i % PerPage < |PaginatedUsers(p.(currentPage := i / PerPage + 1))|
    ensures PaginatedUsers(p.(currentPage := i / PerPage + 1))[i % PerPage] == FilteredUsers(p)[i]
  {
    var q := p.(currentPage := i / PerPage + 1);
    assert FilteredUsers(q) == FilteredUsers(p);
    Pagination.PageSliceCovers(FilteredUsers(p), PerPage, i);
  }

  /** `users.find(u => u.id === userId)`: the first row with that id. */
  function Find(users: seq<Account>, id: string): (r: Option<Account>)
    ensures r.None? <==> forall i :: 0 <= i < |users| ==> users[i].id != id
    ensures r.Some? ==> r.value in users && r.value.id == id
  {
    if users == [] then None
    else if users[0].id == id then Some(users[0])
    else Find(users[1..], id)
  }

  /** With unique ids, the row found is the one row carrying that id. */
  lemma {:induction false} FindUnique(users: seq<Account>, k: nat)
    requires UniqueIds(users) && k < |users|
    ensures Find(users, users[k].id) == Some(users[k])
  {
    if k > 0 {
      assert users[0].id != users[k].id;
      assert UniqueIds(users[1..]) by {
        forall i, j | 0 <= i < |users[1..]| && 0 <= j < |users[1..]| && users[1..][i].id == users[1..][j].id
          ensures i == j
        {
          assert users[i + 1].id == users[j + 1].id;
        }
      }
      FindUnique(users[1..], k - 1);
    }
  }

  function Activated(u: Account): Account
  {
    u.(status := Active, suspensionReason := None, suspendedAt := None)
  }

  /**
   * `handleToggleStatus`: asking to suspend only opens the suspension form
   * for that user; asking to activate lifts the suspension at once.
   */
  function ToggleStatus(p: Page, userId: string, newStatus: Status): (r: Page)
    ensures newStatus == Suspended ==>
              r == p.(selected := Find(p.users, userId), showSuspendModal := true)
    ensures newStatus == Active ==>
              && |r.users| == |p.users|
              && (forall i :: 0 <= i < |p.users| ==>
                    r.users[i] == if p.users[i].id == userId then Activated(p.users[i]) else p.users[i])
              && r == p.(users := r.users)
  {
    if newStatus == Suspended then p.(selected := Find(p.users, userId), showSuspendModal := true)
    else
      p.(users := seq(|p.users|, i requires 0 <= i < |p.users| =>
                        if p.users[i].id == userId then Activated(p.users[i]) else p.users[i]))
  }

  /** `!suspensionReason.trim()`: the reason is empty or white space only. */
  predicate BlankReason(p: Page)
  {
    Text.Trim(p.suspensionReason) == ""
  }

  /** `handleSuspendUser`; `stamp` is the rendered time of the suspension. */
  function SuspendUser(p: Page, stamp: string): (r: Page)
    ensures p.selected.None? || Text.IsBlank(p.suspensionReason) ==> r == p
    ensures p.selected.Some? && !Text.IsBlank(p.suspensionReason) ==>
              var sel := p.selected.value;
              && |r.users| == |p.users|
              && (forall i :: 0 <= i < |p.users| ==>
                    r.users[i] == if p.users[i].id == sel.id
                                  then p.users[i].(status := Suspended, suspensionReason := Some(p.suspensionReason),
                                                   suspendedAt := Some(stamp))
                                  else p.users[i])
              && r == p.(users := r.users, showSuspendModal := false, suspensionReason := "", selected := None)
  {
    Text.TrimEmptyIffBlank(p.suspensionReason);
    if p.selected.None? || BlankReason(p) then p
    else
      var sel := p.selected.value;
      p.(users := SuspendedUsers(p.users, sel.id, p.suspensionReason, stamp), showSuspendModal := false,
         suspensionReason := "", selected := None)
  }

  /** The `users.map` of the suspension: the user with the id suspended with the reason, everyone else kept. */
  function SuspendedUsers(users: seq<Account>, id: string, reason: string, stamp: string): (r: seq<Account>)
    ensures |r| == |users|
    ensures forall i :: 0 <= i < |users| ==>
              r[i] == if users[i].id == id
                      then users[i].(status := Suspended, suspensionReason := Some(reason), suspendedAt := Some(stamp))
                      else users[i]
  {
    seq(|users|, i requires 0 <= i < |users| =>
          if users[i].id == id
          then users[i].(status := Suspended, suspensionReason := Some(reason), suspendedAt := Some(stamp))
          else users[i])
  }

  predicate UniqueIds(users: seq<Account>)
  {
    forall i, j :: 0 <= i < |users| && 0 <= j < |users| && users[i].id == users[j].id ==> i == j
  }

  /**
   * Suspending an active user through the form and then activating them
   * gives back the original list, when the user carried no suspension data.
   */
  lemma SuspendThenActivateRestores(p: Page, k: nat, reason: string, stamp: string)
    requires UniqueIds(p.users) && k < |p.users|
    requires p.users[k].status == Active && p.users[k].suspensionReason.None? && p.users[k].suspendedAt.None?
    requires !Text.IsBlank(reason)
    ensures var opening := ToggleStatus(p, p.users[k].id, Suspended);
            var suspended := SuspendUser(opening.(suspensionReason := reason), stamp);
            && suspended.users[k].status == Suspended
            && ToggleStatus(suspended, p.users[k].id, Active).users == p.users
  {
    var id := p.users[k].id;
    var opening := ToggleStatus(p, id, Suspended);
    FindUnique(p.users, k);
    var suspended := SuspendUser(opening.(suspensionReason := reason), stamp);
    var back := ToggleStatus(suspended, id, Active);
    assert back.users == p.users by {
      forall i | 0 <= i < |p.users| ensures back.users[i] == p.users[i] {
        if i == k {
          assert suspended.users[i].id == id;
        }
      }
    }
  }

  /** Opening the edit form on a row: the form starts from the row, with '' for an absent phone or note. */
  function EditUser(p: Page, u: Account): (r: Page)
    ensures r.selected == Some(u) && r.showEditModal
    ensures r.editForm.name == u.name && r.editForm.email == u.email
    ensures r.editForm.phoneNumber == (if u.phoneNumber.Some? then u.phoneNumber.value else "")
    ensures r.editForm.notes == (if u.notes.Some? then u.notes.value else "")
    ensures r.(selected := p.selected, editForm := p.editForm, showEditModal := p.showEditModal) == p
  {
    p.(selected := Some(u),
       editForm := EditForm(u.name, u.email, OrElse(u.phoneNumber, Some("")).value, OrElse(u.notes, Some("")).value),
       showEditModal := true)
  }

  /** `value || undefined`: an empty field is stored as absent. */
  function EmptyAsAbsent(s: string): (r: Option<string>)
    ensures r.None? <==> s == ""
    ensures r.Some? ==> r.value == s
  {
    if s == "" then None else Some(s)
  }

  predicate EditValid(p: Page)
  {
    p.selected.Some? && Text.Trim(p.editForm.name) != "" && Text.Trim(p.editForm.email) != ""
  }

  function Edited(u: Account, f: EditForm): Account
  {
    u.(name := f.name, email := f.email, phoneNumber := EmptyAsAbsent(f.phoneNumber), notes := EmptyAsAbsent(f.notes))
  }

  /** `handleSaveEdit`: name and e-mail must not be blank; the fields are stored as typed. */
  function SaveEdit(p: Page): (r: Page)
    ensures !EditValid(p) ==> r == p
    ensures EditValid(p) ==>
              && |r.users| == |p.users|
              && (forall i :: 0 <= i < |p.users| ==>
                    r.users[i] == if p.users[i].id == p.selected.value.id then Edited(p.users[i], p.editForm) else p.users[i])
              && r == p.(users := r.users, showEditModal := false, selected := None)
  {
    if !EditValid(p) then p
    else
      var sel := p.selected.value;
      p.(users := EditedUsers(p.users, sel.id, p.editForm), showEditModal := false, selected := None)
  }

  /** The `users.map` of the edit: the user with the id takes the form's contact fields, everyone else kept. */
  function EditedUsers(users: seq<Account>, id: string, form: EditForm): (r: seq<Account>)
    ensures |r| == |users|
    ensures forall i :: 0 <= i < |users| ==> r[i] == if users[i].id == id then Edited(users[i], form) else users[i]
  {
    seq(|users|, i requires 0 <= i < |users| => if users[i].id == id then Edited(users[i], form) else users[i])
  }

  /** A saved edit leaves balances, status and activity untouched, and only the edited row changes. */
  lemma SaveEditTouchesOnlyContact(p: Page)
    requires EditValid(p)
    ensures var r := SaveEdit(p);
            forall i :: 0 <= i < |p.users| ==>
              && r.users[i].(name := p.users[i].name, email := p.users[i].email,
                             phoneNumber := p.users[i].phoneNumber, notes := p.users[i].notes) == p.users[i]
              && (p.users[i].id != p.selected.value.id ==> r.users[i] == p.users[i])
              && (p.users[i].id == p.selected.value.id ==>
                    r.users[i].name == p.editForm.name && !Text.IsBlank(r.users[i].name))
  {
    Text.TrimEmptyIffBlank(p.editForm.name);
  }

  /** `handleDeleteUser`; `confirmed` is the answer to the confirmation dialog. */
  function DeleteUser(p: Page, userId: string, confirmed: bool): (r: Page)
    ensures !confirmed ==> r == p
    ensures confirmed ==> r == p.(users := Seqs.Filter(p.users, (u: Account) => u.id != userId))
  {
    if !confirmed then p else p.(users := Seqs.Filter(p.users, (u: Account) => u.id != userId))
  }

  /**
   * Deleting removes exactly the rows with that id and keeps the rest in
   * their order: deleting from a list split in two is deleting from each part.
   */
  lemma DeleteUserEffect(p: Page, userId: string, front: seq<Account>, back: seq<Account>)
    requires p.users == front + back
    ensures var r := DeleteUser(p, userId, true);
            && (forall u :: u in r.users <==> u in p.users && u.id != userId)
            && r.users == DeleteUser(p.(users := front), userId, true).users
                          + DeleteUser(p.(users := back), userId, true).users
  {
    Seqs.FilterConcat(front, back, (u: Account) => u.id != userId);
  }

  function ActiveCount(users: seq<Account>): nat
  {
    Seqs.Count(users, (u: Account) => u.status == Active)
  }

  function SuspendedCount(users: seq<Account>): nat
  {
    Seqs.Count(users, (u: Account) => u.status == Suspended)
  }

  /** The two status tiles add up to the total tile. */
  lemma {:induction false} StatusCountsAddUp(users: seq<Account>)
    ensures ActiveCount(users) + SuspendedCount(users) == |users|
  {
    if users != [] {
      StatusCountsAddUp(users[1..]);
    }
  }

  function GoToPage(p: Page, page: int): (r: Page)
    requires page in Pagination.PageWindow(p.currentPage, TotalPages(p))
    ensures r.currentPage >= 1 && r == p.(currentPage := page)
  {
    Pagination.PageWindowShape(p.currentPage, TotalPages(p));
    p.(currentPage := page)
  }

  function PreviousPage(p: Page): (r: Page)
    ensures r.currentPage >= 1 && r == p.(currentPage := Pagination.PreviousPage(p.currentPage))
  {
    p.(currentPage := Pagination.PreviousPage(p.currentPage))
  }

  /** The next button, with the page kept at 1 or more (see `Pagination.NextPage`). */
  function NextPage(p: Page): (r: Page)
    requires p.currentPage >= 1
    ensures r.currentPage >= 1 && r == p.(currentPage := Pagination.NextPage(p.currentPage, TotalPages(p)))
  {
    p.(currentPage := Pagination.NextPage(p.currentPage, TotalPages(p)))
  }
}
