/**
 * The admin user-management panel: promote and demote by email, the user
 * list with per-user post counts, and how the panel's message is styled.
 *
 * `fault` is the store's verdict on the role update; `listFault` on the
 * user listing; `countMissing` holds the ids whose post count comes back
 * empty (`count` is `null`).
 */
module UserAdmin {
  import opened Wrappers
  import opened Text
  import opened Types
  import opened Table

  const LoadFailed := "Failed to load users"
  const NotAuthenticated := "Not authenticated"
  const PromoteFailed := "Failed to promote user"
  const DemoteFailed := "Failed to demote user"

  function PromotedMessage(email: string): string {
    "Successfully promoted " + email + " to admin"
  }

  function DemotedMessage(email: string): string {
    "Successfully demoted " + email + " from admin"
  }

  // ---------------------------------------------------------------------------
  // Role changes
  // ---------------------------------------------------------------------------

  /** The table after `.update({ role, updated_at: now }).eq('email', email)`. */
  function SetRole(users: seq<User>, email: string, role: Role, now: Timestamp): (r: seq<User>)
    ensures |r| == |users|
    ensures forall i :: 0 <= i < |users| && users[i].email != email ==> r[i] == users[i]
    ensures forall i :: 0 <= i < |users| && users[i].email == email ==>
              r[i] == users[i].(role := role, updatedAt := now)
  {
    seq(|users|, i requires 0 <= i < |users| =>
      if users[i].email == email then users[i].(role := role, updatedAt := now) else users[i])
  }

  /** What a promote or demote call does: return at once on a blank email,
      or send the update and report. */
  datatype RoleChange =
    | Ignored
    | Applied(users: seq<User>, succeeded: bool, message: string)

  /** `promoteToAdmin(email)` / `demoteFromAdmin(email)`: the trimmed email
      selects the rows, the untrimmed one goes into the message, and only a
      store error counts as failure. */
  function ChangeRole(users: seq<User>, email: string, role: Role, success: string, failure: string,
                      now: Timestamp, fault: Option<string>): (c: RoleChange)
    ensures c.Ignored? <==> Trim(email) == ""
    ensures c.Applied? && fault.Some? ==> c == Applied(users, false, failure)
    ensures c.Applied? && fault.None? ==> c == Applied(SetRole(users, Trim(email), role, now), true, success)
  {
    if Trim(email) == "" then Ignored
    else if fault.Some? then Applied(users, false, failure)
    else Applied(SetRole(users, Trim(email), role, now), true, success)
  }

  function PromoteToAdmin(users: seq<User>, email: string, now: Timestamp, fault: Option<string>): (c: RoleChange)
    ensures c.Ignored? <==> Trim(email) == ""
    ensures c.Applied? ==> |c.users| == |users|
    ensures c.Applied? ==> (c.succeeded <==> fault.None?)
    ensures c.Applied? && c.succeeded ==>
              c.message == PromotedMessage(email)
              && forall i :: 0 <= i < |users| ==>
                   if users[i].email == Trim(email)
                   then c.users[i] == users[i].(role := AdminRole, updatedAt := now)
                   else c.users[i] == users[i]
    ensures c.Applied? && !c.succeeded ==> c.message == PromoteFailed && c.users == users
  {
    ChangeRole(users, email, AdminRole, PromotedMessage(email), PromoteFailed, now, fault)
  }

  function DemoteFromAdmin(users: seq<User>, email: string, now: Timestamp, fault: Option<string>): (c: RoleChange)
    ensures c.Ignored? <==> Trim(email) == ""
    ensures c.Applied? ==> |c.users| == |users|
    ensures c.Applied? ==> (c.succeeded <==> fault.None?)
    ensures c.Applied? && c.succeeded ==>
              c.message == DemotedMessage(email)
              && forall i :: 0 <= i < |users| ==>
                   if users[i].email == Trim(email)
                   then c.users[i] == users[i].(role := UserRole, updatedAt := now)
                   else c.users[i] == users[i]
    ensures c.Applied? && !c.succeeded ==> c.message == DemoteFailed && c.users == users
  {
    ChangeRole(users, email, UserRole, DemotedMessage(email), DemoteFailed, now, fault)
  }

  /** An email no row carries still reports success and leaves the table as
      it was. */
  lemma UnmatchedEmailReportsSuccess(users: seq<User>, email: string, now: Timestamp)
    requires Trim(email) != ""
    requires forall i :: 0 <= i < |users| ==> users[i].email != Trim(email)
    ensures PromoteToAdmin(users, email, now, None) == Applied(users, true, PromotedMessage(email))
    ensures DemoteFromAdmin(users, email, now, None) == Applied(users, true, DemotedMessage(email))
  {
  }

  /** Demoting an author makes them a plain user, not an author again. */
  lemma DemoteForgetsAuthor(users: seq<User>, email: string, now: Timestamp, i: int)
    requires Trim(email) != "" && 0 <= i < |users|
    requires users[i].email == Trim(email) && users[i].role == AuthorRole
    ensures DemoteFromAdmin(users, email, now, None).users[i].role == UserRole
  {
  }

  /** Promoting and then demoting the same email leaves every other row
      alone and every matching row a plain user. */
  lemma PromoteThenDemote(users: seq<User>, email: string, t1: Timestamp, t2: Timestamp)
    requires Trim(email) != ""
    ensures var up := PromoteToAdmin(users, email, t1, None).users;
            DemoteFromAdmin(up, email, t2, None).users == SetRole(users, Trim(email), UserRole, t2)
  {
  }

  // ---------------------------------------------------------------------------
  // The user list
  // ---------------------------------------------------------------------------

  /** A listed user with the number of posts they have authored. */
  datatype AdminUser = AdminUser(id: string, email: string, fullName: Option<string>, role: Role,
                                 createdAt: Timestamp, postCount: nat)

  predicate NewerUser(a: User, b: User) {
    a.createdAt >= b.createdAt
  }

  predicate WrittenBy(id: string, p: BlogPost) {
    p.authorId == id
  }

  /** `{...user, post_count: count || 0}`. */
  function WithPostCount(u: User, posts: seq<BlogPost>, countMissing: set<string>): (a: AdminUser)
    ensures a.id == u.id && a.email == u.email && a.fullName == u.fullName
    ensures a.role == u.role && a.createdAt == u.createdAt
    ensures a.postCount == if u.id in countMissing then 0 else |Where(posts, p => WrittenBy(u.id, p))|
  {
    var count := if u.id in countMissing then 0 else CountWhere(posts, p => WrittenBy(u.id, p));
    CountIsFilterLength(posts, p => WrittenBy(u.id, p));
    AdminUser(u.id, u.email, u.fullName, u.role, u.createdAt, count)
  }

  lemma NewerUserIsPreorder()
    ensures TotalPreorder(NewerUser)
  {
  }

  /** `data.map(...)`: each user of the listing with its post count. */
  function Counted(listing: seq<User>, posts: seq<BlogPost>, countMissing: set<string>): (r: seq<AdminUser>)
    ensures |r| == |listing|
    ensures forall i :: 0 <= i < |r| ==> r[i] == WithPostCount(listing[i], posts, countMissing)
  {
    seq(|listing|, i requires 0 <= i < |listing| => WithPostCount(listing[i], posts, countMissing))
  }

  /** Each counted entry of a permutation of the users is some user's entry,
      and every user's entry is among them. */
  lemma CountedListing(users: seq<User>, listing: seq<User>, posts: seq<BlogPost>, countMissing: set<string>)
    requires multiset(listing) == multiset(users)
    ensures var r := Counted(listing, posts, countMissing);
            && (forall i :: 0 <= i < |r| ==> r[i] in Entries(users, posts, countMissing))
            && (forall u :: u in users ==> WithPostCount(u, posts, countMissing) in r)
  {
    var r := Counted(listing, posts, countMissing);
    forall i | 0 <= i < |r|
      ensures r[i] in Entries(users, posts, countMissing)
    {
      assert listing[i] in multiset(users);
    }
    forall u | u in users
      ensures WithPostCount(u, posts, countMissing) in r
    {
      assert u in multiset(listing);
      var i :| 0 <= i < |listing| && listing[i] == u;
      assert r[i] == WithPostCount(u, posts, countMissing);
    }
  }

  /** Every user's entry. */
  function Entries(users: seq<User>, posts: seq<BlogPost>, countMissing: set<string>): set<AdminUser>
  {
    set u | u in users :: WithPostCount(u, posts, countMissing)
  }

  /** `loadUsers()`: an auth error or no session fails; so does the listing;
      the role lookup in between is made but not consulted. */
  function LoadUsers(auth: AuthState, users: seq<User>, posts: seq<BlogPost>,
                     listFault: Option<string>, countMissing: set<string>): (r: Result<seq<AdminUser>, Failure>)
    ensures r.Ok? <==> auth.SignedIn? && listFault.None?
    ensures auth.SignedOut? ==> r == Err(Thrown(NotAuthenticated))
    ensures r.Ok? ==> |r.value| == |users|
    ensures r.Ok? ==> forall i, j :: 0 <= i < j < |r.value| ==> r.value[i].createdAt >= r.value[j].createdAt
    ensures r.Ok? ==> forall i :: 0 <= i < |r.value| ==> r.value[i] in Entries(users, posts, countMissing)
    ensures r.Ok? ==> forall u :: u in users ==> WithPostCount(u, posts, countMissing) in r.value
  {
    if auth.AuthFailed? then Err(AuthFailure(auth.message))
    else if auth.SignedOut? then Err(Thrown(NotAuthenticated))
    else if listFault.Some? then Err(StoreFailure(listFault.value))
    else
      NewerUserIsPreorder();
      var listing := Sort(users, NewerUser);
      assert |listing| == |multiset(listing)| == |users|;
      CountedListing(users, listing, posts, countMissing);
      Ok(Counted(listing, posts, countMissing))
  }

  // ---------------------------------------------------------------------------
  // The panel
  // ---------------------------------------------------------------------------

  /** The panel's state: the list shown, the two inputs, the message. */
  datatype Panel = Panel(listed: seq<AdminUser>, loading: bool, promoteInput: string,
                         demoteInput: string, actionLoading: bool, message: string)

  /** The state after a `loadUsers()` that ended with `outcome`: a failure
      keeps the old list and overwrites the message. */
  function AfterLoad(panel: Panel, outcome: Result<seq<AdminUser>, Failure>): (p: Panel)
    ensures !p.loading
    ensures p == panel.(listed := p.listed, loading := false, message := p.message)
    ensures outcome.Ok? ==> p.listed == outcome.value && p.message == panel.message
    ensures outcome.Err? ==> p.listed == panel.listed && p.message == LoadFailed
  {
    match outcome
    case Ok(list) => panel.(listed := list, loading := false)
    case Err(_) => panel.(message := LoadFailed, loading := false)
  }

  /** Pressing Promote: the call, then on success clearing the input and
      reloading the list from the updated table. */
  function PressPromote(panel: Panel, auth: AuthState, users: seq<User>, posts: seq<BlogPost>,
                        now: Timestamp, fault: Option<string>, listFault: Option<string>,
                        countMissing: set<string>): (r: (Panel, seq<User>))
    ensures Trim(panel.promoteInput) == "" ==> r == (panel, users)
    ensures Trim(panel.promoteInput) != "" ==> !r.0.actionLoading
    ensures Trim(panel.promoteInput) != "" && fault.Some? ==>
              r == (panel.(actionLoading := false, message := PromoteFailed), users)
    ensures Trim(panel.promoteInput) != "" && fault.None? ==>
              && r.1 == PromoteToAdmin(users, panel.promoteInput, now, None).users
              && r.0.promoteInput == ""
              && r.0 == AfterLoad(panel.(promoteInput := "", actionLoading := false,
                                         message := PromotedMessage(panel.promoteInput)),
                                  LoadUsers(auth, r.1, posts, listFault, countMissing))
  {
    match PromoteToAdmin(users, panel.promoteInput, now, fault)
    case Ignored => (panel, users)
    case Applied(table, ok, message) =>
      if !ok then (panel.(actionLoading := false, message := message), users)
      else
        var cleared := panel.(promoteInput := "", actionLoading := false, message := message);
        (AfterLoad(cleared, LoadUsers(auth, table, posts, listFault, countMissing)), table)
  }

  /** Pressing Demote, as `PressPromote` with the other input. */
  function PressDemote(panel: Panel, auth: AuthState, users: seq<User>, posts: seq<BlogPost>,
                       now: Timestamp, fault: Option<string>, listFault: Option<string>,
                       countMissing: set<string>): (r: (Panel, seq<User>))
    ensures Trim(panel.demoteInput) == "" ==> r == (panel, users)
    ensures Trim(panel.demoteInput) != "" ==> !r.0.actionLoading
    ensures Trim(panel.demoteInput) != "" && fault.Some? ==>
              r == (panel.(actionLoading := false, message := DemoteFailed), users)
    ensures Trim(panel.demoteInput) != "" && fault.None? ==>
              && r.1 == DemoteFromAdmin(users, panel.demoteInput, now, None).users
              && r.0.demoteInput == ""
              && r.0 == AfterLoad(panel.(demoteInput := "", actionLoading := false,
                                         message := DemotedMessage(panel.demoteInput)),
                                  LoadUsers(auth, r.1, posts, listFault, countMissing))
  {
    match DemoteFromAdmin(users, panel.demoteInput, now, fault)
    case Ignored => (panel, users)
    case Applied(table, ok, message) =>
      if !ok then (panel.(actionLoading := false, message := message), users)
      else
        var cleared := panel.(demoteInput := "", actionLoading := false, message := message);
        (AfterLoad(cleared, LoadUsers(auth, table, posts, listFault, countMissing)), table)
  }

  // ---------------------------------------------------------------------------
  // Message styling
  // ---------------------------------------------------------------------------

  /** `message.includes('Successfully')`: the green style. */
  predicate IsSuccessMessage(m: string) {
    Contains(m, "Successfully")
  }

  /** The two success messages are styled as successes. */
  lemma SuccessMessagesStyled(email: string)
    ensures IsSuccessMessage(PromotedMessage(email)) && IsSuccessMessage(DemotedMessage(email))
  {
    PrefixContained("Successfully", " promoted " + email + " to admin");
    assert PromotedMessage(email) == "Successfully" + (" promoted " + email + " to admin");
    PrefixContained("Successfully", " demoted " + email + " from admin");
    assert DemotedMessage(email) == "Successfully" + (" demoted " + email + " from admin");
  }

  /** The three failure messages are styled as failures. */
  lemma FailureMessagesStyled()
    ensures !IsSuccessMessage(PromoteFailed) && !IsSuccessMessage(DemoteFailed)
    ensures !IsSuccessMessage(LoadFailed)
  {
    MissingCharNotContained(PromoteFailed, "Successfully", 'S');
    MissingCharNotContained(DemoteFailed, "Successfully", 'S');
    MissingCharNotContained(LoadFailed, "Successfully", 'S');
  }

  /** A promotion that succeeds but whose reload fails ends with a failure
      message: the reload overwrites the success report. */
  lemma ReloadFailureHidesPromotion(panel: Panel, auth: AuthState, users: seq<User>, posts: seq<BlogPost>,
                                    now: Timestamp, listFault: Option<string>, countMissing: set<string>)
    requires Trim(panel.promoteInput) != ""
    requires !auth.SignedIn? || listFault.Some?
    ensures var r := PressPromote(panel, auth, users, posts, now, None, listFault, countMissing);
            r.0.message == LoadFailed && !IsSuccessMessage(r.0.message)
  {
    FailureMessagesStyled();
  }
}
