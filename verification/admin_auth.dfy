/**
 * The `useAdminAuth` hook: a flag-and-username admin session kept under two
 * keys of the browser's local storage, mirrored into the hook's state.
 * Local storage is a string map shared with the rest of the page; the hook
 * touches only its own two keys.
 */
module AdminAuth {
  const SessionKey := "trendbase-admin-session"
  const UsernameKey := "trendbase-admin-username"

  /** The hook's React state. */
  datatype HookState = HookState(isAdmin: bool, username: string, isLoading: bool)

  /** Local storage together with the hook's state. */
  datatype Browser = Browser(storage: map<string, string>, hook: HookState)

  /** The state before the mount effect has run. */
  const Initial := HookState(false, "", true)

  /** `adminSession === "true" && username`: the flag is the string "true"
      and the username is present and non-empty. */
  predicate StoredSession(storage: map<string, string>) {
    && SessionKey in storage && storage[SessionKey] == "true"
    && UsernameKey in storage && storage[UsernameKey] != ""
  }

  /** The keys other than the hook's own two. */
  ghost predicate OtherKeysKept(before: map<string, string>, after: map<string, string>) {
    forall k :: k != SessionKey && k != UsernameKey ==>
      (k in after <==> k in before) && (k in before ==> after[k] == before[k])
  }

  /** The mount effect: adopt a stored session if there is one, and stop
      loading. It never clears the admin flag. */
  function Mount(b: Browser): (r: Browser)
    ensures r.storage == b.storage
    ensures !r.hook.isLoading
    ensures r.hook.isAdmin <==> b.hook.isAdmin || StoredSession(b.storage)
    ensures StoredSession(b.storage) ==> r.hook.username == b.storage[UsernameKey]
    ensures !StoredSession(b.storage) ==> r.hook.username == b.hook.username
  {
    if StoredSession(b.storage) then
      Browser(b.storage, HookState(true, b.storage[UsernameKey], false))
    else
      Browser(b.storage, b.hook.(isLoading := false))
  }

  /** `login(username)`: store the session and mark the hook as admin, even
      for an empty username. */
  function Login(b: Browser, username: string): (r: Browser)
    ensures SessionKey in r.storage && r.storage[SessionKey] == "true"
    ensures UsernameKey in r.storage && r.storage[UsernameKey] == username
    ensures OtherKeysKept(b.storage, r.storage)
    ensures r.hook.isAdmin && r.hook.username == username
    ensures r.hook.isLoading == b.hook.isLoading
  {
    assert SessionKey[16] != UsernameKey[16];
    Browser(b.storage[SessionKey := "true"][UsernameKey := username],
            b.hook.(isAdmin := true, username := username))
  }

  /** `logout()`: remove both keys and reset the hook. */
  function Logout(b: Browser): (r: Browser)
    ensures SessionKey !in r.storage && UsernameKey !in r.storage
    ensures OtherKeysKept(b.storage, r.storage)
    ensures !r.hook.isAdmin && r.hook.username == ""
    ensures r.hook.isLoading == b.hook.isLoading
  {
    Browser(b.storage - {SessionKey, UsernameKey}, b.hook.(isAdmin := false, username := ""))
  }

  /** `checkAuth()`: re-read storage, mirror it into the hook, and report. */
  function CheckAuth(b: Browser): (r: (Browser, bool))
    ensures r.0.storage == b.storage
    ensures r.1 <==> StoredSession(b.storage)
    ensures r.0.hook.isAdmin == r.1
    ensures r.0.hook.username == if r.1 then b.storage[UsernameKey] else ""
    ensures r.0.hook.isLoading == b.hook.isLoading
  {
    if StoredSession(b.storage) then
      (b.(hook := b.hook.(isAdmin := true, username := b.storage[UsernameKey])), true)
    else
      (b.(hook := b.hook.(isAdmin := false, username := "")), false)
  }

  /** After `login(u)`, `checkAuth` succeeds exactly when `u` is non-empty,
      and then reports `u`. */
  lemma LoginThenCheck(b: Browser, u: string)
    ensures CheckAuth(Login(b, u)).1 <==> u != ""
    ensures u != "" ==> CheckAuth(Login(b, u)).0 == Login(b, u)
  {
  }

  /** An empty username leaves the hook claiming admin until the next check
      withdraws it. */
  lemma EmptyLoginWithdrawnByCheck(b: Browser)
    ensures Login(b, "").hook.isAdmin
    ensures !CheckAuth(Login(b, "")).0.hook.isAdmin
  {
  }

  /** After `logout()`, `checkAuth` fails and leaves the hook as logout did. */
  lemma LogoutThenCheck(b: Browser)
    ensures !CheckAuth(Logout(b)).1
    ensures CheckAuth(Logout(b)).0 == Logout(b)
  {
  }

  /** Checking twice is checking once. */
  lemma CheckIdempotent(b: Browser)
    ensures CheckAuth(CheckAuth(b).0) == CheckAuth(b)
  {
  }

  /** A reload after `login(u)` with a non-empty `u` mounts signed in. */
  lemma LoginSurvivesReload(b: Browser, u: string)
    requires u != ""
    ensures Mount(Browser(Login(b, u).storage, Initial)).hook == HookState(true, u, false)
  {
  }

  /** A reload after `logout()` mounts signed out. */
  lemma LogoutSurvivesReload(b: Browser)
    ensures Mount(Browser(Logout(b).storage, Initial)).hook == HookState(false, "", false)
  {
  }

  /** Mounting agrees with checking when it starts from the initial state. */
  lemma MountAgreesWithCheck(storage: map<string, string>)
    ensures Mount(Browser(storage, Initial)).hook.isAdmin == CheckAuth(Browser(storage, Initial)).1
  {
  }
}
