/** The authentication routes: signup, login, the OAuth callback and
    logout, over a store of user accounts and login sessions. A user's id
    is its position in the store and sessions are kept in the order they
    were created, so "most recent" means "later in the sequence". Password
    hashes, refresh-token hashes and session tokens are produced by
    libraries outside the model and arrive as parameters; the password
    check and the OAuth provider are oracles. Times are seconds. */
module Auth {
  import opened Wrappers
  import opened Strings
  import opened Seqs

  /** A refresh token and a session expire thirty days after login. */
  const TOKEN_LIFETIME: int := 30 * 86400

  /** A login keeps at most this many of the user's older sessions active. */
  const KEPT_SESSIONS: nat := 4

  datatype Account = Account(
    email: string,
    passwordHash: string,
    name: string,
    company: Option<string>,
    role: string,
    plan: string,
    active: bool,
    locked: bool,
    failedLogins: nat,
    refreshToken: Option<string>,
    tokenExpiresAt: Option<int>,
    lastLogin: Option<int>,
    lastLoginIp: Option<string>)

  datatype Session = Session(userId: nat, token: string, device: string, ip: string, expiresAt: int, active: bool)

  // ---------------------------------------------------------------------
  // Email normalisation

  /** `email.strip().lower()` */
  function NormalEmail(s: string): string {
    Lower(Strip(s))
  }

  lemma StripUnpadded(t: string)
    requires t != [] ==> !IsSpace(t[0]) && !IsSpace(t[|t| - 1])
    ensures Strip(t) == t
  {
    assert LStrip(t) == t;
  }

  /** An address in normal form: non-empty, no upper-case letter, and no
      whitespace at either end. */
  predicate IsNormal(e: string) {
    && e != []
    && !IsSpace(e[0]) && !IsSpace(e[|e| - 1])
    && forall i :: 0 <= i < |e| ==> !IsUpperAscii(e[i])
  }

  /** Lower-casing keeps every non-space character a non-space. */
  lemma LowerKeepsNonSpace(c: char)
    requires !IsSpace(c)
    ensures !IsSpace(LowerChar(c)) && !IsUpperAscii(LowerChar(c))
  {
  }

  /** Normalising gives the empty string exactly for a blank input. */
  lemma NormalEmailBlank(s: string)
    ensures NormalEmail(s) == "" <==> forall i :: 0 <= i < |s| ==> IsSpace(s[i])
  {
    assert |NormalEmail(s)| == |Strip(s)|;
    StripEmptyIffBlank(s);
  }

  /** A non-empty normalisation is an address in normal form. */
  lemma NormalEmailIsNormal(s: string)
    ensures NormalEmail(s) != "" ==> IsNormal(NormalEmail(s))
  {
    var t := Strip(s);
    if t != [] {
      LowerOfStripped(t);
    }
  }

  lemma LowerOfStripped(t: string)
    requires t != [] && !IsSpace(t[0]) && !IsSpace(t[|t| - 1])
    ensures IsNormal(Lower(t))
  {
    var n := Lower(t);
    LowerKeepsNonSpace(t[0]);
    LowerKeepsNonSpace(t[|t| - 1]);
    assert n[0] == LowerChar(t[0]) && n[|n| - 1] == LowerChar(t[|t| - 1]);
  }

  /** Normalising twice changes nothing. */
  lemma NormalEmailIdempotent(s: string)
    ensures NormalEmail(NormalEmail(s)) == NormalEmail(s)
  {
    NormalEmailIsNormal(s);
    if NormalEmail(s) != "" {
      NormalIsFixed(NormalEmail(s));
    }
  }

  lemma NormalIsFixed(e: string)
    requires IsNormal(e)
    ensures NormalEmail(e) == e
  {
    StripUnpadded(e);
    assert Lower(e) == e;
  }

  // ---------------------------------------------------------------------
  // Lookup

  /** `User.query.filter_by(email=email).first()`: the first account with
      that address. */
  function UserByEmail(users: seq<Account>, email: string): (r: Option<nat>)
    ensures r.None? <==> forall i :: 0 <= i < |users| ==> users[i].email != email
    ensures r.Some? ==> r.value < |users| && users[r.value].email == email
    ensures r.Some? ==> forall i :: 0 <= i < r.value ==> users[i].email != email
  {
    if users == [] then None
    else if users[0].email == email then Some(0)
    else match UserByEmail(users[1..], email) {
      case None => None
      case Some(i) => assert users[i + 1] == users[1..][i]; Some(i + 1)
    }
  }

  // ---------------------------------------------------------------------
  // Sessions

  predicate Owned(s: Session, uid: nat) {
    s.userId == uid && s.active
  }

  predicate Decreasing(r: seq<nat>) {
    forall a, b :: 0 <= a < b < |r| ==> r[a] > r[b]
  }

  /** The active sessions of a user, newest first (the query ordered by
      `created_at` descending), as positions in the store. */
  function ActiveNewestFirst(ss: seq<Session>, uid: nat): (r: seq<nat>)
    ensures forall k :: 0 <= k < |r| ==> r[k] < |ss| && Owned(ss[r[k]], uid)
    ensures forall j :: 0 <= j < |ss| && Owned(ss[j], uid) ==> j in r
    ensures Decreasing(r)
  {
    if ss == [] then []
    else
      var n := |ss| - 1;
      var rest := ActiveNewestFirst(ss[..n], uid);
      assert forall k :: 0 <= k < |rest| ==> ss[rest[k]] == ss[..n][rest[k]];
      assert forall j :: 0 <= j < n ==> ss[j] == ss[..n][j];
      (if Owned(ss[n], uid) then [n] else []) + rest
  }

  /** Two newest-first lists of the same positions are the same list. */
  lemma {:induction false} DecreasingUnique(a: seq<nat>, b: seq<nat>)
    requires Decreasing(a) && Decreasing(b)
    requires forall x :: x in a <==> x in b
    ensures a == b
  {
    assert a != [] ==> a[0] in b;
    assert b != [] ==> b[0] in a;
    if a != [] && b != [] {
      assert a[0] == b[0] by {
        assert a[0] in b;
        assert b[0] in a;
      }
      forall x
        ensures x in a[1..] <==> x in b[1..]
      {
        if x in a[1..] {
          var k :| 1 <= k < |a| && a[k] == x;
          assert x in b && x != b[0];
        }
        if x in b[1..] {
          var k :| 1 <= k < |b| && b[k] == x;
          assert x in a && x != a[0];
        }
      }
      DecreasingUnique(a[1..], b[1..]);
    }
  }

  function Revoke(s: Session): Session {
    s.(active := false)
  }

  /** `active_sessions[4:]` when there are at least five: the user's active
      sessions older than the four newest. */
  function Victims(ss: seq<Session>, uid: nat): seq<nat> {
    var active := ActiveNewestFirst(ss, uid);
    if |active| >= KEPT_SESSIONS + 1 then active[KEPT_SESSIONS..] else []
  }

  /** The store after the cap: the victims revoked, every other session as
      it was. */
  function Capped(ss: seq<Session>, uid: nat): (r: seq<Session>)
    ensures |r| == |ss|
  {
    var victims := Victims(ss, uid);
    seq(|ss|, j requires 0 <= j < |ss| => if j in victims then Revoke(ss[j]) else ss[j])
  }

  /** A position stays an active session of the user after the cap
      exactly when it is one of the four newest before it. */
  lemma KeptMembers(ss: seq<Session>, uid: nat, x: nat)
    ensures x in ActiveNewestFirst(Capped(ss, uid), uid) <==> x in Take(ActiveNewestFirst(ss, uid), KEPT_SESSIONS)
  {
    var c := Capped(ss, uid);
    var r := ActiveNewestFirst(ss, uid);
    var v := Victims(ss, uid);
    var kept := Take(r, KEPT_SESSIONS);
    assert forall m :: KEPT_SESSIONS <= m < |r| ==> r[m] in v;
    if x in ActiveNewestFirst(c, uid) {
      assert x < |ss| && Owned(c[x], uid);
      assert x !in v && c[x] == ss[x];
      var k :| 0 <= k < |r| && r[k] == x;
      assert k < KEPT_SESSIONS;
      assert kept[k] == x;
    }
    if x in kept {
      var k :| 0 <= k < |kept| && kept[k] == x;
      assert r[k] == x;
      assert forall m :: KEPT_SESSIONS <= m < |r| ==> r[m] < x;
      assert x !in v;
      assert c[x] == ss[x];
    }
  }

  /** The cap revokes only sessions of the user it runs for. */
  lemma OtherMembers(ss: seq<Session>, uid: nat, other: nat, x: nat)
    requires other != uid
    ensures x in ActiveNewestFirst(Capped(ss, uid), other) <==> x in ActiveNewestFirst(ss, other)
  {
    var c := Capped(ss, uid);
    var v := Victims(ss, uid);
    if x < |ss| {
      assert x in v ==> ss[x].userId == uid;
      assert Owned(c[x], other) <==> Owned(ss[x], other);
    }
  }

  /** The cap keeps exactly the four newest active sessions of the user
      active and changes nothing for other users. */
  lemma CappedKeepsNewest(ss: seq<Session>, uid: nat)
    ensures ActiveNewestFirst(Capped(ss, uid), uid) == Take(ActiveNewestFirst(ss, uid), KEPT_SESSIONS)
    ensures forall other :: other != uid ==> ActiveNewestFirst(Capped(ss, uid), other) == ActiveNewestFirst(ss, other)
  {
    var c := Capped(ss, uid);
    forall x
      ensures x in ActiveNewestFirst(c, uid) <==> x in Take(ActiveNewestFirst(ss, uid), KEPT_SESSIONS)
    {
      KeptMembers(ss, uid, x);
    }
    DecreasingUnique(ActiveNewestFirst(c, uid), Take(ActiveNewestFirst(ss, uid), KEPT_SESSIONS));
    forall other | other != uid
      ensures ActiveNewestFirst(c, other) == ActiveNewestFirst(ss, other)
    {
      forall x
        ensures x in ActiveNewestFirst(c, other) <==> x in ActiveNewestFirst(ss, other)
      {
        OtherMembers(ss, uid, other, x);
      }
      DecreasingUnique(ActiveNewestFirst(c, other), ActiveNewestFirst(ss, other));
    }
  }

  /** After the cap and the new session, the user's active sessions are the
      new one and the four newest before it: never more than five. */
  lemma SessionCap(ss: seq<Session>, uid: nat, s: Session)
    requires s.userId == uid && s.active
    ensures ActiveNewestFirst(Capped(ss, uid) + [s], uid) == [|ss|] + Take(ActiveNewestFirst(ss, uid), KEPT_SESSIONS)
    ensures |ActiveNewestFirst(Capped(ss, uid) + [s], uid)| <= KEPT_SESSIONS + 1
  {
    var c := Capped(ss, uid);
    assert (c + [s])[..|c|] == c;
    CappedKeepsNewest(ss, uid);
  }

  /** The bulk update of `logout`: every session of the user deactivated. */
  function LoggedOut(ss: seq<Session>, uid: nat): (r: seq<Session>)
    ensures |r| == |ss|
  {
    seq(|ss|, j requires 0 <= j < |ss| => if ss[j].userId == uid then Revoke(ss[j]) else ss[j])
  }

  /** Logout leaves the user no active session and changes nothing for
      anyone else. */
  lemma LogoutEndsSessions(ss: seq<Session>, uid: nat)
    ensures ActiveNewestFirst(LoggedOut(ss, uid), uid) == []
    ensures forall other :: other != uid ==> ActiveNewestFirst(LoggedOut(ss, uid), other) == ActiveNewestFirst(ss, other)
  {
    var l := LoggedOut(ss, uid);
    DecreasingUnique(ActiveNewestFirst(l, uid), []);
    forall other | other != uid
      ensures ActiveNewestFirst(l, other) == ActiveNewestFirst(ss, other)
    {
      DecreasingUnique(ActiveNewestFirst(l, other), ActiveNewestFirst(ss, other));
    }
  }

  // ---------------------------------------------------------------------
  // The store invariant

  /** Addresses are stored normalised, non-empty and unique: the address
      is the account's identity. */
  predicate UsersValid(users: seq<Account>) {
    && (forall i :: 0 <= i < |users| ==> IsNormal(users[i].email))
    && (forall i, j :: 0 <= i < j < |users| ==> users[i].email != users[j].email)
  }

  /** Every session belongs to one of the first `n` accounts. */
  predicate SessionsValid(ss: seq<Session>, n: nat) {
    forall j :: 0 <= j < |ss| ==> ss[j].userId < n
  }

  /** Rewriting an account without changing its address keeps the store
      valid. */
  lemma UpdateKeepsValid(users: seq<Account>, i: nat, a: Account)
    requires UsersValid(users) && i < |users| && a.email == users[i].email
    ensures UsersValid(users[i := a])
  {
    var u := users[i := a];
    assert forall k :: 0 <= k < |users| ==> u[k].email == users[k].email;
  }

  /** Adding an account keeps the store valid when its address is
      normalised, non-empty and not yet registered. */
  lemma AddKeepsValid(users: seq<Account>, a: Account)
    requires UsersValid(users)
    requires IsNormal(a.email) && UserByEmail(users, a.email).None?
    ensures UsersValid(users + [a])
  {
    var u := users + [a];
    assert forall k :: 0 <= k < |users| ==> u[k] == users[k];
  }

  /** The cap followed by a new session of an existing account keeps every
      session owned. */
  lemma CapKeepsOwners(ss: seq<Session>, uid: nat, n: nat, s: Session)
    requires SessionsValid(ss, n) && s.userId < n
    ensures SessionsValid(Capped(ss, uid) + [s], n)
  {
    var c := Capped(ss, uid);
    assert forall j :: 0 <= j < |ss| ==> c[j].userId == ss[j].userId;
    assert forall j :: 0 <= j < |c| ==> (c + [s])[j] == c[j];
  }

  /** Adding a session of one of the first `m` accounts, `m` at least the
      old count, keeps every session owned. */
  lemma AppendSession(ss: seq<Session>, n: nat, m: nat, s: Session)
    requires SessionsValid(ss, n) && n <= m && s.userId < m
    ensures SessionsValid(ss + [s], m)
  {
  }

  /** Logout changes no session's owner. */
  lemma LogoutKeepsOwners(ss: seq<Session>, uid: nat, n: nat)
    requires SessionsValid(ss, n)
    ensures SessionsValid(LoggedOut(ss, uid), n)
  {
  }

  // ---------------------------------------------------------------------
  // The routes

  /** What a login writes into the account: the refresh-token hash, its
      expiry and the time and address of the login. */
  function WithLogin(a: Account, refreshHash: string, now: int, ip: string): Account {
    a.(refreshToken := Some(refreshHash), tokenExpiresAt := Some(now + TOKEN_LIFETIME),
       lastLogin := Some(now), lastLoginIp := Some(ip))
  }

  function NewSession(uid: nat, token: string, device: string, ip: string, now: int): Session {
    Session(uid, token, device, ip, now + TOKEN_LIFETIME, true)
  }

  /** The `User-Agent` header, or "Unknown". */
  function DeviceOf(userAgent: Option<string>): string {
    userAgent.GetOr("Unknown")
  }

  /** The name given to an account created from OAuth: the provider's full
      name, or the part of the address before the first '@'. */
  function OAuthName(fullName: string, email: string): string {
    if fullName != "" then fullName else UpToFirst(email, "@")
  }

  /** The checks of `login`, in order, on the normalised address. */
  datatype LoginCheck = NoCredentials | Locked | WrongCredentials(account: Option<nat>) | Inactive | Accepted(uid: nat)

  function CheckLogin(users: seq<Account>, email: string, password: string, check: (string, string) -> bool): (v: LoginCheck)
    ensures v.Accepted? ==> v.uid < |users|
    ensures v.WrongCredentials? && v.account.Some? ==> v.account.value < |users|
  {
    if email == "" || password == "" then NoCredentials
    else match UserByEmail(users, email) {
      case None => WrongCredentials(None)
      case Some(u) =>
        if users[u].locked then Locked
        else if !check(users[u].passwordHash, password) then WrongCredentials(Some(u))
        else if !users[u].active then Inactive
        else Accepted(u)
    }
  }

  /** The order of the login checks: missing fields are refused before any
      lookup; a locked account is refused whatever password is given and
      whatever the password check would say; a wrong password counts only
      against an existing, unlocked account; an inactive account is refused
      only after its password was found correct; and a login is accepted
      only for the registered, unlocked, active account whose password
      checks. */
  lemma LoginChecksInOrder(users: seq<Account>, email: string, password: string, check: (string, string) -> bool)
    ensures CheckLogin(users, email, password, check) == NoCredentials <==> email == "" || password == ""
    ensures CheckLogin(users, email, password, check) == Locked ==>
              forall other: string, otherCheck: (string, string) -> bool ::
                other != "" ==> CheckLogin(users, email, other, otherCheck) == Locked
    ensures CheckLogin(users, email, password, check).WrongCredentials? ==>
              var account := CheckLogin(users, email, password, check).account;
              && account == UserByEmail(users, email)
              && (account.Some? ==> !users[account.value].locked && !check(users[account.value].passwordHash, password))
    ensures CheckLogin(users, email, password, check) == Inactive ==>
              var u := UserByEmail(users, email);
              u.Some? && check(users[u.value].passwordHash, password) && !users[u.value].active
    ensures CheckLogin(users, email, password, check).Accepted? ==>
              var u := CheckLogin(users, email, password, check).uid;
              && UserByEmail(users, email) == Some(u)
              && !users[u].locked && users[u].active && check(users[u].passwordHash, password)
  {
  }

  /** The account `oauth_callback` creates for an unknown address. */
  function OAuthAccount(email: string, fullName: string, passwordHash: string): Account {
    Account(email, passwordHash, OAuthName(fullName, email), None, "recruiter", "starter", true, false, 0,
            None, None, None, None)
  }

  datatype SignupOutcome = InvalidEmail | InvalidPassword | EmailTaken | SignedUp(userId: nat, sessionToken: string)

  datatype LoginOutcome =
    | MissingFields
    | AccountLocked
    | InvalidCredentials
    | AccountInactive
    | LoggedIn(userId: nat, sessionToken: string)

  /** What the OAuth provider reports for a valid token; absent keys are
      `None`. */
  datatype OAuthProfile = OAuthProfile(email: Option<string>, fullName: Option<string>, provider: Option<string>)

  datatype OAuthOutcome =
    | TokenRequired
    | OAuthNotConfigured
    | InvalidOAuthToken
    | EmailNotProvided
    | OAuthLoggedIn(userId: nat, provider: string, sessionToken: string)

  class AuthStore {
    var users: seq<Account>
    var sessions: seq<Session>

    predicate Valid()
      reads this
    {
      UsersValid(users) && SessionsValid(sessions, |users|)
    }

    constructor ()
      ensures Valid() && users == [] && sessions == []
    {
      users := [];
      sessions := [];
    }

    /** The cap of `login` and `oauth_callback`: with five or more active
        sessions, all but the four newest are revoked. */
    method CapSessions(uid: nat)
      modifies this
      ensures users == old(users)
      ensures sessions == Capped(old(sessions), uid)
    {
      ghost var ss := sessions;
      var active := ActiveNewestFirst(sessions, uid);
      if |active| >= KEPT_SESSIONS + 1 {
        var victims := active[KEPT_SESSIONS..];
        assert victims == Victims(ss, uid);
        var k := 0;
        while k < |victims|
          invariant 0 <= k <= |victims|
          invariant users == old(users)
          invariant |sessions| == |ss|
          invariant forall j :: 0 <= j < |ss| ==> sessions[j] == if j in victims[..k] then Revoke(ss[j]) else ss[j]
        {
          var j := victims[k];
          assert victims[..k + 1] == victims[..k] + [j];
          sessions := sessions[j := Revoke(sessions[j])];
          k := k + 1;
        }
        assert victims[..k] == victims;
      }
    }

    /** The common tail of `login` and `oauth_callback`: the login is
        recorded in the account, the user's sessions are capped and a new
        one is opened, leaving at most five active. */
    method StartSession(uid: nat, refreshHash: string, sessionToken: string, device: string, ip: string, now: int)
      requires Valid() && uid < |users|
      modifies this
      ensures Valid()
      ensures users == old(users)[uid := WithLogin(old(users)[uid], refreshHash, now, ip)]
      ensures sessions == Capped(old(sessions), uid) + [NewSession(uid, sessionToken, device, ip, now)]
      ensures ActiveNewestFirst(sessions, uid) == [|old(sessions)|] + Take(ActiveNewestFirst(old(sessions), uid), KEPT_SESSIONS)
      ensures |ActiveNewestFirst(sessions, uid)| <= KEPT_SESSIONS + 1
    {
      UpdateKeepsValid(users, uid, WithLogin(users[uid], refreshHash, now, ip));
      users := users[uid := WithLogin(users[uid], refreshHash, now, ip)];
      ghost var before := sessions;
      CapSessions(uid);
      var session := NewSession(uid, sessionToken, device, ip, now);
      SessionCap(before, uid, session);
      CapKeepsOwners(before, uid, |users|, session);
      sessions := sessions + [session];
    }

    /** `increment_failed_login`: one more failed login on the account. */
    method CountFailure(uid: nat)
      requires Valid() && uid < |users|
      modifies this
      ensures Valid()
      ensures users == old(users)[uid := old(users)[uid].(failedLogins := old(users)[uid].failedLogins + 1)]
      ensures sessions == old(sessions)
    {
      UpdateKeepsValid(users, uid, users[uid].(failedLogins := users[uid].failedLogins + 1));
      users := users[uid := users[uid].(failedLogins := users[uid].failedLogins + 1)];
    }

    /** `reset_failed_login`: the failure count back to zero. */
    method ResetFailures(uid: nat)
      requires Valid() && uid < |users|
      modifies this
      ensures Valid()
      ensures users == old(users)[uid := old(users)[uid].(failedLogins := 0)]
      ensures sessions == old(sessions)
    {
      UpdateKeepsValid(users, uid, users[uid].(failedLogins := 0));
      users := users[uid := users[uid].(failedLogins := 0)];
    }

    /** The account of `oauth_callback`: the one registered under the
        address, or a new recruiter account named after the provider's
        full name or the address. */
    method AccountFor(email: string, fullName: string, passwordHash: string) returns (uid: nat)
      requires Valid() && IsNormal(email)
      modifies this
      ensures Valid()
      ensures sessions == old(sessions)
      ensures uid < |users| && users[uid].email == email
      ensures UserByEmail(old(users), email).Some? ==> uid == UserByEmail(old(users), email).value && users == old(users)
      ensures UserByEmail(old(users), email).None? ==>
                && uid == |old(users)|
                && users == old(users) + [OAuthAccount(email, fullName, passwordHash)]
    {
      var found := UserByEmail(users, email);
      if found.Some? {
        return found.value;
      }
      var account := OAuthAccount(email, fullName, passwordHash);
      AddKeepsValid(users, account);
      uid := |users|;
      users := users + [account];
    }

    /** `signup`. A rejected request changes nothing; an address already
        registered is refused with 409. */
    method Signup(emailIn: string, password: string, nameIn: string, companyIn: string,
                  validEmail: string -> bool, validPassword: string -> bool,
                  passwordHash: string, refreshHash: string, sessionToken: string,
                  userAgent: Option<string>, ip: string, now: int)
      returns (out: SignupOutcome)
      requires Valid()
      modifies this
      ensures Valid()
      ensures var email := NormalEmail(emailIn);
              && (out == InvalidEmail <==> email == "" || !validEmail(email))
              && (out == InvalidPassword <==> email != "" && validEmail(email) && (password == "" || !validPassword(password)))
              && (out == EmailTaken <==> && email != "" && validEmail(email) && password != "" && validPassword(password)
                                         && UserByEmail(old(users), email).Some?)
    ensures !out.SignedUp? ==> users == old(users) && sessions == old(sessions)
      ensures out.SignedUp? ==>
                && out.userId == |old(users)|
                && out.sessionToken == sessionToken
                && users == old(users) + [Account(NormalEmail(emailIn), passwordHash, Strip(nameIn), Some(Strip(companyIn)),
                                                  "recruiter", "starter", true, false, 0, Some(refreshHash),
                                                  Some(now + TOKEN_LIFETIME), Some(now), Some(ip))]
                && sessions == old(sessions) + [NewSession(out.userId, sessionToken, DeviceOf(userAgent), ip, now)]
    {
      var email := NormalEmail(emailIn);
      if email == "" || !validEmail(email) {
        return InvalidEmail;
      }
      if password == "" || !validPassword(password) {
        return InvalidPassword;
      }
      if UserByEmail(users, email).Some? {
        return EmailTaken;
      }
      NormalEmailIsNormal(emailIn);
      var uid := |users|;
      var account := Account(email, passwordHash, Strip(nameIn), Some(Strip(companyIn)), "recruiter", "starter",
                             true, false, 0, None, None, None, None);
      AddKeepsValid(users, WithLogin(account, refreshHash, now, ip));
      AppendSession(sessions, |users|, |users| + 1, NewSession(uid, sessionToken, DeviceOf(userAgent), ip, now));
      users := users + [WithLogin(account, refreshHash, now, ip)];
      sessions := sessions + [NewSession(uid, sessionToken, DeviceOf(userAgent), ip, now)];
      out := SignedUp(uid, sessionToken);
    }

    /** `login`. The outcome is the one `CheckLogin` decides. A wrong
        password counts a failure against the account; a successful login
        resets the count, records the login, caps the user's sessions and
        opens a new one. */
    method Login(emailIn: string, password: string, check: (string, string) -> bool,
                 refreshHash: string, sessionToken: string, userAgent: Option<string>, ip: string, now: int)
      returns (out: LoginOutcome)
      requires Valid()
      modifies this
      ensures Valid()
      ensures var verdict := CheckLogin(old(users), NormalEmail(emailIn), password, check);
              verdict == NoCredentials ==> out == MissingFields && users == old(users) && sessions == old(sessions)
      ensures var verdict := CheckLogin(old(users), NormalEmail(emailIn), password, check);
              verdict == Locked ==> out == AccountLocked && users == old(users) && sessions == old(sessions)
      ensures var verdict := CheckLogin(old(users), NormalEmail(emailIn), password, check);
              verdict == Inactive ==> out == AccountInactive && users == old(users) && sessions == old(sessions)
      ensures var verdict := CheckLogin(old(users), NormalEmail(emailIn), password, check);
              verdict == WrongCredentials(None) ==> out == InvalidCredentials && users == old(users) && sessions == old(sessions)
      ensures var verdict := CheckLogin(old(users), NormalEmail(emailIn), password, check);
              verdict.WrongCredentials? && verdict.account.Some? ==>
                var uid := verdict.account.value;
                && out == InvalidCredentials
                && users == old(users)[uid := old(users)[uid].(failedLogins := old(users)[uid].failedLogins + 1)]
                && sessions == old(sessions)
      ensures var verdict := CheckLogin(old(users), NormalEmail(emailIn), password, check);
              verdict.Accepted? ==>
                var uid := verdict.uid;
                && out == LoggedIn(uid, sessionToken)
                && users == old(users)[uid := WithLogin(old(users)[uid].(failedLogins := 0), refreshHash, now, ip)]
                && sessions == Capped(old(sessions), uid) + [NewSession(uid, sessionToken, DeviceOf(userAgent), ip, now)]
                && |ActiveNewestFirst(sessions, uid)| <= KEPT_SESSIONS + 1
    {
      var email := NormalEmail(emailIn);
      var verdict := CheckLogin(users, email, password, check);
      if verdict.Accepted? {
        ResetFailures(verdict.uid);
        StartSession(verdict.uid, refreshHash, sessionToken, DeviceOf(userAgent), ip, now);
        return LoggedIn(verdict.uid, sessionToken);
      }
      if verdict.WrongCredentials? {
        if verdict.account.Some? {
          CountFailure(verdict.account.value);
        }
        return InvalidCredentials;
      }
      out := if verdict == NoCredentials then MissingFields
             else if verdict == Locked then AccountLocked
             else AccountInactive;
    }

    /** `oauth_callback`. The provider's address is normalised; an unknown
        address gets a new recruiter account. The lock and the active flag
        of an existing account are not consulted. The session cap is the
        one of `login`; the device is labelled with the provider. */
    method OAuthCallback(accessToken: Option<string>, configured: bool, verify: string -> Option<OAuthProfile>,
                         passwordHash: string, refreshHash: string, sessionToken: string,
                         userAgent: Option<string>, ip: string, now: int)
      returns (out: OAuthOutcome)
      requires Valid()
      modifies this
      ensures Valid()
      ensures out == TokenRequired <==> accessToken.None? || accessToken.value == ""
      ensures out == OAuthNotConfigured <==> accessToken.Some? && accessToken.value != "" && !configured
      ensures out == InvalidOAuthToken <==>
                accessToken.Some? && accessToken.value != "" && configured && verify(accessToken.value).None?
      ensures out == EmailNotProvided <==>
                && accessToken.Some? && accessToken.value != "" && configured && verify(accessToken.value).Some?
                && NormalEmail(verify(accessToken.value).value.email.GetOr("")) == ""
      ensures !out.OAuthLoggedIn? ==> users == old(users) && sessions == old(sessions)
      ensures out.OAuthLoggedIn? ==>
                var profile := verify(accessToken.value).value;
                var email := NormalEmail(profile.email.GetOr(""));
                var found := UserByEmail(old(users), email);
                var registered := if found.Some? then old(users)
                                  else old(users) + [OAuthAccount(email, profile.fullName.GetOr(""), passwordHash)];
                var uid := out.userId;
                && uid == (if found.Some? then found.value else |old(users)|)
                && out.provider == profile.provider.GetOr("email")
                && out.sessionToken == sessionToken
                && users == registered[uid := WithLogin(registered[uid], refreshHash, now, ip)]
                && sessions == Capped(old(sessions), uid)
                               + [NewSession(uid, sessionToken, Capitalize(out.provider) + " - " + DeviceOf(userAgent), ip, now)]
                && |ActiveNewestFirst(sessions, uid)| <= KEPT_SESSIONS + 1
    {
      if accessToken.None? || accessToken.value == "" {
        return TokenRequired;
      }
      if !configured {
        return OAuthNotConfigured;
      }
      var verified := verify(accessToken.value);
      if verified.None? {
        return InvalidOAuthToken;
      }
      var profile := verified.value;
      var email := NormalEmail(profile.email.GetOr(""));
      var provider := profile.provider.GetOr("email");
      if email == "" {
        return EmailNotProvided;
      }
      NormalEmailIsNormal(profile.email.GetOr(""));
      var uid := AccountFor(email, profile.fullName.GetOr(""), passwordHash);
      StartSession(uid, refreshHash, sessionToken, Capitalize(provider) + " - " + DeviceOf(userAgent), ip, now);
      out := OAuthLoggedIn(uid, provider, sessionToken);
    }

    /** `logout`: every session of the user is deactivated and, when the
        account exists, its refresh token and expiry are cleared. */
    method Logout(uid: nat)
      requires Valid()
      modifies this
      ensures Valid()
      ensures sessions == LoggedOut(old(sessions), uid)
      ensures ActiveNewestFirst(sessions, uid) == []
      ensures users == if uid < |old(users)| then old(users)[uid := old(users)[uid].(refreshToken := None, tokenExpiresAt := None)]
                       else old(users)
    {
      ghost var before := sessions;
      sessions := LoggedOut(sessions, uid);
      LogoutEndsSessions(before, uid);
      LogoutKeepsOwners(before, uid, |users|);
      if uid < |users| {
        UpdateKeepsValid(users, uid, users[uid].(refreshToken := None, tokenExpiresAt := None));
        users := users[uid := users[uid].(refreshToken := None, tokenExpiresAt := None)];
      }
    }
  }
}
