/**
 * What main.py's handlers promise, stated over the functions in Handlers:
 * each handler keeps the tables valid, rejects without changing anything,
 * or makes exactly the change described; and the properties that span
 * several requests (a session's lifetime, single-use reset tokens, one
 * application per user).
 */
module HandlerProperties {
  import opened Wrappers
  import opened Passwords
  import opened Schema
  import opened Handlers

  /** Some user has this email and this password checks against their hash. */
  ghost predicate CredentialsMatch(t: Tables, email: string, password: string) {
    exists i :: 0 <= i < |t.users| && t.users[i].email == email && VerifyPassword(password, t.users[i].passwordHash)
  }

  /** Some user has this email. */
  ghost predicate EmailKnown(t: Tables, email: string) {
    exists i :: 0 <= i < |t.users| && t.users[i].email == email
  }

  /** A session is usable exactly while its expiry is not before now, and it yields the user it was made for. */
  lemma CurrentUserIff(t: Tables, cookie: Option<string>, now: Time)
    requires Valid(t)
    ensures CurrentUser(t, cookie, now).Some? <==>
      HasToken(cookie) && cookie.value in t.sessions && now <= t.sessions[cookie.value].expiresAt
    ensures CurrentUser(t, cookie, now).Some? ==>
      var u := CurrentUser(t, cookie, now).value;
      u.id == t.sessions[cookie.value].userId && IsUserId(t, u.id) && u == t.users[u.id - 1]
  {
    if HasToken(cookie) && cookie.value in t.sessions {
      IndexOfIdInValid(t, t.sessions[cookie.value].userId);
    }
  }

  /** Appending the next user with an email no row has keeps the tables valid. */
  lemma AddUserKeepsValid(t: Tables, u: User)
    requires Valid(t) && u.id == |t.users| + 1
    requires forall i :: 0 <= i < |t.users| ==> t.users[i].email != u.email
    ensures Valid(t.(users := t.users + [u]))
  {
    var users := t.users + [u];
    assert forall i :: 0 <= i < |t.users| ==> users[i] == t.users[i];
    assert users[|t.users|] == u;
    forall i, j | 0 <= i < j < |users|
      ensures users[i].email != users[j].email
    {
      if j == |t.users| {
        assert users[i] == t.users[i];
      }
    }
  }

  lemma RegisterKeepsValid(t: Tables, email: string, fullname: string, password: string, salt: nat, now: Time)
    requires Valid(t)
    ensures Valid(Register(t, email, fullname, password, salt, now).tables)
  {
    if IndexOfEmail(t.users, email).None? && Hashable(password) {
      var u := User(|t.users| + 1, email, fullname, HashPassword(password, salt), now);
      AddUserKeepsValid(t, u);
      assert Register(t, email, fullname, password, salt, now).tables == t.(users := t.users + [u]);
    }
  }

  /**
   * Registration is refused for a taken email, fails with 500 for a password
   * passlib refuses, and otherwise adds exactly one user with that email.
   */
  lemma RegisterOutcome(t: Tables, email: string, fullname: string, password: string, salt: nat, now: Time)
    requires Valid(t)
    ensures var h := Register(t, email, fullname, password, salt, now);
      && Valid(h.tables)
      && ((exists i :: 0 <= i < |t.users| && t.users[i].email == email) ==>
            h == Handled(Rejected(400, MSG_USER_EXISTS), t))
      && ((forall i :: 0 <= i < |t.users| ==> t.users[i].email != email) && !Hashable(password) ==>
            h == Handled(SERVER_ERROR, t))
      && ((forall i :: 0 <= i < |t.users| ==> t.users[i].email != email) && Hashable(password) ==>
            && h.reply == Ok(MSG_REGISTERED)
            && |h.tables.users| == |t.users| + 1
            && h.tables.users[..|t.users|] == t.users
            && IndexOfEmail(h.tables.users, email) == Some(|t.users|)
            && h.tables.users[|t.users|].fullname == fullname
            && VerifyPassword(password, h.tables.users[|t.users|].passwordHash)
            && h.tables.(users := t.users) == t)
  {
    RegisterKeepsValid(t, email, fullname, password, salt, now);
    if (forall i :: 0 <= i < |t.users| ==> t.users[i].email != email) && Hashable(password) {
      var u := User(|t.users| + 1, email, fullname, HashPassword(password, salt), now);
      var users := t.users + [u];
      assert Register(t, email, fullname, password, salt, now).tables == t.(users := users);
      assert users[..|t.users|] == t.users;
      IndexOfEmailAppend(t.users, u);
    }
  }

  /** A login's new session belongs to the user at row i, so the tables stay valid. */
  lemma CreateSessionKeepsValid(t: Tables, i: nat, remember: bool, token: string, now: Time)
    requires Valid(t) && i < |t.users| && FreshToken(token, t.sessions)
    ensures var t1 := t.(sessions := t.sessions[token := SessionToken(i + 1, now + SessionTtl(remember))]);
      CreateSession(t, t.users[i], remember, token, now) == t1 && Valid(t1)
  {
    assert t.users[i].id == i + 1;
  }

  /**
   * With credentials that match no user, login is refused with 401 and stores
   * nothing, unless the email is known and passlib refuses the password.
   */
  lemma LoginRefused(t: Tables, email: string, password: string, remember: Option<bool>, token: string, now: Time)
    requires Valid(t) && FreshToken(token, t.sessions)
    requires !CredentialsMatch(t, email, password)
    requires !EmailKnown(t, email) || Hashable(password)
    ensures Login(t, email, password, remember, token, now) == Handled(Rejected(401, MSG_BAD_CREDENTIALS), t)
  {
    var found := IndexOfEmail(t.users, email);
    if found.Some? {
      assert EmailKnown(t, email);
      assert !VerifyPassword(password, t.users[found.value].passwordHash);
    }
  }

  /** In valid tables the email lookup finds each user's own row. */
  lemma EmailLookupInValid(t: Tables, j: nat)
    requires Valid(t) && j < |t.users|
    ensures IndexOfEmail(t.users, t.users[j].email) == Some(j)
  {
    var r := IndexOfEmail(t.users, t.users[j].email);
    assert r.Some?;
  }

  /** Login by the user at row i, with an accepted password that checks, opens one session for that user. */
  lemma LoginAtRow(t: Tables, email: string, password: string, remember: Option<bool>, token: string, now: Time, i: nat)
    requires Valid(t) && FreshToken(token, t.sessions)
    requires i < |t.users| && t.users[i].email == email
    requires Hashable(password) && VerifyPassword(password, t.users[i].passwordHash)
    ensures var t1 := t.(sessions := t.sessions[token := SessionToken(i + 1, now + SessionTtl(RememberFlag(remember)))]);
      Login(t, email, password, remember, token, now) == Handled(Ok(MSG_LOGGED_IN), t1) && Valid(t1)
  {
    EmailLookupInValid(t, i);
    CreateSessionKeepsValid(t, i, RememberFlag(remember), token, now);
  }

  /** With matching credentials, login adds one session for the user who owns the email. */
  lemma LoginAccepted(t: Tables, email: string, password: string, remember: Option<bool>, token: string, now: Time)
    requires Valid(t) && FreshToken(token, t.sessions)
    requires CredentialsMatch(t, email, password) && Hashable(password)
    ensures var h := Login(t, email, password, remember, token, now);
      && Valid(h.tables)
      && h.reply == Ok(MSG_LOGGED_IN)
      && exists i :: 0 <= i < |t.users| && t.users[i].email == email &&
           h.tables == t.(sessions := t.sessions[token := SessionToken(i + 1, now + SessionTtl(RememberFlag(remember)))])
  {
    var i :| 0 <= i < |t.users| && t.users[i].email == email && VerifyPassword(password, t.users[i].passwordHash);
    LoginAtRow(t, email, password, remember, token, now, i);
  }

  /** For a known email and a password passlib refuses, login fails with 500 and stores nothing. */
  lemma LoginNulRefused(t: Tables, email: string, password: string, remember: Option<bool>, token: string, now: Time)
    requires FreshToken(token, t.sessions)
    requires EmailKnown(t, email) && !Hashable(password)
    ensures Login(t, email, password, remember, token, now) == Handled(SERVER_ERROR, t)
  {
    var i :| 0 <= i < |t.users| && t.users[i].email == email;
    assert IndexOfEmail(t.users, email).Some?;
  }

  /**
   * Login fails with 500 for a known email and a password passlib refuses,
   * and otherwise with 401 unless the credentials match, storing nothing;
   * with matching credentials it adds exactly one session, for that user,
   * expiring after the chosen lifetime.
   */
  lemma LoginOutcome(t: Tables, email: string, password: string, remember: Option<bool>, token: string, now: Time)
    requires Valid(t) && FreshToken(token, t.sessions)
    ensures var h := Login(t, email, password, remember, token, now);
      && Valid(h.tables)
      && (EmailKnown(t, email) && !Hashable(password) ==> h == Handled(SERVER_ERROR, t))
      && ((!EmailKnown(t, email) || Hashable(password)) && !CredentialsMatch(t, email, password) ==>
            h == Handled(Rejected(401, MSG_BAD_CREDENTIALS), t))
      && (CredentialsMatch(t, email, password) && Hashable(password) ==>
            && h.reply == Ok(MSG_LOGGED_IN)
            && h.tables.(sessions := t.sessions) == t
            && exists i :: 0 <= i < |t.users| && t.users[i].email == email &&
                 h.tables.sessions == t.sessions[token := SessionToken(i + 1, now + SessionTtl(RememberFlag(remember)))])
  {
    if EmailKnown(t, email) && !Hashable(password) {
      LoginNulRefused(t, email, password, remember, token, now);
    } else if CredentialsMatch(t, email, password) {
      LoginAccepted(t, email, password, remember, token, now);
    } else {
      LoginRefused(t, email, password, remember, token, now);
    }
  }

  /** A new session for row i admits that row's user up to and including its expiry. */
  lemma SessionAdmitsUntilExpiry(t: Tables, i: nat, remember: bool, token: string, now: Time, later: Time)
    requires Valid(t) && i < |t.users| && FreshToken(token, t.sessions)
    ensures var u := CurrentUser(CreateSession(t, t.users[i], remember, token, now), Some(token), later);
      && (u.Some? <==> later <= now + SessionTtl(remember))
      && (u.Some? ==> u.value == t.users[i])
  {
    CreateSessionKeepsValid(t, i, remember, token, now);
    var t1 := t.(sessions := t.sessions[token := SessionToken(i + 1, now + SessionTtl(remember))]);
    CurrentUserIff(t1, Some(token), later);
  }

  /** The session a login creates admits its user up to and including its expiry, and not a moment later. */
  lemma LoginSessionLifetime(t: Tables, email: string, password: string, remember: Option<bool>, token: string, now: Time, later: Time)
    requires Valid(t) && FreshToken(token, t.sessions)
    requires CredentialsMatch(t, email, password) && Hashable(password)
    ensures var u := CurrentUser(Login(t, email, password, remember, token, now).tables, Some(token), later);
      && (u.Some? <==> later <= now + SessionTtl(RememberFlag(remember)))
      && (u.Some? ==> u.value.email == email)
  {
    var i :| 0 <= i < |t.users| && t.users[i].email == email && VerifyPassword(password, t.users[i].passwordHash);
    LoginAtRow(t, email, password, remember, token, now, i);
    CreateSessionKeepsValid(t, i, RememberFlag(remember), token, now);
    SessionAdmitsUntilExpiry(t, i, RememberFlag(remember), token, now, later);
  }

  /** Logout ends the cookie's session and leaves every other session and table as it was. */
  lemma LogoutOutcome(t: Tables, cookie: Option<string>, now: Time)
    requires Valid(t)
    ensures var h := Logout(t, cookie);
      && h.reply == Redirect("/")
      && Valid(h.tables)
      && h.tables.(sessions := t.sessions) == t
      && CurrentUser(h.tables, cookie, now).None?
      && (forall k :: k in h.tables.sessions ==> k in t.sessions)
      && (forall k :: k in t.sessions && (!HasToken(cookie) || k != cookie.value) ==>
            k in h.tables.sessions && h.tables.sessions[k] == t.sessions[k])
  {
  }

  /**
   * A reset request answers the same whether or not the email is known; for
   * an unknown email it stores nothing, for a known one exactly one reset row
   * valid for an hour.
   */
  lemma ResetRequestOutcome(t: Tables, email: string, token: string, now: Time)
    requires Valid(t) && FreshToken(token, t.resets)
    ensures var h := ResetRequest(t, email, token, now);
      && h.reply == Ok(MSG_RESET_SENT)
      && Valid(h.tables)
      && ((forall i :: 0 <= i < |t.users| ==> t.users[i].email != email) ==> h.tables == t)
      && (forall i :: 0 <= i < |t.users| && t.users[i].email == email ==>
            h.tables == t.(resets := t.resets[token := PasswordReset(i + 1, now + RESET_TTL)]))
  {
    var h := ResetRequest(t, email, token, now);
    forall i | 0 <= i < |t.users| && t.users[i].email == email
      ensures h.tables == t.(resets := t.resets[token := PasswordReset(i + 1, now + RESET_TTL)])
    {
      assert IndexOfEmail(t.users, email) == Some(i);
    }
  }

  /** A reset token is usable while its expiry is not before now. */
  predicate ResetUsable(t: Tables, token: string, now: Time) {
    token in t.resets && now <= t.resets[token].expiresAt
  }

  /** Replacing one user's hash and deleting a reset row keeps the tables valid. */
  lemma PasswordChangeKeepsValid(t: Tables, k: nat, hash: PasswordHash, token: string)
    requires Valid(t) && k < |t.users|
    ensures Valid(t.(users := t.users[k := t.users[k].(passwordHash := hash)], resets := t.resets - {token}))
  {
    var users := t.users[k := t.users[k].(passwordHash := hash)];
    assert forall j :: 0 <= j < |users| ==> users[j].id == t.users[j].id && users[j].email == t.users[j].email;
  }

  /**
   * Confirming a reset fails with 400 and changes nothing for a missing or
   * expired token, and with 500 for a new password passlib refuses; otherwise
   * it sets that user's hash and nothing else, and deletes the token.
   */
  lemma ResetConfirmOutcome(t: Tables, token: string, newPassword: string, salt: nat, now: Time)
    requires Valid(t)
    ensures var h := ResetConfirm(t, token, newPassword, salt, now);
      && Valid(h.tables)
      && (!ResetUsable(t, token, now) ==> h == Handled(Rejected(400, MSG_BAD_RESET_TOKEN), t))
      && (ResetUsable(t, token, now) && !Hashable(newPassword) ==> h == Handled(SERVER_ERROR, t))
      && (ResetUsable(t, token, now) && Hashable(newPassword) ==>
            var k := t.resets[token].userId - 1;
            && h.reply == Ok(MSG_PASSWORD_CHANGED)
            && h.tables.resets == t.resets - {token}
            && |h.tables.users| == |t.users|
            && h.tables.users[k] == t.users[k].(passwordHash := HashPassword(newPassword, salt))
            && (forall j :: 0 <= j < |t.users| && j != k ==> h.tables.users[j] == t.users[j])
            && h.tables.(users := t.users, resets := t.resets) == t)
  {
    if ResetUsable(t, token, now) {
      IndexOfIdInValid(t, t.resets[token].userId);
      var k := t.resets[token].userId - 1;
      if Hashable(newPassword) {
        PasswordChangeKeepsValid(t, k, HashPassword(newPassword, salt), token);
      }
    }
  }

  /** A reset token works once: a second confirmation with it is refused and changes nothing. */
  lemma ResetTokenSingleUse(t: Tables, token: string, first: string, salt1: nat, now1: Time,
                            second: string, salt2: nat, now2: Time)
    requires Valid(t)
    requires ResetConfirm(t, token, first, salt1, now1).reply.Ok?
    ensures var t1 := ResetConfirm(t, token, first, salt1, now1).tables;
      ResetConfirm(t1, token, second, salt2, now2) == Handled(Rejected(400, MSG_BAD_RESET_TOKEN), t1)
  {
    ResetConfirmOutcome(t, token, first, salt1, now1);
  }

  /**
   * After a reset, the user logs in with exactly those passwords whose key
   * equals the new one's; a password passlib refuses gets 500.
   */
  lemma ResetThenLogin(t: Tables, token: string, newPassword: string, salt: nat, now: Time,
                       password: string, remember: Option<bool>, session: string, later: Time)
    requires Valid(t) && ResetUsable(t, token, now) && Hashable(newPassword)
    requires FreshToken(session, t.sessions)
    ensures var t1 := ResetConfirm(t, token, newPassword, salt, now).tables;
      var email := t.users[t.resets[token].userId - 1].email;
      FreshToken(session, t1.sessions) &&
      (Login(t1, email, password, remember, session, later).reply.Ok? <==> BcryptKey(password) == BcryptKey(newPassword)) &&
      (!Hashable(password) ==> Login(t1, email, password, remember, session, later).reply == SERVER_ERROR)
  {
    ResetConfirmOutcome(t, token, newPassword, salt, now);
    var t1 := ResetConfirm(t, token, newPassword, salt, now).tables;
    var k := t.resets[token].userId - 1;
    var email := t.users[k].email;
    assert t1.users[k].email == email;
    assert IndexOfEmail(t1.users, email) == Some(k) by {
      forall j | 0 <= j < k ensures t1.users[j].email != email {
        assert t1.users[j] == t.users[j];
      }
    }
    VerifyAgainstHash(password, newPassword, salt);
  }

  /** The row built from the form: the body's values, status "pending", and each role-specific field only for its role. */
  lemma ApplicationFields(userId: nat, data: map<string, string>, now: Time)
    ensures var a := ApplicationFromForm(userId, data, now);
      && a.userId == userId && a.status == "pending" && a.role == Get(data, "role")
      && (a.interests.Some? ==> a.role == Some("listener"))
      && (a.title.Some? || a.thesis.Some? ==> a.role == Some("speaker"))
      && (a.role == Some("listener") ==> a.interests == Get(data, "interests"))
      && (a.role == Some("speaker") ==> a.title == Get(data, "title") && a.thesis == Get(data, "thesis"))
      && a.fullName == Get(data, "full_name") && a.email == Get(data, "email") && a.contact == Get(data, "contact")
      && a.submittedAt == now
      && (Complete(a) <==> "role" in data && "full_name" in data && "email" in data)
  {
  }

  /**
   * Submitting an application: 401 for a caller without a live session, 400
   * for a user who already applied, 500 for a body missing a NOT NULL field,
   * all storing nothing; otherwise exactly the built row is appended. The
   * one-application-per-user invariant is kept.
   */
  lemma SubmitApplicationOutcome(t: Tables, cookie: Option<string>, data: map<string, string>, now: Time)
    requires Valid(t)
    ensures var h := SubmitApplication(t, cookie, data, now);
      var u := CurrentUser(t, cookie, now);
      && Valid(h.tables)
      && (u.None? ==> h == Handled(Rejected(401, MSG_UNAUTHORIZED), t))
      && (u.Some? && HasApplication(t.applications, u.value.id) ==> h == Handled(Rejected(400, MSG_ALREADY_APPLIED), t))
      && (u.Some? && !HasApplication(t.applications, u.value.id) ==>
            var a := ApplicationFromForm(u.value.id, data, now);
            h == if Complete(a) then Handled(Ok(MSG_APPLICATION_SENT), t.(applications := t.applications + [a]))
                 else Handled(SERVER_ERROR, t))
  {
    CurrentUserIff(t, cookie, now);
  }

  /**
   * POST /apply never stores a row: it leaves role, full_name and email
   * empty, which the NOT NULL columns refuse at commit.
   */
  lemma ApplyVariantNeverStores(t: Tables, cookie: Option<string>, data: map<string, string>, now: Time)
    ensures var h := SubmitApplicationViaApply(t, cookie, data, now);
      h.tables == t && h.reply.Rejected?
      && (CurrentUser(t, cookie, now).None? ==> h.reply == Rejected(401, MSG_UNAUTHORIZED))
      && (CurrentUser(t, cookie, now).Some? && HasApplication(t.applications, CurrentUser(t, cookie, now).value.id) ==>
            h.reply == Rejected(400, MSG_APPLY_EXISTS))
  {
  }

  /**
   * Once a user's application is stored, every later submission from the
   * same session, by either route, is refused and changes nothing, and the
   * apply page reports the application.
   */
  lemma OneApplicationPerUser(t: Tables, cookie: Option<string>, data: map<string, string>, now: Time,
                              data2: map<string, string>, now2: Time)
    requires Valid(t)
    requires SubmitApplication(t, cookie, data, now).reply.Ok?
    ensures var t1 := SubmitApplication(t, cookie, data, now).tables;
      && SubmitApplication(t1, cookie, data2, now2).tables == t1
      && SubmitApplication(t1, cookie, data2, now2).reply.Rejected?
      && SubmitApplicationViaApply(t1, cookie, data2, now2).tables == t1
      && PageApply(t1, cookie, now).alreadyApplied
  {
    SubmitApplicationOutcome(t, cookie, data, now);
    var t1 := SubmitApplication(t, cookie, data, now).tables;
    var u := CurrentUser(t, cookie, now).value;
    CurrentUserIff(t, cookie, now);
    CurrentUserIff(t1, cookie, now);
    CurrentUserIff(t1, cookie, now2);
    assert t1.applications[|t.applications|].userId == u.id;
    assert HasApplication(t1.applications, u.id);
  }

  /** The apply page reports an application exactly when the logged-in user has one. */
  lemma PageApplyReports(t: Tables, cookie: Option<string>, now: Time)
    ensures var p := PageApply(t, cookie, now);
      && p.user == CurrentUser(t, cookie, now)
      && (p.alreadyApplied <==>
            (p.user.Some? && exists i :: 0 <= i < |t.applications| && t.applications[i].userId == p.user.value.id))
  {
  }

  /**
   * The profile page is shown only to a logged-in user; it lists at most one
   * application, and its last application is present exactly when the user
   * has applied, and is theirs.
   */
  lemma ProfileLastApplication(t: Tables, cookie: Option<string>, now: Time)
    requires Valid(t)
    ensures var p := PageProfile(t, cookie, now);
      && (p.None? <==> CurrentUser(t, cookie, now).None?)
      && (p.Some? ==>
            && |p.value.applications| <= 1
            && (p.value.lastApplication.Some? <==> HasApplication(t.applications, p.value.user.id))
            && (p.value.lastApplication.Some? ==>
                  p.value.lastApplication.value.userId == p.value.user.id &&
                  p.value.lastApplication.value in t.applications))
  {
    match CurrentUser(t, cookie, now)
    case None =>
    case Some(u) =>
      AtMostOneApplicationEach(t.applications, u.id);
  }

  lemma {:induction false} ThesesOfAppend(theses: seq<Thesis>, x: Thesis, userId: nat)
    ensures ThesesOf(theses + [x], userId) == ThesesOf(theses, userId) + (if x.userId == userId then [x] else [])
  {
    var tail := if x.userId == userId then [x] else [];
    if theses == [] {
      assert theses + [x] == [x];
      assert ThesesOf([x], userId) == tail + ThesesOf([], userId);
    } else {
      var s := theses + [x];
      var head := if theses[0].userId == userId then [theses[0]] else [];
      assert s[0] == theses[0];
      assert s[1..] == theses[1..] + [x];
      assert ThesesOf(s, userId) == head + ThesesOf(theses[1..] + [x], userId);
      ThesesOfAppend(theses[1..], x, userId);
      assert ThesesOf(theses, userId) == head + ThesesOf(theses[1..], userId);
      assert head + (ThesesOf(theses[1..], userId) + tail) == (head + ThesesOf(theses[1..], userId)) + tail;
    }
  }

  /** Storing a thesis of an existing user keeps the tables valid. */
  lemma AddThesisKeepsValid(t: Tables, th: Thesis)
    requires Valid(t) && IsUserId(t, th.userId)
    ensures Valid(t.(theses := t.theses + [th]))
  {
    var t' := t.(theses := t.theses + [th]);
    assert t'.users == t.users;
    forall i | 0 <= i < |t'.theses|
      ensures IsUserId(t', t'.theses[i].userId)
    {
      if i < |t.theses| {
        assert t'.theses[i] == t.theses[i];
      }
    }
  }

  /**
   * Submitting a thesis needs a live session and then always appends one
   * thesis: the server sets no limit on how many a user has.
   */
  lemma SubmitThesisOutcome(t: Tables, cookie: Option<string>, title: string, abstractText: string, now: Time)
    requires Valid(t)
    ensures var h := SubmitThesis(t, cookie, title, abstractText, now);
      var u := CurrentUser(t, cookie, now);
      && Valid(h.tables)
      && (title == "" ==> h == Handled(FIELD_MISSING, t))
      && (title != "" && u.None? ==> h == Handled(Rejected(401, MSG_UNAUTHORIZED), t))
      && (title != "" && u.Some? ==>
            && h.reply == Redirect("/profile")
            && h.tables == t.(theses := t.theses + [Thesis(u.value.id, title, abstractText, "submitted", now)])
            && |ThesesOf(h.tables.theses, u.value.id)| == |ThesesOf(t.theses, u.value.id)| + 1)
  {
    CurrentUserIff(t, cookie, now);
    if title != "" {
      match CurrentUser(t, cookie, now)
      case None =>
      case Some(u) =>
        var th := Thesis(u.id, title, abstractText, "submitted", now);
        AddThesisKeepsValid(t, th);
        ThesesOfAppend(t.theses, th, u.id);
    }
  }
}
