/**
 * main.py's database as an object: each handler reads the tables, checks its
 * guard, and inserts, updates or deletes rows in place. Every method keeps
 * the tables valid and ends in exactly the reply and tables the matching
 * function in Handlers describes.
 */
module Server {
  import opened Wrappers
  import opened Passwords
  import opened Schema
  import Handlers
  import opened HandlerProperties

  class App {
    var users: seq<User>
    var sessions: map<string, SessionToken>
    var resets: map<string, PasswordReset>
    var theses: seq<Thesis>
    var applications: seq<Application>

    function Db(): Tables
      reads this
    {
      Tables(users, sessions, resets, theses, applications)
    }

    ghost predicate Valid()
      reads this
    {
      Schema.Valid(Db())
    }

    /** A fresh database: `Base.metadata.create_all` on an empty file. */
    constructor ()
      ensures Valid() && Db() == EMPTY
    {
      users, sessions, resets, theses, applications := [], map[], map[], [], [];
    }

    /** `register` (main.py:194-206). */
    method Register(email: string, fullname: string, password: string, salt: nat, now: Time) returns (reply: Handlers.Reply)
      requires Valid()
      modifies this
      ensures Valid()
      ensures Handlers.Handled(reply, Db()) == Handlers.Register(old(Db()), email, fullname, password, salt, now)
    {
      ghost var before := Db();
      RegisterKeepsValid(before, email, fullname, password, salt, now);
      var existing := IndexOfEmail(users, email);
      if existing.Some? {
        return Handlers.Rejected(400, Handlers.MSG_USER_EXISTS);
      }
      if !Hashable(password) {
        return Handlers.SERVER_ERROR;
      }
      var user := User(|users| + 1, email, fullname, HashPassword(password, salt), now);
      users := users + [user];
      reply := Handlers.Ok(Handlers.MSG_REGISTERED);
      assert Db() == before.(users := before.users + [user]);
    }

    /** `create_session` (main.py:148-156): `token` is the value `uuid4()` gives. */
    method CreateSession(user: User, remember: bool, token: string, now: Time) returns (issued: string)
      requires Valid() && user in users && Handlers.FreshToken(token, sessions)
      modifies this
      ensures Valid()
      ensures issued == token
      ensures Db() == Handlers.CreateSession(old(Db()), user, remember, token, now)
    {
      ghost var i :| 0 <= i < |users| && users[i] == user;
      CreateSessionKeepsValid(Db(), i, remember, token, now);
      var ttl := if remember then Handlers.SESSION_TTL_REMEMBER else Handlers.SESSION_TTL_DEFAULT;
      sessions := sessions[token := SessionToken(user.id, now + ttl)];
      issued := token;
    }

    /** `login` (main.py:209-217). */
    method Login(email: string, password: string, remember: Option<bool>, token: string, now: Time) returns (reply: Handlers.Reply)
      requires Valid() && Handlers.FreshToken(token, sessions)
      modifies this
      ensures Valid()
      ensures Handlers.Handled(reply, Db()) == Handlers.Login(old(Db()), email, password, remember, token, now)
    {
      LoginOutcome(Db(), email, password, remember, token, now);
      var found := IndexOfEmail(users, email);
      if found.None? {
        return Handlers.Rejected(401, Handlers.MSG_BAD_CREDENTIALS);
      }
      if !Hashable(password) {
        return Handlers.SERVER_ERROR;
      }
      if !VerifyPassword(password, users[found.value].passwordHash) {
        return Handlers.Rejected(401, Handlers.MSG_BAD_CREDENTIALS);
      }
      var issued := CreateSession(users[found.value], Handlers.RememberFlag(remember), token, now);
      reply := Handlers.Ok(Handlers.MSG_LOGGED_IN);
    }

    /** `logout` (main.py:220-229). */
    method Logout(cookie: Option<string>) returns (reply: Handlers.Reply)
      requires Valid()
      modifies this
      ensures Valid()
      ensures Handlers.Handled(reply, Db()) == Handlers.Logout(old(Db()), cookie)
    {
      LogoutOutcome(Db(), cookie, 0);
      if Handlers.HasToken(cookie) {
        sessions := sessions - {cookie.value};
      }
      reply := Handlers.Redirect("/");
    }

    /** `reset_request` (main.py:234-247); the printed link is left out. */
    method ResetRequest(email: string, token: string, now: Time) returns (reply: Handlers.Reply)
      requires Valid() && Handlers.FreshToken(token, resets)
      modifies this
      ensures Valid()
      ensures Handlers.Handled(reply, Db()) == Handlers.ResetRequest(old(Db()), email, token, now)
    {
      ResetRequestOutcome(Db(), email, token, now);
      var found := IndexOfEmail(users, email);
      if found.Some? {
        resets := resets[token := PasswordReset(users[found.value].id, now + Handlers.RESET_TTL)];
      }
      reply := Handlers.Ok(Handlers.MSG_RESET_SENT);
    }

    /** `reset_confirm` (main.py:255-266). */
    method ResetConfirm(token: string, newPassword: string, salt: nat, now: Time) returns (reply: Handlers.Reply)
      requires Valid()
      modifies this
      ensures Valid()
      ensures Handlers.Handled(reply, Db()) == Handlers.ResetConfirm(old(Db()), token, newPassword, salt, now)
    {
      ResetConfirmOutcome(Db(), token, newPassword, salt, now);
      if token !in resets || resets[token].expiresAt < now {
        return Handlers.Rejected(400, Handlers.MSG_BAD_RESET_TOKEN);
      }
      var found := IndexOfId(users, resets[token].userId);
      if found.None? || !Hashable(newPassword) {
        return Handlers.SERVER_ERROR;
      }
      var i := found.value;
      users := users[i := users[i].(passwordHash := HashPassword(newPassword, salt))];
      resets := resets - {token};
      reply := Handlers.Ok(Handlers.MSG_PASSWORD_CHANGED);
    }

    /**
     * `db.add(a)` then `db.commit()` for a new application of a user who has
     * none: the commit fails on an empty NOT NULL column.
     */
    method Commit(a: Application, message: string) returns (reply: Handlers.Reply)
      requires Valid()
      requires IsUserId(Db(), a.userId) && !HasApplication(applications, a.userId)
      modifies this
      ensures Valid()
      ensures Handlers.Handled(reply, Db()) == Handlers.Commit(old(Db()), a, message)
    {
      if !Complete(a) {
        return Handlers.SERVER_ERROR;
      }
      applications := applications + [a];
      reply := Handlers.Ok(message);
    }

    /** `submit_application` at POST /application/submit (main.py:325-352). */
    method SubmitApplication(cookie: Option<string>, data: map<string, string>, now: Time) returns (reply: Handlers.Reply)
      requires Valid()
      modifies this
      ensures Valid()
      ensures Handlers.Handled(reply, Db()) == Handlers.SubmitApplication(old(Db()), cookie, data, now)
    {
      SubmitApplicationOutcome(Db(), cookie, data, now);
      var user := Handlers.CurrentUser(Db(), cookie, now);
      if user.None? {
        return Handlers.Rejected(401, Handlers.MSG_UNAUTHORIZED);
      }
      if HasApplication(applications, user.value.id) {
        return Handlers.Rejected(400, Handlers.MSG_ALREADY_APPLIED);
      }
      CurrentUserIff(Db(), cookie, now);
      var a := Handlers.ApplicationFromForm(user.value.id, data, now);
      reply := Commit(a, Handlers.MSG_APPLICATION_SENT);
    }

    /** `submit_application` at POST /apply (main.py:375-394). */
    method SubmitApplicationViaApply(cookie: Option<string>, data: map<string, string>, now: Time) returns (reply: Handlers.Reply)
      requires Valid()
      modifies this
      ensures Valid()
      ensures Handlers.Handled(reply, Db()) == Handlers.SubmitApplicationViaApply(old(Db()), cookie, data, now)
    {
      CurrentUserIff(Db(), cookie, now);
      var user := Handlers.CurrentUser(Db(), cookie, now);
      if user.None? {
        return Handlers.Rejected(401, Handlers.MSG_UNAUTHORIZED);
      }
      if HasApplication(applications, user.value.id) {
        return Handlers.Rejected(400, Handlers.MSG_APPLY_EXISTS);
      }
      var title := user.value.fullname + " (" + Handlers.PyStr(Get(data, "role")) + ")";
      var a := Application(user.value.id, None, None, None, None, Some(title), None, None, "pending", now);
      reply := Commit(a, Handlers.MSG_APPLICATION_SENT);
    }

    /** `submit_thesis` (main.py:355-373). */
    method SubmitThesis(cookie: Option<string>, title: string, abstractText: string, now: Time) returns (reply: Handlers.Reply)
      requires Valid()
      modifies this
      ensures Valid()
      ensures Handlers.Handled(reply, Db()) == Handlers.SubmitThesis(old(Db()), cookie, title, abstractText, now)
    {
      SubmitThesisOutcome(Db(), cookie, title, abstractText, now);
      if title == "" {
        return Handlers.FIELD_MISSING;
      }
      var user := Handlers.CurrentUser(Db(), cookie, now);
      if user.None? {
        return Handlers.Rejected(401, Handlers.MSG_UNAUTHORIZED);
      }
      theses := theses + [Thesis(user.value.id, title, abstractText, "submitted", now)];
      reply := Handlers.Redirect("/profile");
    }
  }
}
