/**
 * The request handlers of main.py as functions from the tables before a
 * request to the reply and the tables after it. The clock (`utcnow()`), the
 * token generator (`uuid4()`) and bcrypt's salt are inputs. A handler that
 * fails before `db.commit()` leaves the tables as they were.
 */
module Handlers {
  import opened Wrappers
  import opened Passwords
  import opened Schema

  const SESSION_TTL_REMEMBER: nat := 30 * 24 * 60 * 60
  const SESSION_TTL_DEFAULT: nat := 2 * 60 * 60
  const RESET_TTL: nat := 60 * 60

  const MSG_USER_EXISTS := "Пользователь уже существует"
  const MSG_REGISTERED := "Регистрация успешна"
  const MSG_BAD_CREDENTIALS := "Неверный email или пароль"
  const MSG_LOGGED_IN := "Вход выполнен"
  const MSG_RESET_SENT := "Если email существует — ссылка отправлена"
  const MSG_BAD_RESET_TOKEN := "Неверный или просроченный токен"
  const MSG_PASSWORD_CHANGED := "Пароль изменён"
  const MSG_UNAUTHORIZED := "Unauthorized"
  const MSG_ALREADY_APPLIED := "Вы уже подали заявку. Статус можно отследить в профиле."
  const MSG_APPLY_EXISTS := "Заявка уже подана"
  const MSG_APPLICATION_SENT := "Заявка успешно отправлена"
  const MSG_SERVER_ERROR := "Internal Server Error"
  const MSG_FIELD_REQUIRED := "Field required"

  /** The HTTP outcome of a request: a JSON message, a redirect, or an error status with its message. */
  datatype Reply = Ok(message: string) | Redirect(location: string) | Rejected(status: nat, message: string)

  datatype Handled = Handled(reply: Reply, tables: Tables)

  /** A required field missing from the request: FastAPI answers 422 before the handler runs. */
  const FIELD_MISSING := Rejected(422, MSG_FIELD_REQUIRED)

  /** An exception escaping a handler: FastAPI answers 500 and nothing is committed. */
  const SERVER_ERROR := Rejected(500, MSG_SERVER_ERROR)

  /** `if not token`: a missing or empty cookie counts as no token. */
  predicate HasToken(cookie: Option<string>) {
    cookie.Some? && cookie.value != ""
  }

  /** A token `uuid4()` could hand out for a new row of `rows`. */
  predicate FreshToken<V>(token: string, rows: map<string, V>) {
    token != "" && token !in rows
  }

  /** The session lifetime `create_session` chooses (main.py:150). */
  function SessionTtl(remember: bool): nat {
    if remember then SESSION_TTL_REMEMBER else SESSION_TTL_DEFAULT
  }

  /** `create_session` (main.py:148-156): one new session row for the user. */
  function CreateSession(t: Tables, user: User, remember: bool, token: string, now: Time): Tables
    requires FreshToken(token, t.sessions)
  {
    t.(sessions := t.sessions[token := SessionToken(user.id, now + SessionTtl(remember))])
  }

  /** `get_current_user` (main.py:159-168). */
  function CurrentUser(t: Tables, cookie: Option<string>, now: Time): Option<User> {
    if !HasToken(cookie) then None
    else if cookie.value !in t.sessions then None
    else if t.sessions[cookie.value].expiresAt < now then None
    else match IndexOfId(t.users, t.sessions[cookie.value].userId)
      case None => None
      case Some(i) => Some(t.users[i])
  }

  /** POST /register (main.py:194-206); a password passlib refuses raises, so 500 and no user. */
  function Register(t: Tables, email: string, fullname: string, password: string, salt: nat, now: Time): Handled {
    if IndexOfEmail(t.users, email).Some? then
      Handled(Rejected(400, MSG_USER_EXISTS), t)
    else if !Hashable(password) then
      Handled(SERVER_ERROR, t)
    else
      var user := User(|t.users| + 1, email, fullname, HashPassword(password, salt), now);
      Handled(Ok(MSG_REGISTERED), t.(users := t.users + [user]))
  }

  /** `bool(data.remember)`, where the field defaults to False and may be null. */
  function RememberFlag(remember: Option<bool>): bool {
    remember == Some(true)
  }

  /**
   * POST /login (main.py:209-217); `token` is the value `uuid4()` would give.
   * An unknown email short-circuits the check; for a known one, a password
   * passlib refuses raises, so 500.
   */
  function Login(t: Tables, email: string, password: string, remember: Option<bool>, token: string, now: Time): Handled
    requires FreshToken(token, t.sessions)
  {
    match IndexOfEmail(t.users, email)
    case None => Handled(Rejected(401, MSG_BAD_CREDENTIALS), t)
    case Some(i) =>
      if !Hashable(password) then
        Handled(SERVER_ERROR, t)
      else if !VerifyPassword(password, t.users[i].passwordHash) then
        Handled(Rejected(401, MSG_BAD_CREDENTIALS), t)
      else
        Handled(Ok(MSG_LOGGED_IN), CreateSession(t, t.users[i], RememberFlag(remember), token, now))
  }

  /** GET /logout (main.py:220-229): delete the cookie's session rows, then redirect home. */
  function Logout(t: Tables, cookie: Option<string>): Handled {
    if HasToken(cookie) then
      Handled(Redirect("/"), t.(sessions := t.sessions - {cookie.value}))
    else
      Handled(Redirect("/"), t)
  }

  /** POST /reset-password (main.py:234-247). */
  function ResetRequest(t: Tables, email: string, token: string, now: Time): Handled
    requires FreshToken(token, t.resets)
  {
    match IndexOfEmail(t.users, email)
    case None => Handled(Ok(MSG_RESET_SENT), t)
    case Some(i) =>
      var reset := PasswordReset(t.users[i].id, now + RESET_TTL);
      Handled(Ok(MSG_RESET_SENT), t.(resets := t.resets[token := reset]))
  }

  /**
   * POST /reset-confirm (main.py:255-266). A reset row whose user is gone
   * would make `user.password_hash` fail on None, and a new password passlib
   * refuses makes the hashing raise: a server error either way, nothing
   * committed.
   */
  function ResetConfirm(t: Tables, token: string, newPassword: string, salt: nat, now: Time): Handled {
    if token !in t.resets || t.resets[token].expiresAt < now then
      Handled(Rejected(400, MSG_BAD_RESET_TOKEN), t)
    else match IndexOfId(t.users, t.resets[token].userId)
      case None => Handled(SERVER_ERROR, t)
      case Some(i) =>
        if !Hashable(newPassword) then
          Handled(SERVER_ERROR, t)
        else
          var user := t.users[i].(passwordHash := HashPassword(newPassword, salt));
          Handled(Ok(MSG_PASSWORD_CHANGED), t.(users := t.users[i := user], resets := t.resets - {token}))
  }

  /** What GET /apply hands its template (main.py:277-288). */
  datatype ApplyPage = ApplyPage(user: Option<User>, alreadyApplied: bool)

  function PageApply(t: Tables, cookie: Option<string>, now: Time): ApplyPage {
    match CurrentUser(t, cookie, now)
    case None => ApplyPage(None, false)
    case Some(u) => ApplyPage(Some(u), HasApplication(t.applications, u.id))
  }

  /** `applications[-1] if applications else None` (main.py:309). */
  function LastApplication(apps: seq<Application>): (r: Option<Application>)
    ensures r.None? <==> apps == []
    ensures r.Some? ==> r.value in apps && r.value == apps[|apps| - 1]
  {
    if apps == [] then None else Some(apps[|apps| - 1])
  }

  /** What GET /profile hands its template (main.py:299-320). */
  datatype Profile = Profile(user: User, theses: seq<Thesis>, applications: seq<Application>, lastApplication: Option<Application>)

  /** `None` stands for the redirect to "/" of a caller who is not logged in. */
  function PageProfile(t: Tables, cookie: Option<string>, now: Time): Option<Profile> {
    match CurrentUser(t, cookie, now)
    case None => None
    case Some(u) =>
      var apps := ApplicationsOf(t.applications, u.id);
      Some(Profile(u, ThesesOf(t.theses, u.id), apps, LastApplication(apps)))
  }

  /**
   * The row POST /application/submit builds from the JSON body
   * (main.py:337-347): interests only for a listener, title and thesis only
   * for a speaker, status "pending".
   */
  function ApplicationFromForm(userId: nat, data: map<string, string>, now: Time): Application {
    var role := Get(data, "role");
    Application(
      userId,
      role,
      Get(data, "full_name"),
      Get(data, "email"),
      Get(data, "contact"),
      if role == Some("speaker") then Get(data, "title") else None,
      if role == Some("speaker") then Get(data, "thesis") else None,
      if role == Some("listener") then Get(data, "interests") else None,
      "pending",
      now)
  }

  /**
   * Insert an application row and commit: a NOT NULL column left empty makes
   * the commit fail, so the reply is a server error and nothing is stored.
   */
  function Commit(t: Tables, a: Application, message: string): Handled {
    if Complete(a) then
      Handled(Ok(message), t.(applications := t.applications + [a]))
    else
      Handled(SERVER_ERROR, t)
  }

  /** POST /application/submit (main.py:325-352). */
  function SubmitApplication(t: Tables, cookie: Option<string>, data: map<string, string>, now: Time): Handled {
    match CurrentUser(t, cookie, now)
    case None => Handled(Rejected(401, MSG_UNAUTHORIZED), t)
    case Some(u) =>
      if HasApplication(t.applications, u.id) then
        Handled(Rejected(400, MSG_ALREADY_APPLIED), t)
      else
        Commit(t, ApplicationFromForm(u.id, data, now), MSG_APPLICATION_SENT)
  }

  /** Python's `str()` of an optional string, as an f-string renders it. */
  function PyStr(v: Option<string>): string {
    if v.Some? then v.value else "None"
  }

  /** POST /apply (main.py:375-394): the row carries only user, title and status. */
  function SubmitApplicationViaApply(t: Tables, cookie: Option<string>, data: map<string, string>, now: Time): Handled {
    match CurrentUser(t, cookie, now)
    case None => Handled(Rejected(401, MSG_UNAUTHORIZED), t)
    case Some(u) =>
      if HasApplication(t.applications, u.id) then
        Handled(Rejected(400, MSG_APPLY_EXISTS), t)
      else
        var title := u.fullname + " (" + PyStr(Get(data, "role")) + ")";
        var a := Application(u.id, None, None, None, None, Some(title), None, None, "pending", now);
        Commit(t, a, MSG_APPLICATION_SENT)
  }

  /**
   * POST /thesis/submit (main.py:355-373); no limit on the number of theses.
   * `title` is a required form field and FastAPI reads an empty form value as
   * missing, so an empty title is refused with 422 before the session is
   * looked at; `abstract` defaults to "".
   */
  function SubmitThesis(t: Tables, cookie: Option<string>, title: string, abstractText: string, now: Time): Handled {
    if title == "" then Handled(FIELD_MISSING, t)
    else match CurrentUser(t, cookie, now)
    case None => Handled(Rejected(401, MSG_UNAUTHORIZED), t)
    case Some(u) =>
      Handled(Redirect("/profile"), t.(theses := t.theses + [Thesis(u.id, title, abstractText, "submitted", now)]))
  }
}
