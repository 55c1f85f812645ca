/**
 * The four tables main.py keeps (users, sessions, password resets,
 * applications) plus theses, as values, with the lookups its handlers run.
 * Row order is insertion order; a user's id is the SQLite row id, which is
 * its position plus one since no handler deletes users.
 */
module Schema {
  import opened Wrappers
  import opened Passwords

  /** Time, in whole seconds. */
  type Time = nat

  datatype User = User(id: nat, email: string, fullname: string, passwordHash: PasswordHash, createdAt: Time)

  datatype SessionToken = SessionToken(userId: nat, expiresAt: Time)

  datatype PasswordReset = PasswordReset(userId: nat, expiresAt: Time)

  datatype Thesis = Thesis(userId: nat, title: string, abstractText: string, status: string, createdAt: Time)

  /** A row of `applications`; the nullable columns are optional. */
  datatype Application = Application(
    userId: nat,
    role: Option<string>,
    fullName: Option<string>,
    email: Option<string>,
    contact: Option<string>,
    title: Option<string>,
    thesis: Option<string>,
    interests: Option<string>,
    status: string,
    submittedAt: Time)

  /** Sessions and resets are keyed by their token, which the schema declares unique. */
  datatype Tables = Tables(
    users: seq<User>,
    sessions: map<string, SessionToken>,
    resets: map<string, PasswordReset>,
    theses: seq<Thesis>,
    applications: seq<Application>)

  const EMPTY := Tables([], map[], map[], [], [])

  /** `query(User).filter_by(email=...).first()`, as a row index. */
  function IndexOfEmail(users: seq<User>, email: string): (r: Option<nat>)
    ensures r.Some? ==> r.value < |users| && users[r.value].email == email
    ensures r.Some? ==> forall i :: 0 <= i < r.value ==> users[i].email != email
    ensures r.None? <==> forall i :: 0 <= i < |users| ==> users[i].email != email
  {
    if users == [] then None
    else if users[0].email == email then Some(0)
    else match IndexOfEmail(users[1..], email)
      case None => None
      case Some(i) => Some(i + 1)
  }

  /** `query(User).filter_by(id=...).first()`, as a row index. */
  function IndexOfId(users: seq<User>, id: nat): (r: Option<nat>)
    ensures r.Some? ==> r.value < |users| && users[r.value].id == id
    ensures r.None? <==> forall i :: 0 <= i < |users| ==> users[i].id != id
  {
    if users == [] then None
    else if users[0].id == id then Some(0)
    else match IndexOfId(users[1..], id)
      case None => None
      case Some(i) => Some(i + 1)
  }

  /** `query(Application).filter_by(user_id=...).first()` is not None. */
  predicate HasApplication(apps: seq<Application>, userId: nat) {
    exists i :: 0 <= i < |apps| && apps[i].userId == userId
  }

  /** `query(Application).filter_by(user_id=...).all()`, in row order. */
  function ApplicationsOf(apps: seq<Application>, userId: nat): (r: seq<Application>)
    ensures |r| <= |apps|
    ensures forall a :: a in r ==> a in apps && a.userId == userId
    ensures forall i :: 0 <= i < |apps| && apps[i].userId == userId ==> apps[i] in r
  {
    if apps == [] then []
    else (if apps[0].userId == userId then [apps[0]] else []) + ApplicationsOf(apps[1..], userId)
  }

  /** `query(Thesis).filter_by(user_id=...).all()`, in row order. */
  function ThesesOf(theses: seq<Thesis>, userId: nat): (r: seq<Thesis>)
    ensures |r| <= |theses|
    ensures forall x :: x in r ==> x in theses && x.userId == userId
    ensures forall i :: 0 <= i < |theses| && theses[i].userId == userId ==> theses[i] in r
  {
    if theses == [] then []
    else (if theses[0].userId == userId then [theses[0]] else []) + ThesesOf(theses[1..], userId)
  }

  /** The columns declared `nullable=False` (role, full_name, email) hold values. */
  predicate Complete(a: Application) {
    a.role.Some? && a.fullName.Some? && a.email.Some?
  }

  predicate IsUserId(t: Tables, id: nat) {
    1 <= id <= |t.users|
  }

  /**
   * What the handlers keep true of the tables: row ids, unique emails,
   * foreign keys that point at users, NOT NULL columns filled, and at most one
   * application per user.
   */
  ghost predicate Valid(t: Tables) {
    && (forall i :: 0 <= i < |t.users| ==> t.users[i].id == i + 1)
    && (forall i, j :: 0 <= i < j < |t.users| ==> t.users[i].email != t.users[j].email)
    && (forall k :: k in t.sessions ==> IsUserId(t, t.sessions[k].userId))
    && (forall k :: k in t.resets ==> IsUserId(t, t.resets[k].userId))
    && (forall i :: 0 <= i < |t.theses| ==> IsUserId(t, t.theses[i].userId))
    && (forall i :: 0 <= i < |t.applications| ==> IsUserId(t, t.applications[i].userId))
    && (forall i :: 0 <= i < |t.applications| ==> Complete(t.applications[i]))
    && (forall i, j :: 0 <= i < j < |t.applications| ==> t.applications[i].userId != t.applications[j].userId)
  }

  /** Appending a user with a new email makes that user the one found by email. */
  lemma IndexOfEmailAppend(users: seq<User>, u: User)
    requires forall i :: 0 <= i < |users| ==> users[i].email != u.email
    ensures IndexOfEmail(users + [u], u.email) == Some(|users|)
  {
    assert (users + [u])[|users|] == u;
  }

  /** In valid tables the row with a given id is the one at position id - 1. */
  lemma IndexOfIdInValid(t: Tables, id: nat)
    requires Valid(t)
    ensures IndexOfId(t.users, id) == if IsUserId(t, id) then Some(id - 1) else None
  {
    var r := IndexOfId(t.users, id);
    if IsUserId(t, id) {
      assert t.users[id - 1].id == id;
    }
  }

  /** Under the one-per-user rule a user's applications number at most one. */
  lemma {:induction false} AtMostOneApplicationEach(apps: seq<Application>, userId: nat)
    requires forall i, j :: 0 <= i < j < |apps| ==> apps[i].userId != apps[j].userId
    ensures |ApplicationsOf(apps, userId)| <= 1
    ensures |ApplicationsOf(apps, userId)| == 1 <==> HasApplication(apps, userId)
  {
    if apps != [] {
      AtMostOneApplicationEach(apps[1..], userId);
      if apps[0].userId == userId {
        assert !HasApplication(apps[1..], userId) by {
          forall i | 0 <= i < |apps[1..]| ensures apps[1..][i].userId != userId {
            assert apps[1..][i] == apps[i + 1];
          }
        }
      }
      if HasApplication(apps, userId) && apps[0].userId != userId {
        var i :| 0 <= i < |apps| && apps[i].userId == userId;
        assert apps[1..][i - 1].userId == userId;
      }
      if HasApplication(apps[1..], userId) {
        var i :| 0 <= i < |apps[1..]| && apps[1..][i].userId == userId;
        assert apps[i + 1].userId == userId;
      }
    }
  }
}
