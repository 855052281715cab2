/**
 * The user routes: sign-up, which relies on the unique `email` and `api_key` columns and maps
 * their violation to 409, and the lookup by email.
 */
module UserRoutes {
  import opened Schema
  import opened Validations
  import opened Http
  import opened Store

  // ---------------------------------------------------------------- POST /

  /** The body of POST /users, as sent; `tier` is accepted but never stored. */
  datatype CreateUserBody = CreateUserBody(email: string, name: Option<string>, tier: Option<string>)

  /** `lastInsertRowid.toString()`: the canonical decimal numeral of the new user's id. */
  function Decimal(n: nat): (s: string)
    ensures |s| >= 1 && AllDigits(s)
  {
    var d := ['0' + (n % 10) as char];
    if n < 10 then d else Decimal(n / 10) + d
  }

  lemma {:induction false} DecimalValueOfDecimal(n: nat)
    ensures DecimalValue(Decimal(n)) == n
  {
    var d := ['0' + (n % 10) as char];
    if n >= 10 {
      DecimalValueOfDecimal(n / 10);
      var s := Decimal(n / 10) + d;
      assert s[..|s| - 1] == Decimal(n / 10);
    }
  }

  /** Every id path parameter written as the decimal numeral of `n` parses back to `n`. */
  lemma ParseIdRoundTrip(n: nat)
    ensures ParseId(Decimal(n)) == Some(n)
  {
    DecimalValueOfDecimal(n);
  }

  /** The values of the `tier` enumeration. */
  predicate TierName(t: string) {
    t == "hobby" || t == "enterprise"
  }

  /** `createUserSchema`: an email address, and a tier, when given, from the enumeration. */
  function ValidateSignUp(b: CreateUserBody, isEmail: string -> bool): (r: Checked<CreateUserBody>)
    ensures r.Accepted? <==> isEmail(b.email) && (b.tier.Some? ==> TierName(b.tier.value))
    ensures r.Accepted? ==> r.value == b
    ensures r.Rejected? ==>
      && r.issues != {}
      && (Issue(None, "email") in r.issues <==> !isEmail(b.email))
      && (Issue(None, "tier") in r.issues <==> b.tier.Some? && !TierName(b.tier.value))
  {
    var issues := (if isEmail(b.email) then {} else {Issue(None, "email")})
      + (if b.tier.None? || TierName(b.tier.value) then {} else {Issue(None, "tier")});
    if issues == {} then Accepted(b)
    else
      assert !isEmail(b.email) ==> Issue(None, "email") in issues;
      Rejected(issues)
  }

  /** What a sign-up leaves behind: its answer, the `users` table and the next user id. */
  datatype Registration = Registration(response: Response, users: seq<User>, nextUserId: nat)

  /**
   * POST /users once the body is accepted. The insert fails on the unique `email` or `api_key`
   * column, and any such failure is answered with 409; otherwise the user gets the next id, the
   * default tier `hobby` whatever the body asked for, and the fresh key.
   */
  function SignUp(users: seq<User>, nextUserId: nat, body: CreateUserBody, apiKey: string, now: int): (e: Registration)
    ensures e.response.status == 409 <==> body.email in Emails(users) || apiKey in ApiKeys(users)
    ensures e.response.status == 409 ==>
      && e.response == Json(409, Message("User with this email already exists"))
      && e.users == users && e.nextUserId == nextUserId
    ensures e.response.status != 409 ==>
      && |e.users| == |users| + 1 && e.users[..|users|] == users && e.nextUserId == nextUserId + 1
      && var u := e.users[|users|];
      && u.id == nextUserId && u.email == body.email && u.name == body.name && u.apiKey == apiKey
      && u.tier == Hobby && u.createdAt == now
      && e.response == Json(201, UserCreated(Decimal(nextUserId), body.email, body.name, apiKey))
  {
    if body.email in Emails(users) || apiKey in ApiKeys(users) then
      Registration(Json(409, Message("User with this email already exists")), users, nextUserId)
    else
      var u := User(nextUserId, body.email, body.name, apiKey, Hobby, now);
      assert (users + [u])[..|users|] == users;
      Registration(Json(201, UserCreated(Decimal(nextUserId), body.email, body.name, apiKey)), users + [u], nextUserId + 1)
  }

  /** Signing up again with an email already registered is a conflict, whatever the new key. */
  lemma SecondSignUpConflicts(users: seq<User>, nextUserId: nat, body: CreateUserBody, apiKey: string, now: int,
                              again: CreateUserBody, apiKey2: string, later: int)
    requires SignUp(users, nextUserId, body, apiKey, now).response.status == 201
    requires again.email == body.email
    ensures var e := SignUp(users, nextUserId, body, apiKey, now);
      SignUp(e.users, e.nextUserId, again, apiKey2, later).response.status == 409
  {
    var e := SignUp(users, nextUserId, body, apiKey, now);
    assert e.users[|users|] in e.users;
  }

  // ---------------------------------------------------------------- GET /

  /** `select * from users where email = email`, in table order. */
  function UsersByEmail(users: seq<User>, email: string): (found: seq<User>)
    ensures forall u :: u in found <==> u in users && u.email == email
    ensures found == [] <==> email !in Emails(users)
  {
    if users == [] then []
    else
      assert Emails(users) == {users[0].email} + Emails(users[1..]) by {
        assert forall u :: u in users <==> u == users[0] || u in users[1..];
      }
      (if users[0].email == email then [users[0]] else []) + UsersByEmail(users[1..], email)
  }

  /** The select returns each user with that email as often as the table holds it, and no other. */
  lemma {:induction false} UsersByEmailCounts(users: seq<User>, email: string)
    ensures forall u :: multiset(UsersByEmail(users, email))[u] == if u.email == email then multiset(users)[u] else 0
  {
    if users != [] {
      UsersByEmailCounts(users[1..], email);
      assert users == [users[0]] + users[1..];
    }
  }

  /** A user just signed up is the only one found under their email. */
  lemma SignedUpUserIsFound(users: seq<User>, nextUserId: nat, body: CreateUserBody, apiKey: string, now: int)
    requires SignUp(users, nextUserId, body, apiKey, now).response.status == 201
    ensures var e := SignUp(users, nextUserId, body, apiKey, now);
      UsersByEmail(e.users, body.email) == [e.users[|users|]]
  {
    var e := SignUp(users, nextUserId, body, apiKey, now);
    var u := e.users[|users|];
    assert e.users == users + [u] by {
      assert e.users == e.users[..|users|] + [u];
    }
    AppendedUserFound(users, u);
  }

  lemma {:induction false} AppendedUserFound(users: seq<User>, u: User)
    requires u.email !in Emails(users)
    ensures UsersByEmail(users + [u], u.email) == [u]
  {
    if users == [] {
      assert [u][1..] == [];
    } else {
      assert (users + [u])[1..] == users[1..] + [u];
      assert users[0] in users;
      AppendedUserFound(users[1..], u);
    }
  }

  // ---------------------------------------------------------------- the routes on the store

  /** POST /users. `apiKey` is the fresh `crypto.randomUUID()` and `now` the insert's clock. */
  method PostUser(db: Db, body: CreateUserBody, isEmail: string -> bool, apiKey: string, now: int)
    returns (resp: Response)
    requires db.Valid()
    modifies db`users, db`nextUserId
    ensures db.Valid()
    ensures var v := ValidateSignUp(body, isEmail);
      if v.Rejected? then
        resp == Json(400, Invalid(v.issues)) && db.users == old(db.users) && db.nextUserId == old(db.nextUserId)
      else
        Registration(resp, db.users, db.nextUserId) == SignUp(old(db.users), old(db.nextUserId), v.value, apiKey, now)
  {
    var v := ValidateSignUp(body, isEmail);
    if v.Rejected? {
      return Json(400, Invalid(v.issues));
    }
    var input := v.value;
    if input.email in Emails(db.users) || apiKey in ApiKeys(db.users) {
      return Json(409, Message("User with this email already exists"));
    }
    var id := db.nextUserId;
    db.InsertUser(User(id, input.email, input.name, apiKey, Hobby, now));
    resp := Json(201, UserCreated(Decimal(id), input.email, input.name, apiKey));
  }

  /** `getUsersSchema`: the `email` query parameter must be an email address. */
  function ValidateEmailQuery(email: Option<string>, isEmail: string -> bool): (r: Checked<string>)
    ensures r.Accepted? <==> email.Some? && isEmail(email.value)
    ensures r.Accepted? ==> r.value == email.value
    ensures r.Rejected? ==> r.issues == {Issue(None, "email")}
  {
    if email.Some? && isEmail(email.value) then Accepted(email.value) else Rejected({Issue(None, "email")})
  }

  /** GET /users?email=...: every user with that email, every column; nothing changes. */
  method GetUsers(db: Db, email: Option<string>, isEmail: string -> bool) returns (resp: Response)
    ensures var v := ValidateEmailQuery(email, isEmail);
      && (v.Rejected? ==> resp == Json(400, Invalid(v.issues)))
      && (v.Accepted? ==>
            && (resp == Json(404, Message("User not found")) <==> v.value !in Emails(db.users))
            && (v.value in Emails(db.users) ==> resp == Json(200, UserRows(UsersByEmail(db.users, v.value))))
            && (resp.status == 200 ==>
                  resp.Json? && resp.body.UserRows? && forall u :: u in resp.body.users <==> u in db.users && u.email == v.value)
            && resp.status in {200, 404})
  {
    var v := ValidateEmailQuery(email, isEmail);
    if v.Rejected? {
      return Json(400, Invalid(v.issues));
    }
    var found := UsersByEmail(db.users, v.value);
    if |found| == 0 {
      return Json(404, Message("User not found"));
    }
    resp := Json(200, UserRows(found));
  }
}
