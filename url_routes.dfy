/**
 * The url routes. Each handler is specified by a pure function from the tables it reads to its
 * answer and the tables it leaves (`Shorten`, `ShortenBatch`, `Follow`, `Delete`, `Update`, and
 * `OwnedBy` for the listing), and implemented by a method on the store that runs the guards,
 * then the request schema, then the handler's steps.
 */
module UrlRoutes {
  import opened Schema
  import opened Utils
  import opened Validations
  import opened Auth
  import opened Http
  import opened Store

  /** The answer of every `catch` block. */
  const InternalError: Response := Json(500, Error("Internal Server Error"))

  /** A guard that stops the request answers with its status and `{ error }`. */
  function Refusal(g: Gate): Response
    requires g.Halt?
  {
    Json(g.status, Error(g.message))
  }

  /** What a create leaves behind: its answer, the `urls` table, the next row id and the sqid counter. */
  datatype Insertion = Insertion(response: Response, urls: seq<Url>, nextUrlId: nat, counter: int)

  /** What a redirect, a delete or a patch leaves behind: its answer and the `urls` table. */
  datatype Change = Change(response: Response, urls: seq<Url>)

  // ---------------------------------------------------------------- GET /

  /** `select * from urls where user_id = userId`, in table order. */
  function OwnedBy(urls: seq<Url>, userId: nat): (rows: seq<Url>)
    ensures forall r :: r in rows <==> r in urls && r.userId == userId
    ensures |rows| <= |urls|
  {
    if urls == [] then []
    else (if urls[0].userId == userId then [urls[0]] else []) + OwnedBy(urls[1..], userId)
  }

  /** The select returns each of the caller's rows as often as the table holds it, and no other. */
  lemma {:induction false} OwnedByCounts(urls: seq<Url>, userId: nat)
    ensures forall r :: multiset(OwnedBy(urls, userId))[r] == if r.userId == userId then multiset(urls)[r] else 0
  {
    if urls != [] {
      OwnedByCounts(urls[1..], userId);
      assert urls == [urls[0]] + urls[1..];
    }
  }

  // ---------------------------------------------------------------- POST /shorten

  /** `password ? await hashPassword(password) : null`: an empty password is falsy and stores null. */
  function StoredHash(password: Option<string>, hash: string -> string): Option<string> {
    if password.Some? && password.value != "" then Some(hash(password.value)) else None
  }

  /** The row an insert writes: the column defaults give 0 clicks, no access yet and `created_at` now. */
  function NewRow(id: nat, input: CreateUrlInput, code: string, owner: nat, password: Option<string>, now: int): Url {
    Url(id, input.url, code, owner, 0, password, now, None, input.expiresAt)
  }

  /** `customShortCode ?? getSqid()`, with the counter after it. */
  function ChooseCode(custom: Option<string>, counter: int, encode: seq<int> -> string, now: int): (string, int)
    requires 0 <= counter < Modulus
  {
    if custom.Some? then (custom.value, counter)
    else var c := NextCounter(counter); (encode([now, c]), c)
  }

  /**
   * POST /shorten once the caller and the body are accepted. A code already stored violates the
   * unique `short_code` column, the insert throws and the catch block answers 500; a sqid drawn
   * for it is spent all the same.
   */
  function Shorten(urls: seq<Url>, nextUrlId: nat, counter: int, encode: seq<int> -> string,
                   owner: nat, input: CreateUrlInput, now: int, hash: string -> string): (e: Insertion)
    requires 0 <= counter < Modulus
    ensures e.counter == if input.shortCode.Some? then counter else NextCounter(counter)
    ensures var code := if input.shortCode.Some? then input.shortCode.value else encode([now, e.counter]);
      && (e.response.status == 500 <==> code in ShortCodes(urls))
      && (code in ShortCodes(urls) ==> e.response == InternalError && e.urls == urls && e.nextUrlId == nextUrlId)
      && (code !in ShortCodes(urls) ==>
            && |e.urls| == |urls| + 1 && e.urls[..|urls|] == urls && e.nextUrlId == nextUrlId + 1
            && var row := e.urls[|urls|];
            && row.id == nextUrlId && row.url == input.url && row.shortCode == code && row.userId == owner
            && row.clicks == 0 && row.createdAt == now && row.lastAccessedAt == None
            && row.expiresAt == input.expiresAt
            && row.password == StoredHash(input.password, hash)
            && e.response == Json(201, UrlData(UrlView(nextUrlId, input.url, code, input.expiresAt))))
  {
    var (code, c) := ChooseCode(input.shortCode, counter, encode, now);
    if code in ShortCodes(urls) then Insertion(InternalError, urls, nextUrlId, c)
    else
      var row := NewRow(nextUrlId, input, code, owner, StoredHash(input.password, hash), now);
      assert (urls + [row])[..|urls|] == urls;
      Insertion(Json(201, UrlData(ViewOf(row))), urls + [row], nextUrlId + 1, c)
  }

  // ---------------------------------------------------------------- POST /shorten/batch

  /** How many of the inputs carry no custom code, that is, how many sqids the batch draws. */
  function Drawn(inputs: seq<CreateUrlInput>): (n: nat)
    ensures n <= |inputs|
  {
    if inputs == [] then 0
    else Drawn(inputs[..|inputs| - 1]) + (if inputs[|inputs| - 1].shortCode.None? then 1 else 0)
  }

  /**
   * `urls.map(...)`: the rows of a batch, numbered from `firstId`, owned by the caller, without
   * password; item `k` with no custom code takes the sqid of the counter after the draws of items
   * `0..k`. Also the counter once every item has been mapped.
   */
  function BatchRows(inputs: seq<CreateUrlInput>, counter: int, encode: seq<int> -> string, now: int,
                     owner: nat, firstId: nat): (b: (seq<Url>, int))
    requires 0 <= counter < Modulus
    ensures |b.0| == |inputs|
    ensures b.1 == Advance(counter, Drawn(inputs))
    ensures forall k :: 0 <= k < |inputs| ==>
      b.0[k] == NewRow(firstId + k, inputs[k], b.0[k].shortCode, owner, None, now)
    decreases |inputs|
  {
    if inputs == [] then ([], counter)
    else
      var n := |inputs| - 1;
      var (rows, c) := BatchRows(inputs[..n], counter, encode, now, owner, firstId);
      var (code, c') := ChooseCode(inputs[n].shortCode, c, encode, now);
      assert forall k :: 0 <= k < n ==> inputs[..n][k] == inputs[k];
      (rows + [NewRow(firstId + n, inputs[n], code, owner, None, now)], c')
  }

  /** Mapping one more item appends its row, numbered after the others, to the rows of the items before it. */
  lemma BatchRowsStep(inputs: seq<CreateUrlInput>, counter: int, encode: seq<int> -> string, now: int,
                      owner: nat, firstId: nat, i: nat)
    requires 0 <= counter < Modulus
    requires i < |inputs|
    ensures var (rows, c) := BatchRows(inputs[..i], counter, encode, now, owner, firstId);
      var (code, c') := ChooseCode(inputs[i].shortCode, c, encode, now);
      BatchRows(inputs[..i + 1], counter, encode, now, owner, firstId)
        == (rows + [NewRow(firstId + i, inputs[i], code, owner, None, now)], c')
  {
    assert inputs[..i + 1][..i] == inputs[..i];
  }

  /** Item `k` keeps its custom code, or takes the sqid of the counter after the draws of items `0..k`. */
  lemma {:induction false} BatchCodeOf(inputs: seq<CreateUrlInput>, counter: int, encode: seq<int> -> string,
                                       now: int, owner: nat, firstId: nat, k: nat)
    requires 0 <= counter < Modulus
    requires k < |inputs|
    ensures BatchRows(inputs, counter, encode, now, owner, firstId).0[k].shortCode
         == if inputs[k].shortCode.Some? then inputs[k].shortCode.value
            else encode([now, Advance(counter, Drawn(inputs[..k + 1]))])
    decreases |inputs|
  {
    var n := |inputs| - 1;
    if k < n {
      BatchCodeOf(inputs[..n], counter, encode, now, owner, firstId, k);
      assert inputs[..n][k] == inputs[k];
      assert inputs[..n][..k + 1] == inputs[..k + 1];
    } else {
      assert inputs[..k + 1] == inputs;
    }
  }

  /** The `returning` columns of every inserted row, in order. */
  function Views(rows: seq<Url>): (views: seq<UrlView>)
    ensures |views| == |rows|
    ensures forall k :: 0 <= k < |rows| ==> views[k] == ViewOf(rows[k])
  {
    seq(|rows|, k requires 0 <= k < |rows| => ViewOf(rows[k]))
  }

  /**
   * POST /shorten/batch once the caller and the body are accepted. The batch is one INSERT
   * statement: a code repeated within the batch or already stored fails the whole statement,
   * as does an empty list, and the catch block answers 500 with nothing inserted; the sqids
   * drawn while mapping the items are spent either way.
   */
  function ShortenBatch(urls: seq<Url>, nextUrlId: nat, counter: int, encode: seq<int> -> string,
                        owner: nat, inputs: seq<CreateUrlInput>, now: int): (e: Insertion)
    requires 0 <= counter < Modulus
    ensures e.counter == Advance(counter, Drawn(inputs))
    ensures var rows := BatchRows(inputs, counter, encode, now, owner, nextUrlId).0;
      && (e.response.status == 201 <==> |inputs| > 0 && FreshCodes(rows, urls))
      && (e.response.status == 201 ==>
            && e.urls == urls + rows && e.nextUrlId == nextUrlId + |inputs|
            && e.response == Json(201, UrlBatch(Views(rows))))
      && (e.response.status != 201 ==> e.response == InternalError && e.urls == urls && e.nextUrlId == nextUrlId)
  {
    var (rows, c) := BatchRows(inputs, counter, encode, now, owner, nextUrlId);
    if |rows| == 0 || !FreshCodes(rows, urls) then Insertion(InternalError, urls, nextUrlId, c)
    else Insertion(Json(201, UrlBatch(Views(rows))), urls + rows, nextUrlId + |rows|, c)
  }

  /** A successful batch appends one row per item, after the rows already stored, and lists as many rows as were submitted. */
  lemma BatchStoresEveryItem(urls: seq<Url>, nextUrlId: nat, counter: int, encode: seq<int> -> string,
                             owner: nat, inputs: seq<CreateUrlInput>, now: int)
    requires 0 <= counter < Modulus
    requires ShortenBatch(urls, nextUrlId, counter, encode, owner, inputs, now).response.status == 201
    ensures var e := ShortenBatch(urls, nextUrlId, counter, encode, owner, inputs, now);
      && |e.urls| == |urls| + |inputs| && e.urls[..|urls|] == urls && e.nextUrlId == nextUrlId + |inputs|
      && |e.response.body.views| == |inputs|
  {
    var rows := BatchRows(inputs, counter, encode, now, owner, nextUrlId).0;
    assert (urls + rows)[..|urls|] == urls;
  }

  /** Item `k` of a successful batch is stored with the caller as owner, no password and no clicks, and listed under its id. */
  lemma BatchStoresItem(urls: seq<Url>, nextUrlId: nat, counter: int, encode: seq<int> -> string,
                        owner: nat, inputs: seq<CreateUrlInput>, now: int, k: nat)
    requires 0 <= counter < Modulus
    requires ShortenBatch(urls, nextUrlId, counter, encode, owner, inputs, now).response.status == 201
    requires k < |inputs|
    ensures var e := ShortenBatch(urls, nextUrlId, counter, encode, owner, inputs, now);
      var row := e.urls[|urls| + k];
      && row.id == nextUrlId + k && row.url == inputs[k].url && row.userId == owner
      && row.password == None && row.clicks == 0 && row.expiresAt == inputs[k].expiresAt
      && e.response.body.views[k] == UrlView(row.id, row.url, row.shortCode, row.expiresAt)
  {
    var rows := BatchRows(inputs, counter, encode, now, owner, nextUrlId).0;
    assert (urls + rows)[|urls| + k] == rows[k];
  }

  // ---------------------------------------------------------------- GET /redirect

  /** `if (urlObj.password)`: a stored password guards the row; an empty one is falsy. */
  predicate Protected(row: Url) {
    row.password.Some? && row.password.value != ""
  }

  /** `!pw` fails: a `pw` was given and is not empty. */
  predicate Supplied(pw: Option<string>) {
    pw.Some? && pw.value != ""
  }

  /** The password step lets the request through: the row is unguarded, or `pw` verifies against it. */
  predicate PasswordPasses(row: Url, pw: Option<string>, validatePassword: (string, string) -> bool) {
    !Protected(row) || (Supplied(pw) && validatePassword(pw.value, row.password.value))
  }

  /** `urlObj.expiresAt && urlObj.expiresAt < new Date()`: an expiry equal to now has not passed. */
  predicate Expired(row: Url, now: int) {
    row.expiresAt.Some? && row.expiresAt.value < now
  }

  /**
   * GET /redirect once the query is accepted: not found (404), then the password (403 without
   * one, 401 when it does not verify), then the expiry (410); only a redirect records the visit.
   */
  function Follow(urls: seq<Url>, code: string, pw: Option<string>, now: int,
                  validatePassword: (string, string) -> bool): (c: Change)
    ensures c.response.status == 404 <==> code !in ShortCodes(urls)
    ensures code !in ShortCodes(urls) ==> c.response == Json(404, Error("URL not found"))
    ensures !c.response.RedirectTo? ==> c.urls == urls
    ensures code in ShortCodes(urls) ==>
      var i := FindByShortCode(urls, code).value;
      var row := urls[i];
      && (c.response == Json(403, Error("Operation not allowed")) <==> Protected(row) && !Supplied(pw))
      && (c.response == Json(401, Error("Unauthorized")) <==>
            Protected(row) && Supplied(pw) && !validatePassword(pw.value, row.password.value))
      && (c.response == Json(410, Error("URL expired")) <==>
            PasswordPasses(row, pw, validatePassword) && Expired(row, now))
      && (c.response.RedirectTo? <==> PasswordPasses(row, pw, validatePassword) && !Expired(row, now))
      && (c.response.RedirectTo? ==>
            && c.response == RedirectTo(302, EnsureUrlHasScheme(row.url))
            && |c.urls| == |urls|
            && c.urls[i] == row.(clicks := row.clicks + 1, lastAccessedAt := Some(now))
            && forall k :: 0 <= k < |urls| && k != i ==> c.urls[k] == urls[k])
  {
    match FindByShortCode(urls, code)
    case None => Change(Json(404, Error("URL not found")), urls)
    case Some(i) =>
      var row := urls[i];
      if Protected(row) && !Supplied(pw) then Change(Json(403, Error("Operation not allowed")), urls)
      else if Protected(row) && !validatePassword(pw.value, row.password.value) then
        Change(Json(401, Error("Unauthorized")), urls)
      else if Expired(row, now) then Change(Json(410, Error("URL expired")), urls)
      else
        Change(RedirectTo(302, EnsureUrlHasScheme(row.url)),
               urls[i := row.(clicks := row.clicks + 1, lastAccessedAt := Some(now))])
  }

  /** A row just inserted is the one its code finds. */
  lemma {:induction false} AppendedRowIsFound(urls: seq<Url>, row: Url)
    requires row.shortCode !in ShortCodes(urls)
    ensures FindByShortCode(urls + [row], row.shortCode) == Some(|urls|)
  {
    var s := urls + [row];
    assert s[|urls|] == row;
  }

  /**
   * A link shortened without password and not yet expired redirects to its url; one shortened
   * with a password redirects when that password is presented and it verifies against the hash.
   */
  lemma ShortenedUrlRedirects(urls: seq<Url>, nextUrlId: nat, counter: int, encode: seq<int> -> string,
                              owner: nat, input: CreateUrlInput, now: int, hash: string -> string,
                              later: int, pw: Option<string>, validatePassword: (string, string) -> bool)
    requires 0 <= counter < Modulus
    requires Shorten(urls, nextUrlId, counter, encode, owner, input, now, hash).response.status == 201
    requires input.expiresAt.None? || later <= input.expiresAt.value
    requires input.password.Some? ==>
      pw == input.password && validatePassword(input.password.value, hash(input.password.value))
    ensures var e := Shorten(urls, nextUrlId, counter, encode, owner, input, now, hash);
      var f := Follow(e.urls, e.urls[|urls|].shortCode, pw, later, validatePassword);
      && f.response == RedirectTo(302, EnsureUrlHasScheme(input.url))
      && f.urls[|urls|].clicks == 1
  {
    var e := Shorten(urls, nextUrlId, counter, encode, owner, input, now, hash);
    var row := e.urls[|urls|];
    assert e.urls == urls + [row] by {
      assert e.urls == e.urls[..|urls|] + [row];
    }
    AppendedRowIsFound(urls, row);
  }

  /** A link shortened with a password answers 403 to a redirect that presents none. */
  lemma ProtectedUrlWantsPassword(urls: seq<Url>, nextUrlId: nat, counter: int, encode: seq<int> -> string,
                                  owner: nat, input: CreateUrlInput, now: int, hash: string -> string,
                                  later: int, validatePassword: (string, string) -> bool)
    requires 0 <= counter < Modulus
    requires Shorten(urls, nextUrlId, counter, encode, owner, input, now, hash).response.status == 201
    requires input.password.Some? && input.password.value != "" && hash(input.password.value) != ""
    ensures var e := Shorten(urls, nextUrlId, counter, encode, owner, input, now, hash);
      var f := Follow(e.urls, e.urls[|urls|].shortCode, None, later, validatePassword);
      f.response == Json(403, Error("Operation not allowed")) && f.urls == e.urls
  {
    var e := Shorten(urls, nextUrlId, counter, encode, owner, input, now, hash);
    var row := e.urls[|urls|];
    assert e.urls == urls + [row] by {
      assert e.urls == e.urls[..|urls|] + [row];
    }
    AppendedRowIsFound(urls, row);
  }

  // ---------------------------------------------------------------- DELETE /shortcode/:code

  /** DELETE /shortcode/:code once the caller and the code are accepted. */
  function Delete(urls: seq<Url>, callerId: nat, code: string): (c: Change)
    ensures c.response.status == 404 <==> code !in ShortCodes(urls)
    ensures code !in ShortCodes(urls) ==> c.response == Json(404, Message("URL not found"))
    ensures c.response.status != 200 ==> c.urls == urls
    ensures code in ShortCodes(urls) ==>
      var owner := urls[FindByShortCode(urls, code).value].userId;
      && (c.response == Json(403, Message("Operation not allowed")) <==> owner != callerId)
      && (c.response == Json(200, Message("URL deleted successfully")) <==> owner == callerId)
      && (owner == callerId ==> c.urls == RemoveCode(urls, code))
  {
    match FindByShortCode(urls, code)
    case None => Change(Json(404, Message("URL not found")), urls)
    case Some(i) =>
      if urls[i].userId != callerId then Change(Json(403, Message("Operation not allowed")), urls)
      else Change(Json(200, Message("URL deleted successfully")), RemoveCode(urls, code))
  }

  /** Under the unique `short_code` key a successful delete removes exactly the row found, keeping the order of the rest. */
  lemma DeleteRemovesOneRow(urls: seq<Url>, callerId: nat, code: string)
    requires UniqueUrlKeys(urls)
    requires Delete(urls, callerId, code).response.status == 200
    ensures var i := FindByShortCode(urls, code).value;
      Delete(urls, callerId, code).urls == urls[..i] + urls[i + 1..]
  {
    RemoveUniqueCode(urls, code, FindByShortCode(urls, code).value);
  }

  /** After a successful delete the code is unknown: redirecting to it answers 404. */
  lemma DeletedCodeIsGone(urls: seq<Url>, callerId: nat, code: string, pw: Option<string>, now: int,
                          validatePassword: (string, string) -> bool)
    requires Delete(urls, callerId, code).response.status == 200
    ensures Follow(Delete(urls, callerId, code).urls, code, pw, now, validatePassword).response
         == Json(404, Error("URL not found"))
  {
    var rest := Delete(urls, callerId, code).urls;
    assert rest == RemoveCode(urls, code);
  }

  // ---------------------------------------------------------------- PATCH /:id

  /** One field of the `set` clause: absent keeps the column, null clears it, a value sets it. */
  function Merge<T>(p: Patch<T>, current: Option<T>): Option<T> {
    match p
    case Absent => current
    case Null => None
    case Value(v) => Some(v)
  }

  /** The row after `update ... set` with the given fields; the password is stored as given, unhashed. */
  function ApplyPatch(row: Url, input: UpdateUrlInput): (r: Url)
    ensures r.id == row.id && r.url == row.url && r.shortCode == row.shortCode && r.userId == row.userId
    ensures r.clicks == row.clicks && r.createdAt == row.createdAt && r.lastAccessedAt == row.lastAccessedAt
    ensures input.expiresAt.Absent? ==> r.expiresAt == row.expiresAt
    ensures input.expiresAt.Null? ==> r.expiresAt == None
    ensures input.expiresAt.Value? ==> r.expiresAt == Some(input.expiresAt.value)
    ensures input.password.Absent? ==> r.password == row.password
    ensures input.password.Null? ==> r.password == None
    ensures input.password.Value? ==> r.password == Some(input.password.value)
  {
    row.(expiresAt := Merge(input.expiresAt, row.expiresAt), password := Merge(input.password, row.password))
  }

  /** Both fields absent: the `set` clause is empty and the statement fails. */
  predicate NothingToSet(input: UpdateUrlInput) {
    input.expiresAt.Absent? && input.password.Absent?
  }

  /** PATCH /:id once the caller, the id and the body are accepted. */
  function Update(urls: seq<Url>, callerId: nat, id: nat, input: UpdateUrlInput): (c: Change)
    ensures c.response.status == 404 <==> forall k :: 0 <= k < |urls| ==> urls[k].id != id
    ensures c.response.status == 404 ==> c.response == Json(404, Error("URL not found"))
    ensures c.response.status != 200 ==> c.urls == urls
    ensures FindById(urls, id).Some? ==>
      var i := FindById(urls, id).value;
      && (c.response == Json(403, Error("Operation not allowed")) <==> urls[i].userId != callerId)
      && (c.response == InternalError <==> urls[i].userId == callerId && NothingToSet(input))
      && (c.response.status == 200 <==> urls[i].userId == callerId && !NothingToSet(input))
      && (c.response.status == 200 ==>
            && |c.urls| == |urls|
            && c.urls[i] == ApplyPatch(urls[i], input)
            && (forall k :: 0 <= k < |urls| && k != i ==> c.urls[k] == urls[k])
            && c.response == Json(200, UrlData(ViewOf(c.urls[i]))))
  {
    match FindById(urls, id)
    case None => Change(Json(404, Error("URL not found")), urls)
    case Some(i) =>
      if urls[i].userId != callerId then Change(Json(403, Error("Operation not allowed")), urls)
      else if NothingToSet(input) then Change(InternalError, urls)
      else
        var row := ApplyPatch(urls[i], input);
        Change(Json(200, UrlData(ViewOf(row))), urls[i := row])
  }

  /** A patch that clears the expiry leaves a link that is never answered 410. */
  lemma ClearedExpiryNeverExpires(urls: seq<Url>, callerId: nat, id: nat, input: UpdateUrlInput,
                                  pw: Option<string>, now: int, validatePassword: (string, string) -> bool)
    requires UniqueUrlKeys(urls)
    requires Update(urls, callerId, id, input).response.status == 200
    requires input.expiresAt.Null?
    ensures var c := Update(urls, callerId, id, input);
      var code := urls[FindById(urls, id).value].shortCode;
      Follow(c.urls, code, pw, now, validatePassword).response != Json(410, Error("URL expired"))
  {
    var c := Update(urls, callerId, id, input);
    var i := FindById(urls, id).value;
    forall a, b | 0 <= a < b < |c.urls|
      ensures c.urls[a].id != c.urls[b].id && c.urls[a].shortCode != c.urls[b].shortCode
    {
      assert c.urls[a].shortCode == urls[a].shortCode && c.urls[a].id == urls[a].id;
      assert c.urls[b].shortCode == urls[b].shortCode && c.urls[b].id == urls[b].id;
    }
    FoundRowIsUnique(c.urls, urls[i].shortCode, i);
  }

  // ---------------------------------------------------------------- the routes on the store

  /** GET /: the caller's rows, every column; nothing changes. */
  method GetUrls(db: Db, apiKey: Option<string>, blacklist: Option<seq<string>>) returns (resp: Response)
    ensures var g := Authenticate(apiKey, db.users, blacklist, false);
      && (g.Halt? ==> resp == Refusal(g))
      && (g.Pass? ==> resp == Json(200, UrlRows(OwnedBy(db.urls, g.user.id))))
      && (g.Pass? ==> forall r :: r in resp.body.rows <==> r in db.urls && r.userId == g.user.id)
  {
    var g := Authenticate(apiKey, db.users, blacklist, false);
    if g.Halt? {
      return Refusal(g);
    }
    var rows := OwnedBy(db.urls, g.user.id);
    resp := Json(200, UrlRows(rows));
  }

  /** POST /shorten. */
  method PostShorten(db: Db, gen: SqidGenerator, apiKey: Option<string>, blacklist: Option<seq<string>>,
                     body: CreateUrlBody, checks: LibraryChecks, now: int, hash: string -> string)
    returns (resp: Response)
    requires db.Valid() && gen.Valid()
    modifies db`urls, db`nextUrlId, gen`counter
    ensures db.Valid() && gen.Valid()
    ensures var g := Authenticate(apiKey, db.users, blacklist, false);
      var v := ValidateCreate(body, checks);
      if g.Halt? || v.Rejected? then
        && resp == (if g.Halt? then Refusal(g) else Json(400, Invalid(v.issues)))
        && db.urls == old(db.urls) && db.nextUrlId == old(db.nextUrlId) && gen.counter == old(gen.counter)
      else
        Insertion(resp, db.urls, db.nextUrlId, gen.counter)
          == Shorten(old(db.urls), old(db.nextUrlId), old(gen.counter), gen.encode, g.user.id, v.value, now, hash)
  {
    var g := Authenticate(apiKey, db.users, blacklist, false);
    if g.Halt? {
      return Refusal(g);
    }
    var v := ValidateCreate(body, checks);
    if v.Rejected? {
      return Json(400, Invalid(v.issues));
    }
    var input := v.value;
    var shortCode: string;
    if input.shortCode.Some? {
      shortCode := input.shortCode.value;
    } else {
      shortCode := gen.GetSqid(now);
    }
    var passwordHash := StoredHash(input.password, hash);
    if shortCode in ShortCodes(db.urls) {
      return InternalError;
    }
    var row := NewRow(db.nextUrlId, input, shortCode, g.user.id, passwordHash, now);
    db.InsertUrls([row]);
    resp := Json(201, UrlData(ViewOf(row)));
  }

  /** `urls.map(...)` over the accepted items: one `getSqid` call per item without a custom code. */
  method MapBatch(gen: SqidGenerator, inputs: seq<CreateUrlInput>, now: int, owner: nat, firstId: nat)
    returns (rows: seq<Url>)
    requires gen.Valid()
    modifies gen`counter
    ensures gen.Valid()
    ensures (rows, gen.counter) == BatchRows(inputs, old(gen.counter), gen.encode, now, owner, firstId)
  {
    rows := [];
    var i := 0;
    while i < |inputs|
      invariant 0 <= i <= |inputs|
      invariant gen.Valid()
      invariant (rows, gen.counter) == BatchRows(inputs[..i], old(gen.counter), gen.encode, now, owner, firstId)
    {
      BatchRowsStep(inputs, old(gen.counter), gen.encode, now, owner, firstId, i);
      ghost var before := gen.counter;
      var input := inputs[i];
      var shortCode: string;
      if input.shortCode.Some? {
        shortCode := input.shortCode.value;
      } else {
        shortCode := gen.GetSqid(now);
      }
      assert (shortCode, gen.counter) == ChooseCode(input.shortCode, before, gen.encode, now);
      rows := rows + [NewRow(firstId + i, input, shortCode, owner, None, now)];
      i := i + 1;
    }
    assert inputs[..i] == inputs;
  }

  /** POST /shorten/batch: enterprise callers only; one sqid is drawn per item without a custom code. */
  method PostShortenBatch(db: Db, gen: SqidGenerator, apiKey: Option<string>, blacklist: Option<seq<string>>,
                          bodies: seq<CreateUrlBody>, checks: LibraryChecks, now: int)
    returns (resp: Response)
    requires db.Valid() && gen.Valid()
    modifies db`urls, db`nextUrlId, gen`counter
    ensures db.Valid() && gen.Valid()
    ensures var g := Authenticate(apiKey, db.users, blacklist, true);
      var v := ValidateBatch(bodies, checks);
      if g.Halt? || v.Rejected? then
        && resp == (if g.Halt? then Refusal(g) else Json(400, Invalid(v.issues)))
        && db.urls == old(db.urls) && db.nextUrlId == old(db.nextUrlId) && gen.counter == old(gen.counter)
      else
        Insertion(resp, db.urls, db.nextUrlId, gen.counter)
          == ShortenBatch(old(db.urls), old(db.nextUrlId), old(gen.counter), gen.encode, g.user.id, v.value, now)
  {
    var g := Authenticate(apiKey, db.users, blacklist, true);
    if g.Halt? {
      return Refusal(g);
    }
    var v := ValidateBatch(bodies, checks);
    if v.Rejected? {
      return Json(400, Invalid(v.issues));
    }
    var inputs := v.value;
    var rows := MapBatch(gen, inputs, now, g.user.id, db.nextUrlId);
    if |rows| == 0 || !FreshCodes(rows, db.urls) {
      return InternalError;
    }
    db.InsertUrls(rows);
    resp := Json(201, UrlBatch(Views(rows)));
  }

  /** GET /redirect: no guards; the query schema, then the decision table of `Follow`. */
  method GetRedirect(db: Db, code: Option<string>, pw: Option<string>, now: int,
                     validatePassword: (string, string) -> bool)
    returns (resp: Response)
    requires db.Valid()
    modifies db`urls
    ensures db.Valid()
    ensures var v := ValidateRedirect(code, pw);
      if v.Rejected? then resp == Json(400, Invalid(v.issues)) && db.urls == old(db.urls)
      else Change(resp, db.urls) == Follow(old(db.urls), code.value, pw, now, validatePassword)
  {
    var v := ValidateRedirect(code, pw);
    if v.Rejected? {
      return Json(400, Invalid(v.issues));
    }
    var found := FindByShortCode(db.urls, v.value.code);
    if found.None? {
      return Json(404, Error("URL not found"));
    }
    var i := found.value;
    var row := db.urls[i];
    if Protected(row) {
      if !Supplied(pw) {
        return Json(403, Error("Operation not allowed"));
      }
      var isValid := validatePassword(pw.value, row.password.value);
      if !isValid {
        return Json(401, Error("Unauthorized"));
      }
    }
    if Expired(row, now) {
      return Json(410, Error("URL expired"));
    }
    var visited := row.(clicks := row.clicks + 1, lastAccessedAt := Some(now));
    db.ReplaceUrl(i, visited);
    resp := RedirectTo(302, EnsureUrlHasScheme(row.url));
  }

  /** DELETE /shortcode/:code. */
  method DeleteShortcode(db: Db, apiKey: Option<string>, blacklist: Option<seq<string>>, code: string)
    returns (resp: Response)
    requires db.Valid()
    modifies db`urls
    ensures db.Valid()
    ensures var g := Authenticate(apiKey, db.users, blacklist, false);
      var v := ValidateDelete(code);
      if g.Halt? || v.Rejected? then
        && resp == (if g.Halt? then Refusal(g) else Json(400, Invalid(v.issues)))
        && db.urls == old(db.urls)
      else Change(resp, db.urls) == Delete(old(db.urls), g.user.id, code)
  {
    var g := Authenticate(apiKey, db.users, blacklist, false);
    if g.Halt? {
      return Refusal(g);
    }
    var v := ValidateDelete(code);
    if v.Rejected? {
      return Json(400, Invalid(v.issues));
    }
    var found := FindByShortCode(db.urls, code);
    if found.None? {
      return Json(404, Message("URL not found"));
    }
    if db.urls[found.value].userId != g.user.id {
      return Json(403, Message("Operation not allowed"));
    }
    db.DeleteUrlsByCode(code);
    resp := Json(200, Message("URL deleted successfully"));
  }

  /** PATCH /:id: the id parameter is checked before the body. */
  method PatchUrl(db: Db, apiKey: Option<string>, blacklist: Option<seq<string>>, id: string,
                  body: UpdateUrlBody, checks: LibraryChecks)
    returns (resp: Response)
    requires db.Valid()
    modifies db`urls
    ensures db.Valid()
    ensures var g := Authenticate(apiKey, db.users, blacklist, false);
      var p := ValidateUpdateParams(id);
      var v := ValidateUpdate(body, checks);
      if g.Halt? || p.Rejected? || v.Rejected? then
        && resp == (if g.Halt? then Refusal(g)
                    else if p.Rejected? then Json(400, Invalid(p.issues))
                    else Json(400, Invalid(v.issues)))
        && db.urls == old(db.urls)
      else Change(resp, db.urls) == Update(old(db.urls), g.user.id, p.value, v.value)
  {
    var g := Authenticate(apiKey, db.users, blacklist, false);
    if g.Halt? {
      return Refusal(g);
    }
    var p := ValidateUpdateParams(id);
    if p.Rejected? {
      return Json(400, Invalid(p.issues));
    }
    var v := ValidateUpdate(body, checks);
    if v.Rejected? {
      return Json(400, Invalid(v.issues));
    }
    var input := v.value;
    var found := FindById(db.urls, p.value);
    if found.None? {
      return Json(404, Error("URL not found"));
    }
    var i := found.value;
    if db.urls[i].userId != g.user.id {
      return Json(403, Error("Operation not allowed"));
    }
    if NothingToSet(input) {
      return InternalError;
    }
    var row := db.urls[i];
    match input.expiresAt {
      case Absent =>
      case Null => row := row.(expiresAt := None);
      case Value(t) => row := row.(expiresAt := Some(t));
    }
    match input.password {
      case Absent =>
      case Null => row := row.(password := None);
      case Value(pass) => row := row.(password := Some(pass));
    }
    db.ReplaceUrl(i, row);
    resp := Json(200, UrlData(ViewOf(row)));
  }
}
