/** Record shapes, column defaults and unique keys of the `users` and `urls` tables. */
module Schema {

  datatype Option<+T> = None | Some(value: T)

  /** The `tier` column's enumeration; a user created without a tier gets `Hobby`. */
  datatype UserTier = Hobby | Enterprise

  /** A row of `users`. `id` is assigned by the store, `apiKey` is an opaque token. */
  datatype User = User(
    id: nat,
    email: string,
    name: Option<string>,
    apiKey: string,
    tier: UserTier,
    createdAt: int)

  /** A row of `urls`. Instants are plain integers supplied by the caller. */
  datatype Url = Url(
    id: nat,
    url: string,
    shortCode: string,
    userId: nat,
    clicks: nat,
    password: Option<string>,
    createdAt: int,
    lastAccessedAt: Option<int>,
    expiresAt: Option<int>)

  function ShortCodes(urls: seq<Url>): set<string> {
    set r | r in urls :: r.shortCode
  }

  function UserIds(users: seq<User>): set<nat> {
    set u | u in users :: u.id
  }

  function Emails(users: seq<User>): set<string> {
    set u | u in users :: u.email
  }

  function ApiKeys(users: seq<User>): set<string> {
    set u | u in users :: u.apiKey
  }

  /** The primary keys and the unique `email` and `api_key` columns of `users`. */
  ghost predicate UniqueUserKeys(users: seq<User>) {
    forall i, j :: 0 <= i < j < |users| ==>
      users[i].id != users[j].id && users[i].email != users[j].email && users[i].apiKey != users[j].apiKey
  }

  /** The primary key and the unique `short_code` column of `urls`. */
  ghost predicate UniqueUrlKeys(urls: seq<Url>) {
    forall i, j :: 0 <= i < j < |urls| ==>
      urls[i].id != urls[j].id && urls[i].shortCode != urls[j].shortCode
  }

  /** The foreign key `urls.user_id` references `users.id`. */
  ghost predicate OwnersExist(users: seq<User>, urls: seq<Url>) {
    forall r :: r in urls ==> r.userId in UserIds(users)
  }

  /**
   * The store invariant: unique keys, the foreign key, and autoincrement counters
   * above every id handed out so far.
   */
  ghost predicate Consistent(users: seq<User>, urls: seq<Url>, nextUserId: nat, nextUrlId: nat) {
    && UniqueUserKeys(users)
    && UniqueUrlKeys(urls)
    && OwnersExist(users, urls)
    && (forall u :: u in users ==> u.id < nextUserId)
    && (forall r :: r in urls ==> r.id < nextUrlId)
  }

  /** `select ... where short_code = code limit 1`: the first row with that code. */
  function FindByShortCode(urls: seq<Url>, code: string): (r: Option<nat>)
    ensures r.None? <==> code !in ShortCodes(urls)
    ensures r.Some? ==> r.value < |urls| && urls[r.value].shortCode == code
    ensures r.Some? ==> forall k :: 0 <= k < r.value ==> urls[k].shortCode != code
  {
    if urls == [] then None
    else if urls[0].shortCode == code then Some(0)
    else
      var rest := FindByShortCode(urls[1..], code);
      assert ShortCodes(urls) == {urls[0].shortCode} + ShortCodes(urls[1..]) by {
        assert forall r :: r in urls <==> r == urls[0] || r in urls[1..];
      }
      match rest
      case None => None
      case Some(i) => Some(i + 1)
  }

  /** `select ... where id = id limit 1`: the first row with that id. */
  function FindById(urls: seq<Url>, id: nat): (r: Option<nat>)
    ensures r.None? <==> forall k :: 0 <= k < |urls| ==> urls[k].id != id
    ensures r.Some? ==> r.value < |urls| && urls[r.value].id == id
    ensures r.Some? ==> forall k :: 0 <= k < r.value ==> urls[k].id != id
  {
    if urls == [] then None
    else if urls[0].id == id then Some(0)
    else
      match FindById(urls[1..], id)
      case None => None
      case Some(i) => Some(i + 1)
  }

  /** Under the unique `short_code` key, the row found is the only one with that code. */
  lemma FoundRowIsUnique(urls: seq<Url>, code: string, k: nat)
    requires UniqueUrlKeys(urls)
    requires k < |urls| && urls[k].shortCode == code
    ensures FindByShortCode(urls, code) == Some(k)
  {
  }

  /** `delete from urls where short_code = code`: every row holding the code goes. */
  function RemoveCode(urls: seq<Url>, code: string): (rest: seq<Url>)
    ensures forall r :: r in rest <==> r in urls && r.shortCode != code
    ensures |rest| <= |urls|
  {
    if urls == [] then []
    else (if urls[0].shortCode == code then [] else [urls[0]]) + RemoveCode(urls[1..], code)
  }

  lemma {:induction false} RemoveAbsentCode(urls: seq<Url>, code: string)
    requires forall k :: 0 <= k < |urls| ==> urls[k].shortCode != code
    ensures RemoveCode(urls, code) == urls
  {
    if urls != [] {
      RemoveAbsentCode(urls[1..], code);
      assert [urls[0]] + urls[1..] == urls;
    }
  }

  /** Under the unique `short_code` key, deleting by code removes exactly the one row holding it. */
  lemma {:induction false} RemoveUniqueCode(urls: seq<Url>, code: string, i: nat)
    requires UniqueUrlKeys(urls)
    requires i < |urls| && urls[i].shortCode == code
    ensures RemoveCode(urls, code) == urls[..i] + urls[i + 1..]
  {
    var tail := urls[1..];
    if i == 0 {
      HeadCodeNotInTail(urls);
      RemoveAbsentCode(tail, code);
      assert urls[..0] + urls[1..] == tail;
    } else {
      assert urls[0].shortCode != code;
      assert RemoveCode(urls, code) == [urls[0]] + RemoveCode(tail, code);
      TailUnique(urls);
      RemoveUniqueCode(tail, code, i - 1);
      DropAfterHead(urls, i);
    }
  }

  lemma DropAfterHead(urls: seq<Url>, i: nat)
    requires 0 < i < |urls|
    ensures urls[..i] + urls[i + 1..] == [urls[0]] + (urls[1..][..i - 1] + urls[1..][i..])
  {
  }

  lemma HeadCodeNotInTail(urls: seq<Url>)
    requires UniqueUrlKeys(urls) && |urls| > 0
    ensures forall k :: 0 <= k < |urls| - 1 ==> urls[1..][k].shortCode != urls[0].shortCode
  {
    forall k | 0 <= k < |urls| - 1
      ensures urls[1..][k].shortCode != urls[0].shortCode
    {
      assert urls[1..][k] == urls[k + 1];
    }
  }

  lemma TailUnique(urls: seq<Url>)
    requires UniqueUrlKeys(urls) && |urls| > 0
    ensures UniqueUrlKeys(urls[1..])
  {
    var tail := urls[1..];
    forall a, b | 0 <= a < b < |tail|
      ensures tail[a].id != tail[b].id && tail[a].shortCode != tail[b].shortCode
    {
      assert tail[a] == urls[a + 1] && tail[b] == urls[b + 1];
    }
  }

  /** Rows about to be inserted whose codes are pairwise distinct and not yet stored. */
  predicate FreshCodes(rows: seq<Url>, urls: seq<Url>) {
    && (forall i, j | 0 <= i < j < |rows| :: rows[i].shortCode != rows[j].shortCode)
    && (forall k | 0 <= k < |rows| :: rows[k].shortCode !in ShortCodes(urls))
  }

  /** An insert that numbers its rows from `nextUrlId`, with fresh codes and existing owners, keeps the invariant. */
  lemma InsertKeepsConsistent(users: seq<User>, urls: seq<Url>, nextUserId: nat, nextUrlId: nat, rows: seq<Url>)
    requires Consistent(users, urls, nextUserId, nextUrlId)
    requires forall k :: 0 <= k < |rows| ==> rows[k].id == nextUrlId + k && rows[k].userId in UserIds(users)
    requires FreshCodes(rows, urls)
    ensures Consistent(users, urls + rows, nextUserId, nextUrlId + |rows|)
  {
    var s := urls + rows;
    forall a, b | 0 <= a < b < |s|
      ensures s[a].id != s[b].id && s[a].shortCode != s[b].shortCode
    {
      if b >= |urls| && a < |urls| {
        assert s[a] in urls;
      }
    }
    forall r | r in s
      ensures r.userId in UserIds(users) && r.id < nextUrlId + |rows|
    {
      if r !in urls {
        var k :| 0 <= k < |rows| && rows[k] == r;
      }
    }
  }

  /** Rewriting one row without touching its id, code or owner keeps the invariant. */
  lemma ReplaceKeepsConsistent(users: seq<User>, urls: seq<Url>, nextUserId: nat, nextUrlId: nat, i: nat, row: Url)
    requires Consistent(users, urls, nextUserId, nextUrlId)
    requires i < |urls|
    requires row.id == urls[i].id && row.shortCode == urls[i].shortCode && row.userId == urls[i].userId
    ensures Consistent(users, urls[i := row], nextUserId, nextUrlId)
  {
    var s := urls[i := row];
    forall r | r in s
      ensures r.userId in UserIds(users) && r.id < nextUrlId
    {
      var k :| 0 <= k < |s| && s[k] == r;
      assert urls[k] in urls;
    }
  }

  /** Leaving out one row keeps the keys of the others distinct. */
  lemma UniqueWithout(urls: seq<Url>, i: nat)
    requires UniqueUrlKeys(urls)
    requires i < |urls|
    ensures UniqueUrlKeys(urls[..i] + urls[i + 1..])
  {
    var s := urls[..i] + urls[i + 1..];
    forall a, b | 0 <= a < b < |s|
      ensures s[a].id != s[b].id && s[a].shortCode != s[b].shortCode
    {
      var a' := if a < i then a else a + 1;
      var b' := if b < i then b else b + 1;
      assert s[a] == urls[a'] && s[b] == urls[b'];
    }
  }

  /** Deleting the row holding a stored code keeps the invariant. */
  lemma RemoveKeepsConsistent(users: seq<User>, urls: seq<Url>, nextUserId: nat, nextUrlId: nat, code: string)
    requires Consistent(users, urls, nextUserId, nextUrlId)
    ensures Consistent(users, RemoveCode(urls, code), nextUserId, nextUrlId)
  {
    if code in ShortCodes(urls) {
      var i := FindByShortCode(urls, code).value;
      RemoveUniqueCode(urls, code, i);
      UniqueWithout(urls, i);
      forall r | r in urls[..i] + urls[i + 1..]
        ensures r in urls
      {
      }
    } else {
      RemoveAbsentCode(urls, code);
    }
  }

  /** A user with the next id and an email and a key nobody holds keeps the invariant. */
  lemma InsertUserKeepsConsistent(users: seq<User>, urls: seq<Url>, nextUserId: nat, nextUrlId: nat, u: User)
    requires Consistent(users, urls, nextUserId, nextUrlId)
    requires u.id == nextUserId && u.email !in Emails(users) && u.apiKey !in ApiKeys(users)
    ensures Consistent(users + [u], urls, nextUserId + 1, nextUrlId)
  {
    var s := users + [u];
    forall a, b | 0 <= a < b < |s|
      ensures s[a].id != s[b].id && s[a].email != s[b].email && s[a].apiKey != s[b].apiKey
    {
      if b == |users| {
        assert s[a] in users;
      }
    }
    forall r | r in urls
      ensures r.userId in UserIds(s)
    {
      var v :| v in users && v.id == r.userId;
      assert v in s;
    }
  }
}
