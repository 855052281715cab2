/** The `users` and `urls` tables as in-memory state, with their autoincrement counters. */
module Store {
  import opened Schema

  class Db {
    var users: seq<User>
    var urls: seq<Url>
    var nextUserId: nat
    var nextUrlId: nat

    ghost predicate Valid()
      reads this
    {
      Consistent(users, urls, nextUserId, nextUrlId)
    }

    /** Empty tables; autoincrement ids start at 1. */
    constructor ()
      ensures Valid()
      ensures users == [] && urls == [] && nextUserId == 1 && nextUrlId == 1
    {
      users, urls := [], [];
      nextUserId, nextUrlId := 1, 1;
    }

    /** `insert into users`: the new user takes the next id; the caller has ruled out a taken email or key. */
    method InsertUser(u: User)
      requires Valid()
      requires u.id == nextUserId && u.email !in Emails(users) && u.apiKey !in ApiKeys(users)
      modifies this`users, this`nextUserId
      ensures Valid()
      ensures users == old(users) + [u] && nextUserId == old(nextUserId) + 1
    {
      InsertUserKeepsConsistent(users, urls, nextUserId, nextUrlId, u);
      users := users + [u];
      nextUserId := nextUserId + 1;
    }

    /**
     * `insert into urls`: the rows take the next ids in order. The callers have already ruled
     * out what the unique and foreign keys would reject.
     */
    method InsertUrls(rows: seq<Url>)
      requires Valid()
      requires forall k :: 0 <= k < |rows| ==> rows[k].id == nextUrlId + k && rows[k].userId in UserIds(users)
      requires FreshCodes(rows, urls)
      modifies this`urls, this`nextUrlId
      ensures Valid()
      ensures urls == old(urls) + rows && nextUrlId == old(nextUrlId) + |rows|
    {
      InsertKeepsConsistent(users, urls, nextUserId, nextUrlId, rows);
      urls := urls + rows;
      nextUrlId := nextUrlId + |rows|;
    }

    /** `update urls set ... where id = urls[i].id`, for a change that leaves the id, the code and the owner alone. */
    method ReplaceUrl(i: nat, row: Url)
      requires Valid()
      requires i < |urls|
      requires row.id == urls[i].id && row.shortCode == urls[i].shortCode && row.userId == urls[i].userId
      modifies this`urls
      ensures Valid()
      ensures urls == old(urls)[i := row]
    {
      ReplaceKeepsConsistent(users, urls, nextUserId, nextUrlId, i, row);
      urls := urls[i := row];
    }

    /** `delete from urls where short_code = code`. */
    method DeleteUrlsByCode(code: string)
      requires Valid()
      modifies this`urls
      ensures Valid()
      ensures urls == RemoveCode(old(urls), code)
    {
      RemoveKeepsConsistent(users, urls, nextUserId, nextUrlId, code);
      urls := RemoveCode(urls, code);
    }
  }
}
