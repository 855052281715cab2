/**
 * The guards that run before the authenticated url handlers. Each reads the request and the
 * user table and either lets the request continue or answers it; none writes anything.
 */
module Auth {
  import opened Schema

  /** The outcome of a guard: continue (with the user bound on the context), or stop with a response. */
  datatype Gate = Pass(user: User) | Halt(status: nat, message: string)

  /** `select ... from users where api_key = key limit 1`: the first user holding that key. */
  function FindByApiKey(users: seq<User>, key: string): (r: Option<User>)
    ensures r.None? <==> key !in ApiKeys(users)
    ensures r.Some? ==> r.value in users && r.value.apiKey == key
  {
    if users == [] then None
    else if users[0].apiKey == key then Some(users[0])
    else
      assert ApiKeys(users) == {users[0].apiKey} + ApiKeys(users[1..]) by {
        assert forall u :: u in users <==> u == users[0] || u in users[1..];
      }
      FindByApiKey(users[1..], key)
  }

  /** `validateApiKey`: a missing or empty `x-api-key` header, or a key nobody holds, is answered with 401. */
  function ValidateApiKey(header: Option<string>, users: seq<User>): (g: Gate)
    ensures header.None? || header == Some("") ==> g == Halt(401, "Missing API Key")
    ensures g.Pass? <==> header.Some? && header.value != "" && header.value in ApiKeys(users)
    ensures g.Pass? ==> g.user in users && g.user.apiKey == header.value
    ensures g.Halt? ==> g.status == 401
  {
    if header.None? || header.value == "" then Halt(401, "Missing API Key")
    else
      match FindByApiKey(users, header.value)
      case None => Halt(401, "Invalid API Key")
      case Some(u) => Pass(u)
  }

  /** Under the unique `api_key` column the bound user is the one holding the key. */
  lemma BoundUserIsKeyHolder(users: seq<User>, u: User)
    requires UniqueUserKeys(users)
    requires u in users && u.apiKey != ""
    ensures ValidateApiKey(Some(u.apiKey), users) == Pass(u)
  {
    var v := ValidateApiKey(Some(u.apiKey), users).user;
    var i :| 0 <= i < |users| && users[i] == u;
    var j :| 0 <= j < |users| && users[j] == v;
  }

  /** `blacklistCheck`: 403 exactly when a blacklist is stored and lists the user's key. */
  function BlacklistCheck(blacklist: Option<seq<string>>, user: User): (g: Gate)
    ensures g.Halt? <==> blacklist.Some? && user.apiKey in blacklist.value
    ensures g.Halt? ==> g.status == 403
    ensures g.Pass? ==> g.user == user
  {
    if blacklist.Some? && user.apiKey in blacklist.value then Halt(403, "Operation not allowed")
    else Pass(user)
  }

  /** `requireEnterpriseTier`: only enterprise users continue; others get 403. */
  function RequireEnterpriseTier(user: User): (g: Gate)
    ensures g.Pass? <==> user.tier == Enterprise
    ensures g.Halt? ==> g.status == 403
    ensures g.Pass? ==> g.user == user
  {
    if user.tier != Enterprise then Halt(403, "Operation not allowed") else Pass(user)
  }

  /**
   * The guard chain of an authenticated route: `validateApiKey`, then `blacklistCheck`, then,
   * on the batch route only, `requireEnterpriseTier`.
   */
  function Authenticate(header: Option<string>, users: seq<User>, blacklist: Option<seq<string>>,
                        enterpriseOnly: bool): (g: Gate)
    ensures g.Pass? <==>
      && header.Some? && header.value != "" && header.value in ApiKeys(users)
      && !(blacklist.Some? && header.value in blacklist.value)
      && (enterpriseOnly ==> ValidateApiKey(header, users).user.tier == Enterprise)
    ensures g.Pass? ==> g.user in users && g.user.apiKey == header.value
    ensures g.Halt? ==> g.status in {401, 403}
    ensures ValidateApiKey(header, users).Halt? ==> g == ValidateApiKey(header, users)
    ensures ValidateApiKey(header, users).Pass? && g.Halt? ==> g == Halt(403, "Operation not allowed")
  {
    match ValidateApiKey(header, users)
    case Halt(s, m) => Halt(s, m)
    case Pass(u) =>
      match BlacklistCheck(blacklist, u)
      case Halt(s, m) => Halt(s, m)
      case Pass(_) => if enterpriseOnly then RequireEnterpriseTier(u) else Pass(u)
  }

  /** A known key that the blacklist lists is refused with 403 on every authenticated route. */
  lemma BlacklistedKeyRefused(users: seq<User>, u: User, blacklist: seq<string>, enterpriseOnly: bool)
    requires UniqueUserKeys(users)
    requires u in users && u.apiKey != "" && u.apiKey in blacklist
    ensures Authenticate(Some(u.apiKey), users, Some(blacklist), enterpriseOnly) == Halt(403, "Operation not allowed")
  {
    BoundUserIsKeyHolder(users, u);
  }

  /** A hobby-tier user with a valid, non-blacklisted key is refused with 403 on the batch route. */
  lemma HobbyUserRefusedBatch(users: seq<User>, u: User, blacklist: Option<seq<string>>)
    requires UniqueUserKeys(users)
    requires u in users && u.apiKey != "" && u.tier == Hobby
    requires !(blacklist.Some? && u.apiKey in blacklist.value)
    ensures Authenticate(Some(u.apiKey), users, blacklist, true) == Halt(403, "Operation not allowed")
  {
    BoundUserIsKeyHolder(users, u);
  }
}
