/** The shapes of the JSON bodies and redirects the routes answer with. */
module Http {
  import opened Schema
  import Validations

  /** The columns a url route returns: `id`, `url`, `short_code`, `expires_at`; never the password. */
  datatype UrlView = UrlView(id: nat, url: string, shortCode: string, expiresAt: Option<int>)

  function ViewOf(r: Url): UrlView {
    UrlView(r.id, r.url, r.shortCode, r.expiresAt)
  }

  datatype Body =
    | Error(text: string)                              // { error }
    | Message(text: string)                            // { message }
    | Invalid(issues: set<Validations.Issue>)          // { success: false, errors }
    | UrlRows(rows: seq<Url>)                          // the selected rows, every column
    | UrlData(view: UrlView)
    | UrlBatch(views: seq<UrlView>)                    // { urls: [...] }
    | UserCreated(id: string, email: string, name: Option<string>, apiKey: string)   // `id` as a decimal string
    | UserRows(users: seq<User>)

  datatype Response =
    | Json(status: nat, body: Body)
    | RedirectTo(status: nat, location: string)
}
