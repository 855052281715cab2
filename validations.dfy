/**
 * The request schemas of the url routes. Each schema is a function from the raw request
 * fields to either the typed input the handler reads or the set of failing fields, which the
 * validator wrapper answers with 400.
 */
module Validations {
  import opened Schema

  /** The three states of an optional, nullable field: left out, explicitly null, or given. */
  datatype Patch<+T> = Absent | Null | Value(value: T)

  /** A failing field: top-level (`item == None`) or of the `item`-th element of a list. */
  datatype Issue = Issue(item: Option<nat>, field: string)

  datatype Checked<+T> = Accepted(value: T) | Rejected(issues: set<Issue>)

  /**
   * Zod's `url()` and `datetime()` string checks, whose internals are not part of this
   * model; `datetime` also yields the instant an accepted string denotes. The handlers read an
   * expiry only when it is truthy; mapping every accepted expiry to its instant relies on
   * `datetime()` refusing the empty string, so `datetime("")` is taken to be `None`.
   */
  datatype LibraryChecks = LibraryChecks(isUrl: string -> bool, datetime: string -> Option<int>)

  const MaxShortCodeLength: nat := 255

  predicate ShortCodeOk(s: string) {
    1 <= |s| <= MaxShortCodeLength
  }

  predicate PasswordOk(p: string) {
    |p| >= 1
  }

  /** The body of `POST /shorten` and each element of `POST /shorten/batch`, as sent. */
  datatype CreateUrlBody = CreateUrlBody(
    url: string,
    shortCode: Option<string>,
    expiresAt: Option<string>,
    password: Option<string>)

  /** The same body once accepted, with `expiresAt` read as an instant. */
  datatype CreateUrlInput = CreateUrlInput(
    url: string,
    shortCode: Option<string>,
    expiresAt: Option<int>,
    password: Option<string>)

  /** Every field of `createUrlSchema` meets its constraint. */
  predicate CreateOk(b: CreateUrlBody, checks: LibraryChecks) {
    && checks.isUrl(b.url)
    && (b.shortCode.Some? ==> ShortCodeOk(b.shortCode.value))
    && (b.expiresAt.Some? ==> checks.datetime(b.expiresAt.value).Some?)
    && (b.password.Some? ==> PasswordOk(b.password.value))
  }

  /** The failing fields of `createUrlSchema`, each reported at position `item`. */
  function CreateIssues(b: CreateUrlBody, checks: LibraryChecks, item: Option<nat>): (issues: set<Issue>)
    ensures forall iss :: iss in issues ==> iss.item == item
    ensures issues == {} <==> CreateOk(b, checks)
  {
    var issues :=
      (if checks.isUrl(b.url) then {} else {Issue(item, "url")})
      + (if b.shortCode.None? || ShortCodeOk(b.shortCode.value) then {} else {Issue(item, "shortCode")})
      + (if b.expiresAt.None? || checks.datetime(b.expiresAt.value).Some? then {} else {Issue(item, "expiresAt")})
      + (if b.password.None? || PasswordOk(b.password.value) then {} else {Issue(item, "password")});
    assert !checks.isUrl(b.url) ==> Issue(item, "url") in issues;
    issues
  }

  function ToCreateInput(b: CreateUrlBody, checks: LibraryChecks): CreateUrlInput
    requires CreateOk(b, checks)
  {
    CreateUrlInput(
      b.url, b.shortCode,
      if b.expiresAt.Some? then Some(checks.datetime(b.expiresAt.value).value) else None,
      b.password)
  }

  /** `createUrlSchema`. */
  function ValidateCreate(b: CreateUrlBody, checks: LibraryChecks): (r: Checked<CreateUrlInput>)
    ensures r.Accepted? <==>
      && checks.isUrl(b.url)
      && (b.shortCode.Some? ==> ShortCodeOk(b.shortCode.value))
      && (b.expiresAt.Some? ==> checks.datetime(b.expiresAt.value).Some?)
      && (b.password.Some? ==> PasswordOk(b.password.value))
    ensures r.Accepted? ==>
      && r.value.url == b.url && r.value.shortCode == b.shortCode && r.value.password == b.password
      && (r.value.expiresAt.Some? <==> b.expiresAt.Some?)
      && (b.expiresAt.Some? ==> checks.datetime(b.expiresAt.value) == r.value.expiresAt)
    ensures r.Rejected? ==>
      && r.issues != {}
      && (Issue(None, "url") in r.issues <==> !checks.isUrl(b.url))
      && (Issue(None, "shortCode") in r.issues <==> b.shortCode.Some? && !ShortCodeOk(b.shortCode.value))
      && (Issue(None, "expiresAt") in r.issues <==>
            b.expiresAt.Some? && checks.datetime(b.expiresAt.value).None?)
      && (Issue(None, "password") in r.issues <==> b.password.Some? && !PasswordOk(b.password.value))
      && (forall iss :: iss in r.issues ==> iss.item.None? && iss.field in {"url", "shortCode", "expiresAt", "password"})
  {
    if CreateOk(b, checks) then Accepted(ToCreateInput(b, checks))
    else Rejected(CreateIssues(b, checks, None))
  }

  /**
   * `createUrlBatchSchema`: every element must satisfy `createUrlSchema`; a failure is
   * reported at the index of the element it lies in.
   */
  function ValidateBatch(bs: seq<CreateUrlBody>, checks: LibraryChecks): (r: Checked<seq<CreateUrlInput>>)
    ensures r.Accepted? <==> forall i :: 0 <= i < |bs| ==> CreateOk(bs[i], checks)
    ensures r.Accepted? ==>
      |r.value| == |bs| && forall i :: 0 <= i < |bs| ==> CreateOk(bs[i], checks) && r.value[i] == ToCreateInput(bs[i], checks)
    decreases |bs|
  {
    if bs == [] then Accepted([])
    else
      var n := |bs| - 1;
      var init := ValidateBatch(bs[..n], checks);
      assert forall i :: 0 <= i < n ==> bs[..n][i] == bs[i];
      if init.Accepted? && CreateOk(bs[n], checks) then
        Accepted(init.value + [ToCreateInput(bs[n], checks)])
      else
        Rejected((if init.Rejected? then init.issues else {}) + CreateIssues(bs[n], checks, Some(n)))
  }

  /** An accepted batch holds, at each index, what `createUrlSchema` accepts for that element. */
  lemma BatchAcceptsElementwise(bs: seq<CreateUrlBody>, checks: LibraryChecks, i: nat)
    requires ValidateBatch(bs, checks).Accepted?
    requires i < |bs|
    ensures ValidateCreate(bs[i], checks) == Accepted(ValidateBatch(bs, checks).value[i])
  {
  }

  /** Every issue of a rejected batch lies in one of its elements, at that element's index. */
  lemma {:induction false} BatchIssuesLocated(bs: seq<CreateUrlBody>, checks: LibraryChecks)
    requires ValidateBatch(bs, checks).Rejected?
    ensures forall iss :: iss in ValidateBatch(bs, checks).issues ==>
      iss.item.Some? && iss.item.value < |bs| && iss in CreateIssues(bs[iss.item.value], checks, iss.item)
  {
    var n := |bs| - 1;
    var init := ValidateBatch(bs[..n], checks);
    var last := CreateIssues(bs[n], checks, Some(n));
    var prev: set<Issue> := if init.Rejected? then init.issues else {};
    var issues := ValidateBatch(bs, checks).issues;
    assert issues == prev + last;
    if init.Rejected? {
      BatchIssuesLocated(bs[..n], checks);
    }
    forall iss | iss in issues
      ensures iss.item.Some? && iss.item.value < |bs| && iss in CreateIssues(bs[iss.item.value], checks, iss.item)
    {
      if iss !in last {
        assert bs[..n][iss.item.value] == bs[iss.item.value];
      }
    }
  }

  /** A rejected batch reports every failure of every element, at the element's index. */
  lemma {:induction false} BatchIssueReported(bs: seq<CreateUrlBody>, checks: LibraryChecks, i: nat, iss: Issue)
    requires ValidateBatch(bs, checks).Rejected?
    requires i < |bs| && iss in CreateIssues(bs[i], checks, Some(i))
    ensures iss in ValidateBatch(bs, checks).issues
  {
    var n := |bs| - 1;
    if i < n {
      assert bs[..n][i] == bs[i];
      BatchIssueReported(bs[..n], checks, i, iss);
    }
  }

  /** `redirectUrlSchema`, on the query string. */
  datatype RedirectQuery = RedirectQuery(code: string, pw: Option<string>)

  function ValidateRedirect(code: Option<string>, pw: Option<string>): (r: Checked<RedirectQuery>)
    ensures r.Accepted? <==> code.Some? && |code.value| >= 1
    ensures r.Accepted? ==> r.value == RedirectQuery(code.value, pw)
    ensures r.Rejected? ==> r.issues == {Issue(None, "code")}
  {
    if code.Some? && |code.value| >= 1 then Accepted(RedirectQuery(code.value, pw))
    else Rejected({Issue(None, "code")})
  }

  /** `deleteUrlSchema`, on the path parameter. */
  function ValidateDelete(code: string): (r: Checked<string>)
    ensures r.Accepted? <==> |code| >= 1
    ensures r.Accepted? ==> r.value == code
    ensures r.Rejected? ==> r.issues == {Issue(None, "code")}
  {
    if |code| >= 1 then Accepted(code) else Rejected({Issue(None, "code")})
  }

  /** The body of `PATCH /:id`, as sent. */
  datatype UpdateUrlBody = UpdateUrlBody(expiresAt: Patch<string>, password: Patch<string>)

  /** The same body once accepted, with a given `expiresAt` read as an instant. */
  datatype UpdateUrlInput = UpdateUrlInput(expiresAt: Patch<int>, password: Patch<string>)

  /** `updateUrlSchema`: each field may be absent, null or a value meeting its constraint. */
  function ValidateUpdate(b: UpdateUrlBody, checks: LibraryChecks): (r: Checked<UpdateUrlInput>)
    ensures r.Accepted? <==>
      && (b.expiresAt.Value? ==> checks.datetime(b.expiresAt.value).Some?)
      && (b.password.Value? ==> PasswordOk(b.password.value))
    ensures r.Accepted? ==>
      && r.value.password == b.password
      && (r.value.expiresAt.Absent? <==> b.expiresAt.Absent?)
      && (r.value.expiresAt.Null? <==> b.expiresAt.Null?)
      && (b.expiresAt.Value? ==> checks.datetime(b.expiresAt.value) == Some(r.value.expiresAt.value))
    ensures r.Rejected? ==>
      && r.issues != {}
      && (Issue(None, "expiresAt") in r.issues <==> b.expiresAt.Value? && checks.datetime(b.expiresAt.value).None?)
      && (Issue(None, "password") in r.issues <==> b.password.Value? && !PasswordOk(b.password.value))
  {
    var expiresOk := b.expiresAt.Value? ==> checks.datetime(b.expiresAt.value).Some?;
    var passwordOk := b.password.Value? ==> PasswordOk(b.password.value);
    if expiresOk && passwordOk then
      var expiresAt: Patch<int> :=
        match b.expiresAt
        case Absent => Absent
        case Null => Null
        case Value(s) => Value(checks.datetime(s).value);
      Accepted(UpdateUrlInput(expiresAt, b.password))
    else
      Rejected((if expiresOk then {} else {Issue(None, "expiresAt")})
               + (if passwordOk then {} else {Issue(None, "password")}))
  }

  predicate IsDigit(c: char) {
    '0' <= c <= '9'
  }

  predicate AllDigits(s: string) {
    forall i :: 0 <= i < |s| ==> IsDigit(s[i])
  }

  /** The number a string of decimal digits denotes (leading zeros allowed). */
  function DecimalValue(s: string): nat
    requires AllDigits(s)
  {
    if s == [] then 0
    else DecimalValue(s[..|s| - 1]) * 10 + (s[|s| - 1] as int - '0' as int)
  }

  /** `updateUrlParamsSchema`: `/^\d+$/` and then `Number`. */
  function ParseId(s: string): (r: Option<nat>)
    ensures r.Some? <==> |s| >= 1 && AllDigits(s)
  {
    if |s| >= 1 && AllDigits(s) then Some(DecimalValue(s)) else None
  }

  function ValidateUpdateParams(id: string): (r: Checked<nat>)
    ensures r.Accepted? <==> |id| >= 1 && AllDigits(id)
    ensures r.Accepted? ==> r.value == DecimalValue(id)
    ensures r.Rejected? ==> r.issues == {Issue(None, "id")}
  {
    match ParseId(id)
    case Some(n) => Accepted(n)
    case None => Rejected({Issue(None, "id")})
  }
}
