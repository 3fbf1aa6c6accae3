/**
 * The Clerk webhook endpoint: the Svix header check, and the user row that
 * `user.created` inserts and `user.updated` writes. Signature verification
 * and the database are outside the model; their outcomes are inputs.
 */
module ClerkWebhook {
  import opened JsValues

  datatype SvixHeaders = SvixHeaders(svixId: Option<string>, svixTimestamp: Option<string>, svixSignature: Option<string>)

  datatype EventType = UserCreated | UserUpdated | UserDeleted | OtherEvent(name: string)

  /** The part of `evt.data` the handler reads; each email address entry is reduced to its `email_address`. */
  datatype UserData = UserData(
    id: string,
    emailAddresses: seq<string>,
    username: Option<string>,
    firstName: Option<string>,
    lastName: Option<string>,
    imageUrl: Option<string>)

  datatype WebhookEvent = WebhookEvent(kind: EventType, data: UserData)

  /** The user columns both `user.created` and `user.updated` write. */
  datatype UserFields = UserFields(email: Option<string>, username: string, fullName: string, avatarUrl: Option<string>)

  /** The database call the handler makes. */
  datatype DbAction =
    | NoAction
    | InsertUser(clerkId: string, fields: UserFields)
    | UpdateUser(clerkId: string, fields: UserFields, updatedAt: string)
    | DeleteUser(clerkId: string)

  /** An uncaught exception, or a response with its status and the database call attempted before it. */
  datatype Outcome = Threw | Reply(status: int, action: DbAction)

  /** The characters `String.prototype.trim` removes: ECMAScript white space and line terminators. */
  predicate IsJsWhitespace(c: char) {
    || c == '\t' || c == '\n' || c == '\U{000B}' || c == '\U{000C}' || c == '\r' || c == ' '
    || c == '\U{00A0}' || c == '\U{1680}' || ('\U{2000}' <= c <= '\U{200A}')
    || c == '\U{2028}' || c == '\U{2029}' || c == '\U{202F}' || c == '\U{205F}'
    || c == '\U{3000}' || c == '\U{FEFF}'
  }

  /** Neither end of `s` is white space. */
  predicate Trimmed(s: string) {
    s == [] || (!IsJsWhitespace(s[0]) && !IsJsWhitespace(s[|s| - 1]))
  }

  /** `s` with its leading white space removed. */
  function TrimStart(s: string): (r: string)
    ensures |r| <= |s| && r == s[|s| - |r|..]
    ensures forall i | 0 <= i < |s| - |r| :: IsJsWhitespace(s[i])
    ensures r == [] || !IsJsWhitespace(r[0])
  {
    if s != [] && IsJsWhitespace(s[0]) then TrimStart(s[1..]) else s
  }

  /** `s` with its trailing white space removed. */
  function TrimEnd(s: string): (r: string)
    ensures |r| <= |s| && r == s[..|r|]
    ensures forall i | |r| <= i < |s| :: IsJsWhitespace(s[i])
    ensures r == [] || !IsJsWhitespace(r[|r| - 1])
  {
    if s != [] && IsJsWhitespace(s[|s| - 1]) then TrimEnd(s[..|s| - 1]) else s
  }

  /** `s.trim()`: the middle of `s` between a white-space prefix and a white-space suffix, with neither end white. */
  function Trim(s: string): (r: string)
    ensures Trimmed(r)
    ensures var k := |s| - |TrimStart(s)|;
      && k + |r| <= |s| && r == s[k..k + |r|]
      && (forall i | 0 <= i < k :: IsJsWhitespace(s[i]))
      && (forall i | k + |r| <= i < |s| :: IsJsWhitespace(s[i]))
  {
    TrimEnd(TrimStart(s))
  }

  /** `id.slice(-8)`: the last eight characters of `id`, or all of it when it is shorter. */
  function LastEight(id: string): (t: string)
    ensures |t| == if |id| < 8 then |id| else 8
    ensures id == id[..|id| - |t|] + t
  {
    if |id| < 8 then id else id[|id| - 8..]
  }

  /** `username || \`user_${id.slice(-8)}\``: never empty. */
  function Username(id: string, username: Option<string>): (u: string)
    ensures TruthyString(username) ==> u == username.value
    ensures !TruthyString(username) ==> u == "user_" + LastEight(id)
    ensures u != ""
  {
    OrElse(username, "user_" + LastEight(id))
  }

  /** `` `${first_name || ""} ${last_name || ""}`.trim() ``. */
  function FullName(firstName: Option<string>, lastName: Option<string>): (n: string)
    ensures Trimmed(n)
    ensures !TruthyString(firstName) && !TruthyString(lastName) ==> n == ""
  {
    Trim(OrElse(firstName, "") + " " + OrElse(lastName, ""))
  }

  /** Names that are already trimmed are joined by one space, or stand alone when the other is missing. */
  lemma FullNameOfTrimmedNames(firstName: Option<string>, lastName: Option<string>)
    requires Trimmed(OrElse(firstName, "")) && Trimmed(OrElse(lastName, ""))
    ensures var f, l := OrElse(firstName, ""), OrElse(lastName, "");
      FullName(firstName, lastName) == if f != "" && l != "" then f + " " + l else f + l
  {
    TrimJoinsTrimmed(OrElse(firstName, ""), OrElse(lastName, ""));
  }

  /** Trimming two trimmed strings joined by a space keeps the space only between two non-empty parts. */
  lemma TrimJoinsTrimmed(f: string, l: string)
    requires Trimmed(f) && Trimmed(l)
    ensures Trim(f + " " + l) == if f != "" && l != "" then f + " " + l else f + l
  {
    if f != "" && l != "" {
      TrimBothPresent(f, l);
    } else if f != "" {
      TrimTrailingSpace(f);
      assert l == [];
    } else {
      TrimLeadingSpace(l);
      assert f == [];
    }
  }

  lemma TrimBothPresent(f: string, l: string)
    requires f != [] && l != [] && Trimmed(f) && Trimmed(l)
    ensures Trim(f + " " + l) == f + " " + l
  {
    var s := f + " " + l;
    assert s[0] == f[0];
    TrimStartKeeps(s);
    assert s[|s| - 1] == l[|l| - 1];
    TrimEndKeeps(s);
  }

  lemma TrimTrailingSpace(f: string)
    requires f != [] && Trimmed(f)
    ensures Trim(f + " " + "") == f
  {
    var s := f + " " + "";
    assert s[0] == f[0];
    TrimStartKeeps(s);
    assert s[..|s| - 1] == f;
    assert IsJsWhitespace(s[|s| - 1]);
    assert TrimEnd(s) == TrimEnd(f);
    TrimEndKeeps(f);
  }

  lemma TrimLeadingSpace(l: string)
    requires Trimmed(l)
    ensures Trim("" + " " + l) == l
  {
    var s := "" + " " + l;
    assert s[1..] == l;
    assert IsJsWhitespace(s[0]);
    assert TrimStart(s) == TrimStart(l);
    TrimStartKeeps(l);
    TrimEndKeeps(l);
  }

  lemma TrimStartKeeps(s: string)
    requires s == [] || !IsJsWhitespace(s[0])
    ensures TrimStart(s) == s
  {
  }

  lemma TrimEndKeeps(s: string)
    requires s == [] || !IsJsWhitespace(s[|s| - 1])
    ensures TrimEnd(s) == s
  {
  }

  /** `email_addresses[0]?.email_address`. */
  function FirstEmail(data: UserData): (email: Option<string>)
    ensures email.Some? <==> data.emailAddresses != []
    ensures email.Some? ==> email.value == data.emailAddresses[0]
  {
    if data.emailAddresses != [] then Some(data.emailAddresses[0]) else None
  }

  /** The columns derived from the event data, shared by `user.created` and `user.updated`. */
  function DeriveFields(data: UserData): (fields: UserFields)
    ensures fields.email == FirstEmail(data) && fields.avatarUrl == data.imageUrl
    ensures fields.username != "" && Trimmed(fields.fullName)
    ensures TruthyString(data.username) ==> fields.username == data.username.value
  {
    UserFields(FirstEmail(data), Username(data.id, data.username), FullName(data.firstName, data.lastName), data.imageUrl)
  }

  /** The database call each event type makes; unknown types make none. */
  function ActionFor(ev: WebhookEvent, now: string): (action: DbAction)
    ensures action == NoAction <==> ev.kind.OtherEvent?
    ensures action.InsertUser? <==> ev.kind == UserCreated
    ensures action.UpdateUser? <==> ev.kind == UserUpdated
    ensures action.DeleteUser? <==> ev.kind == UserDeleted
    ensures action != NoAction ==> action.clerkId == ev.data.id
    ensures action.InsertUser? || action.UpdateUser? ==> action.fields == DeriveFields(ev.data)
    ensures action.UpdateUser? ==> action.updatedAt == now
  {
    match ev.kind
    case UserCreated => InsertUser(ev.data.id, DeriveFields(ev.data))
    case UserUpdated => UpdateUser(ev.data.id, DeriveFields(ev.data), now)
    case UserDeleted => DeleteUser(ev.data.id)
    case OtherEvent(_) => NoAction
  }

  /** All three Svix headers are present and non-empty. */
  function HeadersPresent(h: SvixHeaders): (ok: bool)
    ensures !ok <==> (|| h.svixId == None || h.svixId == Some("")
                      || h.svixTimestamp == None || h.svixTimestamp == Some("")
                      || h.svixSignature == None || h.svixSignature == Some(""))
  {
    TruthyString(h.svixId) && TruthyString(h.svixTimestamp) && TruthyString(h.svixSignature)
  }

  /**
   * `POST`: `secret` is `CLERK_WEBHOOK_SECRET`, `bodyReadable` whether
   * `req.text()` resolves, `payloadIsJson` whether `JSON.parse` accepts the body,
   * `secretDecodes` whether `new Webhook(secret)` accepts the secret, `verified`
   * what `wh.verify` returns (`None` when it throws), `clientCreated` whether
   * `createServerClient()` returns, `dbSucceeds` whether the database call
   * reports no error. The three setup calls run outside any `try`, so their
   * failures escape the handler.
   */
  function HandleWebhook(secret: Option<string>, headers: SvixHeaders, bodyReadable: bool,
                         payloadIsJson: bool, secretDecodes: bool, verified: Option<WebhookEvent>,
                         clientCreated: bool, dbSucceeds: bool, now: string): (r: Outcome)
    ensures !TruthyString(secret) ==> r == Threw
    ensures TruthyString(secret) && !HeadersPresent(headers) ==> r == Reply(400, NoAction)
    ensures (TruthyString(secret) && HeadersPresent(headers)
              && (!bodyReadable || !payloadIsJson || !secretDecodes)) ==> r == Threw
    ensures (TruthyString(secret) && HeadersPresent(headers) && bodyReadable && payloadIsJson
              && secretDecodes && verified.None?) ==> r == Reply(400, NoAction)
    ensures (TruthyString(secret) && HeadersPresent(headers) && bodyReadable && payloadIsJson
              && secretDecodes && verified.Some? && !clientCreated) ==> r == Threw
    ensures r == Threw <==>
              (|| !TruthyString(secret)
               || (&& HeadersPresent(headers)
                   && (|| !bodyReadable || !payloadIsJson || !secretDecodes
                       || (verified.Some? && !clientCreated))))
    ensures r.Reply? && r.action != NoAction ==> HeadersPresent(headers) && verified.Some? && clientCreated
    ensures r.Reply? && r.action.InsertUser? ==>
              verified.value.kind == UserCreated && r.action.fields == DeriveFields(verified.value.data)
    ensures r.Reply? && r.action.UpdateUser? ==>
              verified.value.kind == UserUpdated && r.action.fields == DeriveFields(verified.value.data)
    ensures r.Reply? && r.action.DeleteUser? ==> verified.value.kind == UserDeleted
    ensures r.Reply? ==> (r.status == 500 <==> r.action != NoAction && !dbSucceeds)
    ensures (TruthyString(secret) && HeadersPresent(headers) && bodyReadable && payloadIsJson
              && secretDecodes && verified.Some? && clientCreated && verified.value.kind.OtherEvent?)
              ==> r == Reply(200, NoAction)
    ensures (TruthyString(secret) && HeadersPresent(headers) && bodyReadable && payloadIsJson
              && secretDecodes && verified.Some? && clientCreated && !verified.value.kind.OtherEvent?)
              ==> r == Reply(if dbSucceeds then 200 else 500, ActionFor(verified.value, now))
  {
    if !TruthyString(secret) then Threw
    else if !HeadersPresent(headers) then Reply(400, NoAction)
    else if !bodyReadable || !payloadIsJson || !secretDecodes then Threw
    else match verified
      case None => Reply(400, NoAction)
      case Some(ev) =>
        if !clientCreated then Threw
        else
          var action := ActionFor(ev, now);
          if action == NoAction then Reply(200, NoAction)
          else if dbSucceeds then Reply(200, action)
          else Reply(500, action)
  }

  /** `user.created` and `user.updated` with the same data write the same email, username and full name. */
  lemma CreatedAndUpdatedAgree(data: UserData, now: string)
    ensures var created, updated := ActionFor(WebhookEvent(UserCreated, data), now),
                                    ActionFor(WebhookEvent(UserUpdated, data), now);
      && created.fields == updated.fields
      && created.clerkId == updated.clerkId == data.id
  {
  }
}
