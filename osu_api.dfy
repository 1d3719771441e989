/**
 * The osu! API v2 client: the client-credentials token cache (the grant
 * of section 4.4 of RFC 6749) checked against an explicit clock, the
 * handling of one HTTP reply, the endpoints and parameters of the calls
 * the bot makes, the paginated best-scores loop against a page oracle,
 * the attributes payload, and the decoding of a legacy mod bitmask.
 *
 * The network is abstract: a grant attempt is a `Grant` value, an HTTP
 * exchange a `Reply`, and a whole `_request` call a function from the
 * page size and offset to its outcome.
 */
module OsuApi {
  import opened Wrappers
  import opened Text

  const ApiBase := "https://osu.ppy.sh/api/v2"

  /** A JSON value as far as the client looks into it. */
  datatype Json = JList(items: seq<Json>) | JObject(fields: map<string, Json>) | JScalar(text: string)

  const EmptyObject := JObject(map[])

  // ---------------------------------------------------------------------
  // The token cache

  /** The outcome of one POST to the token endpoint. */
  datatype Grant = Granted(token: string, expiresIn: int) | GrantFailed

  /** `_access_token` and `_token_expiry_time`. */
  datatype TokenCache = TokenCache(token: Option<string>, expiry: int)

  /** `_get_access_token`: a grant installs the token, anything else clears the cache. */
  function Fetch(grant: Grant, now: int): (r: (TokenCache, bool))
    ensures r.1 <==> grant.Granted?
    ensures r.1 ==> r.0.token == Some(grant.token) && r.0.expiry == now + grant.expiresIn - 60
    ensures !r.1 ==> r.0 == TokenCache(None, 0)
  {
    match grant
    case Granted(t, e) => (TokenCache(Some(t), now + e - 60), true)
    case GrantFailed => (TokenCache(None, 0), false)
  }

  /** A new token is needed when there is none or the clock has reached its expiry. */
  predicate NeedsToken(c: TokenCache, now: int) {
    c.token.None? || now >= c.expiry
  }

  /** `_ensure_token`. */
  function Ensure(c: TokenCache, grant: Grant, now: int): (r: (TokenCache, bool))
    ensures !NeedsToken(c, now) ==> r == (c, true)
    ensures r.1 ==> r.0.token.Some?
  {
    if NeedsToken(c, now) then Fetch(grant, now) else (c, true)
  }

  /** A valid cached token is used as it is: the token endpoint is not consulted. */
  lemma ValidTokenKept(c: TokenCache, g1: Grant, g2: Grant, now: int)
    requires !NeedsToken(c, now)
    ensures Ensure(c, g1, now) == Ensure(c, g2, now) == (c, true)
  {
  }

  /** A success always leaves a token; a failure leaves none and expiry 0. */
  lemma EnsureOutcome(c: TokenCache, grant: Grant, now: int)
    ensures Ensure(c, grant, now).1 ==> Ensure(c, grant, now).0.token.Some?
    ensures !Ensure(c, grant, now).1 <==> NeedsToken(c, now) && grant.GrantFailed?
    ensures !Ensure(c, grant, now).1 ==> Ensure(c, grant, now).0 == TokenCache(None, 0)
    ensures NeedsToken(c, now) && grant.Granted? ==>
      Ensure(c, grant, now).0.expiry == now + grant.expiresIn - 60
  {
  }

  /**
   * A fresh token is reused until 60 seconds before the server's
   * expiry, and refreshed from then on.
   */
  lemma FreshTokenLifetime(token: string, expiresIn: int, now: int, later: int)
    requires now <= later
    ensures !NeedsToken(Fetch(Granted(token, expiresIn), now).0, later) <==> later < now + expiresIn - 60
  {
  }

  /** `OsuAPI`: the credentials and the cached token. */
  class OsuClient {
    const clientId: string
    const clientSecret: string
    var accessToken: Option<string>
    var tokenExpiry: int

    function Cache(): TokenCache
      reads this
    {
      TokenCache(accessToken, tokenExpiry)
    }

    constructor (id: string, secret: string)
      ensures clientId == id && clientSecret == secret
      ensures Cache() == TokenCache(None, 0)
    {
      clientId, clientSecret := id, secret;
      accessToken, tokenExpiry := None, 0;
    }

    /** The form body of the client-credentials grant. */
    function GrantPayload(): (r: seq<(string, string)>)
      reads this
      ensures |r| == 4 && r[2] == ("grant_type", "client_credentials") && r[3] == ("scope", "public")
      ensures r[0] == ("client_id", clientId) && r[1] == ("client_secret", clientSecret)
    {
      [("client_id", clientId), ("client_secret", clientSecret),
       ("grant_type", "client_credentials"), ("scope", "public")]
    }

    method GetAccessToken(grant: Grant, now: int) returns (ok: bool)
      modifies this
      ensures (Cache(), ok) == Fetch(grant, now)
    {
      match grant
      case Granted(t, e) =>
        accessToken := Some(t);
        tokenExpiry := now + e - 60;
        ok := true;
      case GrantFailed =>
        accessToken := None;
        tokenExpiry := 0;
        ok := false;
    }

    method EnsureToken(grant: Grant, now: int) returns (ok: bool)
      modifies this
      ensures (Cache(), ok) == Ensure(old(Cache()), grant, now)
    {
      if accessToken.None? {
        ok := GetAccessToken(grant, now);
        return;
      }
      if now >= tokenExpiry {
        ok := GetAccessToken(grant, now);
        return;
      }
      ok := true;
    }

    /**
     * `_request`: ensure a token, build the URL, send, and read the
     * reply. `sent` is the request that went out, None when none did.
     */
    method Request(verb: string, endpoint: string, params: Params, payload: Option<Json>,
                   grant: Grant, now: int, reply: Reply)
      returns (r: Option<Json>, sent: Option<HttpRequest>)
      modifies this
      ensures Cache() == Ensure(old(Cache()), grant, now).0
      ensures !Ensure(old(Cache()), grant, now).1 ==> r == None && sent == None
      ensures Ensure(old(Cache()), grant, now).1 ==>
        sent == Some(HttpRequest(verb, Url(endpoint), params, payload, accessToken.value)) &&
        r == ReadReply(reply)
    {
      var ok := EnsureToken(grant, now);
      if !ok {
        return None, None;
      }
      EnsureOutcome(old(Cache()), grant, now);
      sent := Some(HttpRequest(verb, Url(endpoint), params, payload, accessToken.value));
      r := ReadReply(reply);
    }
  }

  // ---------------------------------------------------------------------
  // One request

  /** Query parameter values: integers and strings. */
  datatype Param = PInt(n: int) | PStr(s: string)

  /** A parameter dictionary, in insertion order. */
  type Params = seq<(string, Param)>

  datatype HttpRequest = HttpRequest(verb: string, url: string, params: Params, payload: Option<Json>, bearer: string)

  /** What came back: a transport failure, or a status with its text and the JSON it parses to. */
  datatype Reply = TransportError | Http(status: int, text: string, parsed: Option<Json>)

  /** The base URL and the endpoint, with a '/' between them only when the endpoint lacks one. */
  function Url(endpoint: string): (r: string)
    ensures StartsWith(r, ApiBase + "/")
  {
    if StartsWith(endpoint, "/") then ApiBase + endpoint else ApiBase + "/" + endpoint
  }

  /** The URL is the base, one '/', and the endpoint without its leading '/'. */
  lemma UrlShape(endpoint: string)
    ensures StartsWith(endpoint, "/") ==> Url(endpoint) == ApiBase + "/" + endpoint[1..]
    ensures !StartsWith(endpoint, "/") ==> Url(endpoint) == ApiBase + "/" + endpoint
  {
    if StartsWith(endpoint, "/") {
      assert endpoint == "/" + endpoint[1..];
    }
  }

  /** With or without its leading slash, an endpoint names the same URL. */
  lemma UrlSlashOptional(endpoint: string)
    requires !StartsWith(endpoint, "/")
    ensures Url("/" + endpoint) == Url(endpoint)
  {
    assert StartsWith("/" + endpoint, "/");
    assert ApiBase + ("/" + endpoint) == ApiBase + "/" + endpoint;
  }

  /**
   * The reply handling of `_request`: 204 and an empty 200 give `{}`,
   * statuses from 400 up and transport errors give None, and otherwise
   * the body must parse as JSON.
   */
  function ReadReply(reply: Reply): (r: Option<Json>)
    ensures r.Some? ==> reply.Http? && reply.status < 400
    ensures r.Some? && r.value != EmptyObject ==> r == reply.parsed
    ensures reply.Http? && reply.status == 204 ==> r == Some(EmptyObject)
  {
    match reply
    case TransportError => None
    case Http(status, text, parsed) =>
      if status == 204 then Some(EmptyObject)
      else if status >= 400 then None
      else if text == "" && status == 200 then Some(EmptyObject)
      else parsed
  }

  /** When a reply yields nothing. */
  lemma ReadReplyNone(reply: Reply)
    ensures ReadReply(reply).None? <==>
      reply.TransportError? ||
      (reply.status != 204 && (reply.status >= 400 ||
        (reply.parsed.None? && !(reply.text == "" && reply.status == 200))))
  {
  }

  /** A 204, or an empty 200, is read as an empty object whatever the parser says. */
  lemma EmptySuccessIsEmptyObject(text: string, parsed: Option<Json>)
    ensures ReadReply(Http(204, text, parsed)) == Some(EmptyObject)
    ensures ReadReply(Http(200, "", parsed)) == Some(EmptyObject)
  {
  }

  // ---------------------------------------------------------------------
  // Endpoints and parameters

  /** An endpoint with its query parameters. */
  datatype Call = Call(endpoint: string, params: Params)

  /** A truthy optional string: present and not empty. */
  predicate Truthy(s: Option<string>) {
    s.Some? && s.value != ""
  }

  /** `get_user`: the endpoint, with the mode appended when given, and `key=username` only for usernames. */
  function UserRequest(identifier: string, mode: Option<string>, identifierType: Option<string>): (r: Call)
    ensures |r.params| <= 1
    ensures Truthy(mode) ==> EndsWith(r.endpoint, "/" + mode.value)
  {
    Call("/users/" + identifier + (if Truthy(mode) then "/" + mode.value else ""),
     if identifierType == Some("username") then [("key", PStr("username"))] else [])
  }

  lemma UserRequestShape(identifier: string, mode: Option<string>, identifierType: Option<string>)
    ensures StartsWith(UserRequest(identifier, mode, identifierType).endpoint, "/users/" + identifier)
    ensures UserRequest(identifier, mode, identifierType).params != [] <==> identifierType == Some("username")
    ensures !Truthy(mode) ==> UserRequest(identifier, mode, identifierType).endpoint == "/users/" + identifier
  {
    var e := UserRequest(identifier, mode, identifierType).endpoint;
    assert e[..|"/users/" + identifier|] == "/users/" + identifier;
  }

  /** `get_user_recent`: limit, the fail flag as "1"/"0", then mode and offset when given. */
  function RecentParams(limit: int, mode: Option<string>, offset: Option<int>, includeFails: bool): (r: Params)
    ensures |r| >= 2 && r[0] == ("limit", PInt(limit))
    ensures r[1] == ("include_fails", PStr(if includeFails then "1" else "0"))
    ensures |r| == 2 + (if Truthy(mode) then 1 else 0) + (if offset.Some? then 1 else 0)
  {
    [("limit", PInt(limit)), ("include_fails", PStr(if includeFails then "1" else "0"))]
    + (if Truthy(mode) then [("mode", PStr(mode.value))] else [])
    + (if offset.Some? then [("offset", PInt(offset.value))] else [])
  }

  /** The parameters of one page of `get_user_best`. */
  function BestParams(size: int, offset: int, mode: Option<string>): (r: Params)
    ensures |r| == (if Truthy(mode) then 3 else 2)
    ensures r[..2] == [("limit", PInt(size)), ("offset", PInt(offset))]
  {
    [("limit", PInt(size)), ("offset", PInt(offset))] + (if Truthy(mode) then [("mode", PStr(mode.value))] else [])
  }

  /** `get_user_beatmapsets`: a list as it is, a dict's `beatmapsets` list, else None. */
  function BeatmapsetsOf(result: Option<Json>): (r: Option<seq<Json>>)
    ensures r.Some? ==> result.Some?
    ensures result.Some? && result.value.JList? ==> r == Some(result.value.items)
  {
    match result
    case Some(JList(items)) => Some(items)
    case Some(JObject(fields)) =>
      if "beatmapsets" in fields && fields["beatmapsets"].JList? then Some(fields["beatmapsets"].items)
      else None
    case _ => None
  }

  /** Only a list, or a dict holding one, gives beatmapsets. */
  lemma BeatmapsetsShapes(result: Option<Json>)
    ensures BeatmapsetsOf(result).Some? <==>
      result.Some? && (result.value.JList? ||
        (result.value.JObject? && "beatmapsets" in result.value.fields &&
         result.value.fields["beatmapsets"].JList?))
  {
  }

  // ---------------------------------------------------------------------
  // Best scores, page by page

  function Min(a: int, b: int): int { if a <= b then a else b }

  /**
   * `get_user_best` from a state of the loop: `fetch(size, offset)` is
   * the `_request` call for one page. The loop ends on a full total, an
   * empty page or a short page; a failed or non-list page ends it with
   * what was collected, or None when nothing was. (The source's guard
   * against a page size of zero or less never fires: the loop only runs
   * while the total is short of the limit.)
   */
  function BestFrom(fetch: (int, int) -> Option<Json>, limit: int, offset: int, acc: seq<Json>): (r: Option<seq<Json>>)
    ensures r.None? ==> acc == []
    ensures r.Some? ==> |acc| <= |r.value| && r.value[..|acc|] == acc
    decreases limit - |acc|
  {
    if |acc| >= limit then Some(acc)
    else
      var size := Min(100, limit - |acc|);
      match fetch(size, offset)
      case Some(JList(page)) =>
        if page == [] then Some(acc)
        else if |page| < size then Some(acc + page)
        else BestFrom(fetch, limit, offset + |page|, acc + page)
      case _ => if acc == [] then None else Some(acc)
  }

  /** The requests the loop makes from a state: page size and offset of each. */
  function BestCalls(fetch: (int, int) -> Option<Json>, limit: int, offset: int, acc: seq<Json>): (r: seq<(int, int)>)
    ensures r == [] <==> |acc| >= limit
    ensures r != [] ==> r[0].1 == offset
    decreases limit - |acc|
  {
    if |acc| >= limit then []
    else
      var size := Min(100, limit - |acc|);
      match fetch(size, offset)
      case Some(JList(page)) =>
        if page != [] && |page| >= size then [(size, offset)] + BestCalls(fetch, limit, offset + |page|, acc + page)
        else [(size, offset)]
      case _ => [(size, offset)]
  }

  /** The page a call returned, as a list (empty when it was not one). */
  function PageAt(fetch: (int, int) -> Option<Json>, call: (int, int)): seq<Json> {
    match fetch(call.0, call.1)
    case Some(JList(page)) => page
    case _ => []
  }

  /** Every page asks for between 1 and 100 scores. */
  lemma {:induction false} BestCallSizes(fetch: (int, int) -> Option<Json>, limit: int, offset: int, acc: seq<Json>)
    ensures forall k :: 0 <= k < |BestCalls(fetch, limit, offset, acc)| ==>
      1 <= BestCalls(fetch, limit, offset, acc)[k].0 <= 100
    decreases limit - |acc|
  {
    if |acc| < limit {
      var size := Min(100, limit - |acc|);
      match fetch(size, offset)
      case Some(JList(page)) =>
        if page != [] && |page| >= size {
          BestCallSizes(fetch, limit, offset + |page|, acc + page);
        }
      case _ =>
    }
  }

  /** The offset of each request is the previous one plus the length of the page it returned. */
  lemma {:induction false} BestOffsetsAdvance(fetch: (int, int) -> Option<Json>, limit: int, offset: int, acc: seq<Json>)
    ensures BestCalls(fetch, limit, offset, acc) != [] ==> BestCalls(fetch, limit, offset, acc)[0].1 == offset
    ensures forall k :: 0 <= k < |BestCalls(fetch, limit, offset, acc)| - 1 ==>
      BestCalls(fetch, limit, offset, acc)[k + 1].1 ==
        BestCalls(fetch, limit, offset, acc)[k].1 + |PageAt(fetch, BestCalls(fetch, limit, offset, acc)[k])|
    decreases limit - |acc|
  {
    var calls := BestCalls(fetch, limit, offset, acc);
    if |acc| < limit {
      var size := Min(100, limit - |acc|);
      match fetch(size, offset)
      case Some(JList(page)) =>
        if page != [] && |page| >= size {
          var rest := BestCalls(fetch, limit, offset + |page|, acc + page);
          BestOffsetsAdvance(fetch, limit, offset + |page|, acc + page);
          assert calls == [(size, offset)] + rest;
          forall k | 0 <= k < |calls| - 1
            ensures calls[k + 1].1 == calls[k].1 + |PageAt(fetch, calls[k])|
          {
            if k > 0 {
              assert calls[k] == rest[k - 1] && calls[k + 1] == rest[k];
            }
          }
        }
      case _ =>
    }
  }

  /**
   * When the server never returns more than it was asked for, the total
   * never exceeds the limit.
   */
  lemma {:induction false} BestWithinLimit(fetch: (int, int) -> Option<Json>, limit: int, offset: int, acc: seq<Json>)
    requires forall n, o :: fetch(n, o).Some? && fetch(n, o).value.JList? ==> |fetch(n, o).value.items| <= n
    requires |acc| <= limit
    ensures BestFrom(fetch, limit, offset, acc).Some? ==> |BestFrom(fetch, limit, offset, acc).value| <= limit
    decreases limit - |acc|
  {
    if |acc| < limit {
      var size := Min(100, limit - |acc|);
      match fetch(size, offset)
      case Some(JList(page)) =>
        if page != [] && |page| >= size {
          BestWithinLimit(fetch, limit, offset + |page|, acc + page);
        }
      case _ =>
    }
  }

  /** What is returned extends what was collected; None only when nothing was. */
  lemma {:induction false} BestKeepsCollected(fetch: (int, int) -> Option<Json>, limit: int, offset: int, acc: seq<Json>)
    ensures BestFrom(fetch, limit, offset, acc).None? ==> acc == []
    ensures BestFrom(fetch, limit, offset, acc).Some? ==>
      |BestFrom(fetch, limit, offset, acc).value| >= |acc| &&
      BestFrom(fetch, limit, offset, acc).value[..|acc|] == acc
    decreases limit - |acc|
  {
    if |acc| < limit {
      var size := Min(100, limit - |acc|);
      match fetch(size, offset)
      case Some(JList(page)) =>
        if page != [] && |page| >= size {
          BestKeepsCollected(fetch, limit, offset + |page|, acc + page);
          var r := BestFrom(fetch, limit, offset + |page|, acc + page).value;
          assert r[..|acc|] == (acc + page)[..|acc|];
        } else if page != [] {
          assert (acc + page)[..|acc|] == acc;
        }
      case _ =>
    }
  }

  /** None comes back only when the very first page fails. */
  lemma BestNoneIffFirstFails(fetch: (int, int) -> Option<Json>, limit: int, offset: int)
    ensures BestFrom(fetch, limit, offset, []).None? <==>
      limit > 0 && !(fetch(Min(100, limit), offset).Some? && fetch(Min(100, limit), offset).value.JList?)
  {
    if limit > 0 {
      var size := Min(100, limit);
      match fetch(size, offset)
      case Some(JList(page)) =>
        if page != [] && |page| >= size {
          BestKeepsCollected(fetch, limit, offset + |page|, page);
          assert [] + page == page;
        }
      case _ =>
    }
  }

  /** The loop of `get_user_best`. */
  method GetUserBest(fetch: (int, int) -> Option<Json>, limit: int, offset: Option<int>) returns (r: Option<seq<Json>>)
    ensures r == BestFrom(fetch, limit, offset.GetOr(0), [])
  {
    var all: seq<Json> := [];
    var current := offset.GetOr(0);
    while |all| < limit
      invariant BestFrom(fetch, limit, current, all) == BestFrom(fetch, limit, offset.GetOr(0), [])
      decreases limit - |all|
    {
      var size := Min(100, limit - |all|);
      var page := fetch(size, current);
      if page.None? || !page.value.JList? {
        if all == [] {
          return None;
        }
        return Some(all);
      }
      var scores := page.value.items;
      if scores == [] {
        break;
      }
      all := all + scores;
      current := current + |scores|;
      if |scores| < size {
        return Some(all);
      }
    }
    return Some(all);
  }

  // ---------------------------------------------------------------------
  // The attributes payload

  /** The `mods` argument: absent, an integer, a list of acronyms, or a string of acronyms. */
  datatype ModsArg = NoMods | ModsInt(n: int) | ModsList(acronyms: seq<string>) | ModsString(s: string)

  /** `[s[i:i+2] for i in range(0, len(s), 2)]`. */
  function Chunks(s: string): (r: seq<string>)
    requires |s| % 2 == 0
    ensures |r| == |s| / 2
    ensures forall k :: 0 <= k < |r| ==> r[k] == s[2 * k..2 * k + 2]
    decreases |s|
  {
    if s == [] then [] else [s[..2]] + Chunks(s[2..])
  }

  /** Joining the chunks gives the string back. */
  lemma {:induction false} ChunksJoin(s: string)
    requires |s| % 2 == 0
    ensures Concat(Chunks(s)) == s
    decreases |s|
  {
    if s != [] {
      ChunksJoin(s[2..]);
      assert s[..2] + s[2..] == s;
    }
  }

  /** `ruleset_map.get(name.lower())`. */
  function RulesetOfName(name: string): (r: Option<int>)
    ensures r.Some? ==> 0 <= r.value <= 3
  {
    var table := [("osu", 0), ("taiko", 1), ("fruits", 2), ("mania", 3)];
    var r := Lookup(table, Lower(name));
    if r.Some? then
      LookupFound(table, Lower(name));
      r
    else r
  }

  datatype AttributesPayload = AttributesPayload(mods: Option<ModsArg>, rulesetId: Option<int>)

  /** `get_beatmap_attributes`: the JSON body, before it is posted. */
  function AttributesBody(mods: ModsArg, rulesetId: Option<int>, rulesetName: Option<string>): (r: AttributesPayload)
    ensures mods.NoMods? <==> r.mods.None?
    ensures rulesetId.Some? ==> r.rulesetId == rulesetId
    ensures r.rulesetId.Some? && rulesetId.None? ==> 0 <= r.rulesetId.value <= 3
  {
    var m :=
      match mods
      case NoMods => None
      case ModsString(s) =>
        if |s| > 0 && |s| % 2 == 0 then Some(ModsList(Chunks(s))) else Some(mods)
      case _ => Some(mods);
    var r := if rulesetId.None? && Truthy(rulesetName) then RulesetOfName(rulesetName.value) else rulesetId;
    AttributesPayload(m, r)
  }

  /**
   * A non-empty even-length mod string is sent as its two-letter chunks;
   * any other value as it is.
   */
  lemma AttributesMods(mods: ModsArg, rulesetId: Option<int>, rulesetName: Option<string>)
    ensures mods.NoMods? <==> AttributesBody(mods, rulesetId, rulesetName).mods.None?
    ensures mods.ModsString? && |mods.s| > 0 && |mods.s| % 2 == 0 ==>
      AttributesBody(mods, rulesetId, rulesetName).mods.value.ModsList? &&
      Concat(AttributesBody(mods, rulesetId, rulesetName).mods.value.acronyms) == mods.s
    ensures !mods.NoMods? && !(mods.ModsString? && |mods.s| > 0 && |mods.s| % 2 == 0) ==>
      AttributesBody(mods, rulesetId, rulesetName).mods == Some(mods)
  {
    if mods.ModsString? && |mods.s| > 0 && |mods.s| % 2 == 0 {
      ChunksJoin(mods.s);
    }
  }

  /** An explicit ruleset id, even 0, wins over the name; the name is consulted only without one. */
  lemma RulesetPrecedence(mods: ModsArg, rulesetId: Option<int>, rulesetName: Option<string>)
    ensures rulesetId.Some? ==> AttributesBody(mods, rulesetId, rulesetName).rulesetId == rulesetId
    ensures rulesetId.None? && !Truthy(rulesetName) ==> AttributesBody(mods, rulesetId, rulesetName).rulesetId.None?
    ensures rulesetId.None? && Truthy(rulesetName) ==>
      AttributesBody(mods, rulesetId, rulesetName).rulesetId == RulesetOfName(rulesetName.value)
  {
  }

  lemma RulesetNames()
    ensures RulesetOfName("Mania") == Some(3)
    ensures RulesetOfName("catch") == None
  {
    assert Lower("Mania") == "mania";
    assert Lower("catch") == "catch";
  }

  // ---------------------------------------------------------------------
  // Decoding mods

  /** `decode_mods` accepts a list of acronyms or an integer; anything else is invalid. */
  datatype ModsValue = AcronymList(acronyms: seq<string>) | Bitmask(n: int) | OtherValue

  /** The entries of `MODS_ENUM`. */
  datatype LegacyMod = NF | EZ | TD | HD | HR | SD | DT | RX | HT | NC | FL | AU | SO | AP | PF

  /** `MODS_ENUM`, in its order. */
  const ModsEnum: seq<LegacyMod> := [NF, EZ, TD, HD, HR, SD, DT, RX, HT, NC, FL, AU, SO, AP, PF]

  function Value(m: LegacyMod): (r: bv16)
    ensures r != 0 && r & (r - 1) == 0 && r < 0x8000
  {
    match m
    case NF => 1 case EZ => 2 case TD => 4 case HD => 8 case HR => 16 case SD => 32
    case DT => 64 case RX => 128 case HT => 256 case NC => 512 case FL => 1024
    case AU => 2048 case SO => 4096 case AP => 8192 case PF => 16384
  }

  function Acronym(m: LegacyMod): (r: string)
    ensures |r| == 2 && 'A' <= r[0] <= 'Z' && 'A' <= r[1] <= 'Z'
  {
    match m
    case NF => "NF" case EZ => "EZ" case TD => "TD" case HD => "HD" case HR => "HR"
    case SD => "SD" case DT => "DT" case RX => "RX" case HT => "HT" case NC => "NC"
    case FL => "FL" case AU => "AU" case SO => "SO" case AP => "AP" case PF => "PF"
  }

  /** Distinct entries have distinct acronyms. */
  lemma AcronymsDistinct(m: LegacyMod, k: LegacyMod)
    requires Acronym(m) == Acronym(k)
    ensures m == k
  {
    assert Acronym(m)[0] == Acronym(k)[0] && Acronym(m)[1] == Acronym(k)[1];
  }

  /**
   * The fifteen low bits of the integer, as Python's `&` sees them: its
   * two's complement, also for negative numbers.
   */
  function LowBits(n: int): bv16 {
    (n % 0x8000) as bv16
  }

  /** Every entry is in the table. */
  lemma InTable(m: LegacyMod)
    ensures m in ModsEnum
  {
    match m
    case NF => assert ModsEnum[0] == m; case EZ => assert ModsEnum[1] == m;
    case TD => assert ModsEnum[2] == m; case HD => assert ModsEnum[3] == m;
    case HR => assert ModsEnum[4] == m; case SD => assert ModsEnum[5] == m;
    case DT => assert ModsEnum[6] == m; case RX => assert ModsEnum[7] == m;
    case HT => assert ModsEnum[8] == m; case NC => assert ModsEnum[9] == m;
    case FL => assert ModsEnum[10] == m; case AU => assert ModsEnum[11] == m;
    case SO => assert ModsEnum[12] == m; case AP => assert ModsEnum[13] == m;
    case PF => assert ModsEnum[14] == m;
  }

  /**
   * The integer as the set of entries whose bit it has; every value in the
   * table is a single bit, so `bits & value != 0` is membership here.
   */
  function Flags(n: int): (r: set<LegacyMod>)
    ensures forall m :: m in r <==> LowBits(n) & Value(m) != 0
  {
    var r := set m | m in ModsEnum && LowBits(n) & Value(m) != 0;
    assert forall m :: m in r <==> LowBits(n) & Value(m) != 0 by {
      forall m ensures m in r <==> LowBits(n) & Value(m) != 0 {
        InTable(m);
      }
    }
    r
  }

  /** The entries skipped by the loop: NC and DT always, HT unless the NC bit is still set. */
  predicate SkippedInLoop(m: LegacyMod, flags: set<LegacyMod>) {
    (m == NC || m == DT || m == HT) && !(m == HT && NC in flags)
  }

  /** Whether the loop appends an entry's acronym. */
  predicate Emitted(flags: set<LegacyMod>, m: LegacyMod) {
    !SkippedInLoop(m, flags) && m in flags
  }

  /** The entries the loop appends, over a prefix of the table. */
  function LoopMods(flags: set<LegacyMod>, table: seq<LegacyMod>): seq<LegacyMod> {
    if table == [] then []
    else
      var m := table[|table| - 1];
      LoopMods(flags, table[..|table| - 1]) + (if Emitted(flags, m) then [m] else [])
  }

  /** The entry written first: NC when its bit is set, else DT when its bit is set. */
  function LeadMods(flags: set<LegacyMod>): seq<LegacyMod> {
    if NC in flags then [NC] else if DT in flags then [DT] else []
  }

  /** The bits left for the loop: NC clears DT and HT. */
  function LoopFlags(flags: set<LegacyMod>): set<LegacyMod> {
    if NC in flags then flags - {DT, HT} else flags
  }

  /** The entries written for a set of bits, in output order. */
  function DecodedMods(flags: set<LegacyMod>): seq<LegacyMod> {
    LeadMods(flags) + LoopMods(LoopFlags(flags), ModsEnum)
  }

  function Acronyms(ms: seq<LegacyMod>): (r: seq<string>)
    ensures |r| == |ms| && forall k :: 0 <= k < |ms| ==> r[k] == Acronym(ms[k])
  {
    if ms == [] then [] else [Acronym(ms[0])] + Acronyms(ms[1..])
  }

  /** Every acronym has two letters, so the written text has two per entry. */
  lemma {:induction false} AcronymsLength(ms: seq<LegacyMod>)
    ensures |Concat(Acronyms(ms))| == 2 * |ms|
  {
    if ms != [] {
      AcronymsLength(ms[1..]);
      assert Acronyms(ms)[1..] == Acronyms(ms[1..]);
    }
  }

  /** `decode_mods`. */
  function DecodeMods(v: ModsValue): (r: string)
    ensures v.OtherValue? ==> r == "Invalid"
    ensures v == AcronymList([]) || v == Bitmask(0) ==> r == "None"
    ensures v.Bitmask? && r != "None" ==> |r| == 2 * |DecodedMods(Flags(v.n))|
  {
    match v
    case AcronymList(acronyms) => if acronyms == [] then "None" else Concat(acronyms)
    case Bitmask(n) =>
      if n == 0 || DecodedMods(Flags(n)) == [] then "None"
      else
        AcronymsLength(DecodedMods(Flags(n)));
        Concat(Acronyms(DecodedMods(Flags(n))))
    case OtherValue => "Invalid"
  }

  /** An entry comes out of the loop exactly when it is in the table, set and not skipped. */
  lemma {:induction false} LoopModsMembers(flags: set<LegacyMod>, table: seq<LegacyMod>, m: LegacyMod)
    ensures m in LoopMods(flags, table) <==> m in table && Emitted(flags, m)
  {
    if table != [] {
      var init := table[..|table| - 1];
      LoopModsMembers(flags, init, m);
      assert table == init + [table[|table| - 1]];
    }
  }

  /** HT is never written, whatever the bits. */
  lemma DecodeNeverShowsHalfTime(flags: set<LegacyMod>)
    ensures HT !in DecodedMods(flags)
    ensures "HT" !in Acronyms(DecodedMods(flags))
  {
    LoopModsMembers(LoopFlags(flags), ModsEnum, HT);
    var names := Acronyms(DecodedMods(flags));
    forall k | 0 <= k < |names| ensures names[k] != "HT" {
      if names[k] == "HT" {
        AcronymsDistinct(DecodedMods(flags)[k], HT);
      }
    }
  }

  /** NC comes first when its bit is set, and then DT is not written; otherwise DT comes first when set. */
  lemma DecodeNightcoreFirst(flags: set<LegacyMod>)
    ensures NC in flags ==> DecodedMods(flags)[0] == NC && DT !in DecodedMods(flags)
    ensures NC !in flags && DT in flags ==> DecodedMods(flags)[0] == DT && DT !in DecodedMods(flags)[1..]
    ensures NC !in flags && DT !in flags ==> DT !in DecodedMods(flags)
    ensures NC in DecodedMods(flags) <==> NC in flags
  {
    var ms := DecodedMods(flags);
    LoopModsMembers(LoopFlags(flags), ModsEnum, DT);
    LoopModsMembers(LoopFlags(flags), ModsEnum, NC);
    assert ms[|LeadMods(flags)|..] == LoopMods(LoopFlags(flags), ModsEnum);
  }

  /** Every other entry is written exactly when its bit is set. */
  lemma DecodeOtherMods(flags: set<LegacyMod>, m: LegacyMod)
    requires m != DT && m != HT && m != NC
    ensures m in DecodedMods(flags) <==> m in flags
  {
    LoopModsMembers(LoopFlags(flags), ModsEnum, m);
    InTable(m);
  }

  lemma LoopModsStep(flags: set<LegacyMod>, i: nat)
    requires i < |ModsEnum|
    ensures LoopMods(flags, ModsEnum[..i + 1]) ==
      LoopMods(flags, ModsEnum[..i]) + (if Emitted(flags, ModsEnum[i]) then [ModsEnum[i]] else [])
  {
    assert ModsEnum[..i + 1][..i] == ModsEnum[..i];
  }

  /** The loop of `decode_mods` over `MODS_ENUM`: each set entry not skipped is appended in table order. */
  method AppendLoopMods(head: seq<LegacyMod>, flags: set<LegacyMod>) returns (mods: seq<LegacyMod>)
    ensures mods == head + LoopMods(flags, ModsEnum)
  {
    mods := head;
    var i := 0;
    while i < |ModsEnum|
      invariant 0 <= i <= |ModsEnum|
      invariant mods == head + LoopMods(flags, ModsEnum[..i])
    {
      LoopModsStep(flags, i);
      var m := ModsEnum[i];
      if Emitted(flags, m) {
        mods := mods + [m];
      }
      i := i + 1;
    }
    assert ModsEnum[..i] == ModsEnum;
  }

  /** `decode_mods`. */
  method DecodeModsValue(v: ModsValue) returns (r: string)
    ensures r == DecodeMods(v)
  {
    match v
    case AcronymList(acronyms) =>
      r := if acronyms == [] then "None" else Concat(acronyms);
    case OtherValue =>
      r := "Invalid";
    case Bitmask(n) =>
      r := DecodeBitmask(n);
  }

  /** The integer branch of `decode_mods`: the leading NC or DT, then the loop over the table. */
  method DecodeBitmask(n: int) returns (r: string)
    ensures r == DecodeMods(Bitmask(n))
  {
    if n == 0 {
      return "None";
    }
    var flags := Flags(n);
    var mods: seq<LegacyMod> := [];
    if NC in flags {
      mods := [NC];
      flags := flags - {DT};
      flags := flags - {HT};
      assert flags == Flags(n) - {DT, HT};
    } else if DT in flags {
      mods := [DT];
    }
    assert mods == LeadMods(Flags(n)) && flags == LoopFlags(Flags(n));
    mods := AppendLoopMods(mods, flags);
    r := if mods == [] then "None" else Concat(Acronyms(mods));
  }
}
