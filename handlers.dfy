/**
 * The gateway's request handling (internal/handlers.go): the first path
 * segment (the context) picks a handler, contexts with a route are forwarded
 * to their back end with the context stripped, and the API handlers check the
 * caller's token before they touch the store, the app list or the command
 * queue.
 */
module Handlers {
  import opened Wrappers
  import opened Text
  import opened Data
  import opened Clients
  import opened Commands
  import opened Apps

  // ---------------------------------------------------------------------------
  // Path context

  /**
   * getPathContext: the second "/"-separated piece of the path, or "" when it
   * holds a "." (a file at the top of the site). Indexing piece 1 needs a "/".
   */
  function PathContext(path: string): string
    requires '/' in path
  {
    var context := Split(path, '/')[1];
    if '.' in context then "" else context
  }

  /** The context is the segment between the first and the second "/", unless it holds a ".". */
  lemma PathContextOf(pre: string, segment: string, tail: string)
    requires '/' !in pre && '/' !in segment
    requires tail == [] || tail[0] == '/'
    ensures PathContext(pre + "/" + segment + tail) == if '.' in segment then "" else segment
  {
    assert pre + "/" + segment + tail == pre + ['/'] + (segment + tail);
    SplitHead(pre, '/', segment + tail);
    SplitFirst(segment, '/', tail);
  }

  /** removePathContext: the first occurrence of "/" + context deleted from the path. */
  function RemovePathContext(path: string): string
    requires '/' in path
  {
    ReplaceFirst(path, "/" + PathContext(path), "")
  }

  /** "/api/scan" becomes "/scan" and "/api" becomes "": exactly the leading "/" + context goes. */
  lemma RemovePathContextOf(segment: string, tail: string)
    requires '/' !in segment && '.' !in segment
    requires tail == [] || tail[0] == '/'
    ensures RemovePathContext("/" + segment + tail) == tail
  {
    PathContextOf("", segment, tail);
    assert "" + "/" + segment + tail == "/" + segment + tail;
    assert "/" + segment + tail == ("/" + segment) + tail;
    ReplaceFirstAtStart("/" + segment, tail, "");
  }

  /** With an empty context only the leading "/" goes: "/index.html" becomes "index.html". */
  lemma RemoveEmptyContext(path: string)
    requires path != [] && path[0] == '/'
    requires PathContext(path) == ""
    ensures RemovePathContext(path) == path[1..]
  {
    assert path == "/" + path[1..];
    ReplaceFirstAtStart("/", path[1..], "");
  }

  // ---------------------------------------------------------------------------
  // Routes

  /** A Go map read: a missing context reads as the empty address. */
  function RouteOf(routes: map<string, string>, context: string): (addr: string)
    ensures context !in routes ==> addr == ""
    ensures context in routes ==> addr == routes[context]
  {
    if context in routes then routes[context] else ""
  }

  /** isAPI: the request's context has a non-empty back-end address. */
  predicate IsAPI(routes: map<string, string>, path: string)
    requires '/' in path
  {
    RouteOf(routes, PathContext(path)) != ""
  }

  /** The route table (routeMap), a map the gateway fills at start-up. */
  class RouteTable {
    var entries: map<string, string>

    /** newProxyRoutes: no routes. */
    constructor ()
      ensures entries == map[]
    {
      entries := map[];
    }

    /** routeMap.Set: the context now maps to the address; no other context changes. */
    method Set(context: string, url: string)
      modifies this
      ensures context in entries && entries[context] == url
      ensures entries.Keys == old(entries.Keys) + {context}
      ensures forall k :: k in old(entries) && k != context ==> entries[k] == old(entries)[k]
    {
      entries := entries[context := url];
    }
  }

  /** After Set, a request is forwarded for that context exactly when the address is not empty. */
  lemma SetDecidesIsAPI(routes: map<string, string>, context: string, url: string, path: string)
    requires '/' in path
    ensures PathContext(path) == context ==> (IsAPI(routes[context := url], path) <==> url != "")
    ensures PathContext(path) != context ==> (IsAPI(routes[context := url], path) <==> IsAPI(routes, path))
  {
  }

  // ---------------------------------------------------------------------------
  // Dispatch (ServeHTTP)

  datatype Handler =
    | NoHandler          // HEAD and OPTIONS: nothing is written
    | PathPanic          // getPathContext on a path without "/": a crash
    | LogoutHandler
    | AuthHandler
    | QueryHandler
    | CommandHandler
    | WebSocketHandler
    | HomeAppHandler
    | BackendHandler
    | InstalledAppsHandler

  /** The contexts with a fixed handler, whatever the route table says. */
  const Reserved: set<string> := {"logout", "auth", "query", "command", "ws", "static", ""}

  /**
   * ProxyServer.ServeHTTP: the handler a request reaches. A path with no "/"
   * (the empty path of an absolute-form request line) makes getPathContext
   * index past the split, which is a crash.
   */
  function Dispatch(routes: map<string, string>, verb: string, path: string): (h: Handler)
  {
    if verb == "HEAD" || verb == "OPTIONS" then NoHandler
    else if '/' !in path then PathPanic
    else
      var context := PathContext(path);
      if context == "logout" then LogoutHandler
      else if context == "auth" then AuthHandler
      else if context == "query" then QueryHandler
      else if context == "command" then CommandHandler
      else if context == "ws" then WebSocketHandler
      else if context == "static" || context == "" then HomeAppHandler
      else if IsAPI(routes, path) then BackendHandler
      else InstalledAppsHandler
  }

  /**
   * HEAD and OPTIONS reach no handler; any other request on a path without
   * "/" crashes; each of logout, auth, query, command and ws reaches its own
   * handler; "" and "static" reach the home app; a request is forwarded
   * exactly when its context is not reserved and has a route, and otherwise
   * an unreserved context is served as an installed app.
   */
  lemma DispatchRules(routes: map<string, string>, verb: string, path: string)
    ensures var h, ignored := Dispatch(routes, verb, path), verb == "HEAD" || verb == "OPTIONS";
      && (h == NoHandler <==> ignored)
      && (h == PathPanic <==> !ignored && '/' !in path)
      && (h == LogoutHandler <==> !ignored && '/' in path && PathContext(path) == "logout")
      && (h == AuthHandler <==> !ignored && '/' in path && PathContext(path) == "auth")
      && (h == QueryHandler <==> !ignored && '/' in path && PathContext(path) == "query")
      && (h == CommandHandler <==> !ignored && '/' in path && PathContext(path) == "command")
      && (h == WebSocketHandler <==> !ignored && '/' in path && PathContext(path) == "ws")
      && (h == HomeAppHandler <==> !ignored && '/' in path && (PathContext(path) == "" || PathContext(path) == "static"))
      && (h == BackendHandler <==> !ignored && '/' in path && PathContext(path) !in Reserved && IsAPI(routes, path))
      && (h == InstalledAppsHandler <==> !ignored && '/' in path && PathContext(path) !in Reserved && !IsAPI(routes, path))
  {
    if '/' in path {
      var c := PathContext(path);
      if c in Reserved {
        assert Dispatch(routes, verb, path) != BackendHandler;
        assert Dispatch(routes, verb, path) != InstalledAppsHandler;
      } else {
        assert c != "" && c != "static";
      }
    }
  }

  /** A reserved context reaches its own handler whatever routes exist, even one named like it. */
  lemma ReservedIgnoresRoutes(r1: map<string, string>, r2: map<string, string>, verb: string, path: string)
    requires '/' in path && PathContext(path) in Reserved
    ensures Dispatch(r1, verb, path) == Dispatch(r2, verb, path)
  {
  }

  // ---------------------------------------------------------------------------
  // Tokens (checkAuth)

  /** What the token check says: valid, well-formed but not valid, or an error message. */
  datatype Validation = Valid | Invalid | Failed(message: string)

  /** What jwt.ParseWithClaims makes of a token: its validity flag, or a parse error. */
  datatype Parsed = TokenValid | TokenInvalid | Malformed

  /** The JWT parse of a non-empty token, left abstract. */
  type TokenCheck = string -> Parsed

  const BadAuthMessage := "Not found."
  const InvalidAuthorization := "invalid authorization"

  /**
   * isValidAuthToken: the empty token and a token that does not parse both
   * fail with the one message "Not found."; a parsed token gives its flag.
   */
  function Validate(check: TokenCheck, token: string): (v: Validation)
    ensures v.Failed? ==> v.message == BadAuthMessage
    ensures v.Failed? <==> token == "" || check(token) == Malformed
    ensures v == Valid <==> token != "" && check(token) == TokenValid
    ensures v == Invalid <==> token != "" && check(token) == TokenInvalid
  {
    if token == "" then Failed(BadAuthMessage)
    else
      match check(token)
      case Malformed => Failed(BadAuthMessage)
      case TokenValid => Valid
      case TokenInvalid => Invalid
  }

  /**
   * The token a request carries: the Authorization header with its first
   * "Bearer " removed when the header is not empty, else the authToken cookie,
   * else nothing.
   */
  function ExtractToken(header: string, cookie: Option<string>): (token: string)
    ensures header == "" && cookie.Some? ==> token == cookie.value
    ensures header == "" && cookie.None? ==> token == ""
  {
    if header != "" then ReplaceFirst(header, "Bearer ", "")
    else if cookie.Some? then cookie.value
    else ""
  }

  /** A bearer header wins over any cookie and yields exactly the token after "Bearer ". */
  lemma BearerHeaderWins(token: string, cookie: Option<string>)
    ensures ExtractToken("Bearer " + token, cookie) == token
  {
    ReplaceFirstAtStart("Bearer ", token, "");
  }

  /** Any non-empty header wins over the cookie: the cookie is then never read. */
  lemma HeaderWins(header: string, cookie1: Option<string>, cookie2: Option<string>)
    requires header != ""
    ensures ExtractToken(header, cookie1) == ExtractToken(header, cookie2)
  {
  }

  /** A non-empty header without "Bearer " in it is taken as the token exactly as it is. */
  lemma HeaderWithoutBearer(header: string, cookie: Option<string>)
    requires header != ""
    requires forall i :: !OccursAt(header, "Bearer ", i)
    ensures ExtractToken(header, cookie) == header
  {
    ReplaceFirstAbsent(header, "Bearer ", "");
  }

  /** Only the first "Bearer " is cut out of the header, wherever it occurs. */
  lemma FirstBearerRemoved(header: string, i: nat, cookie: Option<string>)
    requires OccursAt(header, "Bearer ", i)
    requires forall j :: 0 <= j < i ==> !OccursAt(header, "Bearer ", j)
    ensures ExtractToken(header, cookie) == header[..i] + header[i + 7..]
  {
    var k := Index(header, "Bearer ");
    assert k == i;
  }

  /** checkAuth: the extracted token when it is valid, otherwise an error (and no token). */
  function CheckAuth(header: string, cookie: Option<string>, check: TokenCheck): (r: Result<string>)
    ensures r.Ok? <==> Validate(check, ExtractToken(header, cookie)) == Valid
    ensures r.Ok? ==> r.value == ExtractToken(header, cookie) && r.value != ""
    ensures Validate(check, ExtractToken(header, cookie)) == Invalid ==> r == Err(InvalidAuthorization)
    ensures Validate(check, ExtractToken(header, cookie)).Failed? ==>
              r == Err(Validate(check, ExtractToken(header, cookie)).message)
  {
    var token := ExtractToken(header, cookie);
    match Validate(check, token)
    case Failed(m) => Err(m)
    case Invalid => Err(InvalidAuthorization)
    case Valid => Ok(token)
  }

  /** checkAuth refuses a request with one of two messages only. */
  lemma CheckAuthRefusals(header: string, cookie: Option<string>, check: TokenCheck)
    ensures var r := CheckAuth(header, cookie, check);
            r.Err? ==> r.error == BadAuthMessage || r.error == InvalidAuthorization
  {
  }

  /** A request with neither header nor cookie is refused with the empty-token error. */
  lemma NoCredentialsRefused(check: TokenCheck)
    ensures CheckAuth("", None, check) == Err(BadAuthMessage)
  {
  }

  // ---------------------------------------------------------------------------
  // Replies

  /** The part of a reply the model keeps. */
  datatype Body =
    | NoBody
    | Catalog(applications: seq<InstalledApp>, appStore: seq<Sku>)    // queryResults
    | Credentials(token: string, email: string)                     // authRequest echoed back

  datatype Reply =
    | Error(status: int, reason: string)       // writeError
    | Authorized(token: string, body: Body)    // setAuth, then status 200 and the body
    | Panic                                    // a nil error dereferenced

  // ---------------------------------------------------------------------------
  // Flagging installed SKUs (handleQuery)

  /** The catalog a browser sees: redacted SKUs, each flagged when its XRN is installed. */
  function CatalogView(skus: seq<Sku>, installs: map<string, InstalledApp>): (view: seq<Sku>)
    decreases |skus|
  {
    if skus == [] then []
    else
      var last := skus[|skus| - 1];
      CatalogView(skus[..|skus| - 1], installs) + [Redacted(last).(isInstalled := last.xrn in installs)]
  }

  /**
   * The view keeps the catalog's length and order, blanks each context and
   * download URL, and flags an SKU exactly when an installed app has its XRN.
   */
  lemma {:induction false} CatalogViewMeaning(skus: seq<Sku>, apps: seq<InstalledApp>)
    ensures var view := CatalogView(skus, IndexByXrn(apps));
      && |view| == |skus|
      && (forall i :: 0 <= i < |skus| ==>
            view[i].(isInstalled := false) == skus[i].(context := "", downloadUrl := "", isInstalled := false))
      && (forall i :: 0 <= i < |skus| ==>
            (view[i].isInstalled <==> exists j :: 0 <= j < |apps| && apps[j].xrn == skus[i].xrn))
    decreases |skus|
  {
    IndexByXrnMeaning(apps);
    if skus != [] {
      CatalogViewMeaning(skus[..|skus| - 1], apps);
    }
  }

  /** The flag loop of handleQuery, on the SKU slice in place. */
  method FlagInstalled(skus: array<Sku>, installs: map<string, InstalledApp>)
    modifies skus
    ensures forall i :: 0 <= i < skus.Length ==>
              skus[i] == old(skus[i]).(isInstalled := old(skus[i]).xrn in installs)
  {
    for i := 0 to skus.Length
      invariant forall k :: 0 <= k < i ==> skus[k] == old(skus[k]).(isInstalled := old(skus[k]).xrn in installs)
      invariant forall k :: i <= k < skus.Length ==> skus[k] == old(skus[k])
    {
      skus[i] := skus[i].(isInstalled := skus[i].xrn in installs);
    }
  }

  // ---------------------------------------------------------------------------
  // Request bodies

  datatype CommandRequest = CommandRequest(cmd: string, id: string)
  datatype AuthRequest = AuthRequest(email: string, password: string, token: string)

  const CantDecodeCommand := "Can't deserialize command request."
  const CantDecodeAuth := "Can't deserialize auth request."
  const CantMakeToken := "Can't construct token."

  /** makeAuthToken, left abstract. */
  type TokenMinter = User -> Result<string>

  /**
   * handleAuth: an undecodable body is 400; a non-empty token is checked on
   * its own and echoed back alone; otherwise the e-mail and password are
   * checked and a freshly minted token is returned with the e-mail. A token
   * that is well-formed but not valid comes with no error to report, and the
   * handler dereferences it anyway.
   */
  function HandleAuth(body: Option<AuthRequest>, users: seq<User>, check: TokenCheck,
                      bcrypt: BcryptCompare, mint: TokenMinter): (reply: Reply)
    ensures body.None? ==> reply == Error(400, CantDecodeAuth)
    ensures body.Some? && body.value.token != "" ==>
              match check(body.value.token)
              case TokenValid => reply == Authorized(body.value.token, Credentials(body.value.token, ""))
              case Malformed => reply == Error(401, BadAuthMessage)
              case TokenInvalid => reply == Panic
    ensures body.Some? && body.value.token == "" ==>
              var found := FindUser(users, body.value.email, body.value.password, bcrypt);
              && (found.Err? ==> reply == Error(401, UserNotFound))
              && (found.Ok? && mint(found.value).Err? ==> reply == Error(500, CantMakeToken))
              && (found.Ok? && mint(found.value).Ok? ==>
                    reply == Authorized(mint(found.value).value, Credentials(mint(found.value).value, body.value.email)))
  {
    match body
    case None => Error(400, CantDecodeAuth)
    case Some(params) =>
      if params.token != "" then
        match Validate(check, params.token)
        case Valid => Authorized(params.token, Credentials(params.token, ""))
        case Failed(m) => Error(401, m)
        case Invalid => Panic
      else
        match FindUser(users, params.email, params.password, bcrypt)
        case Err(e) => Error(401, e)
        case Ok(user) =>
          match mint(user)
          case Err(_) => Error(500, CantMakeToken)
          case Ok(token) => Authorized(token, Credentials(token, params.email))
  }

  /** Logging in with the seed account's credentials succeeds exactly when bcrypt accepts the password. */
  lemma SeedLoginReply(seedId: string, seedDigest: seq<Byte>, email: string, password: string,
                       check: TokenCheck, bcrypt: BcryptCompare, mint: TokenMinter)
    requires Lower(email) == Lower("test@example.com")
    requires forall u :: mint(u).Ok?
    ensures var users := [User(seedId, "test@example.com", EncryptPassword(seedDigest))];
            HandleAuth(Some(AuthRequest(email, password, "")), users, check, bcrypt, mint).Authorized?
            <==> bcrypt(seedDigest, password)
  {
    SeedUserLogin(seedId, seedDigest, email, password, bcrypt);
  }

  // ---------------------------------------------------------------------------
  // The outbound request the reverse proxy sends

  class OutboundRequest {
    var scheme: string
    var host: string
    var path: string
    var header: map<string, string>

    constructor (scheme: string, host: string, path: string, header: map<string, string>)
      ensures this.scheme == scheme && this.host == host && this.path == path && this.header == header
    {
      this.scheme, this.host, this.path, this.header := scheme, host, path, header;
    }
  }

  const ProxyContextHeader := "X-Proxy-Context"

  // ---------------------------------------------------------------------------
  // The server

  class ProxyServer {
    const applications: Applications
    const database: Database
    const routes: RouteTable
    const commander: CommandProcessor
    const clienthub: ClientHub

    /** NewProxyServer: a fresh, empty route table and application list over appDir. */
    constructor (appDir: string, database: Database, commander: CommandProcessor, clienthub: ClientHub)
      ensures fresh(routes) && routes.entries == map[]
      ensures fresh(applications) && applications.dir == appDir && applications.installedApps == []
      ensures this.database == database && this.commander == commander && this.clienthub == clienthub
    {
      applications := new Applications(appDir);
      routes := new RouteTable();
      this.database, this.commander, this.clienthub := database, commander, clienthub;
    }

    /** ProxyServer.AddRoute. */
    method AddRoute(context: string, host: string)
      modifies routes
      ensures routes.entries == old(routes.entries)[context := host]
    {
      routes.Set(context, host);
    }

    /**
     * The context director: scheme "http", the context's back end as host, the
     * path without its context, and the context in X-Proxy-Context.
     */
    method Direct(req: OutboundRequest)
      requires '/' in req.path
      modifies req
      ensures req.scheme == "http"
      ensures req.host == RouteOf(routes.entries, PathContext(old(req.path)))
      ensures req.path == RemovePathContext(old(req.path))
      ensures req.header == old(req.header)[ProxyContextHeader := PathContext(old(req.path))]
    {
      var context := PathContext(req.path);
      req.scheme := "http";
      req.host := RouteOf(routes.entries, context);
      req.path := RemovePathContext(req.path);
      req.header := req.header[ProxyContextHeader := context];
    }

    /**
     * handleQuery: after the token check, rescan the apps (a failed rescan
     * keeps the old list), then answer with the apps and the redacted catalog
     * flagged by the apps' XRNs.
     */
    method HandleQuery(header: string, cookie: Option<string>, check: TokenCheck,
                       listing: Result<seq<DirEntry>>) returns (reply: Reply)
      modifies applications
      ensures var auth := CheckAuth(header, cookie, check);
        && (auth.Err? ==> reply == Error(401, auth.error) && applications.installedApps == old(applications.installedApps))
        && (auth.Ok? ==>
              var apps := if listing.Ok? && Scan(listing.value).Ok? then Scan(listing.value).value
                          else old(applications.installedApps);
              applications.installedApps == apps &&
              reply == Authorized(auth.value, Catalog(apps, CatalogView(database.skus, IndexByXrn(apps)))))
    {
      var auth := CheckAuth(header, cookie, check);
      if auth.Err? {
        return Error(401, auth.error);
      }
      var _ := applications.Reload(listing);
      var installs := applications.AppMap();
      var redacted := database.SKUs();
      var skus := new Sku[|redacted|](i requires 0 <= i < |redacted| => redacted[i]);
      FlagInstalled(skus, installs);
      ghost var view := CatalogView(database.skus, installs);
      CatalogViewIsFlagged(database.skus, installs);
      assert skus[..] == view;
      reply := Authorized(auth.value, Catalog(applications.installedApps, skus[..]));
    }

    /**
     * handleCommand: after the token check and the body decode, exactly one job
     * is queued (the token standing for the client, the id for the XRN) and
     * the caller's connection is sent an ack, whatever becomes of the send.
     * Once the command processor has been stopped, queuing the job panics
     * and no ack is sent.
     */
    method HandleCommand(header: string, cookie: Option<string>, check: TokenCheck,
                         body: Option<CommandRequest>, transport: Transport) returns (reply: Reply)
      modifies commander, clienthub
      ensures var auth := CheckAuth(header, cookie, check);
        && (auth.Err? ==>
              reply == Error(401, auth.error) &&
              commander.queue == old(commander.queue) && clienthub.sent == old(clienthub.sent))
        && (auth.Ok? && body.None? ==>
              reply == Error(400, CantDecodeCommand) &&
              commander.queue == old(commander.queue) && clienthub.sent == old(clienthub.sent))
        && (auth.Ok? && body.Some? && old(commander.closed) ==>
              reply == Panic &&
              commander.queue == old(commander.queue) && clienthub.sent == old(clienthub.sent))
        && (auth.Ok? && body.Some? && !old(commander.closed) ==>
              reply == Authorized(auth.value, NoBody) &&
              commander.queue == old(commander.queue) + [Parse(body.value.cmd, body.value.id, commander.appDir)] &&
              var first := FirstWithToken(clienthub.clients, auth.value);
              clienthub.sent == old(clienthub.sent) +
                (if first.Some? then [Delivery(clienthub.clients[first.value].conn, Ack(body.value.cmd))] else []))
      ensures clienthub.clients == old(clienthub.clients) && clienthub.errorLog == old(clienthub.errorLog)
      ensures commander.closed == old(commander.closed) && commander.performed == old(commander.performed) &&
              commander.results == old(commander.results)
    {
      var auth := CheckAuth(header, cookie, check);
      if auth.Err? {
        return Error(401, auth.error);
      }
      if body.None? {
        return Error(400, CantDecodeCommand);
      }
      var token := auth.value;
      var queued := commander.Invoke(token, body.value.cmd, body.value.id);
      if !queued {
        return Panic;
      }
      var _ := clienthub.SendAck(token, body.value.cmd, transport);
      reply := Authorized(token, NoBody);
    }
  }

  /** The flagged copy built from the redacted SKUs is the catalog view. */
  lemma {:induction false} CatalogViewIsFlagged(skus: seq<Sku>, installs: map<string, InstalledApp>)
    ensures |CatalogView(skus, installs)| == |skus|
    ensures forall i :: 0 <= i < |skus| ==>
              CatalogView(skus, installs)[i] == Redacted(skus[i]).(isInstalled := skus[i].xrn in installs)
    decreases |skus|
  {
    if skus != [] {
      CatalogViewIsFlagged(skus[..|skus| - 1], installs);
    }
  }
}
