# proxy — a verified model of the gateway control plane

`proxy` is a small web gateway. It serves a home app and a set of installed
browser apps. It forwards API calls to backends chosen by the request's first
path segment (its *context*), and it lets logged-in users install and
uninstall apps from an app store. A companion *store* program packages app
sources into zip files and serves the catalog and the packages.

This project models that control plane in Dafny, one module per source file:

| module | source | what it holds |
|---|---|---|
| `Handlers` | internal/handlers.go | path context and its removal, the route table, `ServeHTTP` dispatch, `checkAuth`, the director's rewrite, `handleQuery`, `handleCommand`, `handleAuth` |
| `Data` | internal/database.go | users and SKUs, case-insensitive login, SKU lookup, the redacting `SKUs()` copy, `SetSKUs`, hex-encoded password hashes |
| `Clients` | internal/client.go | the client hub: add, delete by connection, ack to the first holder of a token, refresh broadcast |
| `Commands` | internal/command.go | `Invoke` dispatch, the FIFO job queue, install/uninstall/unknown jobs as sequences of fallible effects, good and bad results |
| `Apps` | internal/application.go | `findApps` over a directory listing, `trimSvg`, `AppMap`, `Reload` |
| `StoreServer` | cmd/store/main.go | `mkContexts`, catalog/download/404 dispatch, download-URL stamping, `loadApps`, `createDownloads`, the monitor's rebuild rule |
| `Text`, `Wrappers` | — | the Go standard-library string and path functions the code relies on, and `Option`/`Result` |

Everything outside the program is a parameter:
- the JWT parse is a `TokenCheck` that says valid, not valid, or malformed;
- bcrypt is a `BcryptCompare`;
- token minting is a `TokenMinter`;
- `filepath.Abs` is a function from a path to a `Result`;
- downloads, unzipping and removals are `Effect`s whose outcome is a `FileSystem` function;
- websocket writes are a `Transport`;
- `zipit` is a `Zipper`;
- directory listings, file reads and modification times are given as values.

Objects whose fields the Go code updates become classes:
- `Database`, `ClientHub`, `CommandProcessor`, `Applications`, `RouteTable`, `ProxyServer` and the store's `StoreSystem`;
- the outgoing request that the director rewrites is an `OutboundRequest`.

Each method is proved against a pure function that serves as its specification. Lemmas about those functions state what the source promises.

The worker goroutine's channel is a `seq<Command>` queue plus a `closed` flag:
- `ProcessJobs` drains the queue in order;
- each job performs the effects of `Execute` and appends its result;
- the hub's writes are recorded in `ClientHub.sent` so that the refresh broadcasts can be stated;
- failed writes are recorded in `errorLog`.

Four places where the Go code would crash are modelled as an explicit crash outcome rather than excluded by a precondition:
- `ServeHTTP` on a request whose URL path has no "/" (the empty path of an absolute-form request line). `getPathContext` indexes the second element of a one-element split; `Dispatch` reports `PathPanic`.
- `handleAuth` with a token that is well-formed but not valid. `isValidAuthToken` then returns no error, and the handler calls `err.Error()` on it.
- The store's `/download` with no file segment, where `context[1]` is out of range.
- `handleCommand` after the command processor has been stopped. `Stop` closes the job channel, `Invoke`'s send on it panics, and the model's `Invoke` reports that the job was not sent.

The names in internal/handlers.go come from a different revision than the definitions it calls:
- `findUser`, `appSkus`, `invoke`, `add`/`delete`, `appStoreSku`, `reload` and `appMap` are taken to be `FindUser`, `SKUs`, `Invoke`, `Add`/`Delete`, `AppStoreSku`, `Reload` and `AppMap`.
- `SKUs` in internal/database.go returns a fresh, redacted copy. Writing `IsInstalled` into it (internal/handlers.go:321-323) does not touch the stored catalog.

## Model

| member | source | states |
|---|---|---|
| Handlers.PathContextOf | internal/handlers.go:490-498 | the context is the segment after the first "/", or "" when that segment contains "." |
| Handlers.RemovePathContextOf | internal/handlers.go:500-504 | for a context without ".", only the leading "/"+context is removed and the rest of the path is kept ("/api/scan" to "/scan", "/api" to "") |
| Handlers.RemoveEmptyContext | internal/handlers.go:500-504 | an empty context removes just the leading "/" |
| Handlers.RouteOf | internal/handlers.go:121-123 | a missing context maps to the empty address, a present one to its route |
| Handlers.RouteTable.constructor | internal/handlers.go:37-39 | a new route table is empty |
| Handlers.RouteTable.Set | internal/handlers.go:41-43 | the context maps to the URL afterwards, and every other key keeps its value |
| Handlers.SetDecidesIsAPI | internal/handlers.go:121-123 | after `Set` (internal/handlers.go:41-43), a request with that context is an API call iff the URL is non-empty; requests with other contexts are classified as before |
| Handlers.DispatchRules | internal/handlers.go:143-182 | HEAD/OPTIONS reach no handler; any other request on a path without "/" crashes in `getPathContext`; logout, auth, query, command and ws each reach their own handler and only theirs; "" and "static" reach the home app; an unreserved context goes to the backend iff `isAPI`, otherwise to installed apps |
| Handlers.ReservedIgnoresRoutes | internal/handlers.go:152-170 | logout, auth, query, command, ws, static and "" reach their fixed handler whatever the route table holds |
| Handlers.Validate | internal/authentication.go:55-69 | the empty token and a token that does not parse both fail with "Not found." and nothing else; a parsed token is valid or invalid as its flag says |
| Handlers.ExtractToken | internal/handlers.go:468-476 | with no Authorization header, the authToken cookie is used if present, else "" |
| Handlers.HeaderWins | internal/handlers.go:468-476 | a non-empty Authorization header decides the token whatever the cookie |
| Handlers.HeaderWithoutBearer | internal/handlers.go:468-471 | a non-empty header with no "Bearer " in it is the token exactly as sent |
| Handlers.FirstBearerRemoved | internal/handlers.go:468-471 | only the first "Bearer " of the header is cut out, wherever it stands |
| Handlers.BearerHeaderWins | internal/handlers.go:468-471 | a "Bearer "+token header yields exactly that token, whatever the cookie |
| Handlers.CheckAuth | internal/handlers.go:466-488 | success iff the extracted token is valid, and then it returns that non-empty token; an invalid token gives "invalid authorization", a failed check gives its message |
| Handlers.CheckAuthRefusals | internal/handlers.go:466-488 | a refused request gets "Not found." or "invalid authorization" and no other message |
| Handlers.NoCredentialsRefused | internal/handlers.go:466-488 | with neither header nor cookie the request is refused with "Not found." |
| Handlers.CatalogViewMeaning | internal/handlers.go:316-323 | the catalog sent to browsers keeps the SKUs' length and order, blanks context and download URL, and flags an SKU iff some installed app has its XRN |
| Handlers.CatalogViewIsFlagged | internal/handlers.go:318-323 | each entry of the view is the redacted SKU with `IsInstalled` set from the installed map |
| Handlers.FlagInstalled | internal/handlers.go:321-323 | the loop sets each SKU's `IsInstalled` to whether its XRN is installed, in place, and changes nothing else |
| Handlers.HandleAuth | internal/handlers.go:383-435 | undecodable body gives 400; a non-empty token takes the token path alone and echoes only the token (401 "Not found." when it does not parse, a panic when it parses but is not valid); otherwise the credentials are checked: 401 "User not found.", 500 when no token can be made, else the new token with the submitted e-mail |
| Handlers.SeedLoginReply | internal/handlers.go:415-434 | logging in as the seed account, in any letter case, succeeds exactly when the password matches its hash |
| Handlers.OutboundRequest.constructor | internal/handlers.go:125-141 | a request carries the scheme, host, path and header it is built with |
| Handlers.ProxyServer.constructor | internal/handlers.go:62-74 | a new server has a fresh, empty route table and a fresh, empty application list over its app directory, and holds the database, commander and hub it is given |
| Handlers.ProxyServer.AddRoute | internal/handlers.go:94-96 | adding a route is `Set` on the server's table |
| Handlers.ProxyServer.Direct | internal/handlers.go:125-141 | the director sets scheme "http", the host routed for the context, the path with the context removed, and X-Proxy-Context to the context, keeping the other headers |
| Handlers.ProxyServer.HandleQuery | internal/handlers.go:307-343 | a failed token check is 401 and changes nothing; otherwise the apps are rescanned (the old list is kept if the scan fails) and the reply carries the apps and the flagged, redacted catalog |
| Handlers.ProxyServer.HandleCommand | internal/handlers.go:352-373 | a failed token check is 401 and an undecodable body 400, both with no job and no write; after the processor has stopped, the send on the closed queue panics with no job and no write; otherwise exactly one parsed job is queued and the first client holding the token is sent an ack; the processor's effects, results and the hub's error log are untouched |
| Data.HexDecode | internal/database.go:130-134 | an odd-length string or one with a non-hex character does not decode |
| Data.HexRoundTrip | internal/database.go:130-148 | decoding the "%x" form of the bcrypt digest gives the digest back |
| Data.ValidPassword | internal/database.go:130-140 | a hash that is not hex never validates; a valid password is one bcrypt accepts against the decoded hash |
| Data.StoredHashIsDecodable | internal/database.go:130-148 | checking a password against a stored hash is exactly bcrypt on the digest it was made from |
| Data.FindUserFrom | internal/database.go:90-98 | the search from a position finds the first matching user after it, or fails with "User not found." iff none matches |
| Data.FindUser | internal/database.go:90-98 | the first user whose lower-cased e-mail and password both match; otherwise the same "User not found." whichever check failed |
| Data.FindUserIgnoresCase | internal/database.go:91-93 | e-mails that lower-case alike find the same user |
| Data.FindSkuFrom | internal/database.go:100-107 | the search from a position finds the first SKU with that exact XRN after it, or fails iff none has it |
| Data.FindSku | internal/database.go:100-107 | the first SKU with exactly that XRN, or an error naming the XRN iff there is none |
| Data.Database.constructor | internal/database.go:64-68 | a new database holds exactly the seed user test@example.com and no SKUs |
| Data.Database.SKUs | internal/database.go:109-122 | a copy with the same length and order, each entry the stored SKU with context and download URL blanked; the store is not changed |
| Data.Database.SetSKUs | internal/database.go:124-126 | the SKU list is replaced wholesale by the new one; users are unchanged |
| Data.SeedUserLogin | internal/database.go:90-98 | the seed user (internal/database.go:64-68) is found under any letter case of its e-mail when bcrypt accepts the password |
| Clients.Payload | internal/client.go:44-110 | the ack is exactly {type: "ack", command: the command}; the refresh exactly {type: "refresh"} |
| Clients.PayloadInjective | internal/client.go:44-110 | different messages never have the same payload |
| Clients.Without | internal/client.go:93-104 | exactly the clients on other connections, and the whole list when none is on that connection |
| Clients.WithoutAppend | internal/client.go:93-104 | deleting keeps the relative order of the clients that remain |
| Clients.Broadcast | internal/client.go:112-120 | one write per client, in list order |
| Clients.FailureLog | internal/client.go:112-120 | every line is the write-failure message, and none is logged when every write succeeds |
| Clients.FailureLogCount | internal/client.go:112-120 | the log has exactly as many lines as there are failed writes |
| Clients.FailureLogAppend | internal/client.go:112-120 | the log of consecutive broadcasts is their logs one after the other |
| Clients.FirstWithToken | internal/client.go:75-82 | the first client holding the token, or none iff no client holds it |
| Clients.ClientHub.constructor | internal/client.go:61-65 | a new hub has no clients |
| Clients.ClientHub.Add | internal/client.go:84-91 | the client is appended at the end and returned |
| Clients.ClientHub.Delete | internal/client.go:93-104 | the list becomes the clients on other connections, in order |
| Clients.ClientHub.SendAck | internal/client.go:75-82 | the ack goes to the first client holding the token, and the result is that write's error; with no such client it fails and writes nothing |
| Clients.ClientHub.Write | internal/client.go:115-118 | one write is recorded, and the write-failure line is logged exactly when it fails |
| Clients.ClientHub.NotifyRefresh | internal/client.go:112-120 | a refresh is attempted to every client in order; failures are only logged, and the list is unchanged |
| Commands.Parse | internal/command.go:74-83 | "install" and "uninstall" give those jobs on the XRN and app directory; anything else is an unknown job carrying the string |
| Commands.RunSteps | internal/command.go:133-153 | steps run in order up to the first failure; that step is the last one attempted and its error is the run's |
| Commands.RunStepsFailsAt | internal/command.go:133-153 | when step k is the first to fail, the run is exactly steps 0..k with step k's error |
| Commands.InstallSteps | internal/command.go:126-150 | downloading to the public directory, unzipping and removing the archive are never the refresh |
| Commands.UninstallSteps | internal/command.go:168-172 | removing the context directory is never the refresh |
| Commands.Execute | internal/command.go:115-182 | a job's result records its command and has code 0 or 1 |
| Commands.ExecuteOutcome | internal/command.go:115-192 | "Ok" exactly when the refresh fired; it fires at most once and last; unknown jobs, failed SKU lookups and a failed `Abs` of the app directory act on nothing and report their own error; uninstall removes the SKU's context directory under the app directory; every effect before the last succeeded |
| Commands.ConcludeFacts | internal/command.go:150-155 | after the steps run, the job reports "Ok" exactly when it sends the refresh; the refresh comes once and last, and every earlier effect succeeded |
| Commands.LookedUpOutcome | internal/command.go:115-178 | once the SKU and the directory are found, a failed step gives its error and no hub writes, and success gives "Ok" and a refresh to every client |
| Commands.ConcludeMeaning | internal/command.go:150-177 | a failed step's error becomes the result with no hub writes; otherwise the refresh is broadcast to every client and the result is "Ok" |
| Commands.InstallRun | internal/command.go:133-153 | a failed download stops before the unzip, a failed unzip stops before the archive is removed, and otherwise all three steps run |
| Commands.ResultsOf | internal/command.go:93-97 | one result per job |
| Commands.ResultsInOrder | internal/command.go:93-97 | the i-th result is the i-th job's |
| Commands.RefreshOncePerSuccess | internal/command.go:93-97 | over any run of jobs (each job refreshing at internal/command.go:154 or 176), the refresh fires exactly as often as a job succeeds |
| Commands.UnknownJobHasNoEffect | internal/command.go:180-182 | an unknown job's result is the error "Unknown command: '<name>'." and it has no effect |
| Commands.CommandProcessor.constructor | internal/command.go:55-62 | a new processor has an empty, open queue |
| Commands.CommandProcessor.Invoke | internal/command.go:74-89 | on an open queue exactly one parsed job joins its end; on a closed one the send panics and nothing is queued |
| Commands.CommandProcessor.Stop | internal/command.go:69-72 | the queue is closed, and pending jobs stay |
| Commands.CommandProcessor.InstallFiles | internal/command.go:126-153 | the install's file steps are performed in order up to the first failure, whose error is returned |
| Commands.CommandProcessor.Finish | internal/command.go:150-177 | an error becomes the bad result and changes nothing; otherwise the refresh is recorded and broadcast and the result is "Ok" |
| Commands.CommandProcessor.RunInstall | internal/command.go:115-156 | performs exactly the install job's effects, broadcasts a refresh only on success, and returns its result |
| Commands.CommandProcessor.RunUninstall | internal/command.go:158-178 | performs exactly the uninstall job's effects, broadcasts a refresh only on success, and returns its result |
| Commands.CommandProcessor.Run | internal/command.go:85-88 | running a job performs its effects and hub writes and returns its result; an unknown job does nothing |
| Commands.CommandProcessor.RunNext | internal/command.go:85-97 | the oldest job leaves the queue and runs; its result is logged, and its effects, hub writes and logged failures are those of `Execute` |
| Commands.CommandProcessor.ProcessJobs | internal/command.go:93-97 | the queue is drained in order: results, effects, hub writes and logged write failures are those of the jobs one after another |
| Apps.StripPIUnchanged | internal/application.go:74-80 | text with no "<?" is left alone by the pattern replacement |
| Apps.XmlDeclarationRemoved | internal/application.go:74-80 | an XML declaration line in front of an SVG is removed, and the rest is processed as on its own |
| Apps.LoadApp | internal/application.go:97-122 | an entry loads iff its metadata parses and its icon reads; the app then takes the directory name as its context and the trimmed icon |
| Apps.Directories | internal/application.go:91-95 | exactly the directory entries are scanned |
| Apps.DirectoriesOfOne | internal/application.go:91-95 | a single entry contributes itself exactly when it is a directory |
| Apps.DirectoriesAppend | internal/application.go:91-95 | directories keep listing order: those of a + b are those of a, then those of b |
| Apps.ScanSucceedsIff | internal/application.go:82-127 | the scan succeeds iff every directory loads |
| Apps.ScanLists | internal/application.go:89-125 | a successful scan lists one app per directory, in listing order |
| Apps.ScanFirstError | internal/application.go:101-117 | a failed scan returns the error of the first directory that fails to load |
| Apps.ScanErrorSticks | internal/application.go:101-117 | once a prefix of the listing fails, the whole scan fails the same way |
| Apps.FindApps | internal/application.go:82-127 | a listing error is returned; otherwise the result is the scan of the listing |
| Apps.IndexByXrnMeaning | internal/application.go:54-61 | every installed app's XRN is a key, each key maps to an installed app with that XRN, and the later app wins |
| Apps.Applications.constructor | internal/application.go:46-52 | a new index has the directory and no apps |
| Apps.Applications.AppMap | internal/application.go:54-61 | the loop builds the XRN index of the installed apps |
| Apps.Applications.Reload | internal/application.go:63-70 | the installed list is replaced only when the scan succeeds; otherwise the error is returned and the list kept |
| StoreServer.MkContexts | cmd/store/main.go:247-252 | never empty, segments free of "/", and joining them gives the path without one leading and one trailing "/" |
| StoreServer.MkContextsExamples | cmd/store/main.go:247-252 | "/" gives [""], "/catalog" and "/catalog/" give ["catalog"] |
| StoreServer.MkContextsOfSegments | cmd/store/main.go:247-252 | "/" followed by clean segments splits back into those segments |
| StoreServer.RouteOf | cmd/store/main.go:256-283 | "catalog" serves the catalog; "download" serves the second segment, and is a crash when there is none; anything else is 404 |
| StoreServer.DownloadRoundTrip | cmd/store/main.go:258-271 | the download URL stamped into the catalog resolves to the very file `createDownload` (cmd/store/main.go:224-225) wrote for that XRN |
| StoreServer.LoadedAppend | cmd/store/main.go:147-167 | loading goes entry by entry, in listing order |
| StoreServer.BrokenEntrySkipped | cmd/store/main.go:152-162 | an entry with unreadable or unparsable metadata is skipped without affecting the others |
| StoreServer.LoadedOfOne | cmd/store/main.go:152-166 | one entry contributes its stamped SKU exactly when its metadata reads and parses, and nothing otherwise |
| StoreServer.LoadedFromEntries | cmd/store/main.go:147-167 | each loaded SKU is a readable entry's metadata, with the directory name as context and the directory as its app directory, and every readable entry is loaded |
| StoreServer.PackageAllMeaning | cmd/store/main.go:224-241 | SKUs are packaged in order into the absolute deployDir/XRN.zip; every call before the last attempted one succeeded, and no error is reported iff every SKU was packaged |
| StoreServer.PackageAllStops | cmd/store/main.go:234-241 | the run stops early only on an error; when the last zipit attempted failed, the error is that zipit's; otherwise any error is the failed `Abs` of the next SKU's archive target |
| StoreServer.NewestIsMaximum | cmd/store/main.go:179-193 | the newest time is at least every visited time and is one of them, or the zero time |
| StoreServer.FirstWalkError | cmd/store/main.go:181-184 | no error exactly when every visit succeeded; otherwise the message of the first failed visit |
| StoreServer.Recent | cmd/store/main.go:179-193 | a clean walk gives the newest modification time; otherwise the first walk error (`FirstWalkError`), with the time so far |
| StoreServer.LoadSettlesTree | cmd/store/main.go:169-206 | once loaded at a time no earlier than every file, the same tree does not trigger a rebuild |
| StoreServer.StoreSystem.constructor | cmd/store/main.go:354-359 | a new store has its directories, no SKUs and the zero timestamp |
| StoreServer.StoreSystem.LoadApps | cmd/store/main.go:136-172 | an `Abs` error changes nothing; otherwise the SKUs are replaced by those loaded from the listing and the timestamp becomes now |
| StoreServer.StoreSystem.CreateDownloads | cmd/store/main.go:224-241 | the packaging loop does exactly what the packaging specification says, error and calls |
| StoreServer.StoreSystem.StampDownloads | cmd/store/main.go:258-263 | every SKU's download becomes "http://"+host+"/download/"+XRN+".zip", with the other fields and the order unchanged |
| StoreServer.StoreSystem.Serve | cmd/store/main.go:243-284 | the catalog stamps the URLs and returns the SKUs; a download returns the file or 500 with the open error; a download with no name is a crash; anything else is 404 |
| StoreServer.StoreSystem.Pass | cmd/store/main.go:195-214 | a rebuild (reload, then repackage) happens iff `Abs` and the walk succeed and something is strictly newer than the last load; otherwise nothing changes; the error is the `Abs` failure, else the first walk error, else none |

## Left out

- Concurrency is not modelled:
  - the hub's mutex, and the fact that `SendAck` reads the client list without taking it (internal/client.go:75-82);
  - the worker goroutine and its channel, so `ProcessJobs` drains what is queued instead of blocking for more;
  - `testConnections` and the monitor's ticker.
- The websocket upgrade and read loop, the file servers behind `handleHomeApp` and `handleInstalledApps`, `handleLogout`, cookies, and `handleBackend`'s reverse proxy are left out. Only the director's rewrite and the dispatch to those handlers are modelled.
- JWT signing and verification (internal/authentication.go) are abstract `TokenCheck` and `TokenMinter` parameters. `decodeAuthToken` has no definition in this revision and is not modelled.
- internal/appstore.go is not part of this model. Its only effect on this core is `SetSKUs`, which is modelled.
- bcrypt, UUID generation and `log.Fatal` on a hashing failure are left out. A user's hash is the hex form of an abstract digest.
- `zipit` and `unzip` are abstract fallible steps (`Zipper`, and the `Extract` effect).
- The install job's download ignores the errors of `os.Create` and `http.Get` and only checks `io.Copy`. A failed `http.Get` would dereference a nil response. The model folds all three calls into one fallible `Download` step.
- `filepath.Abs` is abstract. `filepath.Join` and `filepath.Base` are modelled on clean paths only: no "..", no repeated "/" and no cleaning.
- `strings.ToLower` is modelled on ASCII letters only. Other Unicode case mappings are not.
- JSON encoding and decoding are not modelled. An undecodable body is the `None` input. The 500 replies for an encoder failure in `handleQuery` and `handleAuth`, and `system.String`'s error text, are not modelled.
- The store's reply to a "download" request with no file name is `Panic`. The Go server indexes a missing slice element there.
- The store's directory-listing error in `loadApps` is ignored by the source. The model takes the entries that were listed, which is none when the directory cannot be read.
- Times are natural numbers counted from Go's zero time. `time.Now()` is a parameter.
- `prepare`, `start`, `stop`, `main` and the other programs under cmd/ are process wiring and are not modelled.
- Handlers.PathContext, RemovePathContext, IsAPI and ProxyServer.Direct require a "/" in the path. `Dispatch` reaches them only after it has sent a path without one to `PathPanic`.
- The `hostDir` argument of `NewProxyServer` and the server's checker ticker only feed the file servers and `testConnections`, which are not modelled, so the model's constructor does not take `hostDir`.
- Commands.Execute: its own contract states only the command and the result code. What a job does is stated by Commands.ExecuteOutcome, because stating it on the function makes every proof that unfolds it too costly.
