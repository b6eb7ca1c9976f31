# Umbraco cache coherence and binding redirects, in Dafny

This project models four sequential pieces of Umbraco's cache coherence layer and one start-up
hook, and proves properties about them.

- **The routes cache** (`RoutesCaching`, file `routes_cache.dfy`). This is the process-local index
  of the XML published cache. It has a node id to route dictionary and a route to node id
  dictionary. `RoutesCache` is a class with two `map` fields. `Store`, `ClearNode` and `Clear`
  change them in place. Each method is proved against a value-level function on `Tables`
  (`Stored`, `NodeCleared`, `EMPTY`), and the lemmas are about those functions. A two-way index
  would keep the two dictionaries inverse to each other. `Store` does not, because it never
  evicts an old entry: `StoreBreaksInversePair` shows two stores that break the pair.
- **The distributed cache gateway** (`DistributedCaching`, file `distributed_cache.dfy`). Each
  public `Refresh*`/`Remove*` call first applies a nothing-to-do guard. It then reads the server
  registrar's registrations and resolves the cache refresher by GUID (an `ArgumentException` when
  the GUID is unknown). Finally it hands both to the server messenger.
  - The refresher registry is a `map`, and the registrations are a `seq`.
  - The registrar and the messenger are a recorded `interactions` log on the `DistributedCache`
    object.
  - Every method is proved against one function, `Dispatch`, which gives the whole effect of one
    call: the guard, the exception, and the single messenger call.
  - The C# evaluates the messenger call's arguments left to right. So the registrations are read
    before the GUID lookup can throw, and the model records that read.
- **The facade service** (`Facades`, file `facade_service.dfy`). `FacadeService` wires the XML
  store, the routes cache and the content type cache together. It builds facades over new
  published caches and dispatches change notifications.
  - The XML store, preview sets and the media cache are collaborator objects that record the
    calls made to them.
  - The store's answers (verification results, content change flags) are functions of the calls
    it has received, and are given to it when it is built.
  - The store may clear the routes cache itself whenever its XML changes, so the model says
    nothing about the routes cache after a store call. The service counts the clears it makes
    itself (`routesCacheClears`), and the notification contracts are stated against that count.
- **The assembly binding redirects** (`BindingRedirects`, file `binding_redirects.dfy`). This is
  the `AssemblyResolve` handler's decision: a pure function from an assembly display name to the
  name to load, or `None` for the handler's null.
  - The two regular expressions have the shape `prefix([\d\.]+?)suffix`. They are modelled by a
    matcher that follows the regex engine: the leftmost start position, then the shortest run of
    version characters after which the suffix follows.
  - `Regex.Replace` is modelled as leftmost, non-overlapping replacement of every match.

`Text` (file `text.dfy`) holds `Option` and `Result` and the .NET string operations the core
uses: `IsNullOrWhiteSpace`, ordinal `StartsWith`/`EndsWith`, and ordinal `string.Replace`.

## Model

| member | source | states |
|---|---|---|
| RoutesCaching.RoutesCache.constructor | src/Umbraco.Web/PublishedCache/XmlPublishedCache/RoutesCache.cs:27-30 | a new cache holds both dictionaries empty |
| RoutesCaching.Stored | src/Umbraco.Web/PublishedCache/XmlPublishedCache/RoutesCache.cs:57-61 | after storing (n, r), the route of n is r and the node of r is n; the key sets grow by n and r only; every other node and route answers as before |
| RoutesCaching.RoutesCache.Store | src/Umbraco.Web/PublishedCache/XmlPublishedCache/RoutesCache.cs:57-61 | the new state of both dictionaries is Stored of the old state |
| RoutesCaching.RoutesCache.GetRoute | src/Umbraco.Web/PublishedCache/XmlPublishedCache/RoutesCache.cs:68-73 | returns the node's route when it has one and null (None) otherwise; changes nothing |
| RoutesCaching.RoutesCache.GetNodeId | src/Umbraco.Web/PublishedCache/XmlPublishedCache/RoutesCache.cs:80-85 | returns the route's node id when it has one and 0 otherwise; changes nothing |
| RoutesCaching.NodeCleared | src/Umbraco.Web/PublishedCache/XmlPublishedCache/RoutesCache.cs:91-102 | a node without a route leaves the state as it is; otherwise the node loses its route and that route loses its reverse entry, and every other key keeps its entry |
| RoutesCaching.RoutesCache.ClearNode | src/Umbraco.Web/PublishedCache/XmlPublishedCache/RoutesCache.cs:91-102 | the new state is NodeCleared of the old state |
| RoutesCaching.RoutesCache.Clear | src/Umbraco.Web/PublishedCache/XmlPublishedCache/RoutesCache.cs:107-111 | both dictionaries are empty, whatever they held |
| RoutesCaching.StoreIsIdempotent | src/Umbraco.Web/PublishedCache/XmlPublishedCache/RoutesCache.cs:57-61 | storing a pair twice gives the state storing it once gives |
| RoutesCaching.StoreKeepsStaleReverseEntry | src/Umbraco.Web/PublishedCache/XmlPublishedCache/RoutesCache.cs:57-61 | after a node moves from route r0 to another route, r0 still resolves to the node |
| RoutesCaching.StoreKeepsStaleForwardEntry | src/Umbraco.Web/PublishedCache/XmlPublishedCache/RoutesCache.cs:57-61 | a route taken over by another node stays the route of its old node |
| RoutesCaching.StoreBreaksInversePair | src/Umbraco.Web/PublishedCache/XmlPublishedCache/RoutesCache.cs:57-61 | the dictionaries are inverse after Store(1, "/a") but not after a further Store(1, "/b") |
| RoutesCaching.StoreOfFreshPairKeepsInversePair | src/Umbraco.Web/PublishedCache/XmlPublishedCache/RoutesCache.cs:57-61 | storing a node and a route that were both uncached keeps the dictionaries inverse |
| RoutesCaching.ClearNodeKeepsInversePair | src/Umbraco.Web/PublishedCache/XmlPublishedCache/RoutesCache.cs:91-102 | ClearNode keeps inverse dictionaries inverse |
| RoutesCaching.ClearNodeDropsAnotherNodesReverseEntry | src/Umbraco.Web/PublishedCache/XmlPublishedCache/RoutesCache.cs:91-102 | clearing a node whose route's reverse entry names another node removes that entry, and the other node keeps a route that no longer resolves to it |
| RoutesCaching.EmptyCacheMisses | src/Umbraco.Web/PublishedCache/XmlPublishedCache/RoutesCache.cs:68-85 | a new or cleared cache answers null for every node and 0 for every route |
| RoutesCaching.LookupsAnswerStoredPairs | src/Umbraco.Web/PublishedCache/XmlPublishedCache/RoutesCache.cs:57-111 | after any sequence of Store, ClearNode and Clear calls, every entry of either dictionary is a pair some Store call stored |
| Text.IsNullOrWhiteSpace | src/Umbraco.Web/Cache/DistributedCache.cs:168 | true exactly for null or a string made only of white space characters |
| DistributedCaching.IsNothingToDo | src/Umbraco.Web/Cache/DistributedCache.cs:117-238 | the empty GUID stops every call except Remove<T>, which nothing stops; the two RefreshAll overloads are stopped by the empty GUID and nothing else |
| DistributedCaching.GetRefresherById | src/Umbraco.Web/Cache/DistributedCache.cs:240-246 | succeeds exactly when the GUID is registered, with the registered refresher; otherwise fails with an ArgumentException naming the GUID |
| DistributedCaching.MessengerCallFor | src/Umbraco.Web/Cache/DistributedCache.cs:117-238 | the messenger call carries the given servers and the resolved refresher, and is the operation that serves the call (a refresh for a refresh, a removal for a removal) with the call's own id, GUID or JSON, or the delegate's id for each instance in order |
| DistributedCaching.Dispatch | src/Umbraco.Web/Cache/DistributedCache.cs:117-246 | a call its guard stops does nothing; any other call throws exactly when the GUID is unregistered, and then makes no messenger call; otherwise it makes exactly one messenger call, last, with the registered refresher and the registrations, or no server for RefreshAll(g, false) |
| DistributedCaching.DispatchCarriesCall | src/Umbraco.Web/Cache/DistributedCache.cs:117-246 | for a call past its guard with a registered GUID, the last messenger call is the operation that serves the call, with the call's own payload |
| DistributedCaching.DistributedCache.Refresh | src/Umbraco.Web/Cache/DistributedCache.cs:117-126 | appends Dispatch's interactions for the batch refresh to the log, and throws what Dispatch throws; the guard is an empty GUID, no instances or a null delegate |
| DistributedCaching.DistributedCache.RefreshById | src/Umbraco.Web/Cache/DistributedCache.cs:134-142 | as Dispatch for a refresh by id; the guard is an empty GUID or id 0 |
| DistributedCaching.DistributedCache.RefreshByGuid | src/Umbraco.Web/Cache/DistributedCache.cs:150-158 | as Dispatch for a refresh by GUID; the guard is either GUID empty |
| DistributedCaching.DistributedCache.RefreshByJson | src/Umbraco.Web/Cache/DistributedCache.cs:166-174 | as Dispatch for a JSON refresh; the guard is an empty GUID or a null or white space payload |
| DistributedCaching.DistributedCache.RefreshAll | src/Umbraco.Web/Cache/DistributedCache.cs:181-186 | as Dispatch for RefreshAll(g) |
| DistributedCaching.DistributedCache.RefreshAllOn | src/Umbraco.Web/Cache/DistributedCache.cs:196-205 | as Dispatch for RefreshAll(g, allServers); the registrar is read only when allServers holds |
| DistributedCaching.DistributedCache.RemoveById | src/Umbraco.Web/Cache/DistributedCache.cs:213-221 | as Dispatch for a removal by id; the guard is an empty GUID or id 0 |
| DistributedCaching.DistributedCache.Remove | src/Umbraco.Web/Cache/DistributedCache.cs:231-238 | as Dispatch for a batch removal, which has no guard |
| DistributedCaching.RefreshAllIsRefreshAllOnAllServers | src/Umbraco.Web/Cache/DistributedCache.cs:181-186 | RefreshAll(g) has the effect of RefreshAll(g, true) for every registry and registrar |
| DistributedCaching.RefreshAllLocalIgnoresRegistrar | src/Umbraco.Web/Cache/DistributedCache.cs:196-205 | RefreshAll(g, false) for a registered g makes one messenger call with no server, whatever the registrations |
| DistributedCaching.RemoveManyHasNoGuard | src/Umbraco.Web/Cache/DistributedCache.cs:231-238 | Remove<T> with the empty GUID, a null delegate and no instances still reads the registrar and throws, where Remove(empty GUID, 0) does nothing |
| DistributedCaching.RefreshByIdReachesEveryServer | src/Umbraco.Web/Cache/DistributedCache.cs:134-142 | a refresh by id of a registered refresher in a farm of two servers reads the registrar once and makes one messenger call to both servers |
| Facades.FacadeService.constructor | src/Umbraco.Web/PublishedCache/XmlPublishedCache/FacadeService.cs:38-51 | a new empty routes cache; the content type cache given, or a new one over the service context's type services when none is; a new XML store over both; no clear made yet |
| Facades.FacadeService.CreateFacade | src/Umbraco.Web/PublishedCache/XmlPublishedCache/FacadeService.cs:62-76 | new content, media and member caches and one new domain cache, which the content cache and the facade share; only the content cache gets the preview token |
| Facades.FacadeService.EnterPreview | src/Umbraco.Web/PublishedCache/XmlPublishedCache/FacadeService.cs:82-88 | creates one preview set for the user's id below contentId, with its subtree, and returns its token |
| Facades.FacadeService.RefreshPreview | src/Umbraco.Web/PublishedCache/XmlPublishedCache/FacadeService.cs:90-95 | nothing for a null or white space token; otherwise recreates the token's preview set below contentId |
| Facades.FacadeService.ExitPreview | src/Umbraco.Web/PublishedCache/XmlPublishedCache/FacadeService.cs:97-102 | nothing for a null or white space token; otherwise clears the token's preview set |
| Facades.FacadeService.VerifyContentAndPreviewXml | src/Umbraco.Web/PublishedCache/XmlPublishedCache/FacadeService.cs:118-121 | asks the store to verify the content and preview XML and returns its answer |
| Facades.FacadeService.RebuildContentAndPreviewXml | src/Umbraco.Web/PublishedCache/XmlPublishedCache/FacadeService.cs:123-126 | asks the store to rebuild the content and preview XML |
| Facades.FacadeService.VerifyMediaXml | src/Umbraco.Web/PublishedCache/XmlPublishedCache/FacadeService.cs:128-131 | asks the store to verify the media XML and returns its answer |
| Facades.FacadeService.RebuildMediaXml | src/Umbraco.Web/PublishedCache/XmlPublishedCache/FacadeService.cs:133-136 | asks the store to rebuild the media XML |
| Facades.FacadeService.VerifyMemberXml | src/Umbraco.Web/PublishedCache/XmlPublishedCache/FacadeService.cs:138-141 | asks the store to verify the member XML and returns its answer |
| Facades.FacadeService.RebuildMemberXml | src/Umbraco.Web/PublishedCache/XmlPublishedCache/FacadeService.cs:143-146 | asks the store to rebuild the member XML |
| Facades.FacadeService.NotifyContent | src/Umbraco.Web/PublishedCache/XmlPublishedCache/FacadeService.cs:152-155 | hands the payloads to the store and returns its two flags as they are; the service does not clear the routes cache itself |
| Facades.FacadeService.NotifyMedia | src/Umbraco.Web/PublishedCache/XmlPublishedCache/FacadeService.cs:157-163 | drops the media cache entry of each payload's id, in order, and reports a change even for no payload |
| Facades.FacadeService.NotifyContentTypes | src/Umbraco.Web/PublishedCache/XmlPublishedCache/FacadeService.cs:165-170 | hands every payload to the store; the service then clears the routes cache itself exactly when some payload is about a document type, and the cache is then empty |
| Facades.FacadeService.NotifyDataTypes | src/Umbraco.Web/PublishedCache/XmlPublishedCache/FacadeService.cs:172-175 | hands the payloads to the store; the service does not clear the routes cache itself |
| Facades.FacadeService.NotifyDomains | src/Umbraco.Web/PublishedCache/XmlPublishedCache/FacadeService.cs:177-180 | clears the routes cache once, whatever the payloads, and tells the store nothing |
| Facades.AnyContentType | src/Umbraco.Web/PublishedCache/XmlPublishedCache/FacadeService.cs:168 | true exactly when some payload's item type is IContentType |
| Facades.MediaIds | src/Umbraco.Web/PublishedCache/XmlPublishedCache/FacadeService.cs:159-160 | the payloads' ids, in order |
| Facades.AnyContentTypeSplits | src/Umbraco.Web/PublishedCache/XmlPublishedCache/FacadeService.cs:165-170 | a notification for a + b clears the routes cache exactly when one for a or one for b would |
| Facades.MediaIdsSplit | src/Umbraco.Web/PublishedCache/XmlPublishedCache/FacadeService.cs:157-163 | a media notification for a + b drops the entries a notification for a and then one for b drop, in the same order |
| BindingRedirects.LazyRun | src/Umbraco.Core/BindingRedirects.cs:20 | the lazy run found is a match and no shorter run from the same point is one; None when no longer run matches |
| BindingRedirects.MatchAt | src/Umbraco.Core/BindingRedirects.cs:20 | the run length of the shortest match at a start position, or None when none starts there |
| BindingRedirects.FirstMatch | src/Umbraco.Core/BindingRedirects.cs:35 | the leftmost match at or after a position, with its shortest run; None when there is no match |
| BindingRedirects.IsMatch | src/Umbraco.Core/BindingRedirects.cs:35 | true exactly when a match of the pattern starts somewhere in the name |
| BindingRedirects.Replace | src/Umbraco.Core/BindingRedirects.cs:37-43 | a name too short to hold a match comes back as it is |
| BindingRedirects.ReplaceMatch | src/Umbraco.Core/BindingRedirects.cs:37-43 | given a leftmost match, the text before it is kept and the replacement follows it |
| BindingRedirects.MatchRunIsUnique | src/Umbraco.Core/BindingRedirects.cs:20 | when the suffix starts with a non-version character, a match at a position has one run length only |
| BindingRedirects.AssemblyResolve | src/Umbraco.Core/BindingRedirects.cs:32-54 | only names of the three assemblies are redirected; every name of the unsigned log4net build is redirected, to a name the log4net pattern no longer matches |
| BindingRedirects.WholeNameRedirect | src/Umbraco.Core/BindingRedirects.cs:37 | a name that is exactly prefix, version and suffix is replaced as a whole by the replacement |
| BindingRedirects.RedirectHasNoMatch | src/Umbraco.Core/BindingRedirects.cs:37 | replacing every match by a name that nearly matches but differs in its suffix leaves no match |
| BindingRedirects.Log4NetRedirectHasNoMatch | src/Umbraco.Core/BindingRedirects.cs:20-37 | the log4net rewrite of any name has no log4net match, since the canonical token is not null |
| BindingRedirects.Log4NetReplacementDoesNotMatch | src/Umbraco.Core/BindingRedirects.cs:20-21 | the canonical log4net name does not match the log4net pattern |
| BindingRedirects.Log4NetBranchWins | src/Umbraco.Core/BindingRedirects.cs:35-38 | a name with a log4net match is always redirected by the first branch, to a name that differs from it and has no log4net match |
| BindingRedirects.Log4NetWholeNameRedirect | src/Umbraco.Core/BindingRedirects.cs:35-38 | the unsigned log4net name of any version is redirected to the canonical one |
| BindingRedirects.HtmlAgilityNameHasNoLog4NetMatch | src/Umbraco.Core/BindingRedirects.cs:35-41 | an HtmlAgilityPack name of any version, followed by a tail in which no "l" is followed by "o", has no log4net match, so it does not take the log4net branch |
| BindingRedirects.HtmlAgilityWholeNameRedirect | src/Umbraco.Core/BindingRedirects.cs:41-44 | the HtmlAgilityPack name of any version other than 1.4.9.5 is redirected to version 1.4.9.5 |
| BindingRedirects.HtmlAgilityCanonicalFallsThrough | src/Umbraco.Core/BindingRedirects.cs:41-52 | the canonical HtmlAgilityPack name passes every branch, and the handler returns null |
| Text.ReplaceOrdinal | src/Umbraco.Core/BindingRedirects.cs:50 | replacing a value by itself changes nothing, and replacing it by a value of the same length keeps the length |
| Text.ReplaceOrdinalReplacesTrailingOccurrence | src/Umbraco.Core/BindingRedirects.cs:50 | an occurrence of the old value that ends the string is replaced, so the result ends with the new value |
| Text.ReplaceOrdinalWithoutOccurrence | src/Umbraco.Core/BindingRedirects.cs:50 | a string in which the old value occurs nowhere comes back from Replace unchanged |
| BindingRedirects.AutoMapperRedirect | src/Umbraco.Core/BindingRedirects.cs:47-50 | an AutoMapper name ending in ", PublicKeyToken=null" and matching neither pattern is redirected to a name ending in the signed token, which no longer ends in "PublicKeyToken=null" |
| BindingRedirects.NoBranchYieldsNull | src/Umbraco.Core/BindingRedirects.cs:35-52 | a name that no branch applies to gets null |
| BindingRedirects.HtmlAgilitySelfRedirect | src/Umbraco.Core/BindingRedirects.cs:41-44 | the canonical HtmlAgilityPack name followed by ", processorArchitecture=MSIL" is redirected to itself |
| BindingRedirects.AutoMapperSelfRedirect | src/Umbraco.Core/BindingRedirects.cs:47-50 | "AutoMapper,PublicKeyToken=null" is redirected to itself |
| BindingRedirects.AssemblyResolveGuarded | src/Umbraco.Core/BindingRedirects.cs:32-54 | the handler with each guard comparing the rewrite with the name never asks to load the name that failed |
| BindingRedirects.GuardedAgreesExceptOnSelfRedirects | src/Umbraco.Core/BindingRedirects.cs:32-54 | the guarded handler decides as the handler does exactly on the names the handler does not redirect to themselves |

## Left out

- `FacadeService.Dispose` (FacadeService.cs:53-56) only disposes the XML store, whose internals are not part of this model.
- The two delegating constructors (FacadeService.cs:27-35) are covered by the main constructor. Both pass a null content type cache, so the main constructor builds a new one.
- XML store internals are not modelled: how it updates its XML and how preview sets are stored. The store records the calls it gets, and its answers are parameters.
- The routes-cache clearing the XML store does itself is not modelled. The store methods that change the XML may change the routes cache, and their contracts say nothing about it afterwards. So `NotifyContent`, `NotifyDataTypes` and the `Rebuild*` methods promise nothing about the routes cache, and `NotifyContentTypes` promises nothing about it when no payload is about a document type.
- Preview set token generation is a parameter. `EnterPreview` takes the token the new preview set would make.
- The media cache of `PublishedMediaCache.ClearCache` is a record of the cleared ids, not a cache of media items.
- Null arguments are not modelled; the model's types exclude them. The source reacts to them case by case:
  - a null user in `EnterPreview` throws a NullReferenceException;
  - null content or data type payloads are handed to the store, and null media payloads make the `foreach` throw a NullReferenceException;
  - null content type payloads are handed to the store first, and then `Any` throws an ArgumentNullException (FacadeService.cs:167-168);
  - null domain payloads are never read, so nothing is thrown (FacadeService.cs:177-180);
  - a null `instances` array makes the `Refresh<T>` guard throw a NullReferenceException, and `Remove<T>` hands it to the messenger unchecked (DistributedCache.cs:233-237);
  - a null assembly name makes `Regex.IsMatch` throw an ArgumentNullException (BindingRedirects.cs:35).
- A null route is not modelled. `Store(n, null)` updates the node's route (RoutesCache.cs:59) and then throws an ArgumentNullException (RoutesCache.cs:60), which leaves an entry in one direction only. `GetNodeId(null)` throws an ArgumentNullException (RoutesCache.cs:83).
- The concurrency of the `ConcurrentDictionary` fields is left out, including the transient states a race can leave with one direction stored. Everything is modelled sequentially.
- The `DistributedCache` singleton accessor (DistributedCache.cs:85-104) is left out. The registry, registrar and messenger are given to the gateway's constructor instead of found through resolvers.
- How the messenger uses the `getNumericId` delegate is left out. The messenger's code is not part of this model, so the model records the ids the delegate gives the instances. A null delegate passed on by `Remove<T>` is recorded as `None`.
- The messenger transport and the server registrar are not modelled beyond the calls made to them.
- `BindingRedirects.Initialize` (BindingRedirects.cs:14-18) only subscribes the handler to the app domain event, so it is left out.
- `Assembly.Load` is left out. The model returns the name the handler would load.
- `BindingRedirects.IsVersionChar`: `\d` in .NET matches every Unicode decimal digit, but the model accepts ASCII 0-9 only.
- `BindingRedirects.AssemblyResolve` compares with `StartsWith`/`EndsWith` ordinally. The .NET Framework overloads the source calls are culture-sensitive, which the model does not capture.
- Substitutions (`$1` and the like) in `Regex.Replace` replacements are not modelled. Neither replacement string contains a `$`.
- `BindingRedirects.AutoMapperRedirect` is stated only for names that end in ", PublicKeyToken=null" (with the space) and match neither pattern. It shows that the AutoMapper branch does not take the rewrite again, but does not prove that the whole handler returns null for it.

## Findings

| source | as written | input that shows it | evidently intended | confidence | as-written member | corrected member |
|---|---|---|---|---|---|---|
| src/Umbraco.Core/BindingRedirects.cs:41-44 | the loop guard compares the whole name with the canonical name only | "HtmlAgilityPack, Version=1.4.9.5, Culture=neutral, PublicKeyToken=bd319b19eaf3b43a, processorArchitecture=MSIL" is rewritten to itself, so the handler asks to load the very name that failed and the resolve re-enters | never redirect a name to itself | medium, not executed | BindingRedirects.HtmlAgilitySelfRedirect | BindingRedirects.AssemblyResolveGuarded |
| src/Umbraco.Core/BindingRedirects.cs:49-50 | the guard tests for a "PublicKeyToken=null" ending, but the rewrite replaces ", PublicKeyToken=null" | "AutoMapper,PublicKeyToken=null" passes the guard, and the rewrite leaves it unchanged, so the handler asks to load the name that failed | never redirect a name to itself | medium, not executed | BindingRedirects.AutoMapperSelfRedirect | BindingRedirects.AssemblyResolveGuarded |
