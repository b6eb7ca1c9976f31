/** The XML facade service: it owns the XML store and the routes cache, builds a facade over fresh
    published caches for each request, opens and closes preview sets, and reacts to the cache
    refreshers' change notifications. The store, the preview sets and the published caches are
    collaborators whose code is not part of this model: they record the calls made to them, and
    what the store answers is a function of the calls it has received. */
module Facades {
  import opened Text
  import opened RoutesCaching

  /** The services of the service context that the facade service hands on. */
  class DomainService { }
  class MemberService { }
  class MediaService { }
  class ContentTypeService { }
  class MediaTypeService { }
  class MemberTypeService { }

  class ServiceContext {
    const domainService: DomainService
    const memberService: MemberService
    const mediaService: MediaService
    const contentTypeService: ContentTypeService
    const mediaTypeService: MediaTypeService
    const memberTypeService: MemberTypeService

    constructor (domainService: DomainService, memberService: MemberService, mediaService: MediaService,
                 contentTypeService: ContentTypeService, mediaTypeService: MediaTypeService,
                 memberTypeService: MemberTypeService)
      ensures this.domainService == domainService && this.memberService == memberService
      ensures this.mediaService == mediaService && this.contentTypeService == contentTypeService
      ensures this.mediaTypeService == mediaTypeService && this.memberTypeService == memberTypeService
    {
      this.domainService := domainService;
      this.memberService := memberService;
      this.mediaService := mediaService;
      this.contentTypeService := contentTypeService;
      this.mediaTypeService := mediaTypeService;
      this.memberTypeService := memberTypeService;
    }
  }

  class DatabaseContext { }

  /** The request cache (an ICacheProvider) shared by the published caches of one request. */
  class RequestCache { }

  class PublishedContentTypeCache {
    const contentTypeService: ContentTypeService
    const mediaTypeService: MediaTypeService
    const memberTypeService: MemberTypeService

    constructor (contentTypeService: ContentTypeService, mediaTypeService: MediaTypeService, memberTypeService: MemberTypeService)
      ensures this.contentTypeService == contentTypeService
      ensures this.mediaTypeService == mediaTypeService && this.memberTypeService == memberTypeService
    {
      this.contentTypeService := contentTypeService;
      this.mediaTypeService := mediaTypeService;
      this.memberTypeService := memberTypeService;
    }
  }

  /** An IUser, of which the facade service reads the id only. */
  datatype User = User(id: int)

  /** The JSON payloads of the content, media, content type, data type and domain cache refreshers. */
  datatype ContentPayload = ContentPayload(id: int)
  datatype MediaPayload = MediaPayload(id: int)
  datatype ContentTypePayload = ContentTypePayload(itemType: string, id: int)
  datatype DataTypePayload = DataTypePayload(id: int)
  datatype DomainPayload = DomainPayload(id: int)

  /** typeof(IContentType).Name, the item type of a content type payload about a document type. */
  const CONTENT_TYPE_ITEM_TYPE := "IContentType"

  /** The three XML caches the store can verify and rebuild. */
  datatype XmlArea = ContentAndPreview | Media | Member

  /** One call received by the XML store, including those a preview set makes through it; a preview
      set opened for a user carries the user's id, one reopened from a token carries none. */
  datatype StoreCall =
    | ContentNotified(contentPayloads: seq<ContentPayload>)
    | ContentTypesNotified(contentTypePayloads: seq<ContentTypePayload>)
    | DataTypesNotified(dataTypePayloads: seq<DataTypePayload>)
    | VerifyXml(area: XmlArea)
    | RebuildXml(rebuilt: XmlArea)
    | CreatePreviewSet(token: string, userId: Option<int>, contentId: int, includeSubs: bool)
    | ClearPreviewSet(clearedToken: string, clearedUserId: Option<int>)

  /** What the store answers, as a function of the calls it received before and of the question:
      the draftChanged and publishedChanged flags of a content notification, and the verdict of a
      verification. */
  datatype StoreAnswers = StoreAnswers(
    notifyContent: (seq<StoreCall>, seq<ContentPayload>) -> (bool, bool),
    verify: (seq<StoreCall>, XmlArea) -> bool)

  /** The XML store. Whenever its XML changes it may clear the routes cache it was given; how it
      does so is not part of this model, so the methods that change the XML promise nothing about
      the routes cache afterwards. */
  class XmlStore {
    const routesCache: RoutesCache
    const contentTypeCache: PublishedContentTypeCache
    const testing: bool
    const enableRepositoryEvents: bool
    const answers: StoreAnswers
    var calls: seq<StoreCall>

    constructor (routesCache: RoutesCache, contentTypeCache: PublishedContentTypeCache,
                 testing: bool, enableRepositoryEvents: bool, answers: StoreAnswers)
      ensures this.routesCache == routesCache && this.contentTypeCache == contentTypeCache
      ensures this.testing == testing && this.enableRepositoryEvents == enableRepositoryEvents
      ensures this.answers == answers && calls == []
    {
      this.routesCache := routesCache;
      this.contentTypeCache := contentTypeCache;
      this.testing := testing;
      this.enableRepositoryEvents := enableRepositoryEvents;
      this.answers := answers;
      calls := [];
    }

    method Notify(payloads: seq<ContentPayload>) returns (draftChanged: bool, publishedChanged: bool)
      modifies this`calls, routesCache
      ensures (draftChanged, publishedChanged) == answers.notifyContent(old(calls), payloads)
      ensures calls == old(calls) + [ContentNotified(payloads)]
    {
      draftChanged, publishedChanged := answers.notifyContent(calls, payloads).0, answers.notifyContent(calls, payloads).1;
      calls := calls + [ContentNotified(payloads)];
    }

    method NotifyContentTypeChanges(payloads: seq<ContentTypePayload>)
      modifies this`calls, routesCache
      ensures calls == old(calls) + [ContentTypesNotified(payloads)]
    {
      calls := calls + [ContentTypesNotified(payloads)];
    }

    method NotifyDataTypeChanges(payloads: seq<DataTypePayload>)
      modifies this`calls, routesCache
      ensures calls == old(calls) + [DataTypesNotified(payloads)]
    {
      calls := calls + [DataTypesNotified(payloads)];
    }

    method Verify(area: XmlArea) returns (ok: bool)
      modifies this`calls
      ensures ok == answers.verify(old(calls), area)
      ensures calls == old(calls) + [VerifyXml(area)]
    {
      ok := answers.verify(calls, area);
      calls := calls + [VerifyXml(area)];
    }

    method Rebuild(area: XmlArea)
      modifies this`calls, routesCache
      ensures calls == old(calls) + [RebuildXml(area)]
    {
      calls := calls + [RebuildXml(area)];
    }
  }

  /** A preview set, opened for a user (with a token of its own making) or reopened from a token. */
  class PreviewContent {
    const xmlStore: XmlStore
    const userId: Option<int>
    const token: string

    /** PreviewContent(xmlStore, userId); newToken is the token it makes, which is not modelled. */
    constructor ForUser(xmlStore: XmlStore, userId: int, newToken: string)
      ensures this.xmlStore == xmlStore && this.userId == Some(userId) && token == newToken
    {
      this.xmlStore := xmlStore;
      this.userId := Some(userId);
      token := newToken;
    }

    /** PreviewContent(xmlStore, token). */
    constructor ForToken(xmlStore: XmlStore, token: string)
      ensures this.xmlStore == xmlStore && userId == None && this.token == token
    {
      this.xmlStore := xmlStore;
      userId := None;
      this.token := token;
    }

    method Create(contentId: int, includeSubs: bool)
      modifies xmlStore`calls
      ensures xmlStore.calls == old(xmlStore.calls) + [CreatePreviewSet(token, userId, contentId, includeSubs)]
    {
      xmlStore.calls := xmlStore.calls + [CreatePreviewSet(token, userId, contentId, includeSubs)];
    }

    method Clear()
      modifies xmlStore`calls
      ensures xmlStore.calls == old(xmlStore.calls) + [ClearPreviewSet(token, userId)]
    {
      xmlStore.calls := xmlStore.calls + [ClearPreviewSet(token, userId)];
    }
  }

  /** The static per-media cache of PublishedMediaCache; clearedIds records its ClearCache calls. */
  class MediaCacheEntries {
    var clearedIds: seq<int>

    constructor ()
      ensures clearedIds == []
    {
      clearedIds := [];
    }

    method ClearCache(id: int)
      modifies this
      ensures clearedIds == old(clearedIds) + [id]
    {
      clearedIds := clearedIds + [id];
    }
  }

  class DomainCache {
    const domainService: DomainService

    constructor (domainService: DomainService)
      ensures this.domainService == domainService
    {
      this.domainService := domainService;
    }
  }

  class PublishedContentCache {
    const xmlStore: XmlStore
    const domainCache: DomainCache
    const requestCache: RequestCache
    const contentTypeCache: PublishedContentTypeCache
    const routesCache: RoutesCache
    const previewToken: Option<string>

    constructor (xmlStore: XmlStore, domainCache: DomainCache, requestCache: RequestCache,
                 contentTypeCache: PublishedContentTypeCache, routesCache: RoutesCache, previewToken: Option<string>)
      ensures this.xmlStore == xmlStore && this.domainCache == domainCache && this.requestCache == requestCache
      ensures this.contentTypeCache == contentTypeCache && this.routesCache == routesCache
      ensures this.previewToken == previewToken
    {
      this.xmlStore := xmlStore;
      this.domainCache := domainCache;
      this.requestCache := requestCache;
      this.contentTypeCache := contentTypeCache;
      this.routesCache := routesCache;
      this.previewToken := previewToken;
    }
  }

  /** The media cache takes no preview token: media are never previewed. */
  class PublishedMediaCache {
    const xmlStore: XmlStore
    const mediaService: MediaService
    const requestCache: RequestCache
    const contentTypeCache: PublishedContentTypeCache

    constructor (xmlStore: XmlStore, mediaService: MediaService, requestCache: RequestCache,
                 contentTypeCache: PublishedContentTypeCache)
      ensures this.xmlStore == xmlStore && this.mediaService == mediaService
      ensures this.requestCache == requestCache && this.contentTypeCache == contentTypeCache
    {
      this.xmlStore := xmlStore;
      this.mediaService := mediaService;
      this.requestCache := requestCache;
      this.contentTypeCache := contentTypeCache;
    }
  }

  /** The member cache takes no preview token either. */
  class PublishedMemberCache {
    const xmlStore: XmlStore
    const requestCache: RequestCache
    const memberService: MemberService
    const contentTypeCache: PublishedContentTypeCache

    constructor (xmlStore: XmlStore, requestCache: RequestCache, memberService: MemberService,
                 contentTypeCache: PublishedContentTypeCache)
      ensures this.xmlStore == xmlStore && this.requestCache == requestCache
      ensures this.memberService == memberService && this.contentTypeCache == contentTypeCache
    {
      this.xmlStore := xmlStore;
      this.requestCache := requestCache;
      this.memberService := memberService;
      this.contentTypeCache := contentTypeCache;
    }
  }

  class Facade {
    const contentCache: PublishedContentCache
    const mediaCache: PublishedMediaCache
    const memberCache: PublishedMemberCache
    const domainCache: DomainCache

    constructor (contentCache: PublishedContentCache, mediaCache: PublishedMediaCache,
                 memberCache: PublishedMemberCache, domainCache: DomainCache)
      ensures this.contentCache == contentCache && this.mediaCache == mediaCache
      ensures this.memberCache == memberCache && this.domainCache == domainCache
    {
      this.contentCache := contentCache;
      this.mediaCache := mediaCache;
      this.memberCache := memberCache;
      this.domainCache := domainCache;
    }
  }

  /** Whether some payload is about a document type, as the content type notification tests with Any. */
  function AnyContentType(payloads: seq<ContentTypePayload>): (r: bool)
    ensures r <==> exists i :: 0 <= i < |payloads| && payloads[i].itemType == CONTENT_TYPE_ITEM_TYPE
  {
    if |payloads| == 0 then false
    else payloads[0].itemType == CONTENT_TYPE_ITEM_TYPE || AnyContentType(payloads[1..])
  }

  /** The ids of media payloads, in order. */
  function MediaIds(payloads: seq<MediaPayload>): (ids: seq<int>)
    ensures |ids| == |payloads|
    ensures forall i :: 0 <= i < |payloads| ==> ids[i] == payloads[i].id
  {
    if |payloads| == 0 then [] else [payloads[0].id] + MediaIds(payloads[1..])
  }

  class FacadeService {
    const xmlStore: XmlStore
    const routesCache: RoutesCache
    const contentTypeCache: PublishedContentTypeCache
    const domainService: DomainService
    const memberService: MemberService
    const mediaService: MediaService
    const requestCache: RequestCache
    /** The process-wide media cache that PublishedMediaCache.ClearCache clears. */
    const mediaCacheEntries: MediaCacheEntries
    /** How many times the service itself has cleared the routes cache; the store may clear it too. */
    var routesCacheClears: nat

    /** The constructor every other overload delegates to; a null content type cache is replaced by
        a new one over the service context's type services. */
    constructor (serviceContext: ServiceContext, databaseContext: DatabaseContext, requestCache: RequestCache,
                 contentTypeCache: PublishedContentTypeCache?, testing: bool, enableRepositoryEvents: bool,
                 storeAnswers: StoreAnswers, mediaCacheEntries: MediaCacheEntries)
      ensures fresh(routesCache) && routesCache.Contents() == EMPTY
      ensures contentTypeCache != null ==> this.contentTypeCache == contentTypeCache
      ensures contentTypeCache == null ==>
        && fresh(this.contentTypeCache)
        && this.contentTypeCache.contentTypeService == serviceContext.contentTypeService
        && this.contentTypeCache.mediaTypeService == serviceContext.mediaTypeService
        && this.contentTypeCache.memberTypeService == serviceContext.memberTypeService
      ensures fresh(xmlStore) && xmlStore.calls == []
      ensures xmlStore.routesCache == routesCache && xmlStore.contentTypeCache == this.contentTypeCache
      ensures xmlStore.testing == testing && xmlStore.enableRepositoryEvents == enableRepositoryEvents
      ensures xmlStore.answers == storeAnswers
      ensures domainService == serviceContext.domainService && memberService == serviceContext.memberService
      ensures mediaService == serviceContext.mediaService && this.requestCache == requestCache
      ensures this.mediaCacheEntries == mediaCacheEntries && routesCacheClears == 0
    {
      var routes := new RoutesCache();
      var types: PublishedContentTypeCache;
      if contentTypeCache != null {
        types := contentTypeCache;
      } else {
        types := new PublishedContentTypeCache(serviceContext.contentTypeService, serviceContext.mediaTypeService,
                                               serviceContext.memberTypeService);
      }
      routesCache := routes;
      this.contentTypeCache := types;
      xmlStore := new XmlStore(routes, types, testing, enableRepositoryEvents, storeAnswers);
      domainService := serviceContext.domainService;
      memberService := serviceContext.memberService;
      mediaService := serviceContext.mediaService;
      this.requestCache := requestCache;
      this.mediaCacheEntries := mediaCacheEntries;
      routesCacheClears := 0;
    }

    /** A facade over new published caches sharing one new domain cache; only the content cache
        sees the preview token. */
    method CreateFacade(previewToken: Option<string>) returns (facade: Facade)
      ensures fresh(facade) && fresh(facade.domainCache) && facade.domainCache.domainService == domainService
      ensures fresh(facade.contentCache) && facade.contentCache.domainCache == facade.domainCache
      ensures facade.contentCache.previewToken == previewToken
      ensures facade.contentCache.xmlStore == xmlStore && facade.contentCache.routesCache == routesCache
      ensures facade.contentCache.requestCache == requestCache && facade.contentCache.contentTypeCache == contentTypeCache
      ensures fresh(facade.mediaCache) && facade.mediaCache.xmlStore == xmlStore
      ensures facade.mediaCache.mediaService == mediaService && facade.mediaCache.requestCache == requestCache
      ensures facade.mediaCache.contentTypeCache == contentTypeCache
      ensures fresh(facade.memberCache) && facade.memberCache.xmlStore == xmlStore
      ensures facade.memberCache.memberService == memberService && facade.memberCache.requestCache == requestCache
      ensures facade.memberCache.contentTypeCache == contentTypeCache
    {
      var domainCache := new DomainCache(domainService);
      var contentCache := new PublishedContentCache(xmlStore, domainCache, requestCache, contentTypeCache, routesCache, previewToken);
      var mediaCache := new PublishedMediaCache(xmlStore, mediaService, requestCache, contentTypeCache);
      var memberCache := new PublishedMemberCache(xmlStore, requestCache, memberService, contentTypeCache);
      facade := new Facade(contentCache, mediaCache, memberCache, domainCache);
    }

    /** Opens a preview set for the user, below contentId, and returns its token; newToken is the
        token the new preview set makes for itself. */
    method EnterPreview(user: User, contentId: int, newToken: string) returns (token: string)
      modifies xmlStore`calls
      ensures token == newToken
      ensures xmlStore.calls == old(xmlStore.calls) + [CreatePreviewSet(token, Some(user.id), contentId, true)]
    {
      var previewContent := new PreviewContent.ForUser(xmlStore, user.id, newToken);
      previewContent.Create(contentId, true);
      token := previewContent.token;
    }

    method RefreshPreview(previewToken: Option<string>, contentId: int)
      modifies xmlStore`calls
      ensures IsNullOrWhiteSpace(previewToken) ==> xmlStore.calls == old(xmlStore.calls)
      ensures !IsNullOrWhiteSpace(previewToken) ==>
        xmlStore.calls == old(xmlStore.calls) + [CreatePreviewSet(previewToken.value, None, contentId, true)]
    {
      if IsNullOrWhiteSpace(previewToken) { return; }
      var previewContent := new PreviewContent.ForToken(xmlStore, previewToken.value);
      previewContent.Create(contentId, true);
    }

    method ExitPreview(previewToken: Option<string>)
      modifies xmlStore`calls
      ensures IsNullOrWhiteSpace(previewToken) ==> xmlStore.calls == old(xmlStore.calls)
      ensures !IsNullOrWhiteSpace(previewToken) ==>
        xmlStore.calls == old(xmlStore.calls) + [ClearPreviewSet(previewToken.value, None)]
    {
      if IsNullOrWhiteSpace(previewToken) { return; }
      var previewContent := new PreviewContent.ForToken(xmlStore, previewToken.value);
      previewContent.Clear();
    }

    method VerifyContentAndPreviewXml() returns (ok: bool)
      modifies xmlStore`calls
      ensures ok == xmlStore.answers.verify(old(xmlStore.calls), ContentAndPreview)
      ensures xmlStore.calls == old(xmlStore.calls) + [VerifyXml(ContentAndPreview)]
    {
      ok := xmlStore.Verify(ContentAndPreview);
    }

    method RebuildContentAndPreviewXml()
      modifies xmlStore`calls, xmlStore.routesCache
      ensures xmlStore.calls == old(xmlStore.calls) + [RebuildXml(ContentAndPreview)]
    {
      xmlStore.Rebuild(ContentAndPreview);
    }

    method VerifyMediaXml() returns (ok: bool)
      modifies xmlStore`calls
      ensures ok == xmlStore.answers.verify(old(xmlStore.calls), Media)
      ensures xmlStore.calls == old(xmlStore.calls) + [VerifyXml(Media)]
    {
      ok := xmlStore.Verify(Media);
    }

    method RebuildMediaXml()
      modifies xmlStore`calls, xmlStore.routesCache
      ensures xmlStore.calls == old(xmlStore.calls) + [RebuildXml(Media)]
    {
      xmlStore.Rebuild(Media);
    }

    method VerifyMemberXml() returns (ok: bool)
      modifies xmlStore`calls
      ensures ok == xmlStore.answers.verify(old(xmlStore.calls), Member)
      ensures xmlStore.calls == old(xmlStore.calls) + [VerifyXml(Member)]
    {
      ok := xmlStore.Verify(Member);
    }

    method RebuildMemberXml()
      modifies xmlStore`calls, xmlStore.routesCache
      ensures xmlStore.calls == old(xmlStore.calls) + [RebuildXml(Member)]
    {
      xmlStore.Rebuild(Member);
    }

    /** Content changes: the store decides, and its flags are returned as they are. The service
        does not clear the routes cache itself. */
    method NotifyContent(payloads: seq<ContentPayload>) returns (draftChanged: bool, publishedChanged: bool)
      modifies xmlStore`calls, xmlStore.routesCache
      ensures (draftChanged, publishedChanged) == xmlStore.answers.notifyContent(old(xmlStore.calls), payloads)
      ensures xmlStore.calls == old(xmlStore.calls) + [ContentNotified(payloads)]
      ensures routesCacheClears == old(routesCacheClears)
    {
      draftChanged, publishedChanged := xmlStore.Notify(payloads);
    }

    /** Media changes: each payload's media is dropped from the media cache, in order, and the
        notification always reports a change, even for no payload. */
    method NotifyMedia(payloads: seq<MediaPayload>) returns (anythingChanged: bool)
      modifies mediaCacheEntries
      ensures mediaCacheEntries.clearedIds == old(mediaCacheEntries.clearedIds) + MediaIds(payloads)
      ensures anythingChanged
    {
      for i := 0 to |payloads|
        invariant mediaCacheEntries.clearedIds == old(mediaCacheEntries.clearedIds) + MediaIds(payloads[..i])
      {
        mediaCacheEntries.ClearCache(payloads[i].id);
        assert MediaIds(payloads[..i + 1]) == MediaIds(payloads[..i]) + [payloads[i].id];
      }
      assert payloads[..|payloads|] == payloads;
      anythingChanged := true;
    }

    /** Content type changes go to the store; then the service clears the routes cache itself
        exactly when one of them is about a document type, and the cache is then empty. */
    method NotifyContentTypes(payloads: seq<ContentTypePayload>)
      modifies xmlStore`calls, xmlStore.routesCache, routesCache, this`routesCacheClears
      ensures xmlStore.calls == old(xmlStore.calls) + [ContentTypesNotified(payloads)]
      ensures routesCacheClears == old(routesCacheClears) + (if AnyContentType(payloads) then 1 else 0)
      ensures AnyContentType(payloads) ==> routesCache.Contents() == EMPTY
    {
      xmlStore.NotifyContentTypeChanges(payloads);
      if AnyContentType(payloads) {
        routesCache.Clear();
        routesCacheClears := routesCacheClears + 1;
      }
    }

    /** Data type changes go to the store only; the service does not clear the routes cache itself. */
    method NotifyDataTypes(payloads: seq<DataTypePayload>)
      modifies xmlStore`calls, xmlStore.routesCache
      ensures xmlStore.calls == old(xmlStore.calls) + [DataTypesNotified(payloads)]
      ensures routesCacheClears == old(routesCacheClears)
    {
      xmlStore.NotifyDataTypeChanges(payloads);
    }

    /** Domain changes clear the routes cache, whatever the payloads, and tell the store nothing. */
    method NotifyDomains(payloads: seq<DomainPayload>)
      modifies routesCache, this`routesCacheClears
      ensures routesCache.Contents() == EMPTY
      ensures routesCacheClears == old(routesCacheClears) + 1
    {
      routesCache.Clear();
      routesCacheClears := routesCacheClears + 1;
    }
  }

  /** Whether a batch of content type changes clears the routes cache does not depend on how the
      changes are batched: one notification for a + b clears it exactly when a notification for a
      or one for b would. */
  lemma AnyContentTypeSplits(a: seq<ContentTypePayload>, b: seq<ContentTypePayload>)
    ensures AnyContentType(a + b) <==> AnyContentType(a) || AnyContentType(b)
  {
    if AnyContentType(a + b) {
      var i :| 0 <= i < |a + b| && (a + b)[i].itemType == CONTENT_TYPE_ITEM_TYPE;
      if i < |a| {
        assert a[i] == (a + b)[i];
      } else {
        assert b[i - |a|] == (a + b)[i];
      }
    }
    if AnyContentType(a) {
      var i :| 0 <= i < |a| && a[i].itemType == CONTENT_TYPE_ITEM_TYPE;
      assert (a + b)[i] == a[i];
    }
    if AnyContentType(b) {
      var i :| 0 <= i < |b| && b[i].itemType == CONTENT_TYPE_ITEM_TYPE;
      assert (a + b)[|a| + i] == b[i];
    }
  }

  /** Likewise media entries: one notification for a + b drops the entries that a notification
      for a followed by one for b drops, in the same order. */
  lemma MediaIdsSplit(a: seq<MediaPayload>, b: seq<MediaPayload>)
    ensures MediaIds(a + b) == MediaIds(a) + MediaIds(b)
  {
    assert forall i :: 0 <= i < |a + b| ==> MediaIds(a + b)[i] == (MediaIds(a) + MediaIds(b))[i];
  }
}
