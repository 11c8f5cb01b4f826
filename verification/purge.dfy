/**
 * The plugin's hooks and its use of the transient store: cf-auto-purge.php.
 * The transient store is a map from key to value that the handlers read,
 * set and delete; the plugin settings are the option array
 * `cf_purge_settings`; the Cloudflare replies are inputs.
 */
module CachePurge {
  import opened Wrappers
  import opened Text
  import opened PurgeLists
  import opened PurgeNotice

  const API_ZONES: string := "https://api.cloudflare.com/client/v4/zones"
  const ZONE_LIST_KEY: string := "cf_purge_zone_list"
  const NOTICE_KEY_PREFIX: string := "cf_purge_notice_"
  const EMAIL_OPTION: string := "cf_purge_email"
  const API_KEY_OPTION: string := "cf_purge_global_api_key"
  const ZONE_ID_OPTION: string := "cf_purge_zone_id"
  const MISSING_CREDS: string := "missing_creds"
  const MISSING_CREDS_MESSAGE: string := "API 凭证未设置。"
  const API_ERROR: string := "api_error"
  const UNKNOWN_API_ERROR: string := "未知的 API 错误。"

  datatype Zone = Zone(id: string, name: string)

  /** What a transient holds: a notice text or the cached zone list. */
  datatype Value = NoticeText(text: string) | ZoneList(zones: seq<Zone>)

  datatype WpError = WpError(code: string, message: string)

  /** How the zone-list request ended: a transport error, or a decoded reply. */
  datatype ZoneResponse =
    | ZoneTransportError(error: WpError)
    | ZoneReply(success: bool, result: seq<Zone>, firstError: Option<string>)

  /** The purge request: its endpoint, the credentials sent as headers, and the `files` body. */
  datatype PurgeRequest = PurgeRequest(endpoint: string, email: string, apiKey: string, files: seq<string>)

  /** A notice as displayed: its CSS class and its text. */
  datatype Shown = Shown(cssClass: string, text: string)

  /** The transient holding the notice of user `userId`. */
  function NoticeKey(userId: nat): string
  {
    NOTICE_KEY_PREFIX + DecimalString(userId)
  }

  /** Each user has a notice key of their own, and none of them is the zone-list key. */
  lemma NoticeKeysDistinct(a: nat, b: nat)
    ensures NoticeKey(a) == NoticeKey(b) <==> a == b
    ensures NoticeKey(a) != ZONE_LIST_KEY
  {
    if NoticeKey(a) == NoticeKey(b) {
      var n := |NOTICE_KEY_PREFIX|;
      assert NoticeKey(a)[n..] == DecimalString(a);
      assert NoticeKey(b)[n..] == DecimalString(b);
      DecimalInjective(a, b);
    }
    var k := NoticeKey(a);
    if |k| == |ZONE_LIST_KEY| {
      assert k[9] == 'n' && ZONE_LIST_KEY[9] == 'z';
    }
  }

  /** `$settings[$name] ?? ''`. */
  function Setting(settings: map<string, string>, name: string): string
  {
    if name in settings then settings[name] else ""
  }

  /** PHP `empty()` on a string: true for "" and "0". */
  predicate IsEmpty(s: string)
  {
    s == "" || s == "0"
  }

  predicate HasPurgeCredentials(settings: map<string, string>)
  {
    !IsEmpty(Setting(settings, EMAIL_OPTION)) && !IsEmpty(Setting(settings, API_KEY_OPTION)) &&
    !IsEmpty(Setting(settings, ZONE_ID_OPTION))
  }

  /** The request `cf_purge_execute_purge` sends for `urls`, or None when it returns early. */
  function PurgePlan(settings: map<string, string>, urls: seq<string>): Option<PurgeRequest>
  {
    if urls == [] || !HasPurgeCredentials(settings) then None
    else Some(PurgeRequest(
      API_ZONES + "/" + Setting(settings, ZONE_ID_OPTION) + "/purge_cache",
      Setting(settings, EMAIL_OPTION), Setting(settings, API_KEY_OPTION), Unique(urls)))
  }

  /**
   * The purge guards and the body: nothing is sent for an empty list or when
   * the email, the key or the zone id is empty; otherwise every URL of the
   * list is sent once, in the order of first occurrence, and nothing else.
   */
  lemma PurgePlanSpec(settings: map<string, string>, urls: seq<string>)
    ensures PurgePlan(settings, urls).None? <==> urls == [] || !HasPurgeCredentials(settings)
    ensures PurgePlan(settings, urls).Some? ==>
      var files := PurgePlan(settings, urls).value.files;
      && 1 <= |files| <= |urls|
      && NoDuplicates(files)
      && (forall u :: u in files <==> u in urls)
      && InFirstOccurrenceOrder(urls, files)
  {
    UniqueKeepsFirstOrder(urls);
    if urls != [] {
      assert urls[0] in Unique(urls);
    }
  }

  /**
   * What a term change sends: with credentials, the term's archive and the
   * home page, collapsed to the home page alone when the archive link is the
   * home page; without them, nothing.
   */
  lemma TermChangePurge(settings: map<string, string>, site: Site, termId: int)
    ensures var plan := PurgePlan(settings, TermChangeUrls(site, termId));
      && (plan.Some? <==> HasPurgeCredentials(settings))
      && (plan.Some? ==>
            plan.value.files == (if site.termLink(termId) == site.home then [site.home]
                                 else [site.termLink(termId), site.home]))
  {
    var urls := TermChangeUrls(site, termId);
    assert urls[..1] == [site.termLink(termId)];
    assert Unique(urls[..1]) == [site.termLink(termId)];
  }

  /** The notice a user has waiting, if any: a truthy text under their key. */
  function PendingNotice(store: map<string, Value>, userId: nat): Option<string>
  {
    var key := NoticeKey(userId);
    if key in store && store[key].NoticeText? && Truthy(store[key].text) then Some(store[key].text) else None
  }

  /** The `foreach` that appends the link of each term id to the list being built. */
  method AppendLinks(urls: seq<string>, link: int -> string, ids: seq<int>) returns (r: seq<string>)
    ensures r == urls + TermLinks(link, ids)
  {
    r := urls;
    var i := 0;
    while i < |ids|
      invariant 0 <= i <= |ids|
      invariant r == urls + TermLinks(link, ids[..i])
    {
      assert ids[..i + 1][..i] == ids[..i];
      r := r + [link(ids[i])];
      i := i + 1;
    }
    assert ids[..i] == ids;
  }

  class Transients {
    var store: map<string, Value>

    constructor (initial: map<string, Value>)
      ensures store == initial
    {
      store := initial;
    }

    /**
     * `cf_purge_execute_purge($urls)`: sends the planned request, if any, and
     * leaves the user a notice of how it went; an early return changes nothing.
     */
    method ExecutePurge(settings: map<string, string>, userId: nat, urls: seq<string>,
                        response: PurgeResponse) returns (request: Option<PurgeRequest>)
      modifies this
      ensures request == PurgePlan(settings, urls)
      ensures request.None? ==> store == old(store)
      ensures request.Some? ==>
        store == old(store)[NoticeKey(userId) := NoticeText(Notice(response, |request.value.files|))]
    {
      if urls == [] {
        return None;
      }
      var email := Setting(settings, EMAIL_OPTION);
      var apiKey := Setting(settings, API_KEY_OPTION);
      var zoneId := Setting(settings, ZONE_ID_OPTION);
      if IsEmpty(email) || IsEmpty(apiKey) || IsEmpty(zoneId) {
        return None;
      }
      var files := Unique(urls);
      request := Some(PurgeRequest(API_ZONES + "/" + zoneId + "/purge_cache", email, apiKey, files));
      var message := Notice(response, |files|);
      store := store[NoticeKey(userId) := NoticeText(message)];
    }

    /** `cf_purge_on_status_change($new_status, $old_status, $post)`. */
    method OnStatusChange(site: Site, settings: map<string, string>, userId: nat,
                          newStatus: string, oldStatus: string, post: Post, response: PurgeResponse)
      returns (request: Option<PurgeRequest>)
      modifies this
      ensures !ShouldPurgeOnTransition(newStatus, oldStatus, post.postType) ==>
        request.None? && store == old(store)
      ensures ShouldPurgeOnTransition(newStatus, oldStatus, post.postType) ==>
        request == PurgePlan(settings, StatusChangeUrls(site, post))
      ensures request.None? ==> store == old(store)
      ensures request.Some? ==>
        store == old(store)[NoticeKey(userId) := NoticeText(Notice(response, |request.value.files|))]
    {
      if newStatus == PUBLISH || oldStatus == PUBLISH {
        if !IsPurgedType(post.postType) {
          return None;
        }
        var urls := [site.home];
        urls := urls + [site.permalink(post.id)];
        urls := AppendLinks(urls, site.categoryLink, post.categories);
        urls := AppendLinks(urls, site.tagLink, post.tags);
        assert urls == StatusChangeUrls(site, post);
        request := ExecutePurge(settings, userId, urls, response);
      } else {
        request := None;
      }
    }

    /** `cf_purge_on_delete_post($post_id)`: `post` is what `get_post` found, None when it found nothing. */
    method OnDeletePost(site: Site, settings: map<string, string>, userId: nat,
                        post: Option<Post>, response: PurgeResponse)
      returns (request: Option<PurgeRequest>)
      modifies this
      ensures post.None? || !IsPurgedType(post.value.postType) ==> request.None? && store == old(store)
      ensures post.Some? && IsPurgedType(post.value.postType) ==>
        request == PurgePlan(settings, DeleteUrls(site, post.value))
      ensures request.None? ==> store == old(store)
      ensures request.Some? ==>
        store == old(store)[NoticeKey(userId) := NoticeText(Notice(response, |request.value.files|))]
    {
      if post.None? || !IsPurgedType(post.value.postType) {
        return None;
      }
      var p := post.value;
      var urls := [site.home];
      urls := AppendLinks(urls, site.categoryLink, p.categories);
      urls := AppendLinks(urls, site.tagLink, p.tags);
      assert urls == DeleteUrls(site, p);
      request := ExecutePurge(settings, userId, urls, response);
    }

    /** `cf_purge_on_term_change($term_id)`, on both `edited_term` and `delete_term`. */
    method OnTermChange(site: Site, settings: map<string, string>, userId: nat,
                        termId: int, response: PurgeResponse)
      returns (request: Option<PurgeRequest>)
      modifies this
      ensures request == PurgePlan(settings, TermChangeUrls(site, termId))
      ensures request.None? ==> store == old(store)
      ensures request.Some? ==>
        store == old(store)[NoticeKey(userId) := NoticeText(Notice(response, |request.value.files|))]
    {
      request := ExecutePurge(settings, userId, TermChangeUrls(site, termId), response);
    }

    /**
     * `cf_purge_display_admin_notice()`: a waiting notice is shown once, as
     * an error exactly when it mentions 错误, and its transient is deleted,
     * so the next call shows nothing.
     */
    method DisplayAdminNotice(userId: nat) returns (shown: Option<Shown>)
      modifies this
      ensures PendingNotice(old(store), userId).None? ==> shown.None? && store == old(store)
      ensures PendingNotice(old(store), userId).Some? ==>
        var text := PendingNotice(old(store), userId).value;
        && shown == Some(Shown(NoticeClass(text), text))
        && store == old(store) - {NoticeKey(userId)}
      ensures PendingNotice(store, userId).None?
    {
      var key := NoticeKey(userId);
      if key in store && store[key].NoticeText? && Truthy(store[key].text) {
        var notice := store[key].text;
        var cssClass := if ContainsCaseless(notice, ERROR_WORD) then NOTICE_ERROR else NOTICE_SUCCESS;
        shown := Some(Shown(cssClass, notice));
        store := store - {key};
      } else {
        shown := None;
      }
    }

    /**
     * `cf_purge_fetch_zones()`: `requested` tells whether the zone list was
     * asked of Cloudflare.  A cached list is returned without a request;
     * missing credentials are an error without a request; a failed reply is
     * an error that caches nothing; a successful one is cached and returned.
     */
    method FetchZones(settings: map<string, string>, response: ZoneResponse)
      returns (result: Result<Value, WpError>, requested: bool)
      modifies this
      ensures ZONE_LIST_KEY in old(store) ==>
        result == Ok(old(store)[ZONE_LIST_KEY]) && !requested && store == old(store)
      ensures ZONE_LIST_KEY !in old(store) &&
              (IsEmpty(Setting(settings, EMAIL_OPTION)) || IsEmpty(Setting(settings, API_KEY_OPTION))) ==>
        result == Err(WpError(MISSING_CREDS, MISSING_CREDS_MESSAGE)) && !requested && store == old(store)
      ensures requested <==>
        ZONE_LIST_KEY !in old(store) &&
        !IsEmpty(Setting(settings, EMAIL_OPTION)) && !IsEmpty(Setting(settings, API_KEY_OPTION))
      ensures requested && response.ZoneTransportError? ==>
        result == Err(response.error) && store == old(store)
      ensures requested && response.ZoneReply? && !response.success ==>
        result == Err(WpError(API_ERROR, match response.firstError
                                         case Some(m) => m
                                         case None => UNKNOWN_API_ERROR))
        && store == old(store)
      ensures requested && response.ZoneReply? && response.success ==>
        result == Ok(ZoneList(response.result)) &&
        store == old(store)[ZONE_LIST_KEY := ZoneList(response.result)]
    {
      if ZONE_LIST_KEY in store {
        return Ok(store[ZONE_LIST_KEY]), false;
      }
      var email := Setting(settings, EMAIL_OPTION);
      var apiKey := Setting(settings, API_KEY_OPTION);
      if IsEmpty(email) || IsEmpty(apiKey) {
        return Err(WpError(MISSING_CREDS, MISSING_CREDS_MESSAGE)), false;
      }
      requested := true;
      match response {
        case ZoneTransportError(error) =>
          result := Err(error);
        case ZoneReply(success, zones, firstError) =>
          if !success {
            var message := match firstError case Some(m) => m case None => UNKNOWN_API_ERROR;
            result := Err(WpError(API_ERROR, message));
          } else {
            store := store[ZONE_LIST_KEY := ZoneList(zones)];
            result := Ok(ZoneList(zones));
          }
      }
    }
  }
}
