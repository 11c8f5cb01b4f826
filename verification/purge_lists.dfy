/**
 * Which URLs the cache-purge plugin asks Cloudflare to drop, and when:
 * cf-auto-purge.php.  The WordPress lookups (home URL, permalinks, category,
 * tag and term links) are given as functions of the object's id.
 */
module PurgeLists {

  /** The site's link lookups: `home_url('/')`, `get_permalink`, `get_category_link`, `get_tag_link`, `get_term_link`. */
  datatype Site = Site(
    home: string,
    permalink: int -> string,
    categoryLink: int -> string,
    tagLink: int -> string,
    termLink: int -> string)

  /** A post as the hooks see it: its id, its type and the term ids of its categories and tags, in order. */
  datatype Post = Post(id: int, postType: string, categories: seq<int>, tags: seq<int>)

  const PUBLISH: string := "publish"
  const POST_TYPE: string := "post"

  /** `in_array($post->post_type, ['post'])`. */
  predicate IsPurgedType(postType: string)
  {
    postType in [POST_TYPE]
  }

  /** The status-change hook purges when the post enters or leaves `publish`, for plain posts only. */
  predicate ShouldPurgeOnTransition(newStatus: string, oldStatus: string, postType: string)
  {
    (newStatus == PUBLISH || oldStatus == PUBLISH) && IsPurgedType(postType)
  }

  /** The link of each term, in the order of the terms (the `foreach` over categories or tags). */
  function TermLinks(link: int -> string, ids: seq<int>): (r: seq<string>)
    ensures |r| == |ids|
    ensures forall k :: 0 <= k < |ids| ==> r[k] == link(ids[k])
  {
    if ids == [] then [] else TermLinks(link, ids[..|ids| - 1]) + [link(ids[|ids| - 1])]
  }

  /** The archives a post appears on: its category links, then its tag links. */
  function ArchiveUrls(site: Site, post: Post): seq<string>
  {
    TermLinks(site.categoryLink, post.categories) + TermLinks(site.tagLink, post.tags)
  }

  /** `cf_purge_on_status_change`'s list: the home page, the post itself, then its archives. */
  function StatusChangeUrls(site: Site, post: Post): (r: seq<string>)
  {
    [site.home, site.permalink(post.id)] + ArchiveUrls(site, post)
  }

  /** `cf_purge_on_delete_post`'s list: the home page, then the archives. */
  function DeleteUrls(site: Site, post: Post): (r: seq<string>)
  {
    [site.home] + ArchiveUrls(site, post)
  }

  /** `cf_purge_on_term_change`'s list: the term's archive, then the home page. */
  function TermChangeUrls(site: Site, termId: int): seq<string>
  {
    [site.termLink(termId), site.home]
  }

  /**
   * The status-change list in full: the home page first, the permalink
   * second, then one URL per category and one per tag, each in order.
   */
  lemma StatusChangeUrlsLayout(site: Site, post: Post)
    ensures var r := StatusChangeUrls(site, post);
      var nc := |post.categories|;
      && |r| == 2 + nc + |post.tags|
      && r[0] == site.home && r[1] == site.permalink(post.id)
      && (forall k :: 0 <= k < nc ==> r[2 + k] == site.categoryLink(post.categories[k]))
      && (forall k :: 0 <= k < |post.tags| ==> r[2 + nc + k] == site.tagLink(post.tags[k]))
  {
    var r := StatusChangeUrls(site, post);
    var nc := |post.categories|;
    var cats := TermLinks(site.categoryLink, post.categories);
    var tags := TermLinks(site.tagLink, post.tags);
    assert r == [site.home, site.permalink(post.id)] + cats + tags;
    forall k | 0 <= k < nc ensures r[2 + k] == site.categoryLink(post.categories[k]) {
      assert r[2 + k] == cats[k];
    }
    forall k | 0 <= k < |post.tags| ensures r[2 + nc + k] == site.tagLink(post.tags[k]) {
      assert r[2 + nc + k] == tags[k];
    }
  }

  /** The delete list is the status-change list without the permalink. */
  lemma DeleteDropsPermalink(site: Site, post: Post)
    ensures var s := StatusChangeUrls(site, post);
      DeleteUrls(site, post) == s[..1] + s[2..]
  {
    var s := StatusChangeUrls(site, post);
    assert s[..1] == [site.home];
    assert s[2..] == ArchiveUrls(site, post);
  }

  // ---------------------------------------------------------------------
  // array_values(array_unique($urls))
  // ---------------------------------------------------------------------

  predicate NoDuplicates(s: seq<string>)
  {
    forall i, j :: 0 <= i < j < |s| ==> s[i] != s[j]
  }

  /**
   * `array_values(array_unique($urls))`: each URL is kept at its first
   * occurrence, later repeats are dropped, and the survivors are numbered
   * from 0 in order.
   */
  function Unique(s: seq<string>): (r: seq<string>)
    ensures NoDuplicates(r)
    ensures forall x :: x in r <==> x in s
    ensures |r| <= |s|
  {
    if s == [] then []
    else
      var u := Unique(s[..|s| - 1]);
      var x := s[|s| - 1];
      assert s == s[..|s| - 1] + [x];
      if x in u then u else u + [x]
  }

  /** The position of the first occurrence of `x` in `s`. */
  function FirstIndex(s: seq<string>, x: string): (i: nat)
    requires x in s
    ensures i < |s| && s[i] == x
    ensures forall k :: 0 <= k < i ==> s[k] != x
  {
    if s[0] == x then 0 else 1 + FirstIndex(s[1..], x)
  }

  lemma FirstIndexInPrefix(p: seq<string>, x: string, y: string)
    requires y in p
    ensures FirstIndex(p + [x], y) == FirstIndex(p, y)
  {
    var i := FirstIndex(p + [x], y);
    var j := FirstIndex(p, y);
    assert (p + [x])[j] == y;
  }

  /** The elements of `r`, all taken from `s`, appear in the order of their first occurrences in `s`. */
  predicate InFirstOccurrenceOrder(s: seq<string>, r: seq<string>)
    requires forall x :: x in r ==> x in s
  {
    forall i, j :: 0 <= i < j < |r| ==> FirstIndex(s, r[i]) < FirstIndex(s, r[j])
  }

  /** The survivors keep the order of their first occurrences in the input. */
  lemma {:induction false} UniqueKeepsFirstOrder(s: seq<string>)
    ensures InFirstOccurrenceOrder(s, Unique(s))
    decreases |s|
  {
    if s != [] {
      var p := s[..|s| - 1];
      var x := s[|s| - 1];
      assert s == p + [x];
      UniqueKeepsFirstOrder(p);
      var u := Unique(p);
      var r := Unique(s);
      assert r == u || r == u + [x];
      forall i, j | 0 <= i < j < |r| ensures FirstIndex(s, r[i]) < FirstIndex(s, r[j]) {
        assert r[i] == u[i] && r[i] in p;
        FirstIndexInPrefix(p, x, r[i]);
        if j < |u| {
          assert r[j] == u[j];
          FirstIndexInPrefix(p, x, r[j]);
          assert FirstIndex(p, u[i]) < FirstIndex(p, u[j]);
        } else {
          assert r[j] == x && x !in p;
          assert FirstIndex(s, x) == |p|;
          assert FirstIndex(p, r[i]) < |p|;
        }
      }
    }
  }

  /** A list without repeats is left as it is. */
  lemma {:induction false} UniqueOfDistinct(s: seq<string>)
    requires NoDuplicates(s)
    ensures Unique(s) == s
    decreases |s|
  {
    if s != [] {
      var p := s[..|s| - 1];
      UniqueOfDistinct(p);
      assert s[|s| - 1] !in p;
      assert s == p + [s[|s| - 1]];
    }
  }

  /** Deduplicating twice is deduplicating once. */
  lemma UniqueIdempotent(s: seq<string>)
    ensures Unique(Unique(s)) == Unique(s)
  {
    UniqueOfDistinct(Unique(s));
  }
}
