/**
 * The decisions of `DocsSpider.parse`: which responses are pages, which
 * title and url a page is stored under, and which links are followed.
 *
 * HTML parsing (BeautifulSoup), markdown conversion and url joining are
 * library calls outside the model; `parse` here receives what they
 * extracted from one response.
 */
module Spider {
  import opened Outcomes
  import opened Text
  import opened PageStore

  /** `START_URLS`: the crawl starts here and only follows links below these prefixes. */
  const StartUrls: seq<string> := ["https://docs.openzeppelin.com/contracts/5.x/", "https://eips.ethereum.org/"]

  /** One `<a href=...>` of the page, with `response.urljoin(href)` already computed. */
  datatype Anchor = Anchor(href: string, joined: string)

  /** What `parse` reads from one response. */
  datatype Fetched = Fetched(
    url: string,                  // response.url
    contentType: Option<string>,  // the Content-Type header, if sent
    titleString: Option<string>,  // soup.title.string (None without a single string)
    canonicalHref: Option<string>,// href of <link rel="canonical">, if the link and attribute exist
    bodyMarkdown: Option<string>, // md(str(soup.body)), None when there is no <body>
    anchors: seq<Anchor>)         // soup.find_all('a', href=True), in document order

  /** What `parse` yields: the page item, or a request to follow a url. */
  datatype Output = PageItem(item: Item) | Follow(url: string)

  /**
   * The content-type gate: the header must mention an HTML or XHTML media
   * type somewhere; a response without the header is not a page.
   */
  function IsHtml(contentType: Option<string>): (r: bool)
    ensures contentType == None ==> !r
    ensures contentType.Some? ==>
      (r <==>
        || (exists i :: OccursAt(contentType.value, "text/html", i))
        || (exists i :: OccursAt(contentType.value, "application/xhtml+xml", i)))
  {
    var ct := contentType.GetOr("");
    ContainsIff(ct, "text/html");
    ContainsIff(ct, "application/xhtml+xml");
    Contains(ct, "text/html") || Contains(ct, "application/xhtml+xml")
  }

  /** The stored title: the stripped title string, or '' without one. */
  function PageTitle(titleString: Option<string>): (t: string)
    ensures titleString == None ==> t == ""
    ensures titleString.Some? ==> t == Strip(titleString.value)
  {
    if titleString.Some? && titleString.value != "" then Strip(titleString.value) else ""
  }

  /** The stored url: the stripped canonical href when it is non-empty, else the response url. */
  function CanonicalUrl(canonicalHref: Option<string>, responseUrl: string): (u: string)
    ensures canonicalHref == None || canonicalHref == Some("") ==> u == responseUrl
    ensures canonicalHref.Some? && canonicalHref.value != "" ==> u == Strip(canonicalHref.value)
  {
    if canonicalHref.Some? && canonicalHref.value != "" then Strip(canonicalHref.value) else responseUrl
  }

  /** `any(url.startswith(u) for u in prefixes)`. */
  function StartsWithAny(url: string, prefixes: seq<string>): (r: bool)
    ensures r <==> exists k :: 0 <= k < |prefixes| && StartsWith(url, prefixes[k])
  {
    if prefixes == [] then false
    else StartsWith(url, prefixes[0]) || StartsWithAny(url, prefixes[1..])
  }

  /** An href is skipped when it starts with `mailto:` or `#`. */
  function Skipped(href: string): (r: bool)
    ensures r <==> (|href| >= 1 && href[0] == '#') || (|href| >= 7 && href[..7] == "mailto:")
  {
    StartsWith(href, "mailto:") || StartsWith(href, "#")
  }

  /** The urls `parse` follows, in anchor order: unskipped hrefs whose joined url is under a start url. */
  function FollowedUrls(anchors: seq<Anchor>): (urls: seq<string>)
    ensures |urls| <= |anchors|
    ensures forall k :: 0 <= k < |urls| ==> StartsWithAny(urls[k], StartUrls)
  {
    if anchors == [] then []
    else
      var a := anchors[0];
      var rest := FollowedUrls(anchors[1..]);
      if !Skipped(a.href) && StartsWithAny(a.joined, StartUrls) then [a.joined] + rest else rest
  }

  /** Every followed url is the joined url of an anchor whose href is not skipped. */
  lemma {:induction false} FollowedUrlsSound(anchors: seq<Anchor>, k: nat)
    requires k < |FollowedUrls(anchors)|
    ensures exists j :: 0 <= j < |anchors| && anchors[j].joined == FollowedUrls(anchors)[k] && !Skipped(anchors[j].href)
    decreases |anchors|
  {
    var a := anchors[0];
    var rest := FollowedUrls(anchors[1..]);
    if !Skipped(a.href) && StartsWithAny(a.joined, StartUrls) {
      if k > 0 {
        FollowedUrlsSound(anchors[1..], k - 1);
        var j :| 0 <= j < |anchors[1..]| && anchors[1..][j].joined == rest[k - 1] && !Skipped(anchors[1..][j].href);
        assert anchors[j + 1] == anchors[1..][j];
      } else {
        assert anchors[0].joined == FollowedUrls(anchors)[0];
      }
    } else {
      FollowedUrlsSound(anchors[1..], k);
      var j :| 0 <= j < |anchors[1..]| && anchors[1..][j].joined == rest[k] && !Skipped(anchors[1..][j].href);
      assert anchors[j + 1] == anchors[1..][j];
    }
  }

  /** Every unskipped anchor whose joined url is under a start url is followed. */
  lemma {:induction false} FollowedUrlsComplete(anchors: seq<Anchor>, j: nat)
    requires j < |anchors|
    requires !Skipped(anchors[j].href) && StartsWithAny(anchors[j].joined, StartUrls)
    ensures anchors[j].joined in FollowedUrls(anchors)
    decreases j
  {
    if j > 0 {
      FollowedUrlsComplete(anchors[1..], j - 1);
    }
  }

  /** Following respects anchor order: the urls of a concatenation are those of each part. */
  lemma {:induction false} FollowedUrlsAppend(a: seq<Anchor>, b: seq<Anchor>)
    ensures FollowedUrls(a + b) == FollowedUrls(a) + FollowedUrls(b)
    decreases |a|
  {
    if a != [] {
      assert (a + b)[0] == a[0];
      assert (a + b)[1..] == a[1..] + b;
      FollowedUrlsAppend(a[1..], b);
      var head := if !Skipped(a[0].href) && StartsWithAny(a[0].joined, StartUrls) then [a[0].joined] else [];
      assert FollowedUrls(a) == head + FollowedUrls(a[1..]);
      assert FollowedUrls(a + b) == head + FollowedUrls(a[1..] + b);
    } else {
      assert a + b == b;
    }
  }

  /**
   * `DocsSpider.parse`: nothing for a non-HTML response; otherwise the page
   * item first, then one follow request per followed link.
   */
  function Parse(f: Fetched): (out: seq<Output>)
    ensures out == [] <==> !IsHtml(f.contentType)
    ensures out != [] ==>
      && out[0] == PageItem(Item(PageTitle(f.titleString), CanonicalUrl(f.canonicalHref, f.url), f.bodyMarkdown.GetOr("")))
      && |out| == 1 + |FollowedUrls(f.anchors)|
      && forall k :: 1 <= k < |out| ==> out[k] == Follow(FollowedUrls(f.anchors)[k - 1])
  {
    if !IsHtml(f.contentType) then []
    else
      var item := Item(PageTitle(f.titleString), CanonicalUrl(f.canonicalHref, f.url), f.bodyMarkdown.GetOr(""));
      var follows := FollowedUrls(f.anchors);
      [PageItem(item)] + seq(|follows|, k requires 0 <= k < |follows| => Follow(follows[k]))
  }

  /**
   * Only the start-url prefixes decide what is followed: a page of
   * `ethereum.org` is not followed even though `allowed_domains` names that
   * domain, while an EIP page is.
   */
  lemma StartUrlScope()
    ensures !StartsWithAny("https://ethereum.org/en/", StartUrls)
    ensures StartsWithAny("https://eips.ethereum.org/EIPS/eip-20", StartUrls)
    ensures !StartsWithAny("https://docs.openzeppelin.com/contracts/4.x/", StartUrls)
  {
    assert !StartsWith("https://ethereum.org/en/", StartUrls[0]) by {
      assert "https://ethereum.org/en/"[8] != StartUrls[0][8];
    }
    assert !StartsWith("https://ethereum.org/en/", StartUrls[1]) by {
      assert "https://ethereum.org/en/"[9] != StartUrls[1][9];
    }
    assert StartsWith("https://eips.ethereum.org/EIPS/eip-20", StartUrls[1]);
    assert !StartsWith("https://docs.openzeppelin.com/contracts/4.x/", StartUrls[0]) by {
      assert "https://docs.openzeppelin.com/contracts/4.x/"[40] != StartUrls[0][40];
    }
    assert !StartsWith("https://docs.openzeppelin.com/contracts/4.x/", StartUrls[1]) by {
      assert "https://docs.openzeppelin.com/contracts/4.x/"[8] != StartUrls[1][8];
    }
  }

  /**
   * A canonical href made only of whitespace is non-empty, so it is used,
   * and stripping leaves the empty url.
   */
  lemma BlankCanonicalHref(responseUrl: string)
    ensures CanonicalUrl(Some(" "), responseUrl) == ""
  {
    assert AllSpace(" ");
  }
}
