/** The build step that writes `robots.txt` and `sitemap.xml`: the site's
    address is taken from the environment, normalised, and written into both
    texts. */
module Seo {
  import opened Wrappers
  import opened Strings

  const FallbackSiteUrl := "http://localhost:4173"

  /** An environment value that is set and not empty. */
  predicate Present(s: Option<string>) {
    s.Some? && s.value != ""
  }

  predicate HasScheme(s: string) {
    StartsWith(s, "http://") || StartsWith(s, "https://")
  }

  /** `https://` in front unless the text already starts with `http://` or
      `https://`. */
  function WithScheme(bare: string): (r: string)
    ensures HasScheme(r)
    ensures |r| >= |bare| && r[|r| - |bare|..] == bare
  {
    if HasScheme(bare) then bare
    else
      var r := "https://" + bare;
      assert r[..8] == "https://";
      r
  }

  /** `normalizeSiteUrl(input)`: nothing for a missing or blank input;
      otherwise the trimmed text without trailing slashes, with `https://`
      put in front unless it already starts with `http://` or `https://`. */
  function NormalizeSiteUrl(input: Option<string>): (r: Option<string>)
    ensures r.None? <==> input.None? || Trim(input.value) == ""
    ensures r.Some? ==> HasScheme(r.value)
  {
    if !Present(input) then None
    else
      var trimmed := Trim(input.value);
      if trimmed == "" then None else Some(WithScheme(DropTrailing(trimmed, '/')))
  }

  /** An address that already names its scheme keeps it; any other gets
      `https://`; either way the trailing slashes are gone. */
  lemma NormalizeKeepsScheme(s: string)
    requires Trim(s) != ""
    ensures var bare := DropTrailing(Trim(s), '/');
      NormalizeSiteUrl(Some(s)) == Some(if HasScheme(bare) then bare else "https://" + bare)
  {
  }

  /** The scheme is put in front of nothing only for an empty text, and
      otherwise the text's last character stays last. */
  lemma WithSchemeLast(bare: string)
    ensures bare == "" ==> WithScheme(bare) == "https://"
    ensures bare != "" ==> WithScheme(bare)[|WithScheme(bare)| - 1] == bare[|bare| - 1]
  {
    var r := WithScheme(bare);
    if bare != "" {
      assert r[|r| - 1] == r[|r| - |bare|..][|bare| - 1];
    }
  }

  /** A result ends with a slash exactly when the trimmed input was nothing
      but slashes, and then it is `https://`. */
  lemma NormalizedTrailingSlash(s: string)
    requires Trim(s) != ""
    ensures var r := NormalizeSiteUrl(Some(s)).value;
      var t := Trim(s);
      && (r[|r| - 1] == '/' <==> forall i :: 0 <= i < |t| ==> t[i] == '/')
      && (r[|r| - 1] == '/' ==> r == "https://")
  {
    var t := Trim(s);
    var bare := DropTrailing(t, '/');
    NormalizedIsWithScheme(s);
    WithSchemeLast(bare);
    BareEmptyIff(t);
  }

  lemma NormalizedIsWithScheme(s: string)
    requires Trim(s) != ""
    ensures NormalizeSiteUrl(Some(s)) == Some(WithScheme(DropTrailing(Trim(s), '/')))
  {
  }

  /** Dropping the trailing slashes leaves nothing exactly when the text is all slashes. */
  lemma BareEmptyIff(t: string)
    ensures DropTrailing(t, '/') == "" <==> forall i :: 0 <= i < |t| ==> t[i] == '/'
  {
    if forall i :: 0 <= i < |t| ==> t[i] == '/' {
      AllSlashesDropped(t);
    }
  }

  lemma {:induction false} AllSlashesDropped(t: string)
    requires forall i :: 0 <= i < |t| ==> t[i] == '/'
    ensures DropTrailing(t, '/') == ""
  {
    if |t| > 0 {
      AllSlashesDropped(t[..|t| - 1]);
    }
  }

  /** A normalised address that does not end with a slash or blank is left
      as it is by a second normalisation. */
  lemma NormalizeIdempotent(s: string)
    requires IsTrimmed(s) && HasScheme(s) && s[|s| - 1] != '/'
    ensures NormalizeSiteUrl(Some(s)) == Some(s)
  {
    TrimOfTrimmed(s);
  }

  /** A scheme with nothing after it loses its slashes and is then not
      recognised as a scheme. */
  lemma SchemeAloneIsRewritten()
    ensures NormalizeSiteUrl(Some("http://")) == Some("https://http:")
  {
    TrimOfTrimmed("http://");
    assert "http://"[..6] == "http:/";
    assert "http:/"[..5] == "http:";
    assert DropTrailing("http://", '/') == "http:";
    assert !HasScheme("http:");
    assert WithScheme("http:") == "https://" + "http:";
    assert "https://" + "http:" == "https://http:";
    assert NormalizeSiteUrl(Some("http://")) == Some(WithScheme(DropTrailing(Trim("http://"), '/')));
  }

  /** `normalizeSiteUrl(SITE_URL || VERCEL_URL) || fallbackSiteUrl`: an
      empty `SITE_URL` counts as missing. */
  function SiteUrl(siteEnv: Option<string>, vercelEnv: Option<string>): (url: string)
    ensures HasScheme(url)
    ensures NormalizeSiteUrl(if Present(siteEnv) then siteEnv else vercelEnv).None? ==> url == FallbackSiteUrl
  {
    match NormalizeSiteUrl(if Present(siteEnv) then siteEnv else vercelEnv)
    case Some(u) => u
    case None => assert FallbackSiteUrl[..7] == "http://"; FallbackSiteUrl
  }

  /** `siteUrl.replace(/^https?:\/\//, '')` */
  function HostOf(url: string): (host: string)
    ensures StartsWith(url, "https://") ==> url == "https://" + host
    ensures StartsWith(url, "http://") ==> url == "http://" + host
    ensures !HasScheme(url) ==> host == url
    ensures |host| <= |url| && host == url[|url| - |host|..]
  {
    if StartsWith(url, "http://") then
      assert url[4] == ':' && url == url[..7] + url[7..];
      url[7..]
    else if StartsWith(url, "https://") then
      assert url == url[..8] + url[8..];
      url[8..]
    else url
  }

  /** The lines of `robots.txt`, before the final line break. */
  function RobotsLines(siteUrl: string): seq<string> {
    ["User-agent: *", "Allow: /", "Disallow: /gsxi", "Disallow: /gsxi/", "Disallow: /gsxi/*",
     "Sitemap: " + siteUrl + "/sitemap.xml", "Host: " + HostOf(siteUrl)]
  }

  /** `robotsTxt`: the lines, each ended by a line break. */
  function RobotsTxt(siteUrl: string): (r: string)
    ensures r == Join(RobotsLines(siteUrl), "\n") + "\n"
    ensures r[..14] == "User-agent: *\n"
  {
    JoinTrailingEmpty(RobotsLines(siteUrl), "\n");
    Join(RobotsLines(siteUrl) + [""], "\n")
  }

  /** Read back line by line, `robots.txt` has its seven lines and an empty
      last piece, the sitemap line pointing into the site and the host line
      naming the site without its scheme. */
  lemma RobotsTxtLines(siteUrl: string)
    requires '\n' !in siteUrl
    ensures Split(RobotsTxt(siteUrl), '\n') == RobotsLines(siteUrl) + [""]
    ensures |Split(RobotsTxt(siteUrl), '\n')| == 8
  {
    var host := HostOf(siteUrl);
    assert '\n' !in host by {
      forall j | 0 <= j < |host|
        ensures host[j] != '\n'
      {
        assert host[j] == siteUrl[|siteUrl| - |host| + j];
      }
    }
    var lines := RobotsLines(siteUrl) + [""];
    forall k | 0 <= k < |lines|
      ensures '\n' !in lines[k]
    {
      if k == 5 {
        assert lines[k] == "Sitemap: " + siteUrl + "/sitemap.xml";
      } else if k == 6 {
        assert lines[k] == "Host: " + host;
      }
    }
    SplitJoin(lines, '\n');
  }

  datatype UrlEntry = UrlEntry(loc: string, changefreq: string, priority: string, lastmod: string)

  /** `urlEntries`: the site's address alone, weekly, priority 0.8, stamped
      with the build time. */
  function UrlEntries(siteUrl: string, now: string): (r: seq<UrlEntry>)
    ensures |r| == 1 && r[0].loc == siteUrl
  {
    [UrlEntry(siteUrl, "weekly", "0.8", now)]
  }

  const EntryOpen := "  <url>\n    "

  function LocElement(loc: string): string {
    "<loc>" + loc + "</loc>"
  }

  function EntryClose(e: UrlEntry): string {
    "\n    <lastmod>" + e.lastmod + "</lastmod>\n    <changefreq>" + e.changefreq
    + "</changefreq>\n    <priority>" + e.priority + "</priority>\n  </url>"
  }

  /** One `<url>` element, indented as the template literal writes it. */
  function EntryXml(e: UrlEntry): string {
    EntryOpen + LocElement(e.loc) + EntryClose(e)
  }

  function EntriesXml(es: seq<UrlEntry>): (r: seq<string>)
    ensures |r| == |es|
  {
    seq(|es|, i requires 0 <= i < |es| => EntryXml(es[i]))
  }

  const SitemapHead := "<?xml version=\"1.0\" encoding=\"UTF-8\"?>\n<urlset xmlns=\"https://www.sitemaps.org/schemas/sitemap/0.9\">\n"
  const SitemapTail := "\n</urlset>\n"

  /** `sitemapXml` */
  function SitemapXml(siteUrl: string, now: string): (r: string)
    ensures |r| >= |SitemapHead| + |SitemapTail|
    ensures r[..|SitemapHead|] == SitemapHead && r[|r| - |SitemapTail|..] == SitemapTail
  {
    SitemapHead + Join(EntriesXml(UrlEntries(siteUrl, now)), "\n") + SitemapTail
  }

  /** The sitemap is its header, the one entry for the site's address, and
      its closing tag. */
  lemma SitemapHasOneEntry(siteUrl: string, now: string)
    ensures SitemapXml(siteUrl, now)
         == SitemapHead + EntryXml(UrlEntry(siteUrl, "weekly", "0.8", now)) + SitemapTail
  {
    assert EntriesXml(UrlEntries(siteUrl, now)) == [EntryXml(UrlEntry(siteUrl, "weekly", "0.8", now))];
  }

  /** The entry's `<loc>` element names the site's address. */
  lemma SitemapNamesSite(siteUrl: string, now: string)
    ensures Contains(SitemapXml(siteUrl, now), LocElement(siteUrl))
  {
    var e := UrlEntry(siteUrl, "weekly", "0.8", now);
    SitemapHasOneEntry(siteUrl, now);
    var before := SitemapHead + EntryOpen;
    var after := EntryClose(e) + SitemapTail;
    assert SitemapXml(siteUrl, now) == before + LocElement(siteUrl) + after;
    MiddleSlice(before, LocElement(siteUrl), after);
    assert OccursAt(SitemapXml(siteUrl, now), LocElement(siteUrl), |before|);
  }

  lemma MiddleSlice(a: string, b: string, c: string)
    ensures (a + b + c)[|a|..|a| + |b|] == b
  {
  }
}
