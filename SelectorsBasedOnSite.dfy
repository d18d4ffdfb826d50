/** `src/utils/selectorsBasedOnSite.ts`: the per-site table of DOM selectors. */
module SiteSelectors {
  import opened Wrappers
  import opened Text
  import opened Types

  /** A site entry: title, description, logo image and location selectors, nothing else. */
  function Entry(title: string, description: string, image: string, location: string): SaveJobSelectorProps {
    SaveJobSelectorProps(Some(title), Some(description), None, Some(image), None, None, None, Some(location), None)
  }

  const LinkedIn := Entry(
    ".job-details-jobs-unified-top-card__job-title a", "#job-details",
    ".ivm-view-attr__img-wrapper img",
    ".job-details-jobs-unified-top-card__primary-description-container .tvm__text--low-emphasis"
  ).(companyNameSelector := Some(".job-details-jobs-unified-top-card__company-name a"))

  const ApplyWorkable := Entry(
    "h1[data-ui=\"job-title\"]", "[role=\"main\"]", "a[data-ui=\"company-logo\"] img",
    "[data-ui=\"job-location\"]")

  const JobsWorkable := Entry(
    "h2[data-ui=\"overview-title\"] strong", "div[class=\"jobBreakdown__job-breakdown--31MGR\"]",
    "img[class=\"companyLogo__logo--1lwSh\"]", "span[data-ui=\"overview-location\"]")

  const Greenhouse := Entry(
    "#app_body #header h1.app-title", "#content", "#logo img", "#app_body #header .location")

  const Lever := Entry(
    ".posting-header h2", "div[data-qa=\"job-description\"]", ".main-header-logo img", ".location")

  const ZohoRecruit := Entry(
    "h2.job-title", ".job-description", ".company-logo-container img", ".job-location")

  /** The generic set for an unrecognised site, the only one with a `sourceType`. */
  const Default := Entry(
    "h1", ".job-description, .description", ".company-logo img, .logo img",
    ".location, .job-location"
  ).(sourceType := Some("unknown"))

  /** The URL fragments the function tests, in the order it tests them, with their entries. */
  const SiteTable: seq<(string, SaveJobSelectorProps)> := [
    ("www.linkedin.com", LinkedIn),
    ("apply.workable.com", ApplyWorkable),
    ("jobs.workable.com", JobsWorkable),
    ("greenhouse.io", Greenhouse),
    ("jobs.lever.co", Lever),
    ("zohorecruit.com", ZohoRecruit)
  ]

  /** `selectorsBasedOnSite(siteUrl)`, as the source writes it: a chain of `includes` tests. */
  function SelectorsBasedOnSite(siteUrl: string): (r: SaveJobSelectorProps)
    ensures r.jobTitleSelector.Some? && r.jobDescriptionSelector.Some?
    ensures r.imageUrlSelector.Some? && r.locationSelector.Some?
  {
    if Includes(siteUrl, "www.linkedin.com") then LinkedIn
    else if Includes(siteUrl, "apply.workable.com") then ApplyWorkable
    else if Includes(siteUrl, "jobs.workable.com") then JobsWorkable
    else if Includes(siteUrl, "greenhouse.io") then Greenhouse
    else if Includes(siteUrl, "jobs.lever.co") then Lever
    else if Includes(siteUrl, "zohorecruit.com") then ZohoRecruit
    else Default
  }

  /** The `if` chain is the ordered table lookup with the generic fallback. */
  lemma SelectorsAreFirstIncluded(siteUrl: string)
    ensures SelectorsBasedOnSite(siteUrl) ==
      match FirstIncluded(SiteTable, siteUrl)
      case Some(k) => SiteTable[k].1
      case None => Default
  {
    var m := FirstIncluded(SiteTable, siteUrl);
    if m.Some? {
      var k := m.value;
      assert Includes(siteUrl, SiteTable[k].0);
      assert k > 0 ==> !Includes(siteUrl, SiteTable[0].0);
      assert k > 1 ==> !Includes(siteUrl, SiteTable[1].0);
      assert k > 2 ==> !Includes(siteUrl, SiteTable[2].0);
      assert k > 3 ==> !Includes(siteUrl, SiteTable[3].0);
      assert k > 4 ==> !Includes(siteUrl, SiteTable[4].0);
    } else {
      assert !Includes(siteUrl, SiteTable[0].0) && !Includes(siteUrl, SiteTable[1].0);
      assert !Includes(siteUrl, SiteTable[2].0) && !Includes(siteUrl, SiteTable[3].0);
      assert !Includes(siteUrl, SiteTable[4].0) && !Includes(siteUrl, SiteTable[5].0);
    }
  }

  /** First match wins: a URL that contains fragment `k` and none before it gets entry `k`,
      whatever later fragments it also contains. */
  lemma FirstFragmentWins(siteUrl: string, k: nat)
    requires k < |SiteTable| && Includes(siteUrl, SiteTable[k].0)
    requires forall j :: 0 <= j < k ==> !Includes(siteUrl, SiteTable[j].0)
    ensures SelectorsBasedOnSite(siteUrl) == SiteTable[k].1
  {
    SelectorsAreFirstIncluded(siteUrl);
    assert FirstIncluded(SiteTable, siteUrl) == Some(k);
  }

  /** A URL that contains none of the six fragments gets the generic set. */
  lemma UnknownSiteGetsDefault(siteUrl: string)
    requires forall j :: 0 <= j < |SiteTable| ==> !Includes(siteUrl, SiteTable[j].0)
    ensures SelectorsBasedOnSite(siteUrl) == Default
  {
    assert !Includes(siteUrl, SiteTable[0].0) && !Includes(siteUrl, SiteTable[1].0);
    assert !Includes(siteUrl, SiteTable[2].0) && !Includes(siteUrl, SiteTable[3].0);
    assert !Includes(siteUrl, SiteTable[4].0) && !Includes(siteUrl, SiteTable[5].0);
  }

  /** `sourceType` is set exactly in the fallback, and only to "unknown"; the company-name
      selector exists exactly for LinkedIn. */
  lemma SourceTypeAndCompanyName(siteUrl: string)
    ensures SelectorsBasedOnSite(siteUrl).sourceType.Some? <==>
      forall j :: 0 <= j < |SiteTable| ==> !Includes(siteUrl, SiteTable[j].0)
    ensures SelectorsBasedOnSite(siteUrl).sourceType.Some? ==>
      SelectorsBasedOnSite(siteUrl).sourceType == Some("unknown")
    ensures SelectorsBasedOnSite(siteUrl).companyNameSelector.Some? <==>
      Includes(siteUrl, "www.linkedin.com")
  {
    SelectorsAreFirstIncluded(siteUrl);
    var m := FirstIncluded(SiteTable, siteUrl);
    if m.Some? {
      assert SiteTable[m.value].1.sourceType.None?;
      assert m.value > 0 ==> SiteTable[m.value].1.companyNameSelector.None?;
    }
  }

  /** Matching looks at the whole URL, query string included: a page that merely mentions
      the LinkedIn host in its query gets the LinkedIn selectors. */
  lemma MatchesInsideQuery()
    ensures SelectorsBasedOnSite("https://example.com/?ref=www.linkedin.com") == LinkedIn
  {
    var url := "https://example.com/?ref=www.linkedin.com";
    assert url[25..41] == "www.linkedin.com";
    OccursAtIncludes(url, "www.linkedin.com", 25);
  }
}
