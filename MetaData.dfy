/**
  `src/helpers/sendMetaData/metaData.helper.ts`: the job record sent to the backend, taken
  from the page's JSON-LD where it has the field and from the page's DOM otherwise.
 */
module MetaData {
  import opened Wrappers
  import opened Text
  import opened Dom
  import opened Types
  import opened JobDetails
  import opened Location
  import opened CompanyNameAndLogo

  // ---------------------------------------------------------------------------
  // The JSON-LD blocks of the page
  // ---------------------------------------------------------------------------

  datatype Address = Address(addressLocality: Option<string>, name: Option<string>)

  datatype JobLocation = JobLocation(address: Option<Address>)

  datatype Organization = Organization(
    name: Option<string>, logo: Option<string>, sameAs: Option<string>, url: Option<string>)

  /** The members of a parsed JSON-LD object that the scraper reads (`kind` is `"@type"`). */
  datatype JsonLd = JsonLd(
    kind: Option<string>, title: Option<string>, description: Option<string>,
    hiringOrganization: Option<Organization>, jobLocation: Option<JobLocation>)

  /** A `script[type="application/ld+json"]` element: its text parses to an object, or
      parsing (or reading `"@type"` of a `null`) throws. */
  datatype LdScript = Unparsable | Parsed(json: JsonLd)

  predicate IsJobPosting(script: LdScript) {
    script.Parsed? && script.json.kind == Some("JobPosting")
  }

  /** The first block, in document order, that is a `JobPosting`. */
  function FirstPosting(scripts: seq<LdScript>): (r: Option<nat>)
    ensures r.Some? ==> r.value < |scripts| && IsJobPosting(scripts[r.value])
    ensures r.Some? ==> forall j :: 0 <= j < r.value ==> !IsJobPosting(scripts[j])
    ensures r.None? ==> forall j :: 0 <= j < |scripts| ==> !IsJobPosting(scripts[j])
  {
    if scripts == [] then None
    else if IsJobPosting(scripts[0]) then Some(0)
    else match FirstPosting(scripts[1..])
      case None => None
      case Some(k) => Some(k + 1)
  }

  /** Line 17: `addressLocality`, else the address `name`, else `""`. */
  function LdLocation(json: JsonLd): (r: string)
    ensures json.jobLocation.None? || json.jobLocation.value.address.None? ==> r == ""
    ensures json.jobLocation.Some? && json.jobLocation.value.address.Some? ==>
      var address := json.jobLocation.value.address.value;
      r == OrEmpty(Or(address.addressLocality, address.name))
  {
    match json.jobLocation
    case None => ""
    case Some(loc) =>
      match loc.address
      case None => ""
      case Some(address) => OrEmpty(Or(address.addressLocality, address.name))
  }

  /** Lines 16-27: the partial record read from one `JobPosting` block. */
  function FromPosting(json: JsonLd): (r: SaveJobBody)
    ensures r.jobTitle == json.title && r.jobDescription == json.description
    ensures json.hiringOrganization.None? ==>
      r.companyName.None? && r.companyLogo.None? && r.companyUrl.None?
    ensures json.hiringOrganization.Some? ==>
      var company := json.hiringOrganization.value;
      && r.companyName == company.name && r.companyLogo == company.logo
      && (Truthy(company.sameAs) ==> r.companyUrl == company.sameAs)
      && (!Truthy(company.sameAs) ==> r.companyUrl == company.url)
    ensures r.location == Some(LdLocation(json))
    ensures r.jobId.None? && r.jobLink.None? && r.imageUrl.None? && r.sourceType.None?
  {
    var company := json.hiringOrganization.GetOr(Organization(None, None, None, None));
    EmptyJobBody.(
      jobTitle := json.title,
      jobDescription := json.description,
      companyName := company.name,
      companyLogo := company.logo,
      companyUrl := Or(company.sameAs, company.url),
      location := Some(LdLocation(json)))
  }

  /** `scrapeJsonLd()`: the fields of the first `JobPosting` block, or `{}` when there is
      none. A posting always yields a location (possibly `""`), so the result is `{}`
      exactly when no block is a `JobPosting`. */
  function ScrapeJsonLd(scripts: seq<LdScript>): (r: SaveJobBody)
    ensures r == EmptyJobBody <==> forall j :: 0 <= j < |scripts| ==> !IsJobPosting(scripts[j])
    ensures FirstPosting(scripts).Some? ==> r == FromPosting(scripts[FirstPosting(scripts).value].json)
  {
    match FirstPosting(scripts)
    case None => EmptyJobBody
    case Some(i) => FromPosting(scripts[i].json)
  }

  /** Blocks after the first `JobPosting` are ignored. */
  lemma {:induction false} LaterBlocksIgnored(scripts: seq<LdScript>, more: seq<LdScript>)
    requires FirstPosting(scripts).Some?
    ensures FirstPosting(scripts + more) == FirstPosting(scripts)
    ensures ScrapeJsonLd(scripts + more) == ScrapeJsonLd(scripts)
  {
    if !IsJobPosting(scripts[0]) {
      assert (scripts + more)[1..] == scripts[1..] + more;
      LaterBlocksIgnored(scripts[1..], more);
    }
  }

  /** A block that does not parse, or is not a `JobPosting`, is skipped and the scan goes on. */
  lemma SkippedBlock(script: LdScript, scripts: seq<LdScript>)
    requires !IsJobPosting(script)
    ensures ScrapeJsonLd([script] + scripts) == ScrapeJsonLd(scripts)
  {
    assert ([script] + scripts)[1..] == scripts;
  }

  // ---------------------------------------------------------------------------
  // The merge
  // ---------------------------------------------------------------------------

  /** `getJobTitle(selector).jobTitle`: the untrimmed text of the title element. */
  function DomTitle(dom: Query, jobTitleSelector: Option<string>): (r: Option<string>)
    ensures r.Some? <==> QuerySelector(dom, Interpolate(jobTitleSelector)).Some?
    ensures r.Some? ==> r.value == TextContent(QuerySelector(dom, Interpolate(jobTitleSelector)).value)
  {
    match QuerySelector(dom, Interpolate(jobTitleSelector))
    case Some(e) => Some(TextContent(e))
    case None => None
  }

  /** What the extension can observe of the page: its URL, its JSON-LD blocks, the DOM
      before the description poller runs (`before`, where the title is read), the DOM at each
      of the poller's attempts, and the DOM (and images) once it has finished (`dom`, where
      the fallback selectors, the name, logo and location are read). */
  datatype Page = Page(
    href: string, scripts: seq<LdScript>, before: Query, polls: seq<Query>,
    dom: Query, images: seq<Element>)

  /** `getMetaData(props)`, with the milliseconds the description poller waited. */
  method GetMetaData(props: SaveJobSelectorProps, page: Page) returns (body: SaveJobBody, waited: nat)
    requires |page.polls| == MaxRetries
    ensures var ld := ScrapeJsonLd(page.scripts);
      && body.jobTitle == Some(OrEmpty(Or(ld.jobTitle, DomTitle(page.before, props.jobTitleSelector))))
      && body.jobLink == Some(page.href)
      && (Truthy(ld.jobDescription) ==> body.jobDescription == ld.jobDescription)
      && (!Truthy(ld.jobDescription) ==>
            body.jobDescription ==
            Some(OrEmpty(JobDetailsText(Interpolate(props.jobDescriptionSelector), page.polls, page.dom))))
      && (waited == 0 <==> Truthy(ld.jobDescription))
      // Name and logo: the JSON-LD value when truthy, else what the page's DOM gives, read
      // with the site's image selector as the logo selector.
      && body.companyName == Or(ld.companyName, NameAndLogo(page.dom, page.images, props.imageUrlSelector, props.companyNameSelector).0)
      && body.companyLogo == Or(ld.companyLogo, NameAndLogo(page.dom, page.images, props.imageUrlSelector, props.companyNameSelector).1)
      && body.companyUrl == ld.companyUrl
      && body.location == Or(ld.location, GetJobLocation(page.dom, Interpolate(props.locationSelector)))
      && body.jobId.None? && body.imageUrl.None? && body.sourceType.None?
    ensures body.companyName.Some? ==> body.companyName.value != ""
    ensures body.companyLogo.Some? ==> body.companyLogo.value != ""
  {
    var jsonLdData := ScrapeJsonLd(page.scripts);

    var jobTitle := OrEmpty(Or(jsonLdData.jobTitle, DomTitle(page.before, props.jobTitleSelector)));

    var jobDescription: string;
    waited := 0;
    if Truthy(jsonLdData.jobDescription) {
      jobDescription := jsonLdData.jobDescription.value;
    } else {
      var text, w := ExtractJobDetailsText(Interpolate(props.jobDescriptionSelector), page.polls, page.dom);
      jobDescription := OrEmpty(text);
      waited := w;
    }

    // The logo selector handed over is the site's image selector.
    var companyName, companyLogo :=
      GetCompanyNameAndLogo(page.dom, page.images, props.imageUrlSelector, props.companyNameSelector);

    var location := Or(jsonLdData.location, GetJobLocation(page.dom, Interpolate(props.locationSelector)));

    body := EmptyJobBody.(
      jobTitle := Some(jobTitle),
      jobLink := Some(page.href),
      jobDescription := Some(jobDescription),
      companyName := Or(jsonLdData.companyName, companyName),
      companyLogo := Or(jsonLdData.companyLogo, companyLogo),
      companyUrl := jsonLdData.companyUrl,
      location := location);
  }

  /** With no `JobPosting` block, no company elements and no images, the name and the logo
      are both `null`: neither strategy finds an element, so nothing is inferred. */
  lemma NothingToMerge(scripts: seq<LdScript>, props: SaveJobSelectorProps)
    requires FirstPosting(scripts).None?
    ensures Or(ScrapeJsonLd(scripts).companyName, NameAndLogo(map[], [], props.imageUrlSelector, props.companyNameSelector).0).None?
    ensures Or(ScrapeJsonLd(scripts).companyLogo, NameAndLogo(map[], [], props.imageUrlSelector, props.companyNameSelector).1).None?
  {
  }
}
