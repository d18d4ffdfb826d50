/** `src/utils/supportedSites.ts`: which pages get autofill, auto-apply and the floating button. */
module SupportedSites {
  import opened Text

  /** The autofill list; "linkedin.com/", "jobsforce.ai" and "portal.jobsforce.ai" are
      commented out in the source and are not part of it. */
  const SupportedAutofillSites: seq<string> := [
    "boards.greenhouse.io",
    "job-boards.greenhouse.io",
    "workable.com",
    "ashbyhq.com",
    "lever.co",
    "jobs.eu.lever.co",
    "myworkdayjobs.com",
    "careers.employinc.com",
    "apply.talemetry.com/application",
    "www.smartrecruiterscareers.com",
    "jobs.smartrecruiters.com",
    "zohorecruit.com",
    "glassdoor.com/Job"
  ]

  const SupportedAutoapplySites: seq<string> := ["linkedin.com/jobs"]

  const AlwaysVisibleSites: seq<string> := ["linkedin.com"]

  predicate IsSupportedAutofillSite(url: string) {
    SomeIncluded(SupportedAutofillSites, url)
  }

  predicate IsSupportedAutoapplySite(url: string) {
    SomeIncluded(SupportedAutoapplySites, url)
  }

  predicate IsSiteAlwaysVisible(url: string) {
    SomeIncluded(AlwaysVisibleSites, url)
  }

  /** Autofill support is containment of some list entry, both ways. */
  lemma AutofillIff(url: string)
    ensures IsSupportedAutofillSite(url) <==>
      exists i :: 0 <= i < |SupportedAutofillSites| && Includes(url, SupportedAutofillSites[i])
  {
  }

  /** Auto-apply support is exactly containment of "linkedin.com/jobs". */
  lemma AutoapplyIff(url: string)
    ensures IsSupportedAutoapplySite(url) <==> Includes(url, "linkedin.com/jobs")
  {
    assert SupportedAutoapplySites[0] == "linkedin.com/jobs";
  }

  /** Every auto-apply page shows the floating button, since "linkedin.com/jobs"
      contains "linkedin.com". */
  lemma AutoapplyIsAlwaysVisible(url: string)
    requires IsSupportedAutoapplySite(url)
    ensures IsSiteAlwaysVisible(url)
  {
    AutoapplyIff(url);
    assert "linkedin.com/jobs"[0..12] == "linkedin.com";
    OccursAtIncludes("linkedin.com/jobs", "linkedin.com", 0);
    IncludesTransitive(url, "linkedin.com/jobs", "linkedin.com");
    assert AlwaysVisibleSites[0] == "linkedin.com";
  }

  /** Support is kept when text is added around the URL. */
  lemma SomeIncludedExtended(sites: seq<string>, p: string, u: string, q: string)
    requires SomeIncluded(sites, u)
    ensures SomeIncluded(sites, p + u + q)
  {
    var i :| 0 <= i < |sites| && Includes(u, sites[i]);
    IncludesExtended(p, u, q, sites[i]);
  }

  lemma SupportExtended(p: string, u: string, q: string)
    ensures IsSupportedAutofillSite(u) ==> IsSupportedAutofillSite(p + u + q)
    ensures IsSupportedAutoapplySite(u) ==> IsSupportedAutoapplySite(p + u + q)
    ensures IsSiteAlwaysVisible(u) ==> IsSiteAlwaysVisible(p + u + q)
  {
    if IsSupportedAutofillSite(u) { SomeIncludedExtended(SupportedAutofillSites, p, u, q); }
    if IsSupportedAutoapplySite(u) { SomeIncludedExtended(SupportedAutoapplySites, p, u, q); }
    if IsSiteAlwaysVisible(u) { SomeIncludedExtended(AlwaysVisibleSites, p, u, q); }
  }

  /** A URL shorter than every entry but the `workable.com`, `ashbyhq.com` and `lever.co`
      ones, and missing one character of each of those three, is not supported. */
  lemma {:induction false} ShortUrlUnsupported(url: string, w: nat, a: nat, l: nat)
    requires |url| < 15
    requires w < |SupportedAutofillSites[2]| && SupportedAutofillSites[2][w] !in url
    requires a < |SupportedAutofillSites[3]| && SupportedAutofillSites[3][a] !in url
    requires l < |SupportedAutofillSites[4]| && SupportedAutofillSites[4][l] !in url
    ensures !IsSupportedAutofillSite(url)
  {
    var sites := SupportedAutofillSites;
    forall i | 0 <= i < |sites| ensures !Includes(url, sites[i]) {
      if i == 2 {
        NotIncludedByChar(url, sites[2], w);
      } else if i == 3 {
        NotIncludedByChar(url, sites[3], a);
      } else if i == 4 {
        NotIncludedByChar(url, sites[4], l);
      } else {
        NotIncludedLonger(url, sites[i]);
      }
    }
  }

  /** The empty URL is on no list. */
  lemma EmptyUrlRejected()
    ensures !IsSupportedAutofillSite("") && !IsSupportedAutoapplySite("") && !IsSiteAlwaysVisible("")
  {
    ShortUrlUnsupported("", 0, 0, 0);
    NotIncludedLonger("", SupportedAutoapplySites[0]);
    NotIncludedLonger("", AlwaysVisibleSites[0]);
  }

  /** The commented-out "linkedin.com/" entry is really out. */
  lemma LinkedInRootUnsupported()
    ensures !IsSupportedAutofillSite("linkedin.com/")
  {
    ShortUrlUnsupported("linkedin.com/", 0, 0, 2);
  }

  /** The commented-out "jobsforce.ai" entry is really out. */
  lemma JobsforceUnsupported()
    ensures !IsSupportedAutofillSite("jobsforce.ai")
  {
    ShortUrlUnsupported("jobsforce.ai", 0, 2, 2);
  }
}
