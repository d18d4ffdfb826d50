/** `src/utils/siteSelectorForCoverLetter.ts`: where the cover-letter text area is. */
module CoverLetter {
  import opened Wrappers
  import opened Text

  const WorkableSelector := "textarea[data-ui=\"cover_letter\"]"
  const LinkedInSelector := "#cover-letter-textarea"
  const IndeedSelector := "textarea[name=\"coverletter\"]"
  const GreenhouseSelector := "textarea[id=\"cover_letter_text\"]"

  /** `getCoverLetterSelector(url)`: the first test that holds, in source order, or `null`. */
  function GetCoverLetterSelector(url: string): Option<string> {
    if Includes(url, "apply.workable.com") || Includes(url, "jobs.workable.com") then Some(WorkableSelector)
    else if Includes(url, "linkedin.com/jobs/") then Some(LinkedInSelector)
    else if Includes(url, "indeed.com") then Some(IndeedSelector)
    else if Includes(url, "greenhouse.io") then Some(GreenhouseSelector)
    else None
  }

  /** The five fragments in test order, each with the selector it gives. */
  const CoverLetterTable: seq<(string, string)> := [
    ("apply.workable.com", WorkableSelector),
    ("jobs.workable.com", WorkableSelector),
    ("linkedin.com/jobs/", LinkedInSelector),
    ("indeed.com", IndeedSelector),
    ("greenhouse.io", GreenhouseSelector)
  ]

  /** The `if` chain is the ordered table lookup: the selector of the first fragment the
      URL contains, and `null` exactly when it contains none of the five. */
  lemma CoverLetterIsFirstMatch(url: string)
    ensures GetCoverLetterSelector(url) ==
      match FirstIncluded(CoverLetterTable, url)
      case Some(k) => Some(CoverLetterTable[k].1)
      case None => None
    ensures GetCoverLetterSelector(url).None? <==>
      forall j :: 0 <= j < |CoverLetterTable| ==> !Includes(url, CoverLetterTable[j].0)
  {
    var m := FirstIncluded(CoverLetterTable, url);
    if m.Some? {
      var k := m.value;
      assert k > 0 ==> !Includes(url, CoverLetterTable[0].0);
      assert k > 1 ==> !Includes(url, CoverLetterTable[1].0);
      assert k > 2 ==> !Includes(url, CoverLetterTable[2].0);
      assert k > 3 ==> !Includes(url, CoverLetterTable[3].0);
    } else {
      assert !Includes(url, CoverLetterTable[0].0) && !Includes(url, CoverLetterTable[1].0);
      assert !Includes(url, CoverLetterTable[2].0) && !Includes(url, CoverLetterTable[3].0);
      assert !Includes(url, CoverLetterTable[4].0);
    }
  }

  /** Source order decides between sites: a URL naming both a Workable host and
      Greenhouse gets the Workable selector, and a LinkedIn jobs URL that also names
      Indeed or Greenhouse gets the LinkedIn one unless it names Workable. */
  lemma CoverLetterPrecedence(url: string)
    ensures (Includes(url, "apply.workable.com") || Includes(url, "jobs.workable.com")) ==>
      GetCoverLetterSelector(url) == Some(WorkableSelector)
    ensures (!Includes(url, "apply.workable.com") && !Includes(url, "jobs.workable.com") &&
             Includes(url, "linkedin.com/jobs/")) ==>
      GetCoverLetterSelector(url) == Some(LinkedInSelector)
    ensures GetCoverLetterSelector(url) == Some(GreenhouseSelector) ==>
      Includes(url, "greenhouse.io") && !Includes(url, "indeed.com")
  {
  }
}
