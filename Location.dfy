/** `src/helpers/company/location.helper.ts`: the job location read from the page. */
module Location {
  import opened Wrappers
  import opened Text
  import opened Dom

  /** `getJobLocation(locationSelector)`: the trimmed text of the matched element, or `null`
      when no element matches or its text is only whitespace. */
  function GetJobLocation(dom: Query, locationSelector: string): (r: Option<string>)
    ensures QuerySelector(dom, locationSelector).None? ==> r.None?
    ensures QuerySelector(dom, locationSelector).Some? ==>
      var text := Trim(TextContent(QuerySelector(dom, locationSelector).value));
      (r.None? <==> text == "") && (r.Some? ==> r.value == text)
    ensures r.Some? ==> r.value != "" && !IsSpace(r.value[0]) && !IsSpace(r.value[|r.value| - 1])
  {
    match QuerySelector(dom, locationSelector)
    case None => None
    case Some(e) =>
      var locationText := Trim(TextContent(e));
      if locationText != "" then Some(locationText) else None
  }

  /** A located value is already trimmed: trimming it again changes nothing. */
  lemma LocationIsTrimmed(dom: Query, locationSelector: string)
    ensures GetJobLocation(dom, locationSelector).Some? ==>
      Trim(GetJobLocation(dom, locationSelector).value) == GetJobLocation(dom, locationSelector).value
  {
    var e := QuerySelector(dom, locationSelector);
    if e.Some? {
      TrimIdempotent(TextContent(e.value));
    }
  }
}
