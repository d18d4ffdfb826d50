/** `src/helpers/company/nameAndLogo.helper.ts`: the company name and logo read from the page. */
module CompanyNameAndLogo {
  import opened Wrappers
  import opened Text
  import opened Dom

  /** Lines 8-12: the trimmed text of the name selector's element, or `null` when there is
      no selector, no element, or only whitespace. */
  function NameFromSelector(dom: Query, companyNameSelector: Option<string>): (r: Option<string>)
    ensures r.Some? ==> Truthy(companyNameSelector) && QuerySelector(dom, companyNameSelector.value).Some?
    ensures r.Some? ==> r.value == Trim(TextContent(QuerySelector(dom, companyNameSelector.value).value))
    ensures r.None? <==>
      !Truthy(companyNameSelector) || QuerySelector(dom, companyNameSelector.value).None? ||
      Trim(TextContent(QuerySelector(dom, companyNameSelector.value).value)) == ""
    ensures r.Some? ==> r.value != ""
  {
    if !Truthy(companyNameSelector) then None
    else match QuerySelector(dom, companyNameSelector.value)
      case None => None
      case Some(e) => if Trim(TextContent(e)) != "" then Some(Trim(TextContent(e))) else None
  }

  /** `allImages.find((img) => img.alt && img.alt.includes(companyName))`, as an index. */
  function FindImageByAlt(images: seq<Element>, companyName: string): (r: Option<nat>)
    ensures r.Some? ==> r.value < |images| && images[r.value].alt != "" && Includes(images[r.value].alt, companyName)
    ensures r.Some? ==> forall j :: 0 <= j < r.value ==> !(images[j].alt != "" && Includes(images[j].alt, companyName))
    ensures r.None? ==> forall j :: 0 <= j < |images| ==> !(images[j].alt != "" && Includes(images[j].alt, companyName))
  {
    if images == [] then None
    else if images[0].alt != "" && Includes(images[0].alt, companyName) then Some(0)
    else match FindImageByAlt(images[1..], companyName)
      case None => None
      case Some(k) => Some(k + 1)
  }

  /** `img.src || null`. */
  function LogoSource(e: Element): (r: Option<string>)
    ensures r.Some? <==> e.src != ""
    ensures r.Some? ==> r.value == e.src
  {
    if e.src != "" then Some(e.src) else None
  }

  /** Line 39: the alt text with every case-insensitive "logo" removed, trimmed, or `null`
      when nothing is left. */
  function NameFromAlt(alt: string): (r: Option<string>)
    ensures r.Some? ==> r.value == Trim(RemoveLogo(alt)) && r.value != ""
    ensures r.None? <==> Trim(RemoveLogo(alt)) == ""
  {
    var t := Trim(RemoveLogo(alt));
    if t != "" then Some(t) else None
  }

  /** The element the logo is read from: strategy 1, the first image whose alt contains
      the name (when there is one), else strategy 2, the logo selector's element. */
  function LogoElement(dom: Query, images: seq<Element>, companyLogoSelector: Option<string>,
                       name: Option<string>): (r: Option<Element>)
    ensures name.Some? && FindImageByAlt(images, name.value).Some? ==>
      r == Some(images[FindImageByAlt(images, name.value).value])
    ensures (name.None? || FindImageByAlt(images, name.value).None?) ==>
      r == if Truthy(companyLogoSelector) then QuerySelector(dom, companyLogoSelector.value) else None
  {
    var found := if name.Some? then FindImageByAlt(images, name.value) else None;
    if found.Some? then Some(images[found.value])
    else if Truthy(companyLogoSelector) then QuerySelector(dom, companyLogoSelector.value)
    else None
  }

  /** The name and logo `getCompanyNameAndLogo` returns. */
  function NameAndLogo(dom: Query, images: seq<Element>,
                       companyLogoSelector: Option<string>, companyNameSelector: Option<string>)
    : (r: (Option<string>, Option<string>))
    // A name found through its own selector is returned unchanged.
    ensures NameFromSelector(dom, companyNameSelector).Some? ==>
      r.0 == NameFromSelector(dom, companyNameSelector)
    // Strategy 1: the first image whose alt contains that name supplies the logo.
    ensures NameFromSelector(dom, companyNameSelector).Some? ==>
      var found := FindImageByAlt(images, NameFromSelector(dom, companyNameSelector).value);
      found.Some? ==> r.1 == LogoSource(images[found.value])
    // Strategy 2, only when strategy 1 found nothing: the logo selector's element.
    ensures (NameFromSelector(dom, companyNameSelector).None? ||
             FindImageByAlt(images, NameFromSelector(dom, companyNameSelector).value).None?) ==>
      var fallback := if Truthy(companyLogoSelector) then QuerySelector(dom, companyLogoSelector.value) else None;
      && (fallback.None? ==> r.1.None?)
      && (fallback.Some? ==> r.1 == LogoSource(fallback.value))
      // Without a name of its own, the name is inferred from the fallback element's alt text.
      && (NameFromSelector(dom, companyNameSelector).None? ==>
            r.0 == if fallback.Some? then NameFromAlt(fallback.value.alt) else None)
    // Whatever its origin, a name is non-empty and trimmed, and a logo is a non-empty `src`.
    ensures r.0.Some? ==> r.0.value != "" && Trim(r.0.value) == r.0.value
    ensures r.1.Some? ==> r.1.value != ""
  {
    var name := NameFromSelector(dom, companyNameSelector);
    var element := LogoElement(dom, images, companyLogoSelector, name);
    var logo := if element.Some? then LogoSource(element.value) else None;
    if name.Some? then
      TrimIdempotent(TextContent(QuerySelector(dom, companyNameSelector.value).value));
      (name, logo)
    else if element.Some? then
      TrimIdempotent(RemoveLogo(element.value.alt));
      (NameFromAlt(element.value.alt), logo)
    else (None, logo)
  }

  /** `getCompanyNameAndLogo(companyLogoSelector, companyNameSelector)`. */
  method GetCompanyNameAndLogo(dom: Query, images: seq<Element>,
                               companyLogoSelector: Option<string>, companyNameSelector: Option<string>)
    returns (companyName: Option<string>, companyLogo: Option<string>)
    ensures (companyName, companyLogo) == NameAndLogo(dom, images, companyLogoSelector, companyNameSelector)
  {
    companyName := None;
    if Truthy(companyNameSelector) {
      var companyNameElement := QuerySelector(dom, companyNameSelector.value);
      companyName := if companyNameElement.Some? && Trim(TextContent(companyNameElement.value)) != ""
                     then Some(Trim(TextContent(companyNameElement.value))) else None;
    }

    companyLogo := None;
    var companyLogoElement: Option<Element> := None;

    // Strategy 1
    if companyName.Some? {
      var found := FindImageByAlt(images, companyName.value);
      companyLogoElement := if found.Some? then Some(images[found.value]) else None;
    }

    // Strategy 2
    if companyLogoElement.None? && Truthy(companyLogoSelector) {
      companyLogoElement := QuerySelector(dom, companyLogoSelector.value);
    }

    if companyLogoElement.Some? {
      companyLogo := LogoSource(companyLogoElement.value);
    }

    if companyName.None? && companyLogoElement.Some? {
      companyName := NameFromAlt(companyLogoElement.value.alt);
    }
  }
}
