/**
  `src/helpers/score/jobDetails.helper.ts`: the description poller. The page is observed
  once per primary attempt (`polls[i]` is the DOM at attempt `i`) and once more, as `dom`,
  when the fallback selectors are tried. Time is counted as the milliseconds of `delay`
  that have been awaited.
 */
module JobDetails {
  import opened Wrappers
  import opened Text
  import opened Dom

  const MaxRetries: nat := 30
  const InitialDelay: nat := 500
  const RetryDelay: nat := 700
  /** Text of at most this many characters counts as "still loading". */
  const MinLength: nat := 50

  const FallbackSelectors: seq<string> := [
    "article",
    "div[class*=\"_app-description_\"]",
    ".job-details-jobs-unified-top-card__job-description",
    "[data-ui=\"job-description\"]",
    ".job-description",
    ".description",
    "main"
  ]

  /** What a primary attempt reads: the trimmed text of the element's noise-free clone. */
  function PrimaryText(e: Element): string {
    Trim(TextContent(StripNoise(e)))
  }

  /** What a fallback selector reads: the trimmed text of the element itself, unstripped. */
  function FallbackText(e: Element): string {
    Trim(TextContent(e))
  }

  /** What attempt `q` reads, when the selector resolves there. */
  function PrimaryAttempt(q: Query, selector: string): Option<string> {
    match QuerySelector(q, selector)
    case Some(e) => Some(PrimaryText(e))
    case None => None
  }

  /** What fallback selector `selector` reads on `dom`, when it resolves. */
  function FallbackAttempt(dom: Query, selector: string): Option<string> {
    match QuerySelector(dom, selector)
    case Some(e) => Some(FallbackText(e))
    case None => None
  }

  /** The texts read by the successive primary attempts. */
  function PrimaryTexts(polls: seq<Query>, selector: string): (r: seq<Option<string>>)
    ensures |r| == |polls|
    ensures forall i :: 0 <= i < |polls| ==> r[i] == PrimaryAttempt(polls[i], selector)
  {
    seq(|polls|, i requires 0 <= i < |polls| => PrimaryAttempt(polls[i], selector))
  }

  /** The texts read by the fallback selectors, in list order. */
  function FallbackTexts(dom: Query): (r: seq<Option<string>>)
    ensures |r| == |FallbackSelectors|
    ensures forall i :: 0 <= i < |FallbackSelectors| ==> r[i] == FallbackAttempt(dom, FallbackSelectors[i])
  {
    seq(|FallbackSelectors|, i requires 0 <= i < |FallbackSelectors| => FallbackAttempt(dom, FallbackSelectors[i]))
  }

  /** A read is accepted when an element was found and its text exceeds the threshold. */
  predicate Long(t: Option<string>) {
    t.Some? && |t.value| > MinLength
  }

  /** The index of the first accepted read. */
  function FirstLong(texts: seq<Option<string>>): (r: Option<nat>)
    ensures r.Some? ==> r.value < |texts| && Long(texts[r.value])
    ensures r.Some? ==> forall j :: 0 <= j < r.value ==> !Long(texts[j])
    ensures r.None? ==> forall j :: 0 <= j < |texts| ==> !Long(texts[j])
  {
    if texts == [] then None
    else if Long(texts[0]) then Some(0)
    else match FirstLong(texts[1..])
      case None => None
      case Some(k) => Some(k + 1)
  }

  function PrimaryHit(polls: seq<Query>, selector: string): Option<nat> {
    FirstLong(PrimaryTexts(polls, selector))
  }

  /** The description the poller settles on: the lower-cased text of the first accepted
      primary attempt, else of the first accepted fallback selector, else `null`. Any text
      returned is longer than the threshold and already lower-case. */
  function JobDetailsText(selector: string, polls: seq<Query>, dom: Query): (r: Option<string>)
    ensures r.Some? ==> |r.value| > MinLength && IsLowercase(r.value)
  {
    var primary := PrimaryTexts(polls, selector);
    var fallback := FallbackTexts(dom);
    match FirstLong(primary)
    case Some(i) => LowerIsLowercase(primary[i].value); Some(Lower(primary[i].value))
    case None =>
      match FirstLong(fallback)
      case Some(j) => LowerIsLowercase(fallback[j].value); Some(Lower(fallback[j].value))
      case None => None
  }

  /** `extractJobDetailsText(selector)`: returns the description and the milliseconds spent
      waiting. Success on attempt `k` has cost the initial delay and exactly `k` retry
      delays; the fallback is reached only after all 30 retry delays. */
  method ExtractJobDetailsText(selector: string, polls: seq<Query>, dom: Query)
    returns (r: Option<string>, waited: nat)
    requires |polls| == MaxRetries
    ensures r == JobDetailsText(selector, polls, dom)
    ensures PrimaryHit(polls, selector).Some? ==>
      waited == InitialDelay + RetryDelay * PrimaryHit(polls, selector).value
    ensures PrimaryHit(polls, selector).None? ==> waited == InitialDelay + RetryDelay * MaxRetries
  {
    waited := InitialDelay;
    var i := 0;
    while i < MaxRetries
      invariant 0 <= i <= MaxRetries
      invariant forall j :: 0 <= j < i ==> !Long(PrimaryAttempt(polls[j], selector))
      invariant waited == InitialDelay + RetryDelay * i
    {
      var jobDetailsDiv := QuerySelector(polls[i], selector);
      if jobDetailsDiv.Some? {
        var clone := CloneWithoutNoise(jobDetailsDiv.value);
        var text := Trim(TextContent(clone));
        if |text| > MinLength {
          FirstLongAt(PrimaryTexts(polls, selector), i);
          r := Some(Lower(text));
          return;
        }
      }
      waited := waited + RetryDelay;
      i := i + 1;
    }

    var k := 0;
    while k < |FallbackSelectors|
      invariant 0 <= k <= |FallbackSelectors|
      invariant forall j :: 0 <= j < k ==> !Long(FallbackAttempt(dom, FallbackSelectors[j]))
    {
      var element := QuerySelector(dom, FallbackSelectors[k]);
      if element.Some? {
        var text := Trim(TextContent(element.value));
        if |text| > MinLength {
          FirstLongAt(FallbackTexts(dom), k);
          r := Some(Lower(text));
          return;
        }
      }
      k := k + 1;
    }
    r := None;
  }

  /** First-match: attempt `k` decides the primary phase exactly when it is accepted and
      every earlier attempt (element missing, or text of 50 characters or fewer) was not. */
  lemma {:induction false} FirstLongAt(texts: seq<Option<string>>, k: nat)
    requires k < |texts| && Long(texts[k])
    requires forall j :: 0 <= j < k ==> !Long(texts[j])
    ensures FirstLong(texts) == Some(k)
  {
    if k > 0 {
      FirstLongAt(texts[1..], k - 1);
    }
  }

  /** `null` is returned exactly when no primary attempt and no fallback selector was accepted. */
  lemma NullIff(selector: string, polls: seq<Query>, dom: Query)
    ensures JobDetailsText(selector, polls, dom).None? <==>
      (forall j :: 0 <= j < |polls| ==> !Long(PrimaryAttempt(polls[j], selector))) &&
      (forall j :: 0 <= j < |FallbackSelectors| ==> !Long(FallbackAttempt(dom, FallbackSelectors[j])))
  {
    var primary := PrimaryTexts(polls, selector);
    var fallback := FallbackTexts(dom);
    if FirstLong(primary).Some? {
      var i := FirstLong(primary).value;
      assert Long(PrimaryAttempt(polls[i], selector));
    } else if FirstLong(fallback).Some? {
      var j := FirstLong(fallback).value;
      assert Long(FallbackAttempt(dom, FallbackSelectors[j]));
    }
  }

  /** Text that shows up on the third attempt is returned lower-cased after two retry delays. */
  lemma ThirdAttempt(selector: string, polls: seq<Query>, dom: Query)
    requires |polls| == MaxRetries
    requires !Long(PrimaryAttempt(polls[0], selector)) && !Long(PrimaryAttempt(polls[1], selector))
    requires Long(PrimaryAttempt(polls[2], selector))
    ensures PrimaryHit(polls, selector) == Some(2)
    ensures JobDetailsText(selector, polls, dom) == Some(Lower(PrimaryAttempt(polls[2], selector).value))
  {
    FirstLongAt(PrimaryTexts(polls, selector), 2);
  }

  /** A selector that never resolves, on a page none of whose fallback selectors resolves,
      gives `null`. */
  lemma NeverResolves(selector: string, polls: seq<Query>, dom: Query)
    requires forall j :: 0 <= j < |polls| ==> selector !in polls[j]
    requires forall j :: 0 <= j < |FallbackSelectors| ==> FallbackSelectors[j] !in dom
    ensures JobDetailsText(selector, polls, dom).None?
  {
  }
}
