/**
  JavaScript string operations the extension relies on, over `string` (`seq<char>`):
  `includes`, `trim`, an ASCII `toLowerCase`, the separator split used on project
  descriptions, the `/logo/gi` replacement, and the truthiness of an optional string
  that `||` chains test.
 */
module Text {
  import opened Wrappers

  // ---------------------------------------------------------------------------
  // Substring search (`String.prototype.includes`)
  // ---------------------------------------------------------------------------

  predicate StartsWith(s: string, p: string) {
    |p| <= |s| && s[..|p|] == p
  }

  /** `s.includes(sub)`: `sub` is a prefix of some suffix of `s`. */
  predicate Includes(s: string, sub: string)
    decreases |s|
  {
    StartsWith(s, sub) || (|s| > 0 && Includes(s[1..], sub))
  }

  /** Reference definition of an occurrence: `sub` sits in `s` at position `i`. */
  predicate OccursAt(s: string, sub: string, i: int) {
    0 <= i && i + |sub| <= |s| && s[i..i + |sub|] == sub
  }

  lemma {:induction false} OccursAtIncludes(s: string, sub: string, i: int)
    requires OccursAt(s, sub, i)
    ensures Includes(s, sub)
    decreases i
  {
    if i > 0 {
      assert s[1..][i - 1..i - 1 + |sub|] == s[i..i + |sub|];
      OccursAtIncludes(s[1..], sub, i - 1);
    }
  }

  lemma {:induction false} IncludesWitness(s: string, sub: string) returns (i: nat)
    requires Includes(s, sub)
    ensures OccursAt(s, sub, i)
    decreases |s|
  {
    if StartsWith(s, sub) {
      i := 0;
    } else {
      var j := IncludesWitness(s[1..], sub);
      assert s[1..][j..j + |sub|] == s[j + 1..j + 1 + |sub|];
      i := j + 1;
    }
  }

  /** The recursive search agrees with the positional definition, both ways. */
  lemma IncludesIffOccurs(s: string, sub: string)
    ensures Includes(s, sub) <==> exists i :: OccursAt(s, sub, i)
  {
    if Includes(s, sub) {
      var i := IncludesWitness(s, sub);
    }
    if exists i :: OccursAt(s, sub, i) {
      var i :| OccursAt(s, sub, i);
      OccursAtIncludes(s, sub, i);
    }
  }

  /** Containment survives any text added before and after. */
  lemma IncludesExtended(p: string, u: string, q: string, sub: string)
    requires Includes(u, sub)
    ensures Includes(p + u + q, sub)
  {
    var i := IncludesWitness(u, sub);
    assert (p + u + q)[|p| + i..|p| + i + |sub|] == u[i..i + |sub|];
    OccursAtIncludes(p + u + q, sub, |p| + i);
  }

  /** If `s` contains `a` and `a` contains `b`, then `s` contains `b`. */
  lemma IncludesTransitive(s: string, a: string, b: string)
    requires Includes(s, a) && Includes(a, b)
    ensures Includes(s, b)
  {
    var i := IncludesWitness(s, a);
    var j := IncludesWitness(a, b);
    forall k | 0 <= k < |b| ensures s[i + j + k] == b[k] {
      assert s[i + j + k] == s[i..i + |a|][j + k];
      assert a[j + k] == a[j..j + |b|][k];
    }
    assert s[i + j..i + j + |b|] == b;
    OccursAtIncludes(s, b, i + j);
  }

  /** Every character of a contained string is a character of the container. */
  lemma IncludesChar(s: string, sub: string, k: int)
    requires Includes(s, sub) && 0 <= k < |sub|
    ensures sub[k] in s
  {
    var i := IncludesWitness(s, sub);
    assert s[i + k] == sub[k];
  }

  /** A string never contains a longer one; in particular "" contains only "". */
  lemma IncludesNotLonger(s: string, sub: string)
    requires Includes(s, sub)
    ensures |sub| <= |s|
  {
    var i := IncludesWitness(s, sub);
  }

  /** Ordered lookup: the index of the first key of `table` that `url` contains. */
  function FirstIncluded<T>(table: seq<(string, T)>, url: string): (r: Option<nat>)
    ensures r.Some? ==> r.value < |table| && Includes(url, table[r.value].0)
    ensures r.Some? ==> forall j :: 0 <= j < r.value ==> !Includes(url, table[j].0)
    ensures r.None? ==> forall j :: 0 <= j < |table| ==> !Includes(url, table[j].0)
  {
    if table == [] then None
    else if Includes(url, table[0].0) then Some(0)
    else match FirstIncluded(table[1..], url)
      case None => None
      case Some(k) => Some(k + 1)
  }

  /** `sites.some((site) => url.includes(site))`. */
  function SomeIncluded(sites: seq<string>, url: string): (b: bool)
    ensures b <==> exists i :: 0 <= i < |sites| && Includes(url, sites[i])
  {
    if sites == [] then false
    else Includes(url, sites[0]) || SomeIncluded(sites[1..], url)
  }

  lemma NotIncludedLonger(s: string, sub: string)
    requires |sub| > |s|
    ensures !Includes(s, sub)
  {
    if Includes(s, sub) {
      IncludesNotLonger(s, sub);
    }
  }

  lemma NotIncludedByChar(s: string, sub: string, k: int)
    requires 0 <= k < |sub| && sub[k] !in s
    ensures !Includes(s, sub)
  {
    if Includes(s, sub) {
      IncludesChar(s, sub, k);
    }
  }

  // ---------------------------------------------------------------------------
  // Whitespace and `String.prototype.trim`
  // ---------------------------------------------------------------------------

  /** ECMAScript WhiteSpace and LineTerminator: what `trim` strips and what `\s` matches. */
  predicate IsSpace(c: char) {
    || c == ' ' || c == '\t' || c == '\n' || c == '\r'
    || c == '\U{000B}' || c == '\U{000C}' || c == '\U{00A0}' || c == '\U{FEFF}'
    || c == '\U{1680}' || ('\U{2000}' <= c <= '\U{200A}')
    || c == '\U{2028}' || c == '\U{2029}' || c == '\U{202F}' || c == '\U{205F}'
    || c == '\U{3000}'
  }

  /** The index of the first non-whitespace character of `s` at or after `i`, or `|s|`. */
  function SkipSpaces(s: string, i: nat): (k: nat)
    requires i <= |s|
    ensures i <= k <= |s|
    ensures k == |s| || !IsSpace(s[k])
    decreases |s| - i
  {
    if i < |s| && IsSpace(s[i]) then SkipSpaces(s, i + 1) else i
  }

  lemma {:induction false} SkippedAreSpaces(s: string, i: nat, j: nat)
    requires i <= j < |s| && j < SkipSpaces(s, i)
    ensures IsSpace(s[j])
    decreases |s| - i
  {
    if i < j {
      SkippedAreSpaces(s, i + 1, j);
    }
  }

  /** The end of `s[lo..hi]` once its trailing whitespace is dropped. */
  function DropTrailing(s: string, lo: nat, hi: nat): (k: nat)
    requires lo <= hi <= |s|
    ensures lo <= k <= hi
    ensures k == lo || !IsSpace(s[k - 1])
    decreases hi - lo
  {
    if lo < hi && IsSpace(s[hi - 1]) then DropTrailing(s, lo, hi - 1) else hi
  }

  lemma {:induction false} DroppedAreSpaces(s: string, lo: nat, hi: nat, j: nat)
    requires lo <= hi <= |s| && DropTrailing(s, lo, hi) <= j < hi
    ensures IsSpace(s[j])
    decreases hi - lo
  {
    if j < hi - 1 {
      DroppedAreSpaces(s, lo, hi - 1, j);
    }
  }

  /** The slice `s[a..b]` that `trim` keeps is empty exactly when `s` is all whitespace. */
  lemma TrimBounds(s: string, a: nat, b: nat)
    requires a == SkipSpaces(s, 0) && b == DropTrailing(s, a, |s|)
    ensures a == b <==> forall k :: 0 <= k < |s| ==> IsSpace(s[k])
  {
    if a == b {
      if a < |s| {
        DroppedAreSpaces(s, a, |s|, a);
        assert false;
      }
      forall k | 0 <= k < |s|
        ensures IsSpace(s[k])
      {
        SkippedAreSpaces(s, 0, k);
      }
    }
  }

  /** `s.trim()`: `s` without its leading and trailing whitespace. */
  function Trim(s: string): (r: string)
    ensures |r| <= |s|
  {
    var a := SkipSpaces(s, 0);
    var b := DropTrailing(s, a, |s|);
    s[a..b]
  }

  /** What `trim` returns: a contiguous slice of `s` with only whitespace before and after
      it and no whitespace at either of its ends, empty exactly when `s` is all whitespace. */
  lemma TrimSpec(s: string)
    ensures exists i :: (OccursAt(s, Trim(s), i) &&
                         (forall k :: 0 <= k < i ==> IsSpace(s[k])) &&
                         (forall k :: i + |Trim(s)| <= k < |s| ==> IsSpace(s[k])))
    ensures Trim(s) == [] || (!IsSpace(Trim(s)[0]) && !IsSpace(Trim(s)[|Trim(s)| - 1]))
    ensures Trim(s) == [] <==> forall k :: 0 <= k < |s| ==> IsSpace(s[k])
  {
    var a := SkipSpaces(s, 0);
    var b := DropTrailing(s, a, |s|);
    TrimBounds(s, a, b);
    assert Trim(s) == s[a..b];
    assert OccursAt(s, s[a..b], a);
    forall k | 0 <= k < a
      ensures IsSpace(s[k])
    {
      SkippedAreSpaces(s, 0, k);
    }
    forall k | b <= k < |s|
      ensures IsSpace(s[k])
    {
      DroppedAreSpaces(s, a, |s|, k);
    }
  }

  /** The shape `TrimSpec` states fits only one slice: the result is pinned down. */
  lemma {:induction false} TrimUnique(s: string, t: string, i: nat)
    requires OccursAt(s, t, i)
    requires forall k :: 0 <= k < i ==> IsSpace(s[k])
    requires forall k :: i + |t| <= k < |s| ==> IsSpace(s[k])
    requires t == [] || (!IsSpace(t[0]) && !IsSpace(t[|t| - 1]))
    requires t == [] <==> forall k :: 0 <= k < |s| ==> IsSpace(s[k])
    ensures t == Trim(s)
  {
    var a := SkipSpaces(s, 0);
    var b := DropTrailing(s, a, |s|);
    TrimBounds(s, a, b);
    if t != [] {
      // `a` is the first non-whitespace position, and `i` is one.
      if i < a {
        assert s[i] == t[0];
        SkippedAreSpaces(s, 0, i);
      }
      assert a == i;
      var e := i + |t|;
      assert s[e - 1] == t[|t| - 1];
      if b < e {
        DroppedAreSpaces(s, a, |s|, e - 1);
      }
      assert s[a..b] == t;
    }
  }

  lemma TrimIdempotent(s: string)
    ensures Trim(Trim(s)) == Trim(s)
  {
    var r := Trim(s);
    TrimSpec(s);
    if r != [] {
      assert SkipSpaces(r, 0) == 0;
      assert DropTrailing(r, 0, |r|) == |r|;
    }
  }

  // ---------------------------------------------------------------------------
  // `String.prototype.toLowerCase`, on ASCII letters
  // ---------------------------------------------------------------------------

  function LowerChar(c: char): char {
    if 'A' <= c <= 'Z' then (c as int + 32) as char else c
  }

  function Lower(s: string): (r: string)
    ensures |r| == |s|
  {
    seq(|s|, i requires 0 <= i < |s| => LowerChar(s[i]))
  }

  /** A string that `toLowerCase` leaves as it is. */
  predicate IsLowercase(s: string) {
    forall i :: 0 <= i < |s| ==> LowerChar(s[i]) == s[i]
  }

  lemma LowercaseFixed(s: string)
    requires IsLowercase(s)
    ensures Lower(s) == s
  {
  }

  lemma LowerIsLowercase(s: string)
    ensures IsLowercase(Lower(s))
  {
  }

  // ---------------------------------------------------------------------------
  // The split `/[\s,.;:!/?()"'-\s]+/` used on project descriptions
  // ---------------------------------------------------------------------------

  /** A character of the split's separator class: whitespace or one of `, . ; : ! / ? ( ) " ' -`. */
  predicate IsSeparator(c: char) {
    IsSpace(c) || c in ",.;:!/?()\"'-"
  }

  /** The index of the first non-separator of `s` at or after `i`, or `|s|`. */
  function SkipSeparators(s: string, i: nat): (k: nat)
    requires i <= |s|
    ensures i <= k <= |s|
    ensures k == |s| || !IsSeparator(s[k])
    decreases |s| - i
  {
    if i < |s| && IsSeparator(s[i]) then SkipSeparators(s, i + 1) else i
  }

  /** The index of the first separator of `s` at or after `i`, or `|s|`. */
  function WordEnd(s: string, i: nat): (k: nat)
    requires i <= |s|
    ensures i <= k <= |s|
    ensures k == |s| || IsSeparator(s[k])
    decreases |s| - i
  {
    if i < |s| && !IsSeparator(s[i]) then WordEnd(s, i + 1) else i
  }

  /** A non-empty run of non-separator characters. */
  predicate IsWord(w: string) {
    |w| > 0 && forall k :: 0 <= k < |w| ==> !IsSeparator(w[k])
  }

  lemma {:induction false} WordEndIsWord(s: string, i: nat)
    requires i < |s| && !IsSeparator(s[i])
    ensures IsWord(s[i..WordEnd(s, i)])
    decreases |s| - i
  {
    var e := WordEnd(s, i);
    if i + 1 < |s| && !IsSeparator(s[i + 1]) {
      WordEndIsWord(s, i + 1);
      assert e == WordEnd(s, i + 1);
      forall k | 0 <= k < e - i
        ensures !IsSeparator(s[i..e][k])
      {
        if k > 0 {
          assert s[i..e][k] == s[i + 1..e][k - 1];
        }
      }
    } else {
      assert WordEnd(s, i + 1) == i + 1;
    }
  }

  /** The non-empty fields of `s[i..].split(/[seps]+/)`, in order: the maximal runs of
      non-separator characters. */
  function WordsFrom(s: string, i: nat): (ws: seq<string>)
    requires i <= |s|
    ensures forall k :: 0 <= k < |ws| ==> IsWord(ws[k])
    decreases |s| - i
  {
    var a := SkipSeparators(s, i);
    if a == |s| then []
    else
      var b := WordEnd(s, a);
      WordEndIsWord(s, a);
      [s[a..b]] + WordsFrom(s, b)
  }

  function Words(s: string): (ws: seq<string>)
    ensures forall k :: 0 <= k < |ws| ==> IsWord(ws[k])
  {
    WordsFrom(s, 0)
  }

  /** A slice of a lower-case text is lower-case. */
  lemma SliceLowercase(s: string, i: int, j: int)
    requires IsLowercase(s) && 0 <= i <= j <= |s|
    ensures IsLowercase(s[i..j])
  {
    forall k | 0 <= k < j - i ensures LowerChar(s[i..j][k]) == s[i..j][k] {
      assert s[i..j][k] == s[i + k];
    }
  }

  /** The words of a lower-case text are lower-case. */
  lemma {:induction false} WordsFromLowercase(s: string, i: nat)
    requires IsLowercase(s) && i <= |s|
    ensures forall k :: 0 <= k < |WordsFrom(s, i)| ==> IsLowercase(WordsFrom(s, i)[k])
    decreases |s| - i
  {
    var a := SkipSeparators(s, i);
    if a < |s| {
      var b := WordEnd(s, a);
      SliceLowercase(s, a, b);
      WordsFromLowercase(s, b);
      var ws := WordsFrom(s, i);
      assert ws == [s[a..b]] + WordsFrom(s, b);
      forall k | 0 <= k < |ws| ensures IsLowercase(ws[k]) {
        if k > 0 {
          assert ws[k] == WordsFrom(s, b)[k - 1];
        }
      }
    }
  }

  lemma WordsOfLowercase(s: string)
    requires IsLowercase(s)
    ensures forall k :: 0 <= k < |Words(s)| ==> IsLowercase(Words(s)[k])
  {
    WordsFromLowercase(s, 0);
  }

  // ---------------------------------------------------------------------------
  // `s.replace(/logo/gi, "")`
  // ---------------------------------------------------------------------------

  /** The word "logo" in any letter case at the head of `s`. */
  predicate LogoAtHead(s: string) {
    |s| >= 4 && Lower(s[..4]) == "logo"
  }

  /** Removes, scanning once from left to right, every case-insensitive "logo". */
  function RemoveLogo(s: string): (r: string)
    ensures |r| <= |s|
    decreases |s|
  {
    if LogoAtHead(s) then RemoveLogo(s[4..])
    else if s == [] then []
    else [s[0]] + RemoveLogo(s[1..])
  }

  /** Text without the word "logo" passes through the replacement unchanged. */
  lemma {:induction false} RemoveLogoNoMatch(s: string)
    requires forall i :: 0 <= i <= |s| ==> !LogoAtHead(s[i..])
    ensures RemoveLogo(s) == s
    decreases |s|
  {
    if s != [] {
      assert !LogoAtHead(s[0..]);
      assert s[0..] == s;
      forall i | 0 <= i <= |s[1..]| ensures !LogoAtHead(s[1..][i..]) {
        assert s[1..][i..] == s[i + 1..];
      }
      RemoveLogoNoMatch(s[1..]);
    }
  }

  // ---------------------------------------------------------------------------
  // Truthiness of optional strings (`x || y` in JavaScript)
  // ---------------------------------------------------------------------------

  /** An optional string is truthy when present and non-empty. */
  predicate Truthy(o: Option<string>) {
    o.Some? && o.value != ""
  }

  /** `a || b` on optional strings: `a` when truthy, else `b`. */
  function Or(a: Option<string>, b: Option<string>): (r: Option<string>)
    ensures Truthy(a) ==> r == a
    ensures !Truthy(a) ==> r == b
  {
    if Truthy(a) then a else b
  }

  /** `a || ""`: the string value of `a` when truthy, else the empty string. */
  function OrEmpty(a: Option<string>): (r: string)
    ensures Truthy(a) ==> r == a.value
    ensures !Truthy(a) ==> r == ""
  {
    if Truthy(a) then a.value else ""
  }

  /** What a template literal `${x}` makes of an optional selector. */
  function Interpolate(o: Option<string>): string {
    o.GetOr("undefined")
  }
}
