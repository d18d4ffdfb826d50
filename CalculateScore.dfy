/**
  `src/helpers/calculateScore.helper.ts`: the score of the selected resume against a job
  description. The backend's answer (the job's skills and their count) and the fuzzy
  matcher are inputs: `search(items, q)` is the best hit (`result[0]`) of a Fuse index over
  `items` for the query `q`, if there is one.
 */
module Score {
  import opened Wrappers
  import opened Text
  import opened Types

  // ---------------------------------------------------------------------------
  // Step 2: collecting the user's keywords (lines 41-102)
  // ---------------------------------------------------------------------------

  /** A keyword with the years of experience it carries (`yearsOfExperience`). */
  datatype UserKeyword = UserKeyword(keyword: string, years: real)

  const StopWords: seq<string> := [
    "the", "and", "for", "with", "a", "an", "of", "in",
    "to", "is", "was", "were", "this", "that", "used", "made"
  ]

  /** The filter on description words: longer than two characters and not a stop word. */
  predicate KeepWord(w: string) {
    |w| > 2 && w !in StopWords
  }

  function FilterWords(ws: seq<string>): (r: seq<string>)
    ensures forall i :: 0 <= i < |r| ==> KeepWord(r[i]) && r[i] in ws
    ensures forall w :: w in ws && KeepWord(w) ==> w in r
  {
    if ws == [] then []
    else
      assert forall w :: w in ws ==> w == ws[0] || w in ws[1..];
      (if KeepWord(ws[0]) then [ws[0]] else []) + FilterWords(ws[1..])
  }

  /** The words a project description contributes: split after lower-casing, then filtered. */
  function DescriptionWords(description: string): seq<string> {
    FilterWords(Words(Lower(description)))
  }

  /** Every description keyword is a lower-case word longer than two characters and not a
      stop word. */
  lemma DescriptionWordsShape(description: string)
    ensures forall w :: w in DescriptionWords(description) ==>
      KeepWord(w) && IsLowercase(w) && IsWord(w)
  {
    LowerIsLowercase(description);
    WordsOfLowercase(Lower(description));
  }

  function SkillKeywords(skills: seq<Skill>): (r: seq<UserKeyword>)
    ensures |r| == |skills|
    ensures forall i :: 0 <= i < |skills| ==>
      r[i] == UserKeyword(skills[i].skill, skills[i].yearsOfExperience)
  {
    seq(|skills|, i requires 0 <= i < |skills| => UserKeyword(skills[i].skill, skills[i].yearsOfExperience))
  }

  function TechKeywords(techs: seq<string>): (r: seq<UserKeyword>)
    ensures |r| == |techs|
    ensures forall i :: 0 <= i < |techs| ==> r[i] == UserKeyword(techs[i], 1.0)
  {
    seq(|techs|, i requires 0 <= i < |techs| => UserKeyword(techs[i], 1.0))
  }

  function WordKeywords(words: seq<string>): (r: seq<UserKeyword>)
    ensures |r| == |words|
    ensures forall i :: 0 <= i < |words| ==> r[i] == UserKeyword(words[i], 0.5)
  {
    seq(|words|, i requires 0 <= i < |words| => UserKeyword(words[i], 0.5))
  }

  /** One project's keywords: its technologies, then (for a non-empty description) its
      description words. */
  function ProjectKeywords(p: Project): seq<UserKeyword> {
    TechKeywords(p.technologiesUsed) +
    (if p.description != "" then WordKeywords(DescriptionWords(p.description)) else [])
  }

  function ProjectsKeywords(ps: seq<Project>): seq<UserKeyword> {
    if ps == [] then [] else ProjectsKeywords(ps[..|ps| - 1]) + ProjectKeywords(ps[|ps| - 1])
  }

  /** `allUserRelevantKeywords`: the skills, then every project's keywords in project order. */
  function AllKeywords(resume: Resume): seq<UserKeyword> {
    SkillKeywords(resume.skills) + ProjectsKeywords(resume.projects)
  }

  lemma AppendAssoc<T>(a: seq<T>, b: seq<T>, c: seq<T>)
    ensures (a + b) + c == a + (b + c)
  {
  }

  lemma ProjectsKeywordsSnoc(ps: seq<Project>, j: nat)
    requires j < |ps|
    ensures ProjectsKeywords(ps[..j + 1]) == ProjectsKeywords(ps[..j]) + ProjectKeywords(ps[j])
  {
    assert ps[..j + 1][..j] == ps[..j];
  }

  /** Lines 41-102, as the source builds the list: pushes in a loop over the projects. */
  method CollectKeywords(resume: Resume) returns (all: seq<UserKeyword>)
    ensures all == AllKeywords(resume)
  {
    all := [];
    if |resume.skills| > 0 {
      all := all + SkillKeywords(resume.skills);
    }
    assert all == SkillKeywords(resume.skills);
    var projects := resume.projects;
    assert ProjectsKeywords(projects[..0]) == [];
    for j := 0 to |projects|
      invariant all == SkillKeywords(resume.skills) + ProjectsKeywords(projects[..j])
    {
      var project := projects[j];
      ghost var before := all;
      all := all + TechKeywords(project.technologiesUsed);
      if project.description != "" {
        var descriptionWords := DescriptionWords(project.description);
        all := all + WordKeywords(descriptionWords);
      }
      assert all == before + ProjectKeywords(project);
      ProjectsKeywordsSnoc(projects, j);
      AppendAssoc(SkillKeywords(resume.skills), ProjectsKeywords(projects[..j]), ProjectKeywords(project));
    }
    assert projects[..|projects|] == projects;
  }

  /** Keywords of projects weigh 1 (a technology) or 0.5 (a description word, which is then
      lower-case, longer than two characters and not a stop word). */
  lemma {:induction false} ProjectKeywordWeights(ps: seq<Project>)
    ensures forall k :: k in ProjectsKeywords(ps) ==>
      || (k.years == 1.0 && exists p :: p in ps && k.keyword in p.technologiesUsed)
      || (k.years == 0.5 && KeepWord(k.keyword) && IsLowercase(k.keyword))
  {
    if ps != [] {
      var init := ps[..|ps| - 1];
      var p := ps[|ps| - 1];
      ProjectKeywordWeights(init);
      DescriptionWordsShape(p.description);
      forall k | k in ProjectsKeywords(ps)
        ensures || (k.years == 1.0 && exists p :: p in ps && k.keyword in p.technologiesUsed)
                || (k.years == 0.5 && KeepWord(k.keyword) && IsLowercase(k.keyword))
      {
        if k in ProjectsKeywords(init) {
          if k.years == 1.0 && exists q :: q in init && k.keyword in q.technologiesUsed {
            var q :| q in init && k.keyword in q.technologiesUsed;
            assert q in ps;
          }
        } else if k in TechKeywords(p.technologiesUsed) {
          assert p in ps;
        }
      }
    }
  }

  /** The skills come first, each with its own years. */
  lemma SkillsFirst(resume: Resume)
    ensures AllKeywords(resume)[..|resume.skills|] == SkillKeywords(resume.skills)
  {
  }

  // ---------------------------------------------------------------------------
  // Step 3: the dedup map (lines 104-125)
  // ---------------------------------------------------------------------------

  /** The map key of a keyword: `keyword.toLowerCase().trim()`. */
  function Norm(keyword: string): string {
    Trim(Lower(keyword))
  }

  /** An entry of `uniqueUserKeywordsMap`, which keeps keys in first-insertion order. */
  datatype Entry = Entry(key: string, kw: UserKeyword)

  /** The keywords paired with their map keys. */
  function Keyed(kws: seq<UserKeyword>): (r: seq<Entry>)
    ensures |r| == |kws|
    ensures forall i :: 0 <= i < |kws| ==> r[i] == Entry(Norm(kws[i].keyword), kws[i])
  {
    seq(|kws|, i requires 0 <= i < |kws| => Entry(Norm(kws[i].keyword), kws[i]))
  }

  function KeyIndex(es: seq<Entry>, key: string): (r: Option<nat>)
    ensures r.Some? ==> r.value < |es| && es[r.value].key == key
    ensures r.None? ==> forall i :: 0 <= i < |es| ==> es[i].key != key
  {
    if es == [] then None
    else if es[|es| - 1].key == key then Some(|es| - 1)
    else KeyIndex(es[..|es| - 1], key)
  }

  /** One iteration of the `forEach`: a new key is appended; a known key is overwritten in
      place only when the new years are strictly greater. */
  function Upsert(es: seq<Entry>, e: Entry): seq<Entry> {
    match KeyIndex(es, e.key)
    case None => es + [e]
    case Some(i) => if e.kw.years > es[i].kw.years then es[i := e] else es
  }

  /** The entries of the map after all of `ins` have been set, in key-insertion order. */
  function Merge(ins: seq<Entry>): seq<Entry> {
    if ins == [] then [] else Upsert(Merge(ins[..|ins| - 1]), ins[|ins| - 1])
  }

  /** The map after the loop, as its entries. */
  function Dedup(kws: seq<UserKeyword>): seq<Entry> {
    Merge(Keyed(kws))
  }

  /** `Array.from(uniqueUserKeywordsMap.values())`. */
  function Values(es: seq<Entry>): (r: seq<UserKeyword>)
    ensures |r| == |es| && forall i :: 0 <= i < |es| ==> r[i] == es[i].kw
  {
    seq(|es|, i requires 0 <= i < |es| => es[i].kw)
  }

  predicate DistinctKeys(es: seq<Entry>) {
    forall i, j :: 0 <= i < j < |es| ==> es[i].key != es[j].key
  }

  /** What one `set` does to the entries: earlier keys stay in place, and the new key is
      present afterwards, holding either the old entry or the new one; an old entry is
      overwritten only by strictly greater years. */
  lemma UpsertShape(es: seq<Entry>, e: Entry)
    ensures var r := Upsert(es, e);
      && |es| <= |r| <= |es| + 1
      && (forall i :: 0 <= i < |es| ==> r[i].key == es[i].key)
      && (forall i :: 0 <= i < |r| ==> r[i] == e || (i < |es| && r[i] == es[i]))
      && (forall i :: 0 <= i < |es| && r[i] != es[i] ==> e.kw.years > es[i].kw.years)
      && (exists i :: 0 <= i < |r| && r[i].key == e.key)
      && (|r| == |es| + 1 <==> forall i :: 0 <= i < |es| ==> es[i].key != e.key)
  {
    var r := Upsert(es, e);
    match KeyIndex(es, e.key)
    case None =>
      assert r[|es|].key == e.key;
    case Some(i) =>
      assert r[i].key == e.key;
  }

  lemma {:induction false} MergeDistinct(ins: seq<Entry>)
    ensures DistinctKeys(Merge(ins))
  {
    if ins != [] {
      var init := ins[..|ins| - 1];
      MergeDistinct(init);
      UpsertShape(Merge(init), ins[|ins| - 1]);
    }
  }

  lemma {:induction false} MergeFrom(ins: seq<Entry>)
    ensures forall i :: 0 <= i < |Merge(ins)| ==> Merge(ins)[i] in ins
  {
    if ins != [] {
      var init := ins[..|ins| - 1];
      MergeFrom(init);
      UpsertShape(Merge(init), ins[|ins| - 1]);
      assert forall e :: e in init ==> e in ins;
    }
  }

  predicate HasKey(es: seq<Entry>, key: string) {
    exists i :: 0 <= i < |es| && es[i].key == key
  }

  lemma {:induction false} MergeCovers(ins: seq<Entry>)
    ensures forall j :: 0 <= j < |ins| ==> HasKey(Merge(ins), ins[j].key)
  {
    if ins != [] {
      var init := ins[..|ins| - 1];
      MergeCovers(init);
      var es := Merge(init);
      UpsertShape(es, ins[|ins| - 1]);
      var r := Merge(ins);
      assert r == Upsert(es, ins[|ins| - 1]);
      forall j | 0 <= j < |ins|
        ensures HasKey(r, ins[j].key)
      {
        if j < |init| {
          var i :| 0 <= i < |es| && es[i].key == init[j].key;
          assert r[i].key == ins[j].key;
        } else {
          assert ins[j] == ins[|ins| - 1];
        }
      }
    }
  }

  lemma {:induction false} MergeMax(ins: seq<Entry>)
    ensures forall i, j :: 0 <= i < |Merge(ins)| && 0 <= j < |ins| && ins[j].key == Merge(ins)[i].key ==>
      ins[j].kw.years <= Merge(ins)[i].kw.years
  {
    if ins != [] {
      var init := ins[..|ins| - 1];
      var e := ins[|ins| - 1];
      MergeMax(init);
      MergeCovers(init);
      MergeDistinct(ins);
      var es := Merge(init);
      var r := Merge(ins);
      UpsertShape(es, e);
      forall i, j | 0 <= i < |r| && 0 <= j < |ins| && ins[j].key == r[i].key
        ensures ins[j].kw.years <= r[i].kw.years
      {
        if j == |init| {
          // the last entry: either it was stored, or it did not beat the stored one
          if i < |es| && r[i] == es[i] && r[i] != e {
            match KeyIndex(es, e.key)
            case None =>
            case Some(k) =>
              assert r[k].key == e.key;
              assert k == i;
          }
        } else if i < |es| && r[i] == es[i] {
        } else {
          // r[i] == e, stored under a key init[j] already had
          assert HasKey(es, init[j].key);
          var i' :| 0 <= i' < |es| && es[i'].key == init[j].key;
          assert r[i'].key == r[i].key;
          assert i' == i;
        }
      }
    }
  }

  /** A later keyword that only ties the stored years leaves the merged list as it was. */
  lemma TieNotReplaced(init: seq<Entry>, e: Entry, j: nat)
    requires j < |init| && init[j].key == e.key && init[j].kw.years == e.kw.years
    ensures Upsert(Merge(init), e) == Merge(init)
  {
    var es := Merge(init);
    MergeCovers(init);
    MergeMax(init);
    MergeDistinct(init);
    var p :| 0 <= p < |es| && es[p].key == init[j].key;
    assert init[j].kw.years <= es[p].kw.years;
    assert KeyIndex(es, e.key) == Some(p);
  }

  /** Ties keep the first-seen entry: the stored entry appeared no later than any input
      with the same key and the same years. */
  lemma {:induction false} MergeFirstOnTie(ins: seq<Entry>, i: nat, j: nat)
    requires i < |Merge(ins)| && j < |ins|
    requires ins[j].key == Merge(ins)[i].key && ins[j].kw.years == Merge(ins)[i].kw.years
    ensures exists f :: 0 <= f <= j && ins[f] == Merge(ins)[i]
  {
    var init := ins[..|ins| - 1];
    var e := ins[|ins| - 1];
    var r := Merge(ins);
    if j == |init| {
      MergeFrom(ins);
      var f :| 0 <= f < |ins| && ins[f] == r[i];
    } else {
      assert init[j] == ins[j];
      UpsertShape(Merge(init), e);
      if i < |Merge(init)| && r[i] == Merge(init)[i] {
        MergeFirstOnTie(init, i, j);
      } else {
        assert r[i] == e;
        TieNotReplaced(init, e, j);
      }
      var f :| 0 <= f <= j && init[f] == r[i];
      assert ins[f] == r[i];
    }
  }

  /** The final keys are pairwise distinct. */
  lemma DedupDistinct(kws: seq<UserKeyword>)
    ensures DistinctKeys(Dedup(kws))
  {
    MergeDistinct(Keyed(kws));
  }

  /** Every final entry is an input keyword, filed under its own normalised keyword. */
  lemma DedupFrom(kws: seq<UserKeyword>)
    ensures forall i :: 0 <= i < |Dedup(kws)| ==>
      Dedup(kws)[i].key == Norm(Dedup(kws)[i].kw.keyword) && Dedup(kws)[i].kw in kws
  {
    var ins := Keyed(kws);
    var d := Dedup(kws);
    MergeFrom(ins);
    forall i | 0 <= i < |d|
      ensures d[i].key == Norm(d[i].kw.keyword) && d[i].kw in kws
    {
      var m :| 0 <= m < |ins| && ins[m] == d[i];
      assert kws[m] == d[i].kw;
    }
  }

  /** No input keyword is lost: its normalised form is a final key. */
  lemma DedupCovers(kws: seq<UserKeyword>)
    ensures forall j :: 0 <= j < |kws| ==> HasKey(Dedup(kws), Norm(kws[j].keyword))
  {
    var ins := Keyed(kws);
    MergeCovers(ins);
    forall j | 0 <= j < |kws|
      ensures HasKey(Dedup(kws), Norm(kws[j].keyword))
    {
      assert ins[j].key == Norm(kws[j].keyword);
    }
  }

  /** Each final entry carries the largest years among the inputs with its key. */
  lemma DedupMax(kws: seq<UserKeyword>)
    ensures forall i, j ::
      (0 <= i < |Dedup(kws)| && 0 <= j < |kws| && Norm(kws[j].keyword) == Dedup(kws)[i].key) ==>
        kws[j].years <= Dedup(kws)[i].kw.years
  {
    var ins := Keyed(kws);
    var d := Dedup(kws);
    MergeMax(ins);
    forall i, j | 0 <= i < |d| && 0 <= j < |kws| && Norm(kws[j].keyword) == d[i].key
      ensures kws[j].years <= d[i].kw.years
    {
      assert ins[j].key == d[i].key;
    }
  }

  /** On a tie the first-seen keyword is kept (the comparison is a strict `>`). */
  lemma DedupFirstOnTie(kws: seq<UserKeyword>)
    ensures forall i, j | 0 <= i < |Dedup(kws)| && 0 <= j < |kws| &&
      Norm(kws[j].keyword) == Dedup(kws)[i].key && kws[j].years == Dedup(kws)[i].kw.years ::
      exists f :: 0 <= f <= j && kws[f] == Dedup(kws)[i].kw
  {
    var d := Dedup(kws);
    var ins := Keyed(kws);
    forall i, j | 0 <= i < |d| && 0 <= j < |kws| && Norm(kws[j].keyword) == d[i].key && kws[j].years == d[i].kw.years
      ensures exists f :: 0 <= f <= j && kws[f] == d[i].kw
    {
      MergeFirstOnTie(ins, i, j);
      var f :| 0 <= f <= j && ins[f] == Merge(ins)[i];
      assert kws[f] == d[i].kw;
    }
  }

  /** The JavaScript `Map` and its key order agree with the entries `es`. */
  predicate MapHolds(m: map<string, UserKeyword>, keys: seq<string>, es: seq<Entry>) {
    && |keys| == |es|
    && (forall j :: 0 <= j < |es| ==> keys[j] == es[j].key && keys[j] in m && m[keys[j]] == es[j].kw)
    && (forall k :: k in m ==> k in keys)
  }

  /** One `has`/`get`/`set` round on the `Map` mirrors `Upsert` on the entries. */
  lemma MapUpsert(m: map<string, UserKeyword>, keys: seq<string>, es: seq<Entry>, e: Entry)
    requires MapHolds(m, keys, es) && DistinctKeys(es)
    ensures e.key !in m ==> MapHolds(m[e.key := e.kw], keys + [e.key], Upsert(es, e))
    ensures e.key in m && e.kw.years > m[e.key].years ==> MapHolds(m[e.key := e.kw], keys, Upsert(es, e))
    ensures e.key in m && !(e.kw.years > m[e.key].years) ==> MapHolds(m, keys, Upsert(es, e))
  {
    match KeyIndex(es, e.key)
    case None =>
      assert e.key !in m;
    case Some(i) =>
      assert keys[i] == e.key;
      forall j | 0 <= j < |es| && j != i
        ensures keys[j] != e.key
      {
      }
  }

  function MapValues(m: map<string, UserKeyword>, keys: seq<string>): (r: seq<UserKeyword>)
    requires forall j :: 0 <= j < |keys| ==> keys[j] in m
    ensures |r| == |keys| && forall j :: 0 <= j < |keys| ==> r[j] == m[keys[j]]
  {
    seq(|keys|, j requires 0 <= j < |keys| && keys[j] in m => m[keys[j]])
  }

  /** Lines 104-125: `finalUserKeywords` built through the `Map`. */
  method DedupKeywords(kws: seq<UserKeyword>) returns (finalUserKeywords: seq<UserKeyword>)
    ensures finalUserKeywords == Values(Dedup(kws))
  {
    var uniqueUserKeywordsMap: map<string, UserKeyword> := map[];
    var keys: seq<string> := [];
    ghost var ins := Keyed(kws);
    for i := 0 to |kws|
      invariant MapHolds(uniqueUserKeywordsMap, keys, Merge(ins[..i]))
    {
      assert ins[..i + 1][..i] == ins[..i];
      MergeDistinct(ins[..i]);
      MapUpsert(uniqueUserKeywordsMap, keys, Merge(ins[..i]), ins[i]);
      var keyword := kws[i].keyword;
      var normalized := Norm(keyword);
      var currentYears := kws[i].years;
      if normalized !in uniqueUserKeywordsMap || currentYears > uniqueUserKeywordsMap[normalized].years {
        if normalized !in uniqueUserKeywordsMap {
          keys := keys + [normalized];
        }
        uniqueUserKeywordsMap := uniqueUserKeywordsMap[normalized := UserKeyword(keyword, currentYears)];
      }
    }
    assert ins[..|kws|] == ins;
    finalUserKeywords := MapValues(uniqueUserKeywordsMap, keys);
  }
  // ---------------------------------------------------------------------------
  // Step 4: matching against the job's skills (lines 126-165)
  // ---------------------------------------------------------------------------

  /** A Fuse result: the matched item and its score (0 is a perfect match). */
  datatype Hit = Hit(item: string, score: real)

  /** `fuse.search(q)[0]` for a Fuse index over `items`, when the search returns anything. */
  type Search = (seq<string>, string) -> Option<Hit>

  const Threshold: real := 0.2

  /** A search that only ever returns items of its own index (as Fuse does). */
  ghost predicate WellBehaved(search: Search, items: seq<string>) {
    forall q :: search(items, q).Some? ==> search(items, q).value.item in items
  }

  /** `normalizedJDSkills = skills.map((s) => s.toLowerCase())`. */
  function LowerAll(skills: seq<string>): (r: seq<string>)
    ensures |r| == |skills| && forall i :: 0 <= i < |skills| ==> r[i] == Lower(skills[i])
  {
    seq(|skills|, i requires 0 <= i < |skills| => Lower(skills[i]))
  }

  /** `s.indexOf(x)`, with `None` for -1. */
  function IndexOf(s: seq<string>, x: string): (r: Option<nat>)
    ensures r.Some? ==> r.value < |s| && s[r.value] == x && forall j :: 0 <= j < r.value ==> s[j] != x
    ensures r.None? <==> x !in s
  {
    if s == [] then None
    else if s[0] == x then Some(0)
    else match IndexOf(s[1..], x)
      case None => None
      case Some(k) => Some(k + 1)
  }

  /** `skills[normalizedJDSkills.indexOf(item)]`: the first job skill whose lowercase is the
      item (`undefined` when there is none). */
  function OriginalSkill(skills: seq<string>, item: string): (r: Option<string>)
    ensures r.Some? <==> item in LowerAll(skills)
    ensures r.Some? ==> exists k ::
      && 0 <= k < |skills| && r.value == skills[k] && Lower(skills[k]) == item
      && forall j :: 0 <= j < k ==> Lower(skills[j]) != item
  {
    match IndexOf(LowerAll(skills), item)
    case None => None
    case Some(k) => Some(skills[k])
  }

  /** `1 * (yearsOfExperience || 1)`. */
  function SkillScore(years: real): (r: real)
    ensures years != 0.0 ==> r == years
    ensures years == 0.0 ==> r == 1.0
  {
    if years != 0.0 then years else 1.0
  }

  datatype MatchedSkill = MatchedSkill(skill: Option<string>, userSkill: string, score: real, matchScore: real)

  /** The loop's state: the claimed items (`matchedJDSkillItems`, in claim order), the
      matches and `totalScore`. */
  datatype Claims = Claims(items: seq<string>, matched: seq<MatchedSkill>, totalScore: real)

  predicate Accepted(hit: Option<Hit>) {
    hit.Some? && hit.value.score <= Threshold
  }

  /** One iteration: a keyword whose best hit is good enough and unclaimed claims it. */
  function Claim(c: Claims, kw: UserKeyword, search: Search, skills: seq<string>): Claims {
    var hit := search(LowerAll(skills), kw.keyword);
    if Accepted(hit) && hit.value.item !in c.items then
      var score := SkillScore(kw.years);
      Claims(c.items + [hit.value.item],
             c.matched + [MatchedSkill(OriginalSkill(skills, hit.value.item), kw.keyword, score, hit.value.score)],
             c.totalScore + score)
    else c
  }

  function MatchAll(kws: seq<UserKeyword>, search: Search, skills: seq<string>): Claims {
    if kws == [] then Claims([], [], 0.0)
    else Claim(MatchAll(kws[..|kws| - 1], search, skills), kws[|kws| - 1], search, skills)
  }

  function SumScores(ms: seq<MatchedSkill>): real {
    if ms == [] then 0.0 else SumScores(ms[..|ms| - 1]) + ms[|ms| - 1].score
  }

  predicate Distinct(s: seq<string>) {
    forall i, j :: 0 <= i < j < |s| ==> s[i] != s[j]
  }

  /** What the matching loop keeps true: one claimed item per match, no item claimed twice,
      each match reporting the original skill of its item, the keyword's score and the
      search's verdict, and `totalScore` the sum of the match scores. */
  predicate ClaimsHold(c: Claims, kws: seq<UserKeyword>, search: Search, skills: seq<string>) {
    && |c.items| == |c.matched|
    && Distinct(c.items)
    && c.totalScore == SumScores(c.matched)
    && (forall j :: 0 <= j < |c.matched| ==>
          var m := c.matched[j];
          var hit := search(LowerAll(skills), m.userSkill);
          && m.skill == OriginalSkill(skills, c.items[j])
          && Accepted(hit) && hit.value.item == c.items[j] && m.matchScore == hit.value.score
          && FromKeyword(m, kws))
  }

  /** The match was made for some keyword of `kws` and carries that keyword's score. */
  predicate FromKeyword(m: MatchedSkill, kws: seq<UserKeyword>) {
    exists k :: 0 <= k < |kws| && kws[k].keyword == m.userSkill && m.score == SkillScore(kws[k].years)
  }

  lemma FromKeywordSnoc(m: MatchedSkill, init: seq<UserKeyword>, kw: UserKeyword)
    requires FromKeyword(m, init) || (kw.keyword == m.userSkill && m.score == SkillScore(kw.years))
    ensures FromKeyword(m, init + [kw])
  {
    var kws := init + [kw];
    if FromKeyword(m, init) {
      var k :| 0 <= k < |init| && init[k].keyword == m.userSkill && m.score == SkillScore(init[k].years);
      assert kws[k] == init[k];
    } else {
      assert kws[|init|] == kw;
    }
  }

  /** One iteration of the matching loop keeps the invariant. */
  lemma ClaimStep(c: Claims, init: seq<UserKeyword>, kw: UserKeyword, search: Search, skills: seq<string>)
    requires ClaimsHold(c, init, search, skills)
    ensures ClaimsHold(Claim(c, kw, search, skills), init + [kw], search, skills)
  {
    var kws := init + [kw];
    var c' := Claim(c, kw, search, skills);
    forall j | 0 <= j < |c.matched|
      ensures FromKeyword(c.matched[j], kws)
    {
      FromKeywordSnoc(c.matched[j], init, kw);
    }
    var hit := search(LowerAll(skills), kw.keyword);
    if Accepted(hit) && hit.value.item !in c.items {
      var m := c'.matched[|c.matched|];
      assert c'.matched[..|c.matched|] == c.matched;
      FromKeywordSnoc(m, init, kw);
      forall j | 0 <= j < |c'.matched|
        ensures FromKeyword(c'.matched[j], kws)
      {
        if j < |c.matched| {
          assert c'.matched[j] == c.matched[j];
        }
      }
    }
  }

  lemma {:induction false} MatchAllHolds(kws: seq<UserKeyword>, search: Search, skills: seq<string>)
    ensures ClaimsHold(MatchAll(kws, search, skills), kws, search, skills)
  {
    if kws != [] {
      var init := kws[..|kws| - 1];
      MatchAllHolds(init, search, skills);
      assert kws == init + [kws[|kws| - 1]];
      ClaimStep(MatchAll(init, search, skills), init, kws[|kws| - 1], search, skills);
    }
  }

  lemma {:induction false} DistinctCard(s: seq<string>)
    requires Distinct(s)
    ensures |set x | x in s| == |s|
  {
    if s != [] {
      var init := s[..|s| - 1];
      DistinctCard(init);
      assert (set x | x in s) == (set x | x in init) + {s[|s| - 1]};
    }
  }

  /** With a search that only returns job skills, no more matches are found than there are
      distinct lower-cased job skills. */
  lemma MatchBound(kws: seq<UserKeyword>, search: Search, skills: seq<string>)
    requires WellBehaved(search, LowerAll(skills))
    ensures |MatchAll(kws, search, skills).matched| <= |set x | x in LowerAll(skills)|
  {
    var c := MatchAll(kws, search, skills);
    MatchAllHolds(kws, search, skills);
    DistinctCard(c.items);
    forall x | x in c.items
      ensures x in LowerAll(skills)
    {
      var j :| 0 <= j < |c.items| && c.items[j] == x;
      assert search(LowerAll(skills), c.matched[j].userSkill).Some?;
    }
    assert (set x | x in c.items) <= (set x | x in LowerAll(skills));
    SubsetCard(set x | x in c.items, set x | x in LowerAll(skills));
  }

  lemma SubsetCard(a: set<string>, b: set<string>)
    requires a <= b
    ensures |a| <= |b|
  {
    if a != {} {
      var x :| x in a;
      SubsetCard(a - {x}, b - {x});
    }
  }

  /** A keyword whose best hit is already claimed changes nothing: it is not retried
      against the next-best candidate. */
  lemma ClaimedHitDropped(c: Claims, kw: UserKeyword, search: Search, skills: seq<string>)
    requires search(LowerAll(skills), kw.keyword).Some?
    requires search(LowerAll(skills), kw.keyword).value.item in c.items
    ensures Claim(c, kw, search, skills) == c
  {
  }

  /** One iteration only appends: earlier claims and matches keep their positions. */
  lemma ClaimExtends(c: Claims, kw: UserKeyword, search: Search, skills: seq<string>)
    ensures var c' := Claim(c, kw, search, skills);
      && |c.items| <= |c'.items| && c'.items[..|c.items|] == c.items
      && |c.matched| <= |c'.matched| && c'.matched[..|c.matched|] == c.matched
  {
  }

  /** Completeness: a keyword whose best hit is good enough leaves that hit's item claimed,
      whether by itself or by an earlier keyword. */
  lemma {:induction false} AcceptedHitClaimed(kws: seq<UserKeyword>, search: Search, skills: seq<string>, k: nat)
    requires k < |kws| && Accepted(search(LowerAll(skills), kws[k].keyword))
    ensures search(LowerAll(skills), kws[k].keyword).value.item in MatchAll(kws, search, skills).items
  {
    var init := kws[..|kws| - 1];
    var c := MatchAll(init, search, skills);
    var c' := MatchAll(kws, search, skills);
    var x := search(LowerAll(skills), kws[k].keyword).value.item;
    ClaimExtends(c, kws[|kws| - 1], search, skills);
    if k < |kws| - 1 {
      assert init[k] == kws[k];
      AcceptedHitClaimed(init, search, skills, k);
      var p :| 0 <= p < |c.items| && c.items[p] == x;
      assert c'.items[p] == x;
    }
  }

  /** An accepted hit on an unclaimed item is claimed by this iteration, at the next
      position, with this keyword and its score. */
  lemma ClaimNew(c: Claims, kw: UserKeyword, search: Search, skills: seq<string>)
    requires |c.items| == |c.matched|
    requires Accepted(search(LowerAll(skills), kw.keyword))
    requires search(LowerAll(skills), kw.keyword).value.item !in c.items
    ensures var c' := Claim(c, kw, search, skills);
      && |c.items| < |c'.items| && |c.matched| < |c'.matched|
      && c'.items[|c.items|] == search(LowerAll(skills), kw.keyword).value.item
      && c'.matched[|c.items|].userSkill == kw.keyword
      && c'.matched[|c.items|].score == SkillScore(kw.years)
  {
  }

  /** An item that no keyword's accepted hit names is never claimed. */
  lemma NotYetClaimed(kws: seq<UserKeyword>, search: Search, skills: seq<string>, x: string)
    requires forall j :: 0 <= j < |kws| ==>
      !(Accepted(search(LowerAll(skills), kws[j].keyword)) && search(LowerAll(skills), kws[j].keyword).value.item == x)
    ensures x !in MatchAll(kws, search, skills).items
    ensures |MatchAll(kws, search, skills).items| == |MatchAll(kws, search, skills).matched|
  {
    var c := MatchAll(kws, search, skills);
    MatchAllHolds(kws, search, skills);
    forall q | 0 <= q < |c.items|
      ensures c.items[q] != x
    {
      var m := c.matched[q];
      var j :| 0 <= j < |kws| && kws[j].keyword == m.userSkill && m.score == SkillScore(kws[j].years);
    }
  }

  /** The first keyword, in processing order, whose accepted hit is an item claims it: the
      match at position `p` is for that item and reports this keyword and its score. */
  lemma {:induction false} FirstAcceptedWins(kws: seq<UserKeyword>, search: Search, skills: seq<string>, k: nat)
    returns (p: nat)
    requires k < |kws| && Accepted(search(LowerAll(skills), kws[k].keyword))
    requires forall j :: 0 <= j < k ==>
      !(Accepted(search(LowerAll(skills), kws[j].keyword)) &&
        search(LowerAll(skills), kws[j].keyword).value.item == search(LowerAll(skills), kws[k].keyword).value.item)
    ensures p < |MatchAll(kws, search, skills).items| && p < |MatchAll(kws, search, skills).matched|
    ensures MatchAll(kws, search, skills).items[p] == search(LowerAll(skills), kws[k].keyword).value.item
    ensures MatchAll(kws, search, skills).matched[p].userSkill == kws[k].keyword
    ensures MatchAll(kws, search, skills).matched[p].score == SkillScore(kws[k].years)
  {
    var init := kws[..|kws| - 1];
    var last := kws[|kws| - 1];
    var c := MatchAll(init, search, skills);
    assert MatchAll(kws, search, skills) == Claim(c, last, search, skills);
    var x := search(LowerAll(skills), kws[k].keyword).value.item;
    forall j | 0 <= j < |init| && j < k
      ensures !(Accepted(search(LowerAll(skills), init[j].keyword)) &&
                search(LowerAll(skills), init[j].keyword).value.item == x)
    {
      assert init[j] == kws[j];
    }
    if k < |kws| - 1 {
      assert init[k] == kws[k];
      p := FirstAcceptedWins(init, search, skills, k);
      ClaimExtends(c, last, search, skills);
    } else {
      assert last == kws[k];
      NotYetClaimed(init, search, skills, x);
      ClaimNew(c, last, search, skills);
      p := |c.items|;
    }
  }

  /** Lines 135-165, as the source runs them: a `forEach` that grows a set and a list and
      bumps two counters. */
  method MatchKeywords(finalUserKeywords: seq<UserKeyword>, search: Search, skills: seq<string>)
    returns (matchedSkills: seq<MatchedSkill>, totalScore: real, numberOfMatchedSkills: nat)
    ensures matchedSkills == MatchAll(finalUserKeywords, search, skills).matched
    ensures totalScore == MatchAll(finalUserKeywords, search, skills).totalScore
    ensures numberOfMatchedSkills == |matchedSkills|
  {
    var normalizedJDSkills := LowerAll(skills);
    totalScore := 0.0;
    matchedSkills := [];
    numberOfMatchedSkills := 0;
    var matchedJDSkillItems: set<string> := {};
    for i := 0 to |finalUserKeywords|
      invariant var c := MatchAll(finalUserKeywords[..i], search, skills);
        && matchedSkills == c.matched && totalScore == c.totalScore
        && matchedJDSkillItems == set x | x in c.items
      invariant numberOfMatchedSkills == |matchedSkills|
    {
      assert finalUserKeywords[..i + 1][..i] == finalUserKeywords[..i];
      var userKeyword := finalUserKeywords[i].keyword;
      var yearsOfExperience := finalUserKeywords[i].years;
      var result := search(normalizedJDSkills, userKeyword);
      if result.Some? && result.value.score <= Threshold {
        var matchedJDSkillItem := result.value.item;
        if matchedJDSkillItem !in matchedJDSkillItems {
          matchedJDSkillItems := matchedJDSkillItems + {matchedJDSkillItem};
          var originalJDSkill := OriginalSkill(skills, matchedJDSkillItem);
          var skillScore := SkillScore(yearsOfExperience);
          totalScore := totalScore + skillScore;
          matchedSkills := matchedSkills + [MatchedSkill(originalJDSkill, userKeyword, skillScore, result.value.score)];
          numberOfMatchedSkills := numberOfMatchedSkills + 1;
        }
      }
    }
    assert finalUserKeywords[..|finalUserKeywords|] == finalUserKeywords;
  }
  // ---------------------------------------------------------------------------
  // Step 5: the percentage and the result (lines 167-190)
  // ---------------------------------------------------------------------------

  /** A JavaScript number as `matchPercentage` can take it: an integer, or `Infinity`. */
  datatype Percentage = Finite(value: int) | Infinity

  /** `Math.round((n / JDcount) * 100) || 0`: round half up when `JDcount > 0`; `0/0` is
      `NaN`, which `|| 0` turns into 0; `n/0` for `n > 0` is `Infinity`. */
  function MatchPercentage(n: nat, jdCount: nat): (r: Percentage)
    ensures n == 0 ==> r == Finite(0)
    ensures jdCount == 0 && n > 0 ==> r == Infinity
    ensures jdCount > 0 ==> r.Finite? && 0 <= r.value
  {
    if jdCount > 0 then Finite((200 * n + jdCount) / (2 * jdCount))
    else if n == 0 then Finite(0)
    else Infinity
  }

  /** The finite percentage is the integer nearest to `100·n/JDcount`, halves rounding up:
      `p - 1/2 <= 100·n/JDcount < p + 1/2`. */
  lemma RoundsHalfUp(n: nat, jdCount: nat)
    requires jdCount > 0
    ensures var p := MatchPercentage(n, jdCount).value;
      (2 * p - 1) * jdCount <= 200 * n < (2 * p + 1) * jdCount
  {
    var a := 200 * n + jdCount;
    var b := 2 * jdCount;
    var p := a / b;
    assert a == p * b + a % b && 0 <= a % b < b;
    assert p * b == 2 * p * jdCount;
    assert (2 * p - 1) * jdCount == 2 * p * jdCount - jdCount;
    assert (2 * p + 1) * jdCount == 2 * p * jdCount + jdCount;
  }

  /** Two of five job skills matched is 40 percent; one of eight (12.5) rounds up to 13. */
  lemma PercentageExamples()
    ensures MatchPercentage(2, 5) == Finite(40)
    ensures MatchPercentage(1, 8) == Finite(13)
    ensures MatchPercentage(0, 0) == Finite(0)
    ensures MatchPercentage(3, 0) == Infinity
  {
  }

  datatype ScoreResult = ScoreResult(
    matchedSkills: seq<MatchedSkill>, matchPercentage: Percentage, numberOfMatchedSkills: nat,
    JDcount: nat, skills: seq<string>, totalUserSkills: nat, normalizedJDSkills: seq<string>)

  /** The result of the `catch` block. */
  const ZeroResult := ScoreResult([], Finite(0), 0, 0, [], 0, [])

  /** `apiResult.data`: `skills` may be missing, which makes `skills.map` throw. */
  datatype ApiData = ApiData(JDcount: nat, skills: Option<seq<string>>)

  datatype ApiResult = ApiResult(success: bool, data: Option<ApiData>, message: Option<string>)

  /** The compute-score response: `ok`, and its body when that is JSON. */
  datatype ApiResponse = ApiResponse(ok: bool, json: Option<ApiResult>)

  /** None of the throws of lines 10-39 and 126 happens: a profile is loaded, a resume is
      selected, the response is ok JSON with `success` and `data`, and `data.skills` exists. */
  predicate Usable(profileLoaded: bool, selectedResume: Option<Resume>, response: ApiResponse) {
    && profileLoaded && selectedResume.Some?
    && response.ok && response.json.Some?
    && response.json.value.success && response.json.value.data.Some?
    && response.json.value.data.value.skills.Some?
  }

  /** `calculateScore(jobDetails, authToken)` once the request has been answered with
      `response`; `profileLoaded` stands for `profileDetails` being set. */
  method CalculateScore(profileLoaded: bool, selectedResume: Option<Resume>, response: ApiResponse,
                        search: Search)
    returns (r: ScoreResult)
    ensures !Usable(profileLoaded, selectedResume, response) ==> r == ZeroResult
    ensures Usable(profileLoaded, selectedResume, response) ==>
      var data := response.json.value.data.value;
      var skills := data.skills.value;
      var c := MatchAll(Values(Dedup(AllKeywords(selectedResume.value))), search, skills);
      && r.matchedSkills == c.matched
      && r.matchPercentage == MatchPercentage(|c.matched|, data.JDcount)
      && r.JDcount == data.JDcount && r.skills == skills && r.normalizedJDSkills == LowerAll(skills)
      && r.totalUserSkills == |selectedResume.value.skills|
    ensures r.numberOfMatchedSkills == |r.matchedSkills|
    ensures WellBehaved(search, r.normalizedJDSkills) ==>
      r.numberOfMatchedSkills <= |set x | x in r.normalizedJDSkills|
  {
    // `profileDetails.userDetails` and `selectedResume.skills` throw on null
    if !profileLoaded || selectedResume.None? {
      return ZeroResult;
    }
    var resume := selectedResume.value;
    if !response.ok {
      return ZeroResult;
    }
    if response.json.None? {
      return ZeroResult;
    }
    var apiResult := response.json.value;
    if !apiResult.success || apiResult.data.None? {
      return ZeroResult;
    }
    var data := apiResult.data.value;

    var allUserRelevantKeywords := CollectKeywords(resume);
    var finalUserKeywords := DedupKeywords(allUserRelevantKeywords);
    if data.skills.None? {
      return ZeroResult;
    }
    var skills := data.skills.value;

    var matchedSkills, totalScore, numberOfMatchedSkills := MatchKeywords(finalUserKeywords, search, skills);
    if WellBehaved(search, LowerAll(skills)) {
      MatchBound(finalUserKeywords, search, skills);
    }

    r := ScoreResult(matchedSkills, MatchPercentage(numberOfMatchedSkills, data.JDcount),
                     numberOfMatchedSkills, data.JDcount, skills, |resume.skills|, LowerAll(skills));
  }
}
