/**
  `src/stores/resumeStore.ts`: the resume dropdown and the selected resume. The store's
  state is the object `ResumeStore` with its two fields; `set` is assignment to them.
 */
module ResumeStore {
  import opened Wrappers
  import opened Types

  // ---------------------------------------------------------------------------
  // `createDropdownItems` (lines 8-33)
  // ---------------------------------------------------------------------------

  function RegularItem(resume: Resume): DropdownResumeItem {
    DropdownResumeItem(resume.id, resume.originalName, Regular, resume, None)
  }

  /** The entry of a universal resume: its own id, its name marked " (Universal)", and the
      parent as `resume`. */
  function UniversalItem(resume: Resume, universal: UniversalResume): DropdownResumeItem {
    DropdownResumeItem(universal.id, universal.originalName + " (Universal)", Universal, resume, Some(universal))
  }

  /** The entries one resume contributes. */
  function ItemsOf(resume: Resume): seq<DropdownResumeItem> {
    [RegularItem(resume)] +
    match resume.universalResume
    case Some(u) => [UniversalItem(resume, u)]
    case None => []
  }

  function DropdownItems(resumes: seq<Resume>): seq<DropdownResumeItem> {
    if resumes == [] then []
    else DropdownItems(resumes[..|resumes| - 1]) + ItemsOf(resumes[|resumes| - 1])
  }

  /** `createDropdownItems(resumes)`, pushing in a `forEach`. */
  method CreateDropdownItems(resumes: seq<Resume>) returns (items: seq<DropdownResumeItem>)
    ensures items == DropdownItems(resumes)
  {
    items := [];
    for k := 0 to |resumes|
      invariant items == DropdownItems(resumes[..k])
    {
      assert resumes[..k + 1][..k] == resumes[..k];
      var resume := resumes[k];
      items := items + [RegularItem(resume)];
      if resume.universalResume.Some? {
        items := items + [UniversalItem(resume, resume.universalResume.value)];
      }
    }
    assert resumes[..|resumes|] == resumes;
  }

  function CountUniversal(resumes: seq<Resume>): nat {
    if resumes == [] then 0
    else CountUniversal(resumes[..|resumes| - 1]) + (if resumes[|resumes| - 1].universalResume.Some? then 1 else 0)
  }

  /** One entry per resume, plus one per resume that has a universal resume. */
  lemma {:induction false} DropdownLength(resumes: seq<Resume>)
    ensures |DropdownItems(resumes)| == |resumes| + CountUniversal(resumes)
  {
    if resumes != [] {
      DropdownLength(resumes[..|resumes| - 1]);
    }
  }

  /** The shape of a built list: every universal entry directly follows its parent's regular
      entry, and a regular entry is followed by a universal one exactly when its resume has
      a universal resume. */
  predicate WellFormed(items: seq<DropdownResumeItem>) {
    && (forall i :: 0 <= i < |items| && items[i].itemType == Universal ==>
          && i > 0 && items[i - 1] == RegularItem(items[i].resume)
          && items[i].resume.universalResume.Some?
          && items[i] == UniversalItem(items[i].resume, items[i].resume.universalResume.value))
    && (forall i {:trigger items[i]} :: 0 <= i < |items| && items[i].itemType == Regular ==>
          && items[i] == RegularItem(items[i].resume)
          && (items[i].resume.universalResume.Some? <==> i + 1 < |items| && items[i + 1].itemType == Universal))
  }

  /** Appending one resume's items to a well-formed list keeps it well formed. */
  lemma WellFormedSnoc(a: seq<DropdownResumeItem>, last: Resume)
    requires WellFormed(a)
    ensures WellFormed(a + ItemsOf(last))
  {
    var items := a + ItemsOf(last);
    forall i | 0 <= i < |items| && items[i].itemType == Regular
      ensures items[i].resume.universalResume.Some? <==> i + 1 < |items| && items[i + 1].itemType == Universal
    {
      if i < |a| {
        assert items[i] == a[i];
        if i + 1 == |a| {
          assert a[i].resume.universalResume.None?;
          assert items[i + 1] == RegularItem(last);
        } else {
          assert items[i + 1] == a[i + 1];
        }
      }
    }
  }

  lemma {:induction false} DropdownWellFormed(resumes: seq<Resume>)
    ensures WellFormed(DropdownItems(resumes))
  {
    if resumes != [] {
      var init := resumes[..|resumes| - 1];
      DropdownWellFormed(init);
      WellFormedSnoc(DropdownItems(init), resumes[|resumes| - 1]);
    }
  }

  /** The regular entries, in order. */
  function Regulars(items: seq<DropdownResumeItem>): seq<DropdownResumeItem> {
    if items == [] then []
    else Regulars(items[..|items| - 1]) + (if items[|items| - 1].itemType == Regular then [items[|items| - 1]] else [])
  }

  lemma {:induction false} RegularsAppend(a: seq<DropdownResumeItem>, b: seq<DropdownResumeItem>)
    ensures Regulars(a + b) == Regulars(a) + Regulars(b)
    decreases |b|
  {
    if b == [] {
      assert a + b == a;
    } else {
      var b' := b[..|b| - 1];
      assert (a + b)[..|a + b| - 1] == a + b';
      RegularsAppend(a, b');
    }
  }

  /** Of one resume's items, only its regular item is regular. */
  lemma RegularsOfItems(last: Resume)
    ensures Regulars(ItemsOf(last)) == [RegularItem(last)]
  {
    var b := ItemsOf(last);
    var r := [RegularItem(last)];
    assert r[..0] == [];
    assert Regulars(r) == r;
    if last.universalResume.Some? {
      assert b == r + [UniversalItem(last, last.universalResume.value)];
      assert b[..1] == r;
    } else {
      assert b == r;
    }
  }

  /** One regular entry per resume, in input order. */
  lemma {:induction false} RegularsInOrder(resumes: seq<Resume>)
    ensures |Regulars(DropdownItems(resumes))| == |resumes|
    ensures forall k :: 0 <= k < |resumes| ==> Regulars(DropdownItems(resumes))[k] == RegularItem(resumes[k])
  {
    if resumes != [] {
      var init := resumes[..|resumes| - 1];
      var last := resumes[|resumes| - 1];
      RegularsInOrder(init);
      RegularsAppend(DropdownItems(init), ItemsOf(last));
      RegularsOfItems(last);
      var r := Regulars(DropdownItems(resumes));
      assert r == Regulars(DropdownItems(init)) + [RegularItem(last)];
      forall k | 0 <= k < |resumes|
        ensures r[k] == RegularItem(resumes[k])
      {
        if k < |init| {
          assert resumes[k] == init[k];
        }
      }
    }
  }

  // ---------------------------------------------------------------------------
  // `findInitialItem` (lines 35-50)
  // ---------------------------------------------------------------------------

  predicate IsPrimaryRegular(item: DropdownResumeItem) {
    item.itemType == Regular && item.resume.isPrimary
  }

  function FirstPrimaryRegular(items: seq<DropdownResumeItem>): (r: Option<nat>)
    ensures r.Some? ==> r.value < |items| && IsPrimaryRegular(items[r.value])
    ensures r.Some? ==> forall j :: 0 <= j < r.value ==> !IsPrimaryRegular(items[j])
    ensures r.None? ==> forall j :: 0 <= j < |items| ==> !IsPrimaryRegular(items[j])
  {
    if items == [] then None
    else if IsPrimaryRegular(items[0]) then Some(0)
    else match FirstPrimaryRegular(items[1..])
      case None => None
      case Some(k) => Some(k + 1)
  }

  function FirstRegular(items: seq<DropdownResumeItem>): (r: Option<nat>)
    ensures r.Some? ==> r.value < |items| && items[r.value].itemType == Regular
    ensures r.Some? ==> forall j :: 0 <= j < r.value ==> items[j].itemType != Regular
    ensures r.None? ==> forall j :: 0 <= j < |items| ==> items[j].itemType != Regular
  {
    if items == [] then None
    else if items[0].itemType == Regular then Some(0)
    else match FirstRegular(items[1..])
      case None => None
      case Some(k) => Some(k + 1)
  }

  /** The first primary regular entry, else the first regular entry, else the first entry;
      `undefined` only for an empty list. */
  function FindInitialItem(items: seq<DropdownResumeItem>): (r: Option<DropdownResumeItem>)
    ensures r.None? <==> items == []
    ensures FirstPrimaryRegular(items).Some? ==> r == Some(items[FirstPrimaryRegular(items).value])
    ensures FirstPrimaryRegular(items).None? && FirstRegular(items).Some? ==>
      r == Some(items[FirstRegular(items).value])
    ensures FirstRegular(items).None? && items != [] ==> r == Some(items[0])
  {
    match FirstPrimaryRegular(items)
    case Some(i) => Some(items[i])
    case None =>
      match FirstRegular(items)
      case Some(i) => Some(items[i])
      case None => if |items| > 0 then Some(items[0]) else None
  }

  /** For a list built from resumes, the initial entry is regular; it belongs to a primary
      resume whenever one of the resumes is primary. */
  lemma {:induction false} InitialOfBuilt(resumes: seq<Resume>)
    requires resumes != []
    ensures var items := DropdownItems(resumes);
      && FindInitialItem(items).Some? && FindInitialItem(items).value.itemType == Regular
      && ((exists k :: 0 <= k < |resumes| && resumes[k].isPrimary) ==> FindInitialItem(items).value.resume.isPrimary)
  {
    var items := DropdownItems(resumes);
    FirstItemIsRegular(resumes);
    assert FirstRegular(items).Some?;
    if exists k :: 0 <= k < |resumes| && resumes[k].isPrimary {
      var k :| 0 <= k < |resumes| && resumes[k].isPrimary;
      RegularsInOrder(resumes);
      assert Regulars(items)[k] == RegularItem(resumes[k]);
      RegularsFrom(items, k);
      var j :| 0 <= j < |items| && items[j] == Regulars(items)[k];
      assert IsPrimaryRegular(items[j]);
    }
  }

  /** When no resume is primary, the initial entry is the first resume's regular entry. */
  lemma {:induction false} InitialWithoutPrimary(resumes: seq<Resume>)
    requires resumes != []
    requires forall k :: 0 <= k < |resumes| ==> !resumes[k].isPrimary
    ensures FindInitialItem(DropdownItems(resumes)) == Some(RegularItem(resumes[0]))
  {
    var items := DropdownItems(resumes);
    FirstItemIsRegular(resumes);
    forall i | 0 <= i < |items|
      ensures !IsPrimaryRegular(items[i])
    {
      if items[i].itemType == Regular {
        RegularIsOfSomeResume(resumes, i);
      }
    }
  }

  lemma {:induction false} FirstItemIsRegular(resumes: seq<Resume>)
    requires resumes != []
    ensures DropdownItems(resumes)[0] == RegularItem(resumes[0])
  {
    if |resumes| > 1 {
      FirstItemIsRegular(resumes[..|resumes| - 1]);
    }
  }

  /** An entry of the regular sub-list is an entry of the list. */
  lemma {:induction false} RegularsFrom(items: seq<DropdownResumeItem>, k: nat)
    requires k < |Regulars(items)|
    ensures Regulars(items)[k] in items && Regulars(items)[k].itemType == Regular
  {
    var init := items[..|items| - 1];
    var last := items[|items| - 1];
    if k < |Regulars(init)| {
      RegularsFrom(init, k);
      assert Regulars(items)[k] == Regulars(init)[k];
    }
  }

  /** Every regular entry of a built list is the regular entry of one of the resumes. */
  lemma {:induction false} RegularIsOfSomeResume(resumes: seq<Resume>, i: nat)
    requires i < |DropdownItems(resumes)| && DropdownItems(resumes)[i].itemType == Regular
    ensures exists k :: 0 <= k < |resumes| && DropdownItems(resumes)[i] == RegularItem(resumes[k])
  {
    var init := resumes[..|resumes| - 1];
    var last := resumes[|resumes| - 1];
    var a := DropdownItems(init);
    assert DropdownItems(resumes) == a + ItemsOf(last);
    if i < |a| {
      RegularIsOfSomeResume(init, i);
      var k :| 0 <= k < |init| && a[i] == RegularItem(init[k]);
      assert resumes[k] == init[k];
    } else {
      assert DropdownItems(resumes)[i] == RegularItem(resumes[|resumes| - 1]);
    }
  }

  // ---------------------------------------------------------------------------
  // `getSelectedResumeWithCorrectUrl` (lines 93-115)
  // ---------------------------------------------------------------------------

  /** The resume a selected entry stands for: a universal entry's parent, with the
      universal resume's URL, name and id; any other entry's resume as it is. */
  function CorrectUrlResume(item: DropdownResumeItem): (r: Resume)
    ensures item.itemType == Regular || item.universalResume.None? ==> r == item.resume
    ensures item.itemType == Universal && item.universalResume.Some? ==>
      var u := item.universalResume.value;
      r.s3Url == u.s3Url && r.originalName == u.originalName && r.id == u.id
    ensures r.userId == item.resume.userId && r.isPrimary == item.resume.isPrimary
    ensures r.skills == item.resume.skills && r.experience == item.resume.experience
    ensures r.education == item.resume.education && r.projects == item.resume.projects
    ensures r.importantLinks == item.resume.importantLinks && r.universalResume == item.resume.universalResume
    ensures r.createdAt == item.resume.createdAt && r.updatedAt == item.resume.updatedAt
    ensures r.version == item.resume.version
  {
    if item.itemType == Regular then item.resume
    else match item.universalResume
      case Some(u) => item.resume.(s3Url := u.s3Url, originalName := u.originalName, id := u.id)
      case None => item.resume
  }

  /** For a universal entry of a built list, the corrected resume names the universal
      resume while keeping the parent's content. */
  lemma UniversalEntryResume(resumes: seq<Resume>, i: nat)
    requires i < |DropdownItems(resumes)| && DropdownItems(resumes)[i].itemType == Universal
    ensures DropdownItems(resumes)[i].resume.universalResume.Some?
    ensures var item := DropdownItems(resumes)[i];
      var u := item.resume.universalResume.value;
      && CorrectUrlResume(item) == item.resume.(s3Url := u.s3Url, originalName := u.originalName, id := u.id)
      && item.name == u.originalName + " (Universal)" && item.id == u.id
  {
    DropdownWellFormed(resumes);
  }

  // ---------------------------------------------------------------------------
  // The store
  // ---------------------------------------------------------------------------

  class ResumeStore {
    var selectedItem: Option<DropdownResumeItem>
    var dropdownItems: seq<DropdownResumeItem>

    /** The initial state: nothing selected, no entries. */
    constructor ()
      ensures selectedItem.None? && dropdownItems == []
    {
      selectedItem := None;
      dropdownItems := [];
    }

    /** `initializeResumes(resumes)`: always replaces the entries; picks an initial entry only
        when nothing was selected, and keeps an existing selection even when it is not among
        the new entries. */
    method InitializeResumes(resumes: seq<Resume>)
      modifies this
      ensures dropdownItems == DropdownItems(resumes)
      ensures old(selectedItem).Some? ==> selectedItem == old(selectedItem)
      ensures old(selectedItem).None? ==> selectedItem == FindInitialItem(DropdownItems(resumes))
    {
      var items := CreateDropdownItems(resumes);
      var isAlreadySet := selectedItem.Some?;
      dropdownItems := items;
      if !isAlreadySet && |items| > 0 {
        var initialItem := FindInitialItem(items);
        if initialItem.Some? {
          selectedItem := initialItem;
        }
      }
    }

    /** `setSelectedItem(item)`: changes the selection and nothing else. */
    method SetSelectedItem(item: DropdownResumeItem)
      modifies this
      ensures selectedItem == Some(item) && dropdownItems == old(dropdownItems)
    {
      selectedItem := Some(item);
    }

    /** `getSelectedResume()`: the selected entry's (parent) resume, or `null`. */
    function GetSelectedResume(): (r: Option<Resume>)
      reads this
      ensures r.None? <==> selectedItem.None?
      ensures r.Some? ==> r.value == selectedItem.value.resume
    {
      match selectedItem
      case None => None
      case Some(item) => Some(item.resume)
    }

    /** `getSelectedResumeWithCorrectUrl()`: `null` with no selection, else the corrected
        resume of the selected entry; its skills and projects are those `getSelectedResume`
        gives. */
    function GetSelectedResumeWithCorrectUrl(): (r: Option<Resume>)
      reads this
      ensures r.None? <==> selectedItem.None?
      ensures r.Some? ==> r.value == CorrectUrlResume(selectedItem.value)
      ensures r.Some? ==> r.value.skills == GetSelectedResume().value.skills &&
                          r.value.projects == GetSelectedResume().value.projects
    {
      match selectedItem
      case None => None
      case Some(item) => Some(CorrectUrlResume(item))
    }
  }

  /** After the first initialisation with a non-empty list, the selection is regular. */
  method FirstInitialization(resumes: seq<Resume>) returns (store: ResumeStore)
    requires resumes != []
    ensures store.selectedItem.Some? && store.selectedItem.value.itemType == Regular
    ensures store.GetSelectedResume().Some?
  {
    store := new ResumeStore();
    store.InitializeResumes(resumes);
    InitialOfBuilt(resumes);
  }
}
