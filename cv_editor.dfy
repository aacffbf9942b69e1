/**
 * The first step of the CV builder: a CV record made of personal details,
 * a summary and five ordered sections of items, and the five handlers that
 * rebuild it (set a personal detail, set the summary, set one field of one
 * item, append a blank item, remove an item).
 *
 * Each section's items have their own shape; the input names the form
 * binds to each shape are the enumeration ItemField, so a field write is
 * checked against the item's shape instead of being a write by name.
 */
module CvEditor {
  import opened JsBuiltins

  datatype Section = Experience | Education | Skills | Portfolio | References

  datatype PersonalField = FullName | Email | Phone | Address | PersonalLink

  datatype PersonalInfo = PersonalInfo(fullName: string, email: string, phone: string, address: string, link: string)

  /** The input names the form binds to the items of the sections. */
  datatype ItemField =
    | JobTitle | Company | Location | StartDate | EndDate | Description
    | Degree | School | Name | Title | Link | Contact | Relation

  /** One item of a section, with the timestamp-derived `id` every shape carries. */
  datatype Item =
    | ExperienceItem(id: string, jobTitle: string, company: string, location: string,
                     startDate: string, endDate: string, description: string)
    | EducationItem(id: string, degree: string, school: string, location: string,
                    startDate: string, endDate: string)
    | SkillItem(id: string, name: string)
    | PortfolioItem(id: string, title: string, link: string, description: string)
    | ReferenceItem(id: string, name: string, contact: string, relation: string)

  datatype CvData = CvData(
    personalInfo: PersonalInfo,
    summary: string,
    experience: seq<Item>,
    education: seq<Item>,
    skills: seq<Item>,
    portfolio: seq<Item>,
    references: seq<Item>)

  // ---------------------------------------------------------------------
  // Personal details
  // ---------------------------------------------------------------------

  function Personal(p: PersonalInfo, f: PersonalField): string {
    match f
    case FullName => p.fullName
    case Email => p.email
    case Phone => p.phone
    case Address => p.address
    case PersonalLink => p.link
  }

  function WithPersonal(p: PersonalInfo, f: PersonalField, value: string): (r: PersonalInfo)
    ensures Personal(r, f) == value
    ensures forall g :: g != f ==> Personal(r, g) == Personal(p, g)
  {
    match f
    case FullName => p.(fullName := value)
    case Email => p.(email := value)
    case Phone => p.(phone := value)
    case Address => p.(address := value)
    case PersonalLink => p.(link := value)
  }

  // ---------------------------------------------------------------------
  // Items and their shapes
  // ---------------------------------------------------------------------

  /** The section whose shape the item has. */
  function KindOf(item: Item): Section {
    match item
    case ExperienceItem(_, _, _, _, _, _, _) => Experience
    case EducationItem(_, _, _, _, _, _) => Education
    case SkillItem(_, _) => Skills
    case PortfolioItem(_, _, _, _) => Portfolio
    case ReferenceItem(_, _, _, _) => References
  }

  /** The editable fields of each section's items (all but `id`). */
  function FieldsOf(s: Section): set<ItemField> {
    match s
    case Experience => {JobTitle, Company, Location, StartDate, EndDate, Description}
    case Education => {Degree, School, Location, StartDate, EndDate}
    case Skills => {Name}
    case Portfolio => {Title, Link, Description}
    case References => {Name, Contact, Relation}
  }

  predicate HasField(item: Item, f: ItemField) {
    f in FieldsOf(KindOf(item))
  }

  function Get(item: Item, f: ItemField): string
    requires HasField(item, f)
  {
    match f
    case JobTitle => item.jobTitle
    case Company => item.company
    case Location => item.location
    case StartDate => item.startDate
    case EndDate => item.endDate
    case Description => item.description
    case Degree => item.degree
    case School => item.school
    case Name => item.name
    case Title => item.title
    case Link => item.link
    case Contact => item.contact
    case Relation => item.relation
  }

  /** The item with field `f` set to `value`: same shape, same id, every other field as before. */
  function SetField(item: Item, f: ItemField, value: string): (r: Item)
    requires HasField(item, f)
    ensures KindOf(r) == KindOf(item) && r.id == item.id
    ensures Get(r, f) == value
    ensures forall g :: g != f && HasField(item, g) ==> Get(r, g) == Get(item, g)
  {
    match f
    case JobTitle => item.(jobTitle := value)
    case Company => item.(company := value)
    case Location => item.(location := value)
    case StartDate => item.(startDate := value)
    case EndDate => item.(endDate := value)
    case Description => item.(description := value)
    case Degree => item.(degree := value)
    case School => item.(school := value)
    case Name => item.(name := value)
    case Title => item.(title := value)
    case Link => item.(link := value)
    case Contact => item.(contact := value)
    case Relation => item.(relation := value)
  }

  /** The blank item appended to section `s` at time `now`: every field empty, id the rendered timestamp. */
  function DefaultItem(s: Section, now: nat): (r: Item)
    ensures KindOf(r) == s
    ensures r.id == NumberToString(now) && r.id != ""
    ensures forall f :: f in FieldsOf(s) ==> Get(r, f) == ""
  {
    var id := NumberToString(now);
    match s
    case Experience => ExperienceItem(id, "", "", "", "", "", "")
    case Education => EducationItem(id, "", "", "", "", "")
    case Skills => SkillItem(id, "")
    case Portfolio => PortfolioItem(id, "", "", "")
    case References => ReferenceItem(id, "", "", "")
  }

  // ---------------------------------------------------------------------
  // The record and its sections
  // ---------------------------------------------------------------------

  function SectionOf(cv: CvData, s: Section): seq<Item> {
    match s
    case Experience => cv.experience
    case Education => cv.education
    case Skills => cv.skills
    case Portfolio => cv.portfolio
    case References => cv.references
  }

  /** The record with section `s` replaced by `items` and nothing else touched. */
  function WithSection(cv: CvData, s: Section, items: seq<Item>): (r: CvData)
    ensures SectionOf(r, s) == items
    ensures forall t :: t != s ==> SectionOf(r, t) == SectionOf(cv, t)
    ensures r.personalInfo == cv.personalInfo && r.summary == cv.summary
  {
    match s
    case Experience => cv.(experience := items)
    case Education => cv.(education := items)
    case Skills => cv.(skills := items)
    case Portfolio => cv.(portfolio := items)
    case References => cv.(references := items)
  }

  /** Every item of `items` has the shape of section `s`. */
  predicate AllOfKind(items: seq<Item>, s: Section) {
    forall i :: 0 <= i < |items| ==> KindOf(items[i]) == s
  }

  /** Every item sits in the section whose shape it has. */
  predicate WellFormed(cv: CvData) {
    forall s :: AllOfKind(SectionOf(cv, s), s)
  }

  /** Splicing an element out of a list keeps every remaining item's shape. */
  lemma SpliceKeepsKind(items: seq<Item>, index: int, s: Section)
    requires AllOfKind(items, s)
    ensures AllOfKind(SpliceOne(items, index), s)
  {
    var k := SpliceStart(index, |items|);
    if k < |items| {
      var r := SpliceOne(items, index);
      assert r == items[..k] + items[k + 1..];
      forall i | 0 <= i < |r| ensures KindOf(r[i]) == s {
        assert r[i] == if i < k then items[i] else items[i + 1];
      }
    }
  }

  // ---------------------------------------------------------------------
  // The five handlers
  // ---------------------------------------------------------------------

  /** Editing one personal detail changes that detail only. */
  function PersonalInfoChange(cv: CvData, f: PersonalField, value: string): (r: CvData)
    ensures Personal(r.personalInfo, f) == value
    ensures forall g :: g != f ==> Personal(r.personalInfo, g) == Personal(cv.personalInfo, g)
    ensures r.summary == cv.summary
    ensures forall s :: SectionOf(r, s) == SectionOf(cv, s)
  {
    cv.(personalInfo := WithPersonal(cv.personalInfo, f, value))
  }

  /** Editing the summary changes the summary only. */
  function SummaryChange(cv: CvData, value: string): (r: CvData)
    ensures r.summary == value
    ensures r.personalInfo == cv.personalInfo
    ensures forall s :: SectionOf(r, s) == SectionOf(cv, s)
  {
    cv.(summary := value)
  }

  /** The items with field `f` of the item at `index` set to `value`. */
  function UpdatedItems(items: seq<Item>, index: int, f: ItemField, value: string): (r: seq<Item>)
    requires 0 <= index < |items| && HasField(items[index], f)
    ensures |r| == |items|
    ensures KindOf(r[index]) == KindOf(items[index]) && r[index].id == items[index].id
    ensures Get(r[index], f) == value
    ensures forall g :: g != f && HasField(items[index], g) ==> Get(r[index], g) == Get(items[index], g)
    ensures forall j :: 0 <= j < |items| && j != index ==> r[j] == items[j]
  {
    items[index := SetField(items[index], f, value)]
  }

  /**
   * Editing one input of the item at `index` in section `s`: the section
   * keeps its length, the item keeps its id and shape and every other field,
   * and every other item, section and detail stays as it was.
   */
  function DynamicChange(cv: CvData, s: Section, index: int, f: ItemField, value: string): (r: CvData)
    requires 0 <= index < |SectionOf(cv, s)| && HasField(SectionOf(cv, s)[index], f)
    ensures |SectionOf(r, s)| == |SectionOf(cv, s)|
    ensures SectionOf(r, s)[index].id == SectionOf(cv, s)[index].id
    ensures KindOf(SectionOf(r, s)[index]) == KindOf(SectionOf(cv, s)[index])
    ensures Get(SectionOf(r, s)[index], f) == value
    ensures forall g :: g != f && HasField(SectionOf(cv, s)[index], g) ==>
      Get(SectionOf(r, s)[index], g) == Get(SectionOf(cv, s)[index], g)
    ensures forall j :: 0 <= j < |SectionOf(cv, s)| && j != index ==> SectionOf(r, s)[j] == SectionOf(cv, s)[j]
    ensures forall t :: t != s ==> SectionOf(r, t) == SectionOf(cv, t)
    ensures r.personalInfo == cv.personalInfo && r.summary == cv.summary
    ensures WellFormed(cv) ==> WellFormed(r)
  {
    WithSection(cv, s, UpdatedItems(SectionOf(cv, s), index, f, value))
  }

  /**
   * Appending a blank item to section `s` at time `now`: the section grows
   * by one, the old items stay as its prefix, the new last item is the blank
   * item of that section's shape, and nothing else changes.
   */
  function AddItem(cv: CvData, s: Section, now: nat): (r: CvData)
    ensures |SectionOf(r, s)| == |SectionOf(cv, s)| + 1
    ensures SectionOf(r, s)[..|SectionOf(cv, s)|] == SectionOf(cv, s)
    ensures SectionOf(r, s)[|SectionOf(cv, s)|] == DefaultItem(s, now)
    ensures forall t :: t != s ==> SectionOf(r, t) == SectionOf(cv, t)
    ensures r.personalInfo == cv.personalInfo && r.summary == cv.summary
    ensures WellFormed(cv) ==> WellFormed(r)
  {
    var items := SectionOf(cv, s) + [DefaultItem(s, now)];
    assert items[..|SectionOf(cv, s)|] == SectionOf(cv, s);
    WithSection(cv, s, items)
  }

  /**
   * Removing the item at `index` from section `s` leaves the section as
   * splice(index, 1) leaves it; for an index in range that is the section
   * without that item, the others in their order. Nothing else changes.
   */
  function RemoveItem(cv: CvData, s: Section, index: int): (r: CvData)
    ensures SectionOf(r, s) == SpliceOne(SectionOf(cv, s), index)
    ensures 0 <= index < |SectionOf(cv, s)| ==>
      SectionOf(r, s) == SectionOf(cv, s)[..index] + SectionOf(cv, s)[index + 1..]
    ensures forall t :: t != s ==> SectionOf(r, t) == SectionOf(cv, t)
    ensures r.personalInfo == cv.personalInfo && r.summary == cv.summary
    ensures WellFormed(cv) ==> WellFormed(r)
  {
    var items := SectionOf(cv, s);
    assert WellFormed(cv) ==> AllOfKind(SpliceOne(items, index), s) by {
      if WellFormed(cv) { SpliceKeepsKind(items, index, s); }
    }
    WithSection(cv, s, SpliceOne(items, index))
  }

  // ---------------------------------------------------------------------
  // The handlers' list work, as the handlers do it: copy, then edit the copy
  // ---------------------------------------------------------------------

  /** Copies the items into a fresh array and writes the field into the copy's item at `index`. */
  method WriteIntoCopy(items: seq<Item>, index: int, f: ItemField, value: string) returns (r: seq<Item>)
    requires 0 <= index < |items| && HasField(items[index], f)
    ensures r == UpdatedItems(items, index, f, value)
  {
    var list := new Item[|items|](j requires 0 <= j < |items| => items[j]);
    list[index] := SetField(list[index], f, value);
    r := list[..];
  }

  /** Copies the items into a fresh array and splices one element out of it in place. */
  method RemoveFromCopy(items: seq<Item>, index: int) returns (r: seq<Item>)
    ensures r == SpliceOne(items, index)
  {
    var list := new Item[|items|](j requires 0 <= j < |items| => items[j]);
    var k := SpliceStart(index, list.Length);
    if k == list.Length {
      return list[..];
    }
    ShiftLeftFrom(list, k);
    r := list[..list.Length - 1];
  }

  // ---------------------------------------------------------------------
  // Properties relating several handlers
  // ---------------------------------------------------------------------

  /** Removing the item just appended gives back the record as it was. */
  lemma {:induction false} RemoveUndoesAdd(cv: CvData, s: Section, now: nat)
    ensures RemoveItem(AddItem(cv, s, now), s, |SectionOf(cv, s)|) == cv
  {
    var added := AddItem(cv, s, now);
    var n := |SectionOf(cv, s)|;
    var r := RemoveItem(added, s, n);
    assert SectionOf(r, s) == SectionOf(cv, s);
    forall t ensures SectionOf(r, t) == SectionOf(cv, t) { }
    assert r.experience == SectionOf(r, Experience) && cv.experience == SectionOf(cv, Experience);
    assert r.education == SectionOf(r, Education) && cv.education == SectionOf(cv, Education);
    assert r.skills == SectionOf(r, Skills) && cv.skills == SectionOf(cv, Skills);
    assert r.portfolio == SectionOf(r, Portfolio) && cv.portfolio == SectionOf(cv, Portfolio);
    assert r.references == SectionOf(r, References) && cv.references == SectionOf(cv, References);
  }

  /** Writing back the value a field had before undoes an edit. */
  lemma DynamicChangeUndo(cv: CvData, s: Section, index: int, f: ItemField, value: string)
    requires 0 <= index < |SectionOf(cv, s)| && HasField(SectionOf(cv, s)[index], f)
    ensures var before := Get(SectionOf(cv, s)[index], f);
      var edited := DynamicChange(cv, s, index, f, value);
      HasField(SectionOf(edited, s)[index], f) && DynamicChange(edited, s, index, f, before) == cv
  {
    var item := SectionOf(cv, s)[index];
    var edited := DynamicChange(cv, s, index, f, value);
    var back := DynamicChange(edited, s, index, f, Get(item, f));
    var item' := SectionOf(back, s)[index];
    assert item' == item by {
      assert KindOf(item') == KindOf(item) && item'.id == item.id;
      forall g | HasField(item, g) ensures Get(item', g) == Get(item, g) { }
      ItemDeterminedByFields(item', item);
    }
    assert SectionOf(back, s) == SectionOf(cv, s);
    SameSectionsSameRecord(back, cv);
  }

  /** Two items of the same shape with the same id and the same fields are the same item. */
  lemma ItemDeterminedByFields(a: Item, b: Item)
    requires KindOf(a) == KindOf(b) && a.id == b.id
    requires forall g :: HasField(a, g) ==> Get(a, g) == Get(b, g)
    ensures a == b
  {
    match a
    case ExperienceItem(_, _, _, _, _, _, _) =>
      assert Get(a, JobTitle) == Get(b, JobTitle) && Get(a, Company) == Get(b, Company);
      assert Get(a, Location) == Get(b, Location) && Get(a, StartDate) == Get(b, StartDate);
      assert Get(a, EndDate) == Get(b, EndDate) && Get(a, Description) == Get(b, Description);
    case EducationItem(_, _, _, _, _, _) =>
      assert Get(a, Degree) == Get(b, Degree) && Get(a, School) == Get(b, School);
      assert Get(a, Location) == Get(b, Location) && Get(a, StartDate) == Get(b, StartDate);
      assert Get(a, EndDate) == Get(b, EndDate);
    case SkillItem(_, _) =>
      assert Get(a, Name) == Get(b, Name);
    case PortfolioItem(_, _, _, _) =>
      assert Get(a, Title) == Get(b, Title) && Get(a, Link) == Get(b, Link);
      assert Get(a, Description) == Get(b, Description);
    case ReferenceItem(_, _, _, _) =>
      assert Get(a, Name) == Get(b, Name) && Get(a, Contact) == Get(b, Contact);
      assert Get(a, Relation) == Get(b, Relation);
  }

  /** A record is determined by its details, its summary and its five sections. */
  lemma SameSectionsSameRecord(a: CvData, b: CvData)
    requires a.personalInfo == b.personalInfo && a.summary == b.summary
    requires forall s :: SectionOf(a, s) == SectionOf(b, s)
    ensures a == b
  {
    assert SectionOf(a, Experience) == SectionOf(b, Experience);
    assert SectionOf(a, Education) == SectionOf(b, Education);
    assert SectionOf(a, Skills) == SectionOf(b, Skills);
    assert SectionOf(a, Portfolio) == SectionOf(b, Portfolio);
    assert SectionOf(a, References) == SectionOf(b, References);
  }

  /** Two appends in the same millisecond give two items with the same id. */
  lemma SameMillisecondIdsCollide(cv: CvData, s: Section, now: nat)
    ensures var twice := AddItem(AddItem(cv, s, now), s, now);
      var n := |SectionOf(cv, s)|;
      |SectionOf(twice, s)| == n + 2 && SectionOf(twice, s)[n].id == SectionOf(twice, s)[n + 1].id
  {
    var once := AddItem(cv, s, now);
    var n := |SectionOf(cv, s)|;
    assert SectionOf(AddItem(once, s, now), s)[..n + 1] == SectionOf(once, s);
  }

  /** Appends at different milliseconds give items with different ids. */
  lemma DistinctTimestampsDistinctIds(s: Section, t: Section, a: nat, b: nat)
    requires a != b
    ensures DefaultItem(s, a).id != DefaultItem(t, b).id
  {
    NumberToStringInjective(a, b);
  }
}
