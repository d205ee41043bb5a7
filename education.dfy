/**
 * The education form. It keeps no state of its own: it builds the blank entry its add button
 * creates and the patch its "currently studying" checkbox sends, labels each entry, shows an
 * absent optional field as the empty string, and hands everything to the store.
 */
module Education {
  import opened Wrappers
  import opened Strings
  import opened ResumeTypes
  import ResumeDocument
  import Headings

  /**
   * The entry `handleAddEducation` hands to the store: institution, degree, field, dates and
   * location empty, not currently studying, and no description or GPA at all.
   */
  const NewEducation := EducationDraft("", "", "", "", "", false, None, Some(""), None)

  /** The checkbox's patch: the flag, and an end date of `Present` or of nothing. */
  function CurrentlyStudyingPatch(checked: bool): (p: EducationPatch)
    ensures p.isCurrentlyStudying == Some(checked)
    ensures p.endDate == Some(if checked then "Present" else "")
    ensures p == EmptyEducationPatch.(isCurrentlyStudying := p.isCurrentlyStudying, endDate := p.endDate)
  {
    EmptyEducationPatch.(isCurrentlyStudying := Some(checked), endDate := Some(if checked then "Present" else ""))
  }

  /** The end-date input is disabled while the entry is currently studied. */
  predicate EndDateDisabled(e: EducationItem) {
    e.isCurrentlyStudying
  }

  /**
   * Toggling sets the flag and the end date of the entries with that id, whatever the end date
   * was, and leaves every other field and every other entry alone; the end date is then
   * disabled exactly when the box is checked.
   */
  lemma ToggleCurrentlyStudying(d: ResumeData, id: string, checked: bool, i: nat)
    requires i < |d.education|
    ensures var r := ResumeDocument.UpdateEducation(d, id, CurrentlyStudyingPatch(checked));
      && (d.education[i].id == id ==>
            r.education[i] == d.education[i].(isCurrentlyStudying := checked,
                                              endDate := if checked then "Present" else "")
            && (EndDateDisabled(r.education[i]) <==> checked))
      && (d.education[i].id != id ==> r.education[i] == d.education[i])
  {
  }

  /** The heading of the entry at `index`. */
  function Heading(e: EducationItem, index: nat): (r: string)
    ensures e.degree != "" || e.institution != "" ==>
      r == OrElse(e.degree, "Degree") + " at " + OrElse(e.institution, "Institution")
    ensures e.degree == "" && e.institution == "" ==> r == "Education " + NatToString(index + 1)
  {
    Headings.ItemHeading(e.degree, "Degree", e.institution, "Institution", "Education", index)
  }

  /** Unnamed entries are told apart by their position in the list. */
  lemma UnnamedHeadingsDistinct(a: EducationItem, b: EducationItem, i: nat, j: nat)
    requires a.degree == "" && a.institution == "" && b.degree == "" && b.institution == ""
    requires i != j
    ensures Heading(a, i) != Heading(b, j)
  {
    Headings.BlankHeadingsDistinct("Education", "Degree", "Institution", i, j);
  }

  /** `value={edu.location || ''}` and the like: an absent optional field shows as `''`. */
  function Shown(o: Option<string>): (r: string)
    ensures o.None? ==> r == ""
    ensures o.Some? ==> r == o.value
  {
    o.GetOr("")
  }

  /** A fresh entry shows empty optional fields, though only its location is set. */
  lemma NewEducationShowsEmpty(id: string)
    ensures var e := ResumeDocument.EducationOfDraft(NewEducation, id);
      && Shown(e.location) == "" && Shown(e.gpa) == "" && Shown(e.description) == ""
      && e.location.Some? && e.gpa.None? && e.description.None?
  {
  }

  /** Typing into an optional field and showing it again gives the typed text. */
  lemma ShownAfterEdit(d: ResumeData, id: string, text: string, i: nat)
    requires i < |d.education| && d.education[i].id == id
    ensures Shown(ResumeDocument.UpdateEducation(d, id, EmptyEducationPatch.(gpa := Some(text))).education[i].gpa) == text
    ensures Shown(ResumeDocument.UpdateEducation(d, id, EmptyEducationPatch.(location := Some(text))).education[i].location) == text
    ensures Shown(ResumeDocument.UpdateEducation(d, id, EmptyEducationPatch.(description := Some(text))).education[i].description) == text
  {
  }
}
