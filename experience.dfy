/**
 * The work-experience form: the blank entry its add button creates, the patch its
 * "I currently work here" checkbox sends, the heading of each entry, and description
 * generation, which is guarded by the entry having a position and a company, marks the entry
 * as generating while the request is out, and patches only that entry's description.
 */
module Experience {
  import opened Wrappers
  import opened Seqs
  import opened ResumeTypes
  import ResumeDocument
  import ResumeContext
  import DocumentCodec
  import opened Strings
  import Headings

  /** The entry `handleAddExperience` hands to the store: every text empty, not current. */
  const NewExperience := ExperienceDraft("", "", "", "", false, "", Some(""))

  /** The checkbox's patch: the flag, and an end date of `Present` or of nothing. */
  function CurrentPositionPatch(checked: bool): (p: ExperiencePatch)
    ensures p.isCurrentPosition == Some(checked)
    ensures p.endDate == Some(if checked then "Present" else "")
    ensures p == EmptyExperiencePatch.(isCurrentPosition := p.isCurrentPosition, endDate := p.endDate)
  {
    EmptyExperiencePatch.(isCurrentPosition := Some(checked), endDate := Some(if checked then "Present" else ""))
  }

  /** The end-date input is disabled while the entry is a current position. */
  predicate EndDateDisabled(e: ExperienceItem) {
    e.isCurrentPosition
  }

  /**
   * Toggling sets the flag and the end date of the entries with that id, whatever the end date
   * was, and leaves every other field and every other entry alone; the end date is then
   * disabled exactly when the box is checked.
   */
  lemma ToggleCurrentPosition(d: ResumeData, id: string, checked: bool, i: nat)
    requires i < |d.experience|
    ensures var r := ResumeDocument.UpdateExperience(d, id, CurrentPositionPatch(checked));
      && (d.experience[i].id == id ==>
            r.experience[i] == d.experience[i].(isCurrentPosition := checked,
                                                endDate := if checked then "Present" else "")
            && (EndDateDisabled(r.experience[i]) <==> checked))
      && (d.experience[i].id != id ==> r.experience[i] == d.experience[i])
  {
  }

  /** The heading of the entry at `index`. */
  function Heading(e: ExperienceItem, index: nat): (r: string)
    ensures e.position != "" || e.company != "" ==>
      r == OrElse(e.position, "Position") + " at " + OrElse(e.company, "Company")
    ensures e.position == "" && e.company == "" ==> r == "Experience " + NatToString(index + 1)
  {
    Headings.ItemHeading(e.position, "Position", e.company, "Company", "Experience", index)
  }

  /** Unnamed entries are told apart by their position in the list. */
  lemma UnnamedHeadingsDistinct(a: ExperienceItem, b: ExperienceItem, i: nat, j: nat)
    requires a.position == "" && a.company == "" && b.position == "" && b.company == ""
    requires i != j
    ensures Heading(a, i) != Heading(b, j)
  {
    Headings.BlankHeadingsDistinct("Experience", "Position", "Company", i, j);
  }

  /** The guard of `handleGenerateDescription`: the entry exists and has a position and a company. */
  predicate CanGenerate(found: Option<ExperienceItem>) {
    found.Some? && found.value.position != "" && found.value.company != ""
  }

  /** The generate button is disabled while that entry is generating or lacks a company or a position. */
  predicate GenerateDisabled(isGenerating: Option<string>, e: ExperienceItem) {
    isGenerating == Some(e.id) || e.company == "" || e.position == ""
  }

  /**
   * With distinct ids, the button of entry `i` is disabled exactly while it is generating or
   * while the handler would refuse to generate for it.
   */
  lemma GenerateButtonMatchesGuard(xs: seq<ExperienceItem>, isGenerating: Option<string>, i: nat)
    requires UniqueKeys(xs, ExperienceId) && i < |xs|
    ensures GenerateDisabled(isGenerating, xs[i]) <==>
      isGenerating == Some(xs[i].id) || !CanGenerate(FindByKey(xs, ExperienceId, xs[i].id))
  {
    FindByKeyUnique(xs, ExperienceId, i);
  }

  /** The patch a successful generation sends. */
  function DescriptionPatch(description: string): (p: ExperiencePatch)
    ensures p.description == Some(description)
    ensures p == EmptyExperiencePatch.(description := p.description)
  {
    EmptyExperiencePatch.(description := Some(description))
  }

  /** A generated description replaces the description of the entries with that id, only. */
  lemma GenerationPatchesOnlyDescription(d: ResumeData, id: string, description: string, i: nat)
    requires i < |d.experience|
    ensures var r := ResumeDocument.UpdateExperience(d, id, DescriptionPatch(description));
      && (d.experience[i].id == id ==> r.experience[i] == d.experience[i].(description := description))
      && (d.experience[i].id != id ==> r.experience[i] == d.experience[i])
  {
  }

  /** What the first half of a generation leads to. */
  datatype GenerateStep =
    | MissingInformation
    | Request(position: string, company: string)

  /** The toast the second half shows. */
  datatype Toast = DescriptionGenerated | GenerationFailed

  class ExperienceForm {
    /** The id whose description is being generated, if any. */
    var isGenerating: Option<string>

    constructor()
      ensures isGenerating == None
    {
      isGenerating := None;
    }

    method HandleAddExperience(store: ResumeContext.ResumeProvider, freshId: string)
      requires store.Valid()
      requires !HasKey(store.resumeData.experience, ExperienceId, freshId)
      modifies store
      ensures store.Valid()
      ensures store.resumeData == ResumeDocument.AddExperience(old(store.resumeData), NewExperience, freshId)
      ensures store.storage == old(store.storage)[ResumeContext.DataKey := DocumentCodec.Encode(store.resumeData)]
      ensures store.template == old(store.template) && store.language == old(store.language)
    {
      store.AddExperience(NewExperience, freshId);
    }

    /**
     * `handleGenerateDescription` up to its `await`: without a position and a company the
     * handler shows the missing-information toast and is done (its `finally` clears the
     * generating marker); otherwise the entry is marked as generating and the request goes out.
     * The store is not changed either way.
     */
    method BeginGenerate(store: ResumeContext.ResumeProvider, id: string) returns (step: GenerateStep)
      modifies this
      ensures var found := FindByKey(store.resumeData.experience, ExperienceId, id);
        && (CanGenerate(found) ==>
              step == Request(found.value.position, found.value.company) && isGenerating == Some(id))
        && (!CanGenerate(found) ==> step == MissingInformation && isGenerating == None)
    {
      isGenerating := Some(id);
      var found := FindByKey(store.resumeData.experience, ExperienceId, id);
      if CanGenerate(found) {
        step := Request(found.value.position, found.value.company);
      } else {
        step := MissingInformation;
        isGenerating := None;
      }
    }

    /**
     * `handleGenerateDescription` after its `await`: `response` is the generated text, or
     * `None` when the call rejected. Only the button of the entry being generated is disabled,
     * so another entry's request may have started meanwhile and the marker may name it; the
     * `finally` clears the marker whichever entry it names. A text patches the description of
     * entry `id`.
     */
    method FinishGenerate(store: ResumeContext.ResumeProvider, id: string, response: Option<string>)
      returns (toast: Toast)
      requires store.Valid()
      modifies this, store
      ensures isGenerating == None && store.Valid()
      ensures response.Some? ==>
        && toast == DescriptionGenerated
        && store.resumeData == ResumeDocument.UpdateExperience(old(store.resumeData), id, DescriptionPatch(response.value))
        && store.storage == old(store.storage)[ResumeContext.DataKey := DocumentCodec.Encode(store.resumeData)]
      ensures response.None? ==>
        && toast == GenerationFailed
        && store.resumeData == old(store.resumeData) && store.storage == old(store.storage)
      ensures store.template == old(store.template) && store.language == old(store.language)
    {
      if response.Some? {
        store.UpdateExperience(id, DescriptionPatch(response.value));
        toast := DescriptionGenerated;
      } else {
        toast := GenerationFailed;
      }
      isGenerating := None;
    }
  }
}
