/**
 * The pure part of the resume store: the document a fresh store starts from, and each named
 * update as a function from the previous document to the next. A personal-info or list-entry
 * patch is a shallow merge (`{ ...prev, ...patch }`): a key the patch has wins, every other
 * key keeps its value.
 */
module ResumeDocument {
  import opened Wrappers
  import opened Seqs
  import opened ResumeTypes

  /** The all-empty document; the optional profile links are absent. */
  const InitialResumeData := ResumeData(
    PersonalInfo("", "", "", "", "", None, None), "", [], [], [])

  // ---------------------------------------------------------------- shallow merges

  function MergePersonalInfo(p: PersonalInfo, patch: PersonalInfoPatch): (r: PersonalInfo)
    ensures r.fullName == if patch.fullName.Some? then patch.fullName.value else p.fullName
    ensures r.email == if patch.email.Some? then patch.email.value else p.email
    ensures r.phone == if patch.phone.Some? then patch.phone.value else p.phone
    ensures r.location == if patch.location.Some? then patch.location.value else p.location
    ensures r.title == if patch.title.Some? then patch.title.value else p.title
    ensures r.linkedin == if patch.linkedin.Some? then patch.linkedin else p.linkedin
    ensures r.website == if patch.website.Some? then patch.website else p.website
  {
    PersonalInfo(
      patch.fullName.GetOr(p.fullName), patch.email.GetOr(p.email), patch.phone.GetOr(p.phone),
      patch.location.GetOr(p.location), patch.title.GetOr(p.title),
      patch.linkedin.Otherwise(p.linkedin), patch.website.Otherwise(p.website))
  }

  function MergeExperience(x: ExperienceItem, patch: ExperiencePatch): (r: ExperienceItem)
    ensures r.id == if patch.id.Some? then patch.id.value else x.id
    ensures r.company == if patch.company.Some? then patch.company.value else x.company
    ensures r.position == if patch.position.Some? then patch.position.value else x.position
    ensures r.startDate == if patch.startDate.Some? then patch.startDate.value else x.startDate
    ensures r.endDate == if patch.endDate.Some? then patch.endDate.value else x.endDate
    ensures r.isCurrentPosition ==
      if patch.isCurrentPosition.Some? then patch.isCurrentPosition.value else x.isCurrentPosition
    ensures r.description == if patch.description.Some? then patch.description.value else x.description
    ensures r.location == if patch.location.Some? then patch.location else x.location
  {
    ExperienceItem(
      patch.id.GetOr(x.id), patch.company.GetOr(x.company), patch.position.GetOr(x.position),
      patch.startDate.GetOr(x.startDate), patch.endDate.GetOr(x.endDate),
      patch.isCurrentPosition.GetOr(x.isCurrentPosition), patch.description.GetOr(x.description),
      patch.location.Otherwise(x.location))
  }

  function MergeEducation(x: EducationItem, patch: EducationPatch): (r: EducationItem)
    ensures r.id == if patch.id.Some? then patch.id.value else x.id
    ensures r.institution == if patch.institution.Some? then patch.institution.value else x.institution
    ensures r.degree == if patch.degree.Some? then patch.degree.value else x.degree
    ensures r.field == if patch.field.Some? then patch.field.value else x.field
    ensures r.startDate == if patch.startDate.Some? then patch.startDate.value else x.startDate
    ensures r.endDate == if patch.endDate.Some? then patch.endDate.value else x.endDate
    ensures r.isCurrentlyStudying ==
      if patch.isCurrentlyStudying.Some? then patch.isCurrentlyStudying.value else x.isCurrentlyStudying
    ensures r.description == if patch.description.Some? then patch.description else x.description
    ensures r.location == if patch.location.Some? then patch.location else x.location
    ensures r.gpa == if patch.gpa.Some? then patch.gpa else x.gpa
  {
    EducationItem(
      patch.id.GetOr(x.id), patch.institution.GetOr(x.institution), patch.degree.GetOr(x.degree),
      patch.field.GetOr(x.field), patch.startDate.GetOr(x.startDate), patch.endDate.GetOr(x.endDate),
      patch.isCurrentlyStudying.GetOr(x.isCurrentlyStudying), patch.description.Otherwise(x.description),
      patch.location.Otherwise(x.location), patch.gpa.Otherwise(x.gpa))
  }

  /** The empty patch changes nothing, and merging the same patch twice is merging it once. */
  lemma MergeEmptyAndIdempotent(p: PersonalInfo, pp: PersonalInfoPatch,
                                x: ExperienceItem, xp: ExperiencePatch,
                                e: EducationItem, ep: EducationPatch)
    ensures MergePersonalInfo(p, EmptyPersonalInfoPatch) == p
    ensures MergeExperience(x, EmptyExperiencePatch) == x
    ensures MergeEducation(e, EmptyEducationPatch) == e
    ensures MergePersonalInfo(MergePersonalInfo(p, pp), pp) == MergePersonalInfo(p, pp)
    ensures MergeExperience(MergeExperience(x, xp), xp) == MergeExperience(x, xp)
    ensures MergeEducation(MergeEducation(e, ep), ep) == MergeEducation(e, ep)
  {
  }

  // ---------------------------------------------------------------- document updates

  /** `updatePersonalInfo`: merges the patch into the personal details and touches nothing else. */
  function UpdatePersonalInfo(d: ResumeData, patch: PersonalInfoPatch): (r: ResumeData)
    ensures r.personalInfo == MergePersonalInfo(d.personalInfo, patch)
    ensures r.summary == d.summary && r.experience == d.experience
    ensures r.education == d.education && r.skills == d.skills
  {
    d.(personalInfo := MergePersonalInfo(d.personalInfo, patch))
  }

  /** `updateSummary`: replaces the summary only. */
  function UpdateSummary(d: ResumeData, summary: string): (r: ResumeData)
    ensures r.summary == summary
    ensures r.personalInfo == d.personalInfo && r.experience == d.experience
    ensures r.education == d.education && r.skills == d.skills
  {
    d.(summary := summary)
  }

  /** `updateSkills`: replaces the skill list wholesale, and nothing else. */
  function UpdateSkills(d: ResumeData, skills: seq<string>): (r: ResumeData)
    ensures r.skills == skills
    ensures r.personalInfo == d.personalInfo && r.summary == d.summary
    ensures r.experience == d.experience && r.education == d.education
  {
    d.(skills := skills)
  }

  /** `{ ...experience, id }`: a draft given its id. */
  function ExperienceOfDraft(x: ExperienceDraft, id: string): (r: ExperienceItem)
    ensures r.id == id && r.company == x.company && r.position == x.position
    ensures r.startDate == x.startDate && r.endDate == x.endDate
    ensures r.isCurrentPosition == x.isCurrentPosition && r.description == x.description
    ensures r.location == x.location
  {
    ExperienceItem(id, x.company, x.position, x.startDate, x.endDate, x.isCurrentPosition,
                   x.description, x.location)
  }

  function EducationOfDraft(x: EducationDraft, id: string): (r: EducationItem)
    ensures r.id == id && r.institution == x.institution && r.degree == x.degree
    ensures r.field == x.field && r.startDate == x.startDate && r.endDate == x.endDate
    ensures r.isCurrentlyStudying == x.isCurrentlyStudying && r.description == x.description
    ensures r.location == x.location && r.gpa == x.gpa
  {
    EducationItem(id, x.institution, x.degree, x.field, x.startDate, x.endDate,
                  x.isCurrentlyStudying, x.description, x.location, x.gpa)
  }

  /** `addExperience`: the new entry first, then the old list unchanged and in order. */
  function AddExperience(d: ResumeData, x: ExperienceDraft, id: string): (r: ResumeData)
    ensures |r.experience| == |d.experience| + 1
    ensures r.experience[0] == ExperienceOfDraft(x, id) && r.experience[1..] == d.experience
    ensures r.personalInfo == d.personalInfo && r.summary == d.summary
    ensures r.education == d.education && r.skills == d.skills
  {
    d.(experience := [ExperienceOfDraft(x, id)] + d.experience)
  }

  /**
   * `updateExperience`: every entry with the id gets the patch merged over it; the list keeps
   * its length and order, and every other entry is left as it was.
   */
  function UpdateExperience(d: ResumeData, id: string, patch: ExperiencePatch): (r: ResumeData)
    ensures |r.experience| == |d.experience|
    ensures forall i :: 0 <= i < |d.experience| && d.experience[i].id == id ==>
      r.experience[i] == MergeExperience(d.experience[i], patch)
    ensures forall i :: 0 <= i < |d.experience| && d.experience[i].id != id ==>
      r.experience[i] == d.experience[i]
    ensures r.personalInfo == d.personalInfo && r.summary == d.summary
    ensures r.education == d.education && r.skills == d.skills
  {
    d.(experience := UpdateWhere(d.experience, ExperienceId, id, x => MergeExperience(x, patch)))
  }

  /** `removeExperience`: keeps exactly the entries whose id differs. */
  function RemoveExperience(d: ResumeData, id: string): (r: ResumeData)
    ensures forall i :: 0 <= i < |r.experience| ==> r.experience[i].id != id && r.experience[i] in d.experience
    ensures forall i :: 0 <= i < |d.experience| && d.experience[i].id != id ==> d.experience[i] in r.experience
    ensures r.experience == RemoveWhere(d.experience, ExperienceId, id)
    ensures r.personalInfo == d.personalInfo && r.summary == d.summary
    ensures r.education == d.education && r.skills == d.skills
  {
    d.(experience := RemoveWhere(d.experience, ExperienceId, id))
  }

  /** `addEducation`: the new entry first, then the old list unchanged and in order. */
  function AddEducation(d: ResumeData, x: EducationDraft, id: string): (r: ResumeData)
    ensures |r.education| == |d.education| + 1
    ensures r.education[0] == EducationOfDraft(x, id) && r.education[1..] == d.education
    ensures r.personalInfo == d.personalInfo && r.summary == d.summary
    ensures r.experience == d.experience && r.skills == d.skills
  {
    d.(education := [EducationOfDraft(x, id)] + d.education)
  }

  /** `updateEducation`: as `updateExperience`, on the education list. */
  function UpdateEducation(d: ResumeData, id: string, patch: EducationPatch): (r: ResumeData)
    ensures |r.education| == |d.education|
    ensures forall i :: 0 <= i < |d.education| && d.education[i].id == id ==>
      r.education[i] == MergeEducation(d.education[i], patch)
    ensures forall i :: 0 <= i < |d.education| && d.education[i].id != id ==>
      r.education[i] == d.education[i]
    ensures r.personalInfo == d.personalInfo && r.summary == d.summary
    ensures r.experience == d.experience && r.skills == d.skills
  {
    d.(education := UpdateWhere(d.education, EducationId, id, x => MergeEducation(x, patch)))
  }

  /** `removeEducation`: keeps exactly the entries whose id differs. */
  function RemoveEducation(d: ResumeData, id: string): (r: ResumeData)
    ensures forall i :: 0 <= i < |r.education| ==> r.education[i].id != id && r.education[i] in d.education
    ensures forall i :: 0 <= i < |d.education| && d.education[i].id != id ==> d.education[i] in r.education
    ensures r.education == RemoveWhere(d.education, EducationId, id)
    ensures r.personalInfo == d.personalInfo && r.summary == d.summary
    ensures r.experience == d.experience && r.skills == d.skills
  {
    d.(education := RemoveWhere(d.education, EducationId, id))
  }

  // ---------------------------------------------------------------- properties of the list updates

  /** No entry has two ids in common: what a fresh id for every added entry maintains. */
  ghost predicate UniqueIds(d: ResumeData) {
    UniqueKeys(d.experience, ExperienceId) && UniqueKeys(d.education, EducationId)
  }

  /** An id that matches no entry makes update and remove no-ops. */
  lemma AbsentIdIsNoOp(d: ResumeData, id: string, xp: ExperiencePatch, ep: EducationPatch)
    requires !HasKey(d.experience, ExperienceId, id)
    requires !HasKey(d.education, EducationId, id)
    ensures UpdateExperience(d, id, xp) == d && RemoveExperience(d, id) == d
    ensures UpdateEducation(d, id, ep) == d && RemoveEducation(d, id) == d
  {
    var r := UpdateExperience(d, id, xp);
    forall i | 0 <= i < |d.experience| ensures r.experience[i] == d.experience[i] {
      assert ExperienceId(d.experience[i]) != id;
    }
    var s := UpdateEducation(d, id, ep);
    forall i | 0 <= i < |d.education| ensures s.education[i] == d.education[i] {
      assert EducationId(d.education[i]) != id;
    }
  }

  /** A patch without an `id` key changes no entry's id; only one with one can. */
  lemma PatchWithoutIdKeepsIds(d: ResumeData, id: string, xp: ExperiencePatch, ep: EducationPatch)
    requires xp.id.None? && ep.id.None?
    ensures Keys(UpdateExperience(d, id, xp).experience, ExperienceId) == Keys(d.experience, ExperienceId)
    ensures Keys(UpdateEducation(d, id, ep).education, EducationId) == Keys(d.education, EducationId)
  {
    KeyPreservingUpdateKeepsKeys(d.experience, ExperienceId, id, x => MergeExperience(x, xp));
    KeyPreservingUpdateKeepsKeys(d.education, EducationId, id, x => MergeEducation(x, ep));
  }

  /** Removal keeps the others in relative order: it distributes over any split of the list. */
  lemma RemoveKeepsOrder(d: ResumeData, id: string, i: nat, j: nat)
    requires i <= |d.experience| && j <= |d.education|
    ensures RemoveExperience(d, id).experience ==
      RemoveWhere(d.experience[..i], ExperienceId, id) + RemoveWhere(d.experience[i..], ExperienceId, id)
    ensures RemoveEducation(d, id).education ==
      RemoveWhere(d.education[..j], EducationId, id) + RemoveWhere(d.education[j..], EducationId, id)
  {
    assert d.experience == d.experience[..i] + d.experience[i..];
    RemoveWhereConcat(d.experience[..i], d.experience[i..], ExperienceId, id);
    assert d.education == d.education[..j] + d.education[j..];
    RemoveWhereConcat(d.education[..j], d.education[j..], EducationId, id);
  }

  /** Removing twice is removing once. */
  lemma RemoveIdempotent(d: ResumeData, id: string)
    ensures RemoveExperience(RemoveExperience(d, id), id) == RemoveExperience(d, id)
    ensures RemoveEducation(RemoveEducation(d, id), id) == RemoveEducation(d, id)
  {
    RemoveWhereIdempotent(d.experience, ExperienceId, id);
    RemoveWhereIdempotent(d.education, EducationId, id);
  }

  /** Adding under a fresh id, removing, and updating without an id key all keep ids unique. */
  lemma UpdatesKeepUniqueIds(d: ResumeData, id: string, x: ExperienceDraft, e: EducationDraft,
                             xp: ExperiencePatch, ep: EducationPatch)
    requires UniqueIds(d)
    ensures !HasKey(d.experience, ExperienceId, id) ==> UniqueIds(AddExperience(d, x, id))
    ensures !HasKey(d.education, EducationId, id) ==> UniqueIds(AddEducation(d, e, id))
    ensures UniqueIds(RemoveExperience(d, id)) && UniqueIds(RemoveEducation(d, id))
    ensures xp.id.None? ==> UniqueIds(UpdateExperience(d, id, xp))
    ensures ep.id.None? ==> UniqueIds(UpdateEducation(d, id, ep))
  {
    if !HasKey(d.experience, ExperienceId, id) {
      PrependKeepsUniqueKeys(ExperienceOfDraft(x, id), d.experience, ExperienceId);
    }
    if !HasKey(d.education, EducationId, id) {
      PrependKeepsUniqueKeys(EducationOfDraft(e, id), d.education, EducationId);
    }
    RemoveWhereKeepsUniqueKeys(d.experience, ExperienceId, id);
    RemoveWhereKeepsUniqueKeys(d.education, EducationId, id);
    if xp.id.None? {
      PatchWithoutIdKeepsIds(d, id, xp, ep.(id := None));
      UniqueKeysFromKeys(d.experience, UpdateExperience(d, id, xp).experience, ExperienceId);
    }
    if ep.id.None? {
      PatchWithoutIdKeepsIds(d, id, xp.(id := None), ep);
      UniqueKeysFromKeys(d.education, UpdateEducation(d, id, ep).education, EducationId);
    }
  }
}
