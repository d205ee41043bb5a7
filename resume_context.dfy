/**
 * The resume store as the provider component holds it: three state cells (the document,
 * the template id and the language id), each mirrored under its own key into a string-keyed
 * storage, which is read once when the provider is created and written whenever a cell changes.
 */
module ResumeContext {
  import opened Wrappers
  import opened Seqs
  import opened ResumeTypes
  import ResumeDocument
  import DocumentCodec

  const DataKey := "resumeData"
  const TemplateKey := "resumeTemplate"
  const LanguageKey := "resumeLanguage"

  const DefaultTemplate := "modern"
  const DefaultLanguage := "english"

  /** `localStorage.getItem(key)`: `None` stands for `null`. */
  function GetItem(storage: map<string, string>, key: string): (r: Option<string>)
    ensures r.Some? <==> key in storage
    ensures r.Some? ==> r.value == storage[key]
  {
    if key in storage then Some(storage[key]) else None
  }

  /**
   * The initial document: with nothing stored, or the empty string, the all-empty document;
   * otherwise the stored text read back. `None` is a text that cannot be read, on which the
   * source's unguarded `JSON.parse` throws.
   */
  function LoadDocument(saved: Option<string>): (r: Option<ResumeData>)
    ensures (saved.None? || saved == Some("")) ==> r == Some(ResumeDocument.InitialResumeData)
    ensures saved.Some? && saved.value != "" && r.Some? ==> DocumentCodec.Encode(r.value) == saved.value
  {
    match saved
    case None => Some(ResumeDocument.InitialResumeData)
    case Some(text) => if text == "" then Some(ResumeDocument.InitialResumeData) else DocumentCodec.Decode(text)
  }

  /** The initial template id: what is stored, unchecked, unless nothing or `""` is. */
  function LoadTemplate(saved: Option<string>): (r: string)
    ensures r != ""
    ensures saved.Some? && saved.value != "" ==> r == saved.value
    ensures saved.None? || saved.value == "" ==> r == DefaultTemplate
  {
    if saved.Some? && saved.value != "" then saved.value else DefaultTemplate
  }

  /** The initial language id: what is stored, unchecked, unless nothing or `""` is. */
  function LoadLanguage(saved: Option<string>): (r: string)
    ensures r != ""
    ensures saved.Some? && saved.value != "" ==> r == saved.value
    ensures saved.None? || saved.value == "" ==> r == DefaultLanguage
  {
    if saved.Some? && saved.value != "" then saved.value else DefaultLanguage
  }

  /** The storage holds the current value of each of the three cells under its key. */
  ghost predicate Mirrors(storage: map<string, string>, d: ResumeData, template: string, language: string) {
    && DataKey in storage && storage[DataKey] == DocumentCodec.Encode(d)
    && TemplateKey in storage && storage[TemplateKey] == template
    && LanguageKey in storage && storage[LanguageKey] == language
  }

  /** What the three effects write; every other key is left alone. */
  function Persist(storage: map<string, string>, d: ResumeData, template: string, language: string)
    : (r: map<string, string>)
    ensures Mirrors(r, d, template, language)
    ensures r.Keys == storage.Keys + {DataKey, TemplateKey, LanguageKey}
    ensures forall k :: k in storage && k != DataKey && k != TemplateKey && k != LanguageKey ==>
      r[k] == storage[k]
  {
    storage[DataKey := DocumentCodec.Encode(d)][TemplateKey := template][LanguageKey := language]
  }

  /** Loading from a storage that mirrors the cells gives those cells back. */
  lemma Reload(storage: map<string, string>, d: ResumeData, template: string, language: string)
    requires Mirrors(storage, d, template, language)
    requires template != "" && language != ""
    ensures LoadDocument(GetItem(storage, DataKey)) == Some(d)
    ensures LoadTemplate(GetItem(storage, TemplateKey)) == template
    ensures LoadLanguage(GetItem(storage, LanguageKey)) == language
  {
    DocumentCodec.DecodeEncode(d);
  }

  /** With nothing stored, a store starts from the all-empty document, `modern` and `english`. */
  lemma LoadDefaults()
    ensures LoadDocument(GetItem(map[], DataKey)) == Some(ResumeDocument.InitialResumeData)
    ensures LoadTemplate(GetItem(map[], TemplateKey)) == "modern"
    ensures LoadLanguage(GetItem(map[], LanguageKey)) == "english"
  {
  }

  class ResumeProvider {
    var resumeData: ResumeData
    var template: string
    var language: string
    /** The browser's `localStorage`. */
    var storage: map<string, string>

    ghost predicate Valid()
      reads this
    {
      Mirrors(storage, resumeData, template, language) && template != "" && language != ""
    }

    /** The state initialisers read the storage; the mount effects then write all three keys. */
    constructor(stored: map<string, string>)
      requires LoadDocument(GetItem(stored, DataKey)).Some?
      ensures resumeData == LoadDocument(GetItem(stored, DataKey)).value
      ensures template == LoadTemplate(GetItem(stored, TemplateKey))
      ensures language == LoadLanguage(GetItem(stored, LanguageKey))
      ensures storage == Persist(stored, resumeData, template, language)
      ensures Valid()
    {
      resumeData := LoadDocument(GetItem(stored, DataKey)).value;
      template := LoadTemplate(GetItem(stored, TemplateKey));
      language := LoadLanguage(GetItem(stored, LanguageKey));
      storage := Persist(stored, LoadDocument(GetItem(stored, DataKey)).value,
                         LoadTemplate(GetItem(stored, TemplateKey)),
                         LoadLanguage(GetItem(stored, LanguageKey)));
    }

    /** A new document, and the effect that writes it under `resumeData`. */
    method SetResumeData(d: ResumeData)
      requires Valid()
      modifies this
      ensures resumeData == d && template == old(template) && language == old(language)
      ensures storage == old(storage)[DataKey := DocumentCodec.Encode(d)]
      ensures Valid()
    {
      resumeData := d;
      storage := storage[DataKey := DocumentCodec.Encode(d)];
    }

    method UpdatePersonalInfo(info: PersonalInfoPatch)
      requires Valid()
      modifies this
      ensures resumeData == ResumeDocument.UpdatePersonalInfo(old(resumeData), info)
      ensures template == old(template) && language == old(language)
      ensures storage == old(storage)[DataKey := DocumentCodec.Encode(resumeData)]
      ensures Valid()
    {
      SetResumeData(ResumeDocument.UpdatePersonalInfo(resumeData, info));
    }

    method UpdateSummary(summary: string)
      requires Valid()
      modifies this
      ensures resumeData == ResumeDocument.UpdateSummary(old(resumeData), summary)
      ensures template == old(template) && language == old(language)
      ensures storage == old(storage)[DataKey := DocumentCodec.Encode(resumeData)]
      ensures Valid()
    {
      SetResumeData(ResumeDocument.UpdateSummary(resumeData, summary));
    }

    /** `addExperience`, with the id `generateId` would give passed in, unused so far. */
    method AddExperience(experience: ExperienceDraft, freshId: string)
      requires Valid()
      requires !HasKey(resumeData.experience, ExperienceId, freshId)
      modifies this
      ensures resumeData == ResumeDocument.AddExperience(old(resumeData), experience, freshId)
      ensures template == old(template) && language == old(language)
      ensures storage == old(storage)[DataKey := DocumentCodec.Encode(resumeData)]
      ensures ResumeDocument.UniqueIds(old(resumeData)) ==> ResumeDocument.UniqueIds(resumeData)
      ensures Valid()
    {
      if ResumeDocument.UniqueIds(resumeData) {
        ResumeDocument.UpdatesKeepUniqueIds(resumeData, freshId, experience,
          EducationDraft("", "", "", "", "", false, None, None, None),
          EmptyExperiencePatch, EmptyEducationPatch);
      }
      SetResumeData(ResumeDocument.AddExperience(resumeData, experience, freshId));
    }

    method UpdateExperience(id: string, experience: ExperiencePatch)
      requires Valid()
      modifies this
      ensures resumeData == ResumeDocument.UpdateExperience(old(resumeData), id, experience)
      ensures template == old(template) && language == old(language)
      ensures storage == old(storage)[DataKey := DocumentCodec.Encode(resumeData)]
      ensures Valid()
    {
      SetResumeData(ResumeDocument.UpdateExperience(resumeData, id, experience));
    }

    method RemoveExperience(id: string)
      requires Valid()
      modifies this
      ensures resumeData == ResumeDocument.RemoveExperience(old(resumeData), id)
      ensures template == old(template) && language == old(language)
      ensures storage == old(storage)[DataKey := DocumentCodec.Encode(resumeData)]
      ensures Valid()
    {
      SetResumeData(ResumeDocument.RemoveExperience(resumeData, id));
    }

    /** `addEducation`, with the id `generateId` would give passed in, unused so far. */
    method AddEducation(education: EducationDraft, freshId: string)
      requires Valid()
      requires !HasKey(resumeData.education, EducationId, freshId)
      modifies this
      ensures resumeData == ResumeDocument.AddEducation(old(resumeData), education, freshId)
      ensures template == old(template) && language == old(language)
      ensures storage == old(storage)[DataKey := DocumentCodec.Encode(resumeData)]
      ensures ResumeDocument.UniqueIds(old(resumeData)) ==> ResumeDocument.UniqueIds(resumeData)
      ensures Valid()
    {
      if ResumeDocument.UniqueIds(resumeData) {
        ResumeDocument.UpdatesKeepUniqueIds(resumeData, freshId,
          ExperienceDraft("", "", "", "", false, "", None), education,
          EmptyExperiencePatch, EmptyEducationPatch);
      }
      SetResumeData(ResumeDocument.AddEducation(resumeData, education, freshId));
    }

    method UpdateEducation(id: string, education: EducationPatch)
      requires Valid()
      modifies this
      ensures resumeData == ResumeDocument.UpdateEducation(old(resumeData), id, education)
      ensures template == old(template) && language == old(language)
      ensures storage == old(storage)[DataKey := DocumentCodec.Encode(resumeData)]
      ensures Valid()
    {
      SetResumeData(ResumeDocument.UpdateEducation(resumeData, id, education));
    }

    method RemoveEducation(id: string)
      requires Valid()
      modifies this
      ensures resumeData == ResumeDocument.RemoveEducation(old(resumeData), id)
      ensures template == old(template) && language == old(language)
      ensures storage == old(storage)[DataKey := DocumentCodec.Encode(resumeData)]
      ensures Valid()
    {
      SetResumeData(ResumeDocument.RemoveEducation(resumeData, id));
    }

    method UpdateSkills(skills: seq<string>)
      requires Valid()
      modifies this
      ensures resumeData == ResumeDocument.UpdateSkills(old(resumeData), skills)
      ensures template == old(template) && language == old(language)
      ensures storage == old(storage)[DataKey := DocumentCodec.Encode(resumeData)]
      ensures Valid()
    {
      SetResumeData(ResumeDocument.UpdateSkills(resumeData, skills));
    }

    /** `setTemplate`, and the effect that writes it under `resumeTemplate`. */
    method SetTemplate(t: TemplateType)
      requires Valid()
      modifies this
      ensures template == TemplateId(t)
      ensures resumeData == old(resumeData) && language == old(language)
      ensures storage == old(storage)[TemplateKey := TemplateId(t)]
      ensures Valid()
    {
      template := TemplateId(t);
      storage := storage[TemplateKey := template];
    }

    /** `setLanguage`, and the effect that writes it under `resumeLanguage`. */
    method SetLanguage(l: LanguageType)
      requires Valid()
      modifies this
      ensures language == LanguageId(l)
      ensures resumeData == old(resumeData) && template == old(template)
      ensures storage == old(storage)[LanguageKey := LanguageId(l)]
      ensures Valid()
    {
      language := LanguageId(l);
      storage := storage[LanguageKey := language];
    }
  }
}
