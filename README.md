# Resume builder store and form rules, in Dafny

This project models the core of a browser-based resume builder written in TypeScript and React.

The centre of that core is the **resume document store**, `ResumeContext.tsx`. It holds three things:

- a `ResumeData` document: personal details, a summary, and lists of work experience, education and skills;
- the id of the chosen template;
- the id of the chosen language.

The store changes all three only through named updates:

- a shallow merge for personal details;
- a wholesale replace for the summary and the skills;
- prepend, update-by-id and remove-by-id for the two entry lists.

Each value is mirrored into `localStorage` under its own key. On start-up a missing value falls back to a default.

Around the store sit the small rules of the form components:

- skill-input parsing and the ordered, de-duplicated union of skills;
- the blank entries and the "currently here" checkbox patches of the experience and education forms, and their entry headings;
- the guard on description generation;
- clamped next/previous tab navigation;
- the export precondition, the button-enable conditions and the import shape check;
- the template-to-layout dispatch of the preview.

Modules follow the source files:

| module | file | models |
|---|---|---|
| `ResumeTypes` | `resume_types.dfy` | the records of `src/types/resume.ts`. A `Partial<T>` patch is a record of `Option`s, with `None` for a key the patch does not have. |
| `ResumeDocument` | `resume_document.dfy` | the pure part of the store: `initialResumeData` and every update as a function on documents. |
| `ResumeContext` | `resume_context.dfy` | the provider: class `ResumeProvider`, with the three state cells and the storage map as fields. Its methods do the updates and the storage-writing effects. Also the load defaults. |
| `DocumentCodec` | `document_codec.dfy` | the text the document is stored as. Decoding the written text gives the document back, and only such texts decode. |
| `Skills` | `skills.dfy` | `SkillsForm.tsx`: tokenising, the union and removal, and class `SkillsForm` holding the input box. |
| `Experience` | `experience.dfy` | `ExperienceForm.tsx`: the blank entry, the toggle patch, the heading, the generation guard, and class `ExperienceForm` with its `isGenerating` marker. |
| `Education` | `education.dfy` | `EducationForm.tsx`. It has no state, so the module is functions only. |
| `Headings` | `headings.dfy` | the accordion heading that both list forms share. |
| `Builder` | `builder.dfy` | `ResumeBuilder.tsx`: the order of the tabs, next/previous, and class `ResumeBuilder` with `activeTab`. |
| `Actions` | `actions.dfy` | `ResumeActions.tsx`: export validity, button conditions, the document title, the import check over a JSON value datatype, and class `ResumeActions` with its three busy flags. |
| `Preview` | `preview.dfy` | `ResumePreview.tsx`: the template dispatch. |
| `Seqs`, `Strings`, `Wrappers` | `seqs.dfy`, `strings.dfy`, `wrappers.dfy` | the JavaScript built-ins the code relies on. |

The built-ins in question:

- `map` with a keyed patch, and `filter`;
- `findIndex` and `find`;
- `Array.from(new Set(xs))`;
- `trim`, which strips the ECMAScript white-space set;
- `split` on one character;
- `s || fallback`;
- decimal rendering of an index.

The store needs three replacements to be modelled:

- **Id generator.** `generateId` is the clock plus randomness. It becomes a fresh id passed to `AddExperience` and `AddEducation`, required not to be in use already.
- **Storage text.** `JSON.stringify` / `JSON.parse` of the document are replaced by a codec with the same round-trip guarantee. `DocumentCodec.Decode` returns `None` for any text it cannot read. The provider's constructor requires the stored document to be readable: the source's `JSON.parse` at `ResumeContext.tsx:37` is unguarded and would throw.
- **Stored ids.** The template and language ids are kept as strings, because the source casts whatever is stored without checking it. The setters take the enumerated `TemplateType` / `LanguageType`.

## Model

| member | source | states |
|---|---|---|
| ResumeDocument.InitialResumeData | src/context/ResumeContext.tsx:17-29 | (constant) the all-empty document: empty strings, no profile links, empty lists |
| ResumeDocument.MergePersonalInfo | src/context/ResumeContext.tsx:66 | every personal-info field present in the patch takes the patch's value; every absent one keeps the old value |
| ResumeDocument.MergeExperience | src/context/ResumeContext.tsx:86 | the same, for an experience entry, including `id` when the patch carries one |
| ResumeDocument.MergeEducation | src/context/ResumeContext.tsx:110 | the same, for an education entry |
| ResumeDocument.MergeEmptyAndIdempotent | src/context/ResumeContext.tsx:63-68 | the empty patch changes nothing; merging a patch twice equals merging it once (all three record kinds) |
| ResumeDocument.UpdatePersonalInfo | src/context/ResumeContext.tsx:63-68 | personal info becomes the merge; summary, experience, education and skills are unchanged |
| ResumeDocument.UpdateSummary | src/context/ResumeContext.tsx:70-72 | only the summary is replaced; every other part is identical |
| ResumeDocument.UpdateSkills | src/context/ResumeContext.tsx:122-124 | the skill list is replaced wholesale; every other part is identical |
| ResumeDocument.ExperienceOfDraft | src/context/ResumeContext.tsx:75 | the new entry has the given id and every field of the draft |
| ResumeDocument.EducationOfDraft | src/context/ResumeContext.tsx:99 | the same, for education |
| ResumeDocument.AddExperience | src/context/ResumeContext.tsx:74-80 | length grows by one; index 0 is the draft with its id; the old list follows unchanged and in order; nothing else changes |
| ResumeDocument.UpdateExperience | src/context/ResumeContext.tsx:82-89 | length and order are kept; entries with the id get the patch merged over them; all others are unchanged; nothing else in the document changes |
| ResumeDocument.RemoveExperience | src/context/ResumeContext.tsx:91-96 | no remaining entry has the id; each remaining entry was in the list; every entry with another id is kept |
| ResumeDocument.AddEducation | src/context/ResumeContext.tsx:98-104 | as AddExperience, on the education list |
| ResumeDocument.UpdateEducation | src/context/ResumeContext.tsx:106-113 | as UpdateExperience, on the education list |
| ResumeDocument.RemoveEducation | src/context/ResumeContext.tsx:115-120 | as RemoveExperience, on the education list |
| ResumeDocument.AbsentIdIsNoOp | src/context/ResumeContext.tsx:82-120 | an id that matches no entry makes update and remove leave the document unchanged |
| ResumeDocument.PatchWithoutIdKeepsIds | src/context/ResumeContext.tsx:86 | a patch with no `id` key leaves the sequence of ids unchanged |
| ResumeDocument.RemoveKeepsOrder | src/context/ResumeContext.tsx:94 | removal distributes over any split of the list, so survivors keep their relative order |
| ResumeDocument.RemoveIdempotent | src/context/ResumeContext.tsx:91-96 | removing an id twice equals removing it once |
| ResumeDocument.UpdatesKeepUniqueIds | src/context/ResumeContext.tsx:74-120 | with distinct ids before, ids stay distinct after an add under a fresh id, a remove, or an update whose patch has no id |
| Seqs.UpdateWhere | src/context/ResumeContext.tsx:85-87 | the keyed `map`: same length; matching elements are patched; others are kept in place |
| Seqs.RemoveWhere | src/context/ResumeContext.tsx:94 | the keyed `filter`: its result holds only non-matching elements of the input, all of them; with no match it is the input |
| Seqs.RemoveWhereConcat | src/context/ResumeContext.tsx:94 | the filter distributes over concatenation |
| Seqs.RemoveWhereIdempotent | src/context/ResumeContext.tsx:94 | filtering twice equals filtering once |
| Seqs.RemoveWhereKeepsUniqueKeys | src/context/ResumeContext.tsx:94 | filtering keeps keys distinct |
| Seqs.PrependKeepsUniqueKeys | src/context/ResumeContext.tsx:78 | prepending an element with an unused key keeps keys distinct |
| Seqs.KeyPreservingUpdateKeepsKeys | src/context/ResumeContext.tsx:85-87 | a patch that keeps every key keeps the sequence of keys |
| Seqs.UniqueKeysFromKeys | src/context/ResumeContext.tsx:85-87 | distinct keys depend only on the sequence of keys |
| ResumeContext.GetItem | src/context/ResumeContext.tsx:36 | `getItem` is `None` exactly when the key is absent, otherwise the stored text |
| ResumeContext.LoadDocument | src/context/ResumeContext.tsx:34-38 | nothing stored, or `""`, gives the all-empty document; any document it reads back re-encodes to the stored text |
| ResumeContext.LoadTemplate | src/context/ResumeContext.tsx:40-43 | never empty; a non-empty stored string is kept unchecked; otherwise `modern` |
| ResumeContext.LoadLanguage | src/context/ResumeContext.tsx:45-48 | never empty; a non-empty stored string is kept unchecked; otherwise `english` |
| ResumeContext.Persist | src/context/ResumeContext.tsx:51-61 | after the effects, storage mirrors all three cells; the key set grows by the three keys at most; every other key keeps its value |
| ResumeContext.Reload | src/context/ResumeContext.tsx:34-61 | loading from a storage that mirrors the cells gives back the same document, template and language |
| ResumeContext.LoadDefaults | src/context/ResumeContext.tsx:17-48 | from empty storage: the all-empty document, `modern` and `english` |
| ResumeContext.ResumeProvider.constructor | src/context/ResumeContext.tsx:34-61 | the cells are the loaded values; storage is the loaded storage with the mount effects applied; Valid (the storage mirrors the cells) |
| ResumeContext.ResumeProvider.SetResumeData | src/context/ResumeContext.tsx:51-53 | a new document, written under `resumeData`; template and language unchanged; Valid kept |
| ResumeContext.ResumeProvider.UpdatePersonalInfo | src/context/ResumeContext.tsx:63-68 | the document becomes ResumeDocument.UpdatePersonalInfo of the old one, and storage is rewritten under `resumeData` only |
| ResumeContext.ResumeProvider.UpdateSummary | src/context/ResumeContext.tsx:70-72 | likewise with UpdateSummary |
| ResumeContext.ResumeProvider.AddExperience | src/context/ResumeContext.tsx:74-80 | likewise with AddExperience under a fresh id; distinct ids before imply distinct ids after |
| ResumeContext.ResumeProvider.UpdateExperience | src/context/ResumeContext.tsx:82-89 | likewise with UpdateExperience |
| ResumeContext.ResumeProvider.RemoveExperience | src/context/ResumeContext.tsx:91-96 | likewise with RemoveExperience |
| ResumeContext.ResumeProvider.AddEducation | src/context/ResumeContext.tsx:98-104 | likewise with AddEducation under a fresh id; distinct ids before imply distinct ids after |
| ResumeContext.ResumeProvider.UpdateEducation | src/context/ResumeContext.tsx:106-113 | likewise with UpdateEducation |
| ResumeContext.ResumeProvider.RemoveEducation | src/context/ResumeContext.tsx:115-120 | likewise with RemoveEducation |
| ResumeContext.ResumeProvider.UpdateSkills | src/context/ResumeContext.tsx:122-124 | likewise with UpdateSkills |
| ResumeContext.ResumeProvider.SetTemplate | src/context/ResumeContext.tsx:55-57 | the template becomes the chosen id and is written under `resumeTemplate`; the document and language are unchanged |
| ResumeContext.ResumeProvider.SetLanguage | src/context/ResumeContext.tsx:59-61 | the language becomes the chosen id and is written under `resumeLanguage`; the document and template are unchanged |
| DocumentCodec.Encode | src/context/ResumeContext.tsx:52 | the stored text is never empty, so the `savedData ?` test is true for it |
| DocumentCodec.Decode | src/context/ResumeContext.tsx:37 | any text that decodes is exactly the encoding of what it decodes to |
| DocumentCodec.DecodeEncode | src/context/ResumeContext.tsx:37-52 | decoding the written text gives the written document |
| DocumentCodec.ParseStringBodyEscape | src/context/ResumeContext.tsx:37-52 | escaped characters followed by the closing quote read back as the original string |
| DocumentCodec.ParseFields | src/context/ResumeContext.tsx:37 | a record read off the front has the requested field kinds, and the text is its encoding followed by the rest |
| DocumentCodec.ParseFieldsEncoded | src/context/ResumeContext.tsx:37-52 | an encoded record followed by any text reads back as that record and that text |
| DocumentCodec.ParseRows | src/context/ResumeContext.tsx:37 | a list read off the front is well-kinded, and the text is its encoding followed by the rest |
| DocumentCodec.ParseRowsEncoded | src/context/ResumeContext.tsx:37-52 | an encoded list of records reads back as that list |
| DocumentCodec.ExperiencesOfRows | src/context/ResumeContext.tsx:37-52 | experience entries turned into records and back are unchanged (likewise EducationsOfRows, SkillsOfRows) |
| Strings.Trim | src/components/resume/SkillsForm.tsx:32 | the result is a contiguous piece of the input; everything cut off at either end is white space; the result has no white space at either end |
| Strings.TrimIdempotent | src/components/resume/SkillsForm.tsx:32 | trimming twice equals trimming once |
| Strings.TrimEmpty | src/components/resume/SkillsForm.tsx:28 | the trim is empty exactly when the input is all white space |
| Strings.TrimSubset | src/components/resume/SkillsForm.tsx:32 | trimming adds no characters |
| Strings.Split | src/components/resume/SkillsForm.tsx:31 | there is at least one piece, and no piece contains the separator |
| Strings.SplitJoin | src/components/resume/SkillsForm.tsx:31 | joining the pieces with the separator gives the input back |
| Skills.Tokens | src/components/resume/SkillsForm.tsx:32-33 | each token is non-empty and already trimmed; a token occurs exactly when it is the non-empty trim of some piece |
| Skills.TokensConcat | src/components/resume/SkillsForm.tsx:32-33 | tokenising distributes over concatenation of pieces |
| Skills.ParseSkillInput | src/components/resume/SkillsForm.tsx:30-33 | every new skill is non-empty, trimmed and free of commas |
| Skills.MergeSkills | src/components/resume/SkillsForm.tsx:36-38 | the result has no duplicates; it holds exactly the old skills and the tokens; it keeps first-appearance order; with distinct old skills, it starts with them unchanged |
| Skills.MergeSkillsAppendsNew | src/components/resume/SkillsForm.tsx:36-38 | after the old skills come exactly the tokens that were not skills already |
| Skills.MergeSkillsIdempotent | src/components/resume/SkillsForm.tsx:36-40 | adding the same tokens a second time changes nothing |
| Skills.MergeKnownSkills | src/components/resume/SkillsForm.tsx:36-38 | tokens that are all skills already change nothing |
| Seqs.DedupIntoSpec | src/components/resume/SkillsForm.tsx:36-38 | the `Set` union is duplicate-free, extends its start, and holds exactly the values seen |
| Seqs.DedupIntoOrder | src/components/resume/SkillsForm.tsx:36-38 | the `Set` union keeps insertion order |
| Seqs.Dedup | src/components/resume/SkillsForm.tsx:36-38 | `Array.from(new Set(xs))`; its meaning is stated by DedupIntoSpec and DedupIntoOrder with an empty start |
| Skills.RemoveSkill | src/components/resume/SkillsForm.tsx:45-47 | no copy of the removed skill is left; every other skill is kept; an absent skill changes nothing |
| Skills.RemoveSkillConcat | src/components/resume/SkillsForm.tsx:46 | removal distributes over concatenation, so the remaining skills keep their order |
| Skills.SkillsForm.HandleAddSkill | src/components/resume/SkillsForm.tsx:25-43 | blank input after trimming: skills, storage and the input box are unchanged; otherwise skills become the merge, storage is rewritten under `resumeData` only (every other key keeps its value), and the box is cleared |
| Skills.SkillsForm.HandleRemoveSkill | src/components/resume/SkillsForm.tsx:45-48 | skills become RemoveSkill of the old skills; storage is rewritten under `resumeData` only, every other key keeps its value |
| Skills.SkillsForm.constructor | src/components/resume/SkillsForm.tsx:23 | the input box starts empty |
| Skills.SkillsForm.SetSkillInput | src/components/resume/SkillsForm.tsx:77-78 | the box's `onChange` stores the typed text as it is |
| Experience.CurrentPositionPatch | src/components/resume/ExperienceForm.tsx:178-182 | the patch has exactly two keys: the flag, and an end date of `Present` when checked or `''` when not |
| Experience.ToggleCurrentPosition | src/components/resume/ExperienceForm.tsx:168-182 | after the toggle the entry has the flag and that end date, whatever the old end date was; nothing else changes; the end-date input is disabled exactly when checked |
| Experience.Heading | src/components/resume/ExperienceForm.tsx:107-109 | `<position or Position> at <company or Company>` when either is filled in, otherwise `Experience <index+1>` |
| Experience.UnnamedHeadingsDistinct | src/components/resume/ExperienceForm.tsx:109 | unnamed entries at different positions get different headings |
| Experience.GenerateButtonMatchesGuard | src/components/resume/ExperienceForm.tsx:195 | with distinct ids, the button is disabled exactly while that entry is generating or the handler's guard would refuse it |
| Experience.DescriptionPatch | src/components/resume/ExperienceForm.tsx:53 | the patch carries the description key only |
| Experience.GenerationPatchesOnlyDescription | src/components/resume/ExperienceForm.tsx:53 | the generated text replaces only the description of entries with that id |
| Experience.ExperienceForm.HandleAddExperience | src/components/resume/ExperienceForm.tsx:28-38 | the store prepends the blank entry under the fresh id; storage is rewritten under `resumeData` only, every other key keeps its value |
| Experience.ExperienceForm.BeginGenerate | src/components/resume/ExperienceForm.tsx:40-65 | without a found entry having a position and a company: missing-information, and no entry is marked; otherwise a request with that position and company, and the entry is marked as generating; the store is not modified |
| Experience.ExperienceForm.FinishGenerate | src/components/resume/ExperienceForm.tsx:53-75 | for any entry, also while another entry's request has started since: a response patches that entry's description and is written under `resumeData` only; a rejection leaves the store and storage as they were; the single marker is cleared either way |
| Experience.ExperienceForm.constructor | src/components/resume/ExperienceForm.tsx:25 | no entry is marked as generating |
| Experience.NewExperience | src/components/resume/ExperienceForm.tsx:28-38 | (constant) the blank entry: empty texts, empty location, not current |
| Experience.EndDateDisabled | src/components/resume/ExperienceForm.tsx:168 | (predicate) the end-date input is disabled exactly for a current position; used by ToggleCurrentPosition |
| Experience.CanGenerate | src/components/resume/ExperienceForm.tsx:47 | (predicate) the handler's guard: the entry was found and has a position and a company; used by BeginGenerate and GenerateButtonMatchesGuard |
| Experience.GenerateDisabled | src/components/resume/ExperienceForm.tsx:195 | (predicate) the button's `disabled`: this entry is generating, or its company or position is empty; related to the guard by GenerateButtonMatchesGuard |
| Seqs.FindByKey | src/components/resume/ExperienceForm.tsx:44 | `find`: `None` exactly when no element has the key; otherwise an element of the list with that key, the head when the head has it; the only one when keys are distinct (FindByKeyUnique) |
| Education.CurrentlyStudyingPatch | src/components/resume/EducationForm.tsx:157-161 | the flag, and an end date of `Present` or `''`, and no other key |
| Education.ToggleCurrentlyStudying | src/components/resume/EducationForm.tsx:137-161 | after the toggle the entry has the flag and that end date; nothing else changes; the end-date input is disabled exactly when checked |
| Education.NewEducation | src/components/resume/EducationForm.tsx:25-35 | (constant) the blank entry: empty texts, empty location, not studying, no description or GPA |
| Education.EndDateDisabled | src/components/resume/EducationForm.tsx:137 | (predicate) the end-date input is disabled exactly while studying; used by ToggleCurrentlyStudying |
| Education.Heading | src/components/resume/EducationForm.tsx:66-68 | `<degree or Degree> at <institution or Institution>` when either is filled in, otherwise `Education <index+1>` |
| Education.UnnamedHeadingsDistinct | src/components/resume/EducationForm.tsx:68 | unnamed entries at different positions get different headings |
| Education.Shown | src/components/resume/EducationForm.tsx:112 | an absent optional field shows as `''`; a present one shows as its text |
| Education.NewEducationShowsEmpty | src/components/resume/EducationForm.tsx:25-35 | a fresh entry shows empty location, GPA and description; only its location is present |
| Education.ShownAfterEdit | src/components/resume/EducationForm.tsx:112-174 | what is typed into location, GPA or description is what is shown |
| Headings.BlankHeadingsDistinct | src/components/resume/ExperienceForm.tsx:109 | `<noun> <n>` labels differ for different positions (decimal numerals are injective) |
| Strings.NatToStringValue | src/components/resume/ExperienceForm.tsx:109 | the rendered numeral denotes the number |
| Builder.TabsDistinct | src/pages/ResumeBuilder.tsx:25-33 | the seven tab ids are distinct |
| Builder.NextTab | src/pages/ResumeBuilder.tsx:35-39 | the result is always one of the tabs |
| Builder.PrevTab | src/pages/ResumeBuilder.tsx:41-45 | the result is always one of the tabs |
| Builder.NextTabSteps | src/pages/ResumeBuilder.tsx:35-39 | next moves from tab k to tab k+1, and stays on `settings` |
| Builder.PrevTabSteps | src/pages/ResumeBuilder.tsx:41-45 | previous moves from tab k to tab k-1, and stays on `personal` |
| Builder.UnknownTab | src/pages/ResumeBuilder.tsx:36-43 | from an id not in the list, both lead to `personal` |
| Builder.NextPrevInverse | src/pages/ResumeBuilder.tsx:35-45 | next(prev(t)) = t for every tab but the first; prev(next(t)) = t for every tab but the last |
| Seqs.IndexOf | src/pages/ResumeBuilder.tsx:36 | `findIndex` is -1 exactly when the value is absent; otherwise the first index holding it |
| Builder.ResumeBuilder.constructor | src/pages/ResumeBuilder.tsx:21 | the page starts on `personal` |
| Builder.ResumeBuilder.HandleNext | src/pages/ResumeBuilder.tsx:47-49 | the active tab becomes NextTab of the old one |
| Builder.ResumeBuilder.HandlePrevious | src/pages/ResumeBuilder.tsx:51-53 | the active tab becomes PrevTab of the old one |
| Builder.ResumeBuilder.SetActiveTab | src/pages/ResumeBuilder.tsx:73 | a click on the tab strip sets that tab |
| Actions.ValidForExport | src/components/resume/ResumeActions.tsx:129-133 | (predicate) `Boolean(fullName && email)`: both are non-empty; its behaviour under every update is stated by ValidityDependsOnNameAndEmail |
| Actions.ExportDisabled | src/components/resume/ResumeActions.tsx:146 | (predicate) exporting, or not valid for export |
| Actions.SaveDisabled | src/components/resume/ResumeActions.tsx:165 | (predicate) saving |
| Actions.ShareDisabled | src/components/resume/ResumeActions.tsx:184 | (predicate) sharing, or not valid for export |
| Actions.WarningShown | src/components/resume/ResumeActions.tsx:217 | (predicate) the warning shows exactly when the document is not valid for export |
| Actions.ButtonsFollowValidity | src/components/resume/ResumeActions.tsx:146-217 | the warning shows exactly when export and share are disabled whatever the busy flags; an enabled export or share implies a valid document and no run in progress; save depends only on `isSaving` |
| Actions.ValidityDependsOnNameAndEmail | src/components/resume/ResumeActions.tsx:129-133 | every update but a personal-info patch with a name or e-mail key keeps export validity as it was |
| Actions.FillingNameAndEmailEnablesExport | src/components/resume/ResumeActions.tsx:129-133 | a non-empty name and e-mail make export valid |
| Actions.DocumentTitle | src/components/resume/ResumeActions.tsx:26 | the title is exactly the full name, or `Resume` when it is empty, then `_`, then the date: prefix, separator, suffix and total length are all fixed |
| Actions.Truthy | src/components/resume/ResumeActions.tsx:96-97 | (predicate) JavaScript truthiness of a parsed value: `null`, `false`, `0` and `''` are falsy |
| Actions.TypeOf | src/components/resume/ResumeActions.tsx:98 | `typeof` of a parsed value; `null` and arrays give `object` |
| Actions.Get | src/components/resume/ResumeActions.tsx:98-102 | property access is defined exactly on objects that have the key |
| Actions.ImportShapeValid | src/components/resume/ResumeActions.tsx:95-103 | (predicate) the `if` of `handleFileUpload`, conjunct by conjunct; characterised by ImportShapeValidIff |
| Actions.ImportShapeValidIff | src/components/resume/ResumeActions.tsx:96-103 | the check accepts exactly an object whose `personalInfo` is an object or array and whose three lists are arrays |
| Actions.Import | src/components/resume/ResumeActions.tsx:91-118 | the import fails exactly on a parse error or a failed shape check; both end in the same outcome |
| Actions.DocumentPassesImport | src/components/resume/ResumeActions.tsx:96-103 | any document serialised by `JSON.stringify`, parsed back, passes the check |
| Actions.ImportRejections | src/components/resume/ResumeActions.tsx:96-103 | an array, `null`, or an object without `skills` is rejected |
| Actions.ResumeActions.constructor | src/components/resume/ResumeActions.tsx:19-21 | no export, save or share is in progress |
| Actions.ResumeActions.BeginExport | src/components/resume/ResumeActions.tsx:27-30 | `isExporting` is set; the other flags are unchanged |
| Actions.ResumeActions.FinishExport | src/components/resume/ResumeActions.tsx:31-37 | `isExporting` is cleared and the exported toast shown |
| Actions.ResumeActions.BeginSave | src/components/resume/ResumeActions.tsx:40-41 | `isSaving` is set |
| Actions.ResumeActions.FinishSave | src/components/resume/ResumeActions.tsx:44-50 | `isSaving` is cleared and the saved toast shown |
| Actions.ResumeActions.BeginShare | src/components/resume/ResumeActions.tsx:53-54 | `isSharing` is set |
| Actions.ResumeActions.FinishShare | src/components/resume/ResumeActions.tsx:57-78 | `isSharing` is cleared; the toast depends on whether the clipboard took the link |
| Actions.ResumeActions.HandleFileUpload | src/components/resume/ResumeActions.tsx:85-127 | no file: nothing happens; otherwise the imported toast exactly when Import accepts. With no modifies clause, neither the store nor the card's flags can change |
| Preview.RenderTemplate | src/components/resume/ResumePreview.tsx:15-26 | `classic` and `minimal` select their layouts; every other id selects Modern; the layout always gets the document unchanged |
| Preview.SelectedTemplateRenders | src/components/resume/ResumePreview.tsx:17-22 | each selectable template renders as its own layout |
| Preview.UnknownTemplateRendersModern | src/components/resume/ResumePreview.tsx:23-24 | an id naming no template renders as Modern |
| Preview.DefaultTemplateRendersModern | src/components/resume/ResumePreview.tsx:23-24 | a store with no stored template previews as Modern |

## Left out

- **Storage format.** The JSON text format of the stored document is not modelled. `DocumentCodec` is a format of its own that gives the same guarantee: the stored document reads back unchanged.
- **Start-up failure.** Recovery from a stored document that cannot be parsed is not modelled. The source does not recover: `JSON.parse` throws. `ResumeContext.ResumeProvider.constructor` requires a readable document instead.
- **React scheduling.** Batching, re-renders and effect scheduling are not modelled. Each store method makes its change and writes storage in one step, as the effects do after the render. When a template or language is set to its current value, React skips the effect; the model writes the same value again, so storage is the same either way.
- **Patch keys with `undefined`.** A patch key that is present but holds `undefined` is not modelled. A patch field is either absent or a value.
- **Id generation.** `generateId` uses the clock and randomness, so it is a parameter here. The source itself does not guarantee a fresh id.
- **Remote persistence.** Remote persistence, the save-status signal, authentication, routing and toasts-as-UI are not modelled. Toasts are returned as values.
- **openai.ts.** `src/lib/openai.ts` is not part of this model. The generated text is a parameter of `FinishGenerate`.
- Experience.ExperienceForm.FinishGenerate: also models a rejected call as a `None` response. `openai.ts` catches its own errors and returns a fixed fallback text, so that branch may never occur.
- **SummaryForm.tsx**, the three layout components, `PersonalInfoForm.tsx`, the selectors, the landing page, the navigation bar and `App.tsx` are presentational and not modelled.
- Experience.CurrentPositionPatch and Education.CurrentlyStudyingPatch: take a boolean. The checkbox's third, `'indeterminate'` state is not modelled. The TypeScript cast `checked as boolean` changes nothing at run time, so that string would be stored in the flag, and being truthy it would set the end date to `Present`. The forms never render the checkbox as indeterminate, so the case does not arise.
- Actions.DocumentTitle: takes the date as already rendered. `toLocaleDateString` depends on the browser's locale and clock.
- Actions.ResumeActions.FinishShare: takes the random link and the clipboard outcome as parameters.
- Actions.Truthy: does not model `NaN`, which JSON never produces. `Get` does not model inherited properties such as `__proto__`.
- **Printing and file I/O.** Printing, `FileReader` and clipboard I/O are not modelled. The file's parsed value, or `None` when `JSON.parse` throws, is the input of `HandleFileUpload`.
