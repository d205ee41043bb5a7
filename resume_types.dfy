/**
 * The resume document and the records the store's operations take. An optional property
 * (`linkedin?: string`) is an `Option`; a `Partial<T>` patch has every property optional,
 * `None` standing for a key the patch does not have.
 */
module ResumeTypes {
  import opened Wrappers

  datatype PersonalInfo = PersonalInfo(
    fullName: string,
    email: string,
    phone: string,
    location: string,
    title: string,
    linkedin: Option<string>,
    website: Option<string>)

  datatype ExperienceItem = ExperienceItem(
    id: string,
    company: string,
    position: string,
    startDate: string,
    endDate: string,
    isCurrentPosition: bool,
    description: string,
    location: Option<string>)

  datatype EducationItem = EducationItem(
    id: string,
    institution: string,
    degree: string,
    field: string,
    startDate: string,
    endDate: string,
    isCurrentlyStudying: bool,
    description: Option<string>,
    location: Option<string>,
    gpa: Option<string>)

  /** The whole document the store holds. */
  datatype ResumeData = ResumeData(
    personalInfo: PersonalInfo,
    summary: string,
    experience: seq<ExperienceItem>,
    education: seq<EducationItem>,
    skills: seq<string>)

  datatype TemplateType = Modern | Classic | Minimal

  datatype LanguageType = English | French | Arabic

  /** The string a template is known by (and stored as). */
  function TemplateId(t: TemplateType): string {
    match t
    case Modern => "modern"
    case Classic => "classic"
    case Minimal => "minimal"
  }

  /** The string a language is known by (and stored as). */
  function LanguageId(l: LanguageType): string {
    match l
    case English => "english"
    case French => "french"
    case Arabic => "arabic"
  }

  /** `Omit<ExperienceItem, 'id'>`: what a form hands to `addExperience`. */
  datatype ExperienceDraft = ExperienceDraft(
    company: string,
    position: string,
    startDate: string,
    endDate: string,
    isCurrentPosition: bool,
    description: string,
    location: Option<string>)

  /** `Omit<EducationItem, 'id'>`: what a form hands to `addEducation`. */
  datatype EducationDraft = EducationDraft(
    institution: string,
    degree: string,
    field: string,
    startDate: string,
    endDate: string,
    isCurrentlyStudying: bool,
    description: Option<string>,
    location: Option<string>,
    gpa: Option<string>)

  /** `Partial<PersonalInfo>`. */
  datatype PersonalInfoPatch = PersonalInfoPatch(
    fullName: Option<string>,
    email: Option<string>,
    phone: Option<string>,
    location: Option<string>,
    title: Option<string>,
    linkedin: Option<string>,
    website: Option<string>)

  /** `Partial<ExperienceItem>`. */
  datatype ExperiencePatch = ExperiencePatch(
    id: Option<string>,
    company: Option<string>,
    position: Option<string>,
    startDate: Option<string>,
    endDate: Option<string>,
    isCurrentPosition: Option<bool>,
    description: Option<string>,
    location: Option<string>)

  /** `Partial<EducationItem>`. */
  datatype EducationPatch = EducationPatch(
    id: Option<string>,
    institution: Option<string>,
    degree: Option<string>,
    field: Option<string>,
    startDate: Option<string>,
    endDate: Option<string>,
    isCurrentlyStudying: Option<bool>,
    description: Option<string>,
    location: Option<string>,
    gpa: Option<string>)

  const EmptyPersonalInfoPatch := PersonalInfoPatch(None, None, None, None, None, None, None)
  const EmptyExperiencePatch := ExperiencePatch(None, None, None, None, None, None, None, None)
  const EmptyEducationPatch := EducationPatch(None, None, None, None, None, None, None, None, None, None)

  function ExperienceId(e: ExperienceItem): string { e.id }

  function EducationId(e: EducationItem): string { e.id }
}
