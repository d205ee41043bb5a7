/**
 * The actions card: export to PDF and share are offered only for a document with a name and
 * an e-mail address, save and share run on a timer, and import checks the shape of a parsed
 * file without ever handing it to the store.
 */
module Actions {
  import opened Wrappers
  import opened Strings
  import opened ResumeTypes
  import ResumeDocument

  // ---------------------------------------------------------------- export precondition

  /** `validateResumeForExport`: `Boolean(fullName && email)`. */
  predicate ValidForExport(d: ResumeData) {
    d.personalInfo.fullName != "" && d.personalInfo.email != ""
  }

  predicate ExportDisabled(isExporting: bool, d: ResumeData) {
    isExporting || !ValidForExport(d)
  }

  predicate ShareDisabled(isSharing: bool, d: ResumeData) {
    isSharing || !ValidForExport(d)
  }

  predicate SaveDisabled(isSaving: bool) {
    isSaving
  }

  /** The name-and-email warning under the buttons. */
  predicate WarningShown(d: ResumeData) {
    !ValidForExport(d)
  }

  /**
   * The warning shows exactly when export and share are unavailable whatever the busy flags
   * say; save never depends on the document.
   */
  lemma ButtonsFollowValidity(d: ResumeData, isExporting: bool, isSaving: bool, isSharing: bool)
    ensures WarningShown(d) <==> (forall b: bool :: ExportDisabled(b, d) && ShareDisabled(b, d))
    ensures !ExportDisabled(isExporting, d) ==> ValidForExport(d) && !isExporting
    ensures !ShareDisabled(isSharing, d) ==> ValidForExport(d) && !isSharing
    ensures SaveDisabled(isSaving) <==> isSaving
  {
    if !WarningShown(d) {
      assert !ExportDisabled(false, d);
    }
  }

  /**
   * Only the personal details decide validity: every other update keeps it, and a patch that
   * leaves name and e-mail out keeps it too.
   */
  lemma ValidityDependsOnNameAndEmail(d: ResumeData, patch: PersonalInfoPatch, summary: string,
                                      skills: seq<string>, id: string,
                                      xp: ExperiencePatch, ep: EducationPatch,
                                      x: ExperienceDraft, e: EducationDraft)
    ensures patch.fullName.None? && patch.email.None? ==>
      ValidForExport(ResumeDocument.UpdatePersonalInfo(d, patch)) == ValidForExport(d)
    ensures ValidForExport(ResumeDocument.UpdateSummary(d, summary)) == ValidForExport(d)
    ensures ValidForExport(ResumeDocument.UpdateSkills(d, skills)) == ValidForExport(d)
    ensures ValidForExport(ResumeDocument.AddExperience(d, x, id)) == ValidForExport(d)
    ensures ValidForExport(ResumeDocument.UpdateExperience(d, id, xp)) == ValidForExport(d)
    ensures ValidForExport(ResumeDocument.RemoveExperience(d, id)) == ValidForExport(d)
    ensures ValidForExport(ResumeDocument.AddEducation(d, e, id)) == ValidForExport(d)
    ensures ValidForExport(ResumeDocument.UpdateEducation(d, id, ep)) == ValidForExport(d)
    ensures ValidForExport(ResumeDocument.RemoveEducation(d, id)) == ValidForExport(d)
  {
  }

  /** Filling in a name and an e-mail address makes any document exportable. */
  lemma FillingNameAndEmailEnablesExport(d: ResumeData, name: string, email: string)
    requires name != "" && email != ""
    ensures ValidForExport(ResumeDocument.UpdatePersonalInfo(d,
      EmptyPersonalInfoPatch.(fullName := Some(name), email := Some(email))))
  {
  }

  /** The PDF's title: `${fullName || 'Resume'}_${date}`, the date rendered by the browser. */
  function DocumentTitle(fullName: string, date: string): (r: string)
    ensures fullName != "" ==> |fullName| < |r| && r[..|fullName|] == fullName && r[|fullName|] == '_'
    ensures fullName == "" ==> r == "Resume_" + date
    ensures |date| < |r| && r[|r| - |date|..] == date
    ensures |r| == |OrElse(fullName, "Resume")| + 1 + |date|
  {
    OrElse(fullName, "Resume") + "_" + date
  }

  // ---------------------------------------------------------------- import shape check

  /** A parsed JSON value; numbers as reals. */
  datatype Json =
    | JNull
    | JBool(b: bool)
    | JNumber(n: real)
    | JString(s: string)
    | JArray(elements: seq<Json>)
    | JObject(properties: map<string, Json>)

  /** JavaScript truthiness of a parsed value. */
  predicate Truthy(j: Json) {
    match j
    case JNull => false
    case JBool(b) => b
    case JNumber(n) => n != 0.0
    case JString(s) => s != ""
    case JArray(_) => true
    case JObject(_) => true
  }

  /** The `typeof` of a parsed value; `null` and arrays are objects too. */
  function TypeOf(j: Json): string {
    match j
    case JNull => "object"
    case JBool(_) => "boolean"
    case JNumber(_) => "number"
    case JString(_) => "string"
    case JArray(_) => "object"
    case JObject(_) => "object"
  }

  /** Property access: `None` is `undefined`, which every value but an object with the key gives. */
  function Get(j: Json, key: string): (r: Option<Json>)
    ensures r.Some? <==> j.JObject? && key in j.properties
    ensures r.Some? ==> r.value == j.properties[key]
  {
    if j.JObject? && key in j.properties then Some(j.properties[key]) else None
  }

  predicate IsArray(o: Option<Json>) {
    o.Some? && o.value.JArray?
  }

  /** The condition in `handleFileUpload`, conjunct by conjunct. */
  predicate ImportShapeValid(j: Json) {
    && Truthy(j)
    && Get(j, "personalInfo").Some?
    && Truthy(Get(j, "personalInfo").value)
    && TypeOf(Get(j, "personalInfo").value) == "object"
    && IsArray(Get(j, "experience"))
    && IsArray(Get(j, "education"))
    && IsArray(Get(j, "skills"))
  }

  /**
   * What the check accepts: an object whose `personalInfo` is an object or an array and whose
   * `experience`, `education` and `skills` are arrays. Nothing inside is looked at.
   */
  lemma ImportShapeValidIff(j: Json)
    ensures ImportShapeValid(j) <==>
      && j.JObject?
      && "personalInfo" in j.properties
      && (j.properties["personalInfo"].JObject? || j.properties["personalInfo"].JArray?)
      && "experience" in j.properties && j.properties["experience"].JArray?
      && "education" in j.properties && j.properties["education"].JArray?
      && "skills" in j.properties && j.properties["skills"].JArray?
  {
  }

  datatype ImportOutcome = Imported | ImportFailed

  /**
   * The outcome of reading a file: `None` is text on which `JSON.parse` throws; that and a
   * value of the wrong shape end in the same catch block.
   */
  function Import(parsed: Option<Json>): (r: ImportOutcome)
    ensures r == ImportFailed <==> parsed.None? || !ImportShapeValid(parsed.value)
  {
    match parsed
    case None => ImportFailed
    case Some(j) => if ImportShapeValid(j) then Imported else ImportFailed
  }

  // ---------------------------------------------------------------- the document as JSON

  function StringOpt(key: string, o: Option<string>): map<string, Json> {
    if o.Some? then map[key := JString(o.value)] else map[]
  }

  /** What `JSON.parse(JSON.stringify(d))` gives; absent optional fields have no key at all. */
  function PersonalInfoJson(p: PersonalInfo): Json {
    JObject(map["fullName" := JString(p.fullName), "email" := JString(p.email),
                "phone" := JString(p.phone), "location" := JString(p.location),
                "title" := JString(p.title)]
            + StringOpt("linkedin", p.linkedin) + StringOpt("website", p.website))
  }

  function ExperienceJson(x: ExperienceItem): Json {
    JObject(map["id" := JString(x.id), "company" := JString(x.company),
                "position" := JString(x.position), "startDate" := JString(x.startDate),
                "endDate" := JString(x.endDate), "isCurrentPosition" := JBool(x.isCurrentPosition),
                "description" := JString(x.description)]
            + StringOpt("location", x.location))
  }

  function EducationJson(x: EducationItem): Json {
    JObject(map["id" := JString(x.id), "institution" := JString(x.institution),
                "degree" := JString(x.degree), "field" := JString(x.field),
                "startDate" := JString(x.startDate), "endDate" := JString(x.endDate),
                "isCurrentlyStudying" := JBool(x.isCurrentlyStudying)]
            + StringOpt("description", x.description) + StringOpt("location", x.location)
            + StringOpt("gpa", x.gpa))
  }

  function DocumentJson(d: ResumeData): Json {
    JObject(map[
      "personalInfo" := PersonalInfoJson(d.personalInfo),
      "summary" := JString(d.summary),
      "experience" := JArray(seq(|d.experience|, i requires 0 <= i < |d.experience| => ExperienceJson(d.experience[i]))),
      "education" := JArray(seq(|d.education|, i requires 0 <= i < |d.education| => EducationJson(d.education[i]))),
      "skills" := JArray(seq(|d.skills|, i requires 0 <= i < |d.skills| => JString(d.skills[i])))])
  }

  /** Any document serialised by `JSON.stringify`, parsed back, passes the import check. */
  lemma DocumentPassesImport(d: ResumeData)
    ensures Import(Some(DocumentJson(d))) == Imported
  {
    ImportShapeValidIff(DocumentJson(d));
  }

  /** A bare array, `null` or a document missing any list fails it. */
  lemma ImportRejections(m: map<string, Json>, xs: seq<Json>)
    ensures Import(Some(JArray(xs))) == ImportFailed
    ensures Import(Some(JNull)) == ImportFailed
    ensures "skills" !in m ==> Import(Some(JObject(m))) == ImportFailed
  {
  }

  // ---------------------------------------------------------------- the card's state

  datatype Toast =
    | ResumeExported
    | ResumeSaved
    | LinkCopied
    | CouldNotCopyLink(link: string)
    | ResumeImported
    | ImportFailedToast

  class ResumeActions {
    var isExporting: bool
    var isSaving: bool
    var isSharing: bool

    constructor()
      ensures !isExporting && !isSaving && !isSharing
    {
      isExporting, isSaving, isSharing := false, false, false;
    }

    /** `onBeforeGetContent` of the print hook. */
    method BeginExport()
      modifies this
      ensures isExporting && isSaving == old(isSaving) && isSharing == old(isSharing)
    {
      isExporting := true;
    }

    /** `onAfterPrint` of the print hook. */
    method FinishExport() returns (toast: Toast)
      modifies this
      ensures !isExporting && isSaving == old(isSaving) && isSharing == old(isSharing)
      ensures toast == ResumeExported
    {
      isExporting := false;
      toast := ResumeExported;
    }

    /** `handleSave`, up to its timer. */
    method BeginSave()
      modifies this
      ensures isSaving && isExporting == old(isExporting) && isSharing == old(isSharing)
    {
      isSaving := true;
    }

    /** The save timer firing; nothing is stored anywhere. */
    method FinishSave() returns (toast: Toast)
      modifies this
      ensures !isSaving && isExporting == old(isExporting) && isSharing == old(isSharing)
      ensures toast == ResumeSaved
    {
      isSaving := false;
      toast := ResumeSaved;
    }

    /** `handleShare`, up to its timer. */
    method BeginShare()
      modifies this
      ensures isSharing && isExporting == old(isExporting) && isSaving == old(isSaving)
    {
      isSharing := true;
    }

    /**
     * The share timer firing: `link` is the random link it makes and `copied` whether the
     * clipboard accepted it.
     */
    method FinishShare(link: string, copied: bool) returns (toast: Toast)
      modifies this
      ensures !isSharing && isExporting == old(isExporting) && isSaving == old(isSaving)
      ensures toast == if copied then LinkCopied else CouldNotCopyLink(link)
    {
      isSharing := false;
      toast := if copied then LinkCopied else CouldNotCopyLink(link);
    }

    /**
     * `handleFileUpload`: `file` is `None` when no file was chosen, and otherwise what
     * `JSON.parse` makes of its text. Nothing is modified: the store never sees the file.
     */
    method HandleFileUpload(file: Option<Option<Json>>) returns (toast: Option<Toast>)
      ensures file.None? ==> toast.None?
      ensures file.Some? ==> toast.Some?
      ensures file.Some? ==> (toast.value == ResumeImported <==> Import(file.value) == Imported)
      ensures file.Some? ==> (toast.value == ImportFailedToast <==> Import(file.value) == ImportFailed)
    {
      if file.None? {
        return None;
      }
      var outcome := Import(file.value);
      toast := Some(if outcome == Imported then ResumeImported else ImportFailedToast);
    }
  }
}
