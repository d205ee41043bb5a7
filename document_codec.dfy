/**
 * The text form in which the store keeps its document under the `resumeData` storage key.
 * The application writes `JSON.stringify(resumeData)` and reads it back with `JSON.parse`;
 * this model replaces that pair by a codec of its own with the same guarantee the store needs
 * from it: decoding the text written for a document gives that document back. The codec is
 * exact in both directions: a text decodes at all only when it is the encoding of what it
 * decodes to.
 *
 * Format: a string is `"` + its characters, with `"` and `\` escaped by `\`, + `"`; a boolean
 * is `t` or `f`; an absent optional string is `-`; a record is its fields in declaration
 * order; a list is `[` + its elements + `]`.
 */
module DocumentCodec {
  import opened Wrappers
  import opened ResumeTypes

  /** A parsed value and the text that follows it. */
  type Parsed<T> = Option<(T, string)>

  // ---------------------------------------------------------------- strings

  function Escape(s: string): string {
    if s == [] then []
    else (if s[0] == '"' || s[0] == '\\' then ['\\', s[0]] else [s[0]]) + Escape(s[1..])
  }

  function EncodeString(s: string): string {
    ['"'] + Escape(s) + ['"']
  }

  /** Reads escaped characters up to and including the closing quote. */
  function ParseStringBody(s: string): (r: Parsed<string>)
    ensures r.Some? ==> |r.value.1| < |s|
    ensures r.Some? ==> s == Escape(r.value.0) + ['"'] + r.value.1
  {
    if s == [] then None
    else if s[0] == '"' then
      assert s == Escape([]) + ['"'] + s[1..];
      Some(([], s[1..]))
    else if s[0] == '\\' then
      if |s| >= 2 && (s[1] == '"' || s[1] == '\\') then
        match ParseStringBody(s[2..])
        case None => None
        case Some((v, s1)) =>
          ConsEscaped(s, 2, v, s1);
          Some(([s[1]] + v, s1))
      else None
    else
      match ParseStringBody(s[1..])
      case None => None
      case Some((v, s1)) =>
        ConsEscaped(s, 1, v, s1);
        Some(([s[0]] + v, s1))
  }

  /** One character read off the front: escaped (`n == 2`) or plain (`n == 1`). */
  lemma ConsEscaped(s: string, n: nat, v: string, s1: string)
    requires n == 1 || n == 2
    requires n <= |s| && s[n..] == Escape(v) + ['"'] + s1
    requires n == 2 ==> s[0] == '\\' && (s[1] == '"' || s[1] == '\\')
    requires n == 1 ==> s[0] != '"' && s[0] != '\\'
    ensures s == Escape([s[n - 1]] + v) + ['"'] + s1
  {
    var t := [s[n - 1]] + v;
    assert t[0] == s[n - 1] && t[1..] == v;
    assert Escape(t) == s[..n] + Escape(v);
    assert s == s[..n] + s[n..];
  }

  function ParseString(s: string): (r: Parsed<string>)
    ensures r.Some? ==> |r.value.1| < |s|
    ensures r.Some? ==> s == EncodeString(r.value.0) + r.value.1
  {
    if s == [] || s[0] != '"' then None
    else
      match ParseStringBody(s[1..])
      case None => None
      case Some((v, s1)) =>
        Quoted(s, v, s1);
        Some((v, s1))
  }

  lemma Quoted(s: string, v: string, s1: string)
    requires s != [] && s[0] == '"' && s[1..] == Escape(v) + ['"'] + s1
    ensures s == EncodeString(v) + s1
  {
    assert s == ['"'] + s[1..];
    assert ['"'] + (Escape(v) + ['"'] + s1) == ['"'] + Escape(v) + ['"'] + s1;
  }

  lemma {:induction false} ParseStringBodyEscape(s: string, rest: string)
    ensures ParseStringBody(Escape(s) + ['"'] + rest) == Some((s, rest))
  {
    if s == [] {
      assert Escape(s) + ['"'] + rest == ['"'] + rest;
    } else {
      ParseStringBodyEscape(s[1..], rest);
      var e := if s[0] == '"' || s[0] == '\\' then ['\\', s[0]] else [s[0]];
      var tail := Escape(s[1..]) + ['"'] + rest;
      assert Escape(s) + ['"'] + rest == e + tail;
      if s[0] == '"' || s[0] == '\\' {
        assert (e + tail)[2..] == tail;
      } else {
        assert (e + tail)[1..] == tail;
      }
      assert [s[0]] + s[1..] == s;
    }
  }

  lemma ParseStringEncoded(s: string, rest: string)
    ensures ParseString(EncodeString(s) + rest) == Some((s, rest))
  {
    ParseStringBodyEscape(s, rest);
    assert (EncodeString(s) + rest)[1..] == Escape(s) + ['"'] + rest;
  }

  // ---------------------------------------------------------------- booleans and optionals

  function EncodeBool(b: bool): string {
    if b then "t" else "f"
  }

  function ParseBool(s: string): (r: Parsed<bool>)
    ensures r.Some? ==> |r.value.1| < |s|
    ensures r.Some? ==> s == EncodeBool(r.value.0) + r.value.1
  {
    if s != [] && (s[0] == 't' || s[0] == 'f') then
      assert s == [s[0]] + s[1..];
      Some((s[0] == 't', s[1..]))
    else None
  }

  lemma ParseBoolEncoded(b: bool, rest: string)
    ensures ParseBool(EncodeBool(b) + rest) == Some((b, rest))
  {
    assert (EncodeBool(b) + rest)[1..] == rest;
  }

  function EncodeOptional(o: Option<string>): string {
    match o
    case None => "-"
    case Some(v) => EncodeString(v)
  }

  function ParseOptional(s: string): (r: Parsed<Option<string>>)
    ensures r.Some? ==> |r.value.1| < |s|
    ensures r.Some? ==> s == EncodeOptional(r.value.0) + r.value.1
  {
    if s != [] && s[0] == '-' then
      assert s == [s[0]] + s[1..];
      Some((None, s[1..]))
    else
      var v :- ParseString(s);
      Some((Some(v.0), v.1))
  }

  lemma ParseOptionalEncoded(o: Option<string>, rest: string)
    ensures ParseOptional(EncodeOptional(o) + rest) == Some((o, rest))
  {
    match o
    case None =>
      assert (EncodeOptional(o) + rest)[1..] == rest;
    case Some(v) =>
      ParseStringEncoded(v, rest);
  }

  // ---------------------------------------------------------------- records

  /** A record is written as the list of its fields, each tagged by what kind of value it is. */
  datatype Field = Text(text: string) | Flag(flag: bool) | Opt(opt: Option<string>)

  datatype Kind = TextKind | FlagKind | OptKind

  function KindOf(f: Field): Kind {
    match f
    case Text(_) => TextKind
    case Flag(_) => FlagKind
    case Opt(_) => OptKind
  }

  function Kinds(fs: seq<Field>): (ks: seq<Kind>)
    ensures |ks| == |fs|
    ensures forall i :: 0 <= i < |fs| ==> ks[i] == KindOf(fs[i])
  {
    if fs == [] then [] else [KindOf(fs[0])] + Kinds(fs[1..])
  }

  /** The text of one field: never empty, and never starting with a list's closing bracket. */
  function EncodeField(f: Field): (t: string)
    ensures t != [] && t[0] != ']'
  {
    match f
    case Text(v) => EncodeString(v)
    case Flag(b) => EncodeBool(b)
    case Opt(o) => EncodeOptional(o)
  }

  function ParseField(k: Kind, s: string): (r: Parsed<Field>)
    ensures r.Some? ==> |r.value.1| < |s| && KindOf(r.value.0) == k
    ensures r.Some? ==> s == EncodeField(r.value.0) + r.value.1
  {
    match k
    case TextKind =>
      var v :- ParseString(s);
      Some((Text(v.0), v.1))
    case FlagKind =>
      var v :- ParseBool(s);
      Some((Flag(v.0), v.1))
    case OptKind =>
      var v :- ParseOptional(s);
      Some((Opt(v.0), v.1))
  }

  lemma ParseFieldEncoded(f: Field, rest: string)
    ensures ParseField(KindOf(f), EncodeField(f) + rest) == Some((f, rest))
  {
    match f
    case Text(v) => ParseStringEncoded(v, rest);
    case Flag(b) => ParseBoolEncoded(b, rest);
    case Opt(o) => ParseOptionalEncoded(o, rest);
  }

  function EncodeFields(fs: seq<Field>): (t: string)
    ensures fs != [] ==> t != [] && t[0] != ']'
  {
    if fs == [] then [] else EncodeField(fs[0]) + EncodeFields(fs[1..])
  }

  /** Reads one field of each kind in `ks`, in order. */
  function ParseFields(ks: seq<Kind>, s: string): (r: Parsed<seq<Field>>)
    ensures r.Some? ==> |r.value.1| <= |s| && Kinds(r.value.0) == ks
    ensures r.Some? && ks != [] ==> |r.value.1| < |s|
    ensures r.Some? ==> s == EncodeFields(r.value.0) + r.value.1
  {
    if ks == [] then Some(([], s))
    else
      match ParseField(ks[0], s)
      case None => None
      case Some((f, s1)) =>
        match ParseFields(ks[1..], s1)
        case None => None
        case Some((fs, s2)) =>
          ConsFields(ks, f, fs, s, s1, s2);
          Some(([f] + fs, s2))
  }

  /** One field read off the front, then the rest of the record. */
  lemma ConsFields(ks: seq<Kind>, f: Field, fs: seq<Field>, s: string, s1: string, s2: string)
    requires ks != [] && KindOf(f) == ks[0] && Kinds(fs) == ks[1..]
    requires s == EncodeField(f) + s1 && |s1| < |s|
    requires s1 == EncodeFields(fs) + s2 && |s2| <= |s1|
    ensures Kinds([f] + fs) == ks
    ensures s == EncodeFields([f] + fs) + s2 && |s2| < |s|
  {
    var g := [f] + fs;
    assert g[0] == f && g[1..] == fs;
    assert ks == [ks[0]] + ks[1..];
    assert EncodeFields(g) == EncodeField(f) + EncodeFields(fs);
    assert EncodeField(f) + (EncodeFields(fs) + s2) == (EncodeField(f) + EncodeFields(fs)) + s2;
  }

  lemma {:induction false} ParseFieldsEncoded(fs: seq<Field>, rest: string)
    ensures ParseFields(Kinds(fs), EncodeFields(fs) + rest) == Some((fs, rest))
  {
    if fs != [] {
      var tail := EncodeFields(fs[1..]) + rest;
      assert EncodeFields(fs) + rest == EncodeField(fs[0]) + tail;
      ParseFieldEncoded(fs[0], tail);
      ParseFieldsEncoded(fs[1..], rest);
      var ks := Kinds(fs);
      assert ks != [] && ks[0] == KindOf(fs[0]) && ks[1..] == Kinds(fs[1..]);
      assert ParseField(ks[0], EncodeFields(fs) + rest) == Some((fs[0], tail));
      assert [fs[0]] + fs[1..] == fs;
    } else {
      assert EncodeFields(fs) + rest == rest;
    }
  }

  // ---------------------------------------------------------------- lists of records

  function EncodeRows(rows: seq<seq<Field>>): string {
    if rows == [] then [] else EncodeFields(rows[0]) + EncodeRows(rows[1..])
  }

  /** `[` + the records + `]`. */
  function EncodeList(rows: seq<seq<Field>>): string {
    ['['] + EncodeRows(rows) + [']']
  }

  /** Reads records of kinds `ks` up to and including the closing bracket. */
  function ParseRows(ks: seq<Kind>, s: string): (r: Parsed<seq<seq<Field>>>)
    requires ks != []
    ensures r.Some? ==> |r.value.1| < |s|
    ensures r.Some? ==> forall i :: 0 <= i < |r.value.0| ==> Kinds(r.value.0[i]) == ks
    ensures r.Some? ==> s == EncodeRows(r.value.0) + [']'] + r.value.1
    decreases |s|
  {
    if s == [] then None
    else if s[0] == ']' then
      assert s == EncodeRows([]) + [']'] + s[1..];
      Some(([], s[1..]))
    else
      match ParseFields(ks, s)
      case None => None
      case Some((row, s1)) =>
        match ParseRows(ks, s1)
        case None => None
        case Some((rows, s2)) =>
          ConsRows(ks, row, rows, s, s1, s2);
          Some(([row] + rows, s2))
  }

  /** One record read off the front, then the rest of the list. */
  lemma ConsRows(ks: seq<Kind>, row: seq<Field>, rows: seq<seq<Field>>, s: string, s1: string, s2: string)
    requires Kinds(row) == ks && forall i :: 0 <= i < |rows| ==> Kinds(rows[i]) == ks
    requires s == EncodeFields(row) + s1
    requires s1 == EncodeRows(rows) + [']'] + s2 && |s2| < |s1| <= |s|
    ensures forall i :: 0 <= i < |[row] + rows| ==> Kinds(([row] + rows)[i]) == ks
    ensures s == EncodeRows([row] + rows) + [']'] + s2
  {
    var g := [row] + rows;
    assert g[0] == row && g[1..] == rows;
    assert EncodeRows(g) == EncodeFields(row) + EncodeRows(rows);
    assert EncodeFields(row) + (EncodeRows(rows) + [']'] + s2) == EncodeFields(row) + EncodeRows(rows) + [']'] + s2;
  }

  function ParseList(ks: seq<Kind>, s: string): (r: Parsed<seq<seq<Field>>>)
    requires ks != []
    ensures r.Some? ==> |r.value.1| < |s|
    ensures r.Some? ==> forall i :: 0 <= i < |r.value.0| ==> Kinds(r.value.0[i]) == ks
    ensures r.Some? ==> s == EncodeList(r.value.0) + r.value.1
  {
    if s == [] || s[0] != '[' then None
    else
      match ParseRows(ks, s[1..])
      case None => None
      case Some((rows, s1)) =>
        Unbracket(s, rows, s1);
        Some((rows, s1))
  }

  lemma {:induction false} ParseRowsEncoded(ks: seq<Kind>, rows: seq<seq<Field>>, rest: string)
    requires ks != []
    requires forall i :: 0 <= i < |rows| ==> Kinds(rows[i]) == ks
    ensures ParseRows(ks, EncodeRows(rows) + [']'] + rest) == Some((rows, rest))
  {
    var s := EncodeRows(rows) + [']'] + rest;
    if rows == [] {
      assert s == [']'] + rest;
    } else {
      var tail := EncodeRows(rows[1..]) + [']'] + rest;
      RowsHead(rows, rest);
      assert Kinds(rows[0]) == ks && rows[0] != [];
      assert s[0] != ']';
      ParseFieldsEncoded(rows[0], tail);
      assert ParseFields(ks, s) == Some((rows[0], tail));
      ParseRowsEncoded(ks, rows[1..], rest);
      assert ParseRows(ks, tail) == Some((rows[1..], rest));
      assert [rows[0]] + rows[1..] == rows;
    }
  }

  lemma RowsHead(rows: seq<seq<Field>>, rest: string)
    requires rows != []
    ensures EncodeRows(rows) + [']'] + rest == EncodeFields(rows[0]) + (EncodeRows(rows[1..]) + [']'] + rest)
  {
  }

  lemma ParseListEncoded(ks: seq<Kind>, rows: seq<seq<Field>>, rest: string)
    requires ks != []
    requires forall i :: 0 <= i < |rows| ==> Kinds(rows[i]) == ks
    ensures ParseList(ks, EncodeList(rows) + rest) == Some((rows, rest))
  {
    var body := EncodeRows(rows) + [']'] + rest;
    ParseRowsEncoded(ks, rows, rest);
    Bracketed(EncodeRows(rows), rest);
    var t := EncodeList(rows) + rest;
    assert t == ['['] + body;
    DropHead('[', body);
  }

  lemma Unbracket(s: string, rows: seq<seq<Field>>, s1: string)
    requires s != [] && s[0] == '[' && s[1..] == EncodeRows(rows) + [']'] + s1
    ensures s == EncodeList(rows) + s1
  {
    Bracketed(EncodeRows(rows), s1);
    assert s == ['['] + s[1..];
  }

  lemma Bracketed(rows: string, rest: string)
    ensures ['['] + rows + [']'] + rest == ['['] + (rows + [']'] + rest)
  {
  }

  lemma DropHead(c: char, u: string)
    ensures ([c] + u) != [] && ([c] + u)[0] == c && ([c] + u)[1..] == u
  {
  }

  // ---------------------------------------------------------------- the document's records

  const PersonalInfoKinds := [TextKind, TextKind, TextKind, TextKind, TextKind, OptKind, OptKind]

  function PersonalInfoFields(p: PersonalInfo): (fs: seq<Field>)
    ensures Kinds(fs) == PersonalInfoKinds
  {
    [Text(p.fullName), Text(p.email), Text(p.phone), Text(p.location), Text(p.title),
     Opt(p.linkedin), Opt(p.website)]
  }

  function PersonalInfoFromFields(fs: seq<Field>): (p: PersonalInfo)
    requires Kinds(fs) == PersonalInfoKinds
    ensures PersonalInfoFields(p) == fs
  {
    PersonalInfo(fs[0].text, fs[1].text, fs[2].text, fs[3].text, fs[4].text, fs[5].opt, fs[6].opt)
  }

  const ExperienceKinds := [TextKind, TextKind, TextKind, TextKind, TextKind, FlagKind, TextKind, OptKind]

  function ExperienceFields(x: ExperienceItem): (fs: seq<Field>)
    ensures Kinds(fs) == ExperienceKinds
  {
    [Text(x.id), Text(x.company), Text(x.position), Text(x.startDate), Text(x.endDate),
     Flag(x.isCurrentPosition), Text(x.description), Opt(x.location)]
  }

  function ExperienceFromFields(fs: seq<Field>): (x: ExperienceItem)
    requires Kinds(fs) == ExperienceKinds
    ensures ExperienceFields(x) == fs
  {
    ExperienceItem(fs[0].text, fs[1].text, fs[2].text, fs[3].text, fs[4].text, fs[5].flag,
                   fs[6].text, fs[7].opt)
  }

  const EducationKinds := [TextKind, TextKind, TextKind, TextKind, TextKind, TextKind, FlagKind,
                           OptKind, OptKind, OptKind]

  function EducationFields(x: EducationItem): (fs: seq<Field>)
    ensures Kinds(fs) == EducationKinds
  {
    [Text(x.id), Text(x.institution), Text(x.degree), Text(x.field), Text(x.startDate),
     Text(x.endDate), Flag(x.isCurrentlyStudying), Opt(x.description), Opt(x.location), Opt(x.gpa)]
  }

  function EducationFromFields(fs: seq<Field>): (x: EducationItem)
    requires Kinds(fs) == EducationKinds
    ensures EducationFields(x) == fs
  {
    EducationItem(fs[0].text, fs[1].text, fs[2].text, fs[3].text, fs[4].text, fs[5].text,
                  fs[6].flag, fs[7].opt, fs[8].opt, fs[9].opt)
  }

  const SkillKinds := [TextKind]

  function SkillFields(k: string): (fs: seq<Field>)
    ensures Kinds(fs) == SkillKinds
  {
    [Text(k)]
  }

  function SkillFromFields(fs: seq<Field>): (k: string)
    requires Kinds(fs) == SkillKinds
    ensures SkillFields(k) == fs
  {
    fs[0].text
  }

  // ---------------------------------------------------------------- documents

  function EncodePersonalInfo(p: PersonalInfo): string {
    EncodeFields(PersonalInfoFields(p))
  }

  function ParsePersonalInfo(s: string): (r: Parsed<PersonalInfo>)
    ensures r.Some? ==> s == EncodePersonalInfo(r.value.0) + r.value.1
  {
    var f :- ParseFields(PersonalInfoKinds, s);
    Some((PersonalInfoFromFields(f.0), f.1))
  }

  lemma ParsePersonalInfoEncoded(p: PersonalInfo, rest: string)
    ensures ParsePersonalInfo(EncodePersonalInfo(p) + rest) == Some((p, rest))
  {
    ParseFieldsEncoded(PersonalInfoFields(p), rest);
  }

  /** The rows of a list of experience entries, and back. */
  function ExperienceRows(xs: seq<ExperienceItem>): (rows: seq<seq<Field>>)
    ensures forall i :: 0 <= i < |rows| ==> Kinds(rows[i]) == ExperienceKinds
  {
    if xs == [] then [] else [ExperienceFields(xs[0])] + ExperienceRows(xs[1..])
  }

  function ExperiencesOf(rows: seq<seq<Field>>): seq<ExperienceItem>
    requires forall i :: 0 <= i < |rows| ==> Kinds(rows[i]) == ExperienceKinds
  {
    if rows == [] then [] else [ExperienceFromFields(rows[0])] + ExperiencesOf(rows[1..])
  }

  lemma {:induction false} ExperienceRowsInverse(rows: seq<seq<Field>>)
    requires forall i :: 0 <= i < |rows| ==> Kinds(rows[i]) == ExperienceKinds
    ensures ExperienceRows(ExperiencesOf(rows)) == rows
  {
    if rows != [] {
      ExperienceRowsInverse(rows[1..]);
      assert ExperiencesOf(rows)[1..] == ExperiencesOf(rows[1..]);
    }
  }

  lemma {:induction false} ExperiencesOfRows(xs: seq<ExperienceItem>)
    ensures ExperiencesOf(ExperienceRows(xs)) == xs
  {
    if xs != [] {
      ExperiencesOfRows(xs[1..]);
      assert ExperienceRows(xs)[1..] == ExperienceRows(xs[1..]);
      var x := ExperienceFromFields(ExperienceFields(xs[0]));
      assert ExperienceFields(x) == ExperienceFields(xs[0]);
      assert x.id == xs[0].id;
    }
  }

  function EncodeExperienceList(xs: seq<ExperienceItem>): string {
    EncodeList(ExperienceRows(xs))
  }

  function ParseExperienceList(s: string): (r: Parsed<seq<ExperienceItem>>)
    ensures r.Some? ==> s == EncodeExperienceList(r.value.0) + r.value.1
  {
    var x :- ParseList(ExperienceKinds, s);
    ExperienceRowsInverse(x.0);
    Some((ExperiencesOf(x.0), x.1))
  }

  lemma ParseExperienceListEncoded(xs: seq<ExperienceItem>, rest: string)
    ensures ParseExperienceList(EncodeExperienceList(xs) + rest) == Some((xs, rest))
  {
    ParseListEncoded(ExperienceKinds, ExperienceRows(xs), rest);
    ExperiencesOfRows(xs);
  }

  /** The rows of a list of education entries, and back. */
  function EducationRows(xs: seq<EducationItem>): (rows: seq<seq<Field>>)
    ensures forall i :: 0 <= i < |rows| ==> Kinds(rows[i]) == EducationKinds
  {
    if xs == [] then [] else [EducationFields(xs[0])] + EducationRows(xs[1..])
  }

  function EducationsOf(rows: seq<seq<Field>>): seq<EducationItem>
    requires forall i :: 0 <= i < |rows| ==> Kinds(rows[i]) == EducationKinds
  {
    if rows == [] then [] else [EducationFromFields(rows[0])] + EducationsOf(rows[1..])
  }

  lemma {:induction false} EducationRowsInverse(rows: seq<seq<Field>>)
    requires forall i :: 0 <= i < |rows| ==> Kinds(rows[i]) == EducationKinds
    ensures EducationRows(EducationsOf(rows)) == rows
  {
    if rows != [] {
      EducationRowsInverse(rows[1..]);
      assert EducationsOf(rows)[1..] == EducationsOf(rows[1..]);
    }
  }

  lemma {:induction false} EducationsOfRows(xs: seq<EducationItem>)
    ensures EducationsOf(EducationRows(xs)) == xs
  {
    if xs != [] {
      EducationsOfRows(xs[1..]);
      assert EducationRows(xs)[1..] == EducationRows(xs[1..]);
      var x := EducationFromFields(EducationFields(xs[0]));
      assert EducationFields(x) == EducationFields(xs[0]);
      assert x.id == xs[0].id;
    }
  }

  function EncodeEducationList(xs: seq<EducationItem>): string {
    EncodeList(EducationRows(xs))
  }

  function ParseEducationList(s: string): (r: Parsed<seq<EducationItem>>)
    ensures r.Some? ==> s == EncodeEducationList(r.value.0) + r.value.1
  {
    var x :- ParseList(EducationKinds, s);
    EducationRowsInverse(x.0);
    Some((EducationsOf(x.0), x.1))
  }

  lemma ParseEducationListEncoded(xs: seq<EducationItem>, rest: string)
    ensures ParseEducationList(EncodeEducationList(xs) + rest) == Some((xs, rest))
  {
    ParseListEncoded(EducationKinds, EducationRows(xs), rest);
    EducationsOfRows(xs);
  }

  /** The rows of the skill list, and back. */
  function SkillRows(ks: seq<string>): (rows: seq<seq<Field>>)
    ensures forall i :: 0 <= i < |rows| ==> Kinds(rows[i]) == SkillKinds
  {
    if ks == [] then [] else [SkillFields(ks[0])] + SkillRows(ks[1..])
  }

  function SkillsOf(rows: seq<seq<Field>>): seq<string>
    requires forall i :: 0 <= i < |rows| ==> Kinds(rows[i]) == SkillKinds
  {
    if rows == [] then [] else [SkillFromFields(rows[0])] + SkillsOf(rows[1..])
  }

  lemma {:induction false} SkillRowsInverse(rows: seq<seq<Field>>)
    requires forall i :: 0 <= i < |rows| ==> Kinds(rows[i]) == SkillKinds
    ensures SkillRows(SkillsOf(rows)) == rows
  {
    if rows != [] {
      SkillRowsInverse(rows[1..]);
      assert SkillsOf(rows)[1..] == SkillsOf(rows[1..]);
    }
  }

  lemma {:induction false} SkillsOfRows(ks: seq<string>)
    ensures SkillsOf(SkillRows(ks)) == ks
  {
    if ks != [] {
      SkillsOfRows(ks[1..]);
      assert SkillRows(ks)[1..] == SkillRows(ks[1..]);
    }
  }

  function EncodeSkillList(ks: seq<string>): string {
    EncodeList(SkillRows(ks))
  }

  function ParseSkillList(s: string): (r: Parsed<seq<string>>)
    ensures r.Some? ==> s == EncodeSkillList(r.value.0) + r.value.1
  {
    var x :- ParseList(SkillKinds, s);
    SkillRowsInverse(x.0);
    Some((SkillsOf(x.0), x.1))
  }

  lemma ParseSkillListEncoded(ks: seq<string>, rest: string)
    ensures ParseSkillList(EncodeSkillList(ks) + rest) == Some((ks, rest))
  {
    ParseListEncoded(SkillKinds, SkillRows(ks), rest);
    SkillsOfRows(ks);
  }

  /** The text after the personal details: summary, then the three lists. */
  function EncodeBody(d: ResumeData): string {
    EncodeString(d.summary) + (EncodeExperienceList(d.experience)
      + (EncodeEducationList(d.education) + EncodeSkillList(d.skills)))
  }

  /** The text written under the `resumeData` key. It is never empty. */
  function Encode(d: ResumeData): (text: string)
    ensures text != [] && text[0] == '"'
  {
    EncodePersonalInfo(d.personalInfo) + EncodeBody(d)
  }

  /** Reads a whole stored text, with nothing after the document; `None` for any other text. */
  function Decode(text: string): (r: Option<ResumeData>)
    ensures r.Some? ==> Encode(r.value) == text
  {
    var p :- ParsePersonalInfo(text);
    var s :- ParseString(p.1);
    var x :- ParseExperienceList(s.1);
    var e :- ParseEducationList(x.1);
    var k :- ParseSkillList(e.1);
    if k.1 != [] then None
    else
      var d := ResumeData(p.0, s.0, x.0, e.0, k.0);
      assert e.1 == EncodeSkillList(k.0);
      assert x.1 == EncodeEducationList(e.0) + EncodeSkillList(k.0);
      assert p.1 == EncodeBody(d);
      Some(d)
  }

  /** Reading back what was written gives the document that was written. */
  lemma DecodeEncode(d: ResumeData)
    ensures Decode(Encode(d)) == Some(d)
  {
    var t4 := EncodeSkillList(d.skills);
    var t3 := EncodeEducationList(d.education) + t4;
    var t2 := EncodeExperienceList(d.experience) + t3;
    var t1 := EncodeString(d.summary) + t2;
    ParsePersonalInfoEncoded(d.personalInfo, t1);
    ParseStringEncoded(d.summary, t2);
    ParseExperienceListEncoded(d.experience, t3);
    ParseEducationListEncoded(d.education, t4);
    assert t4 == t4 + [];
    ParseSkillListEncoded(d.skills, []);
  }
}
