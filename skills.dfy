/**
 * The skills form: a comma-separated input box whose pieces, trimmed and without the empty
 * ones, are added to the skill list as an insertion-ordered set union, and a per-skill
 * remove button.
 */
module Skills {
  import opened Seqs
  import opened Strings
  import opened ResumeTypes
  import ResumeDocument
  import ResumeContext
  import DocumentCodec

  /** The pieces, each trimmed, the empty ones dropped. */
  function Tokens(pieces: seq<string>): (r: seq<string>)
    ensures |r| <= |pieces|
    ensures forall i :: 0 <= i < |r| ==> r[i] != "" && Trim(r[i]) == r[i]
    ensures forall t :: t in r <==> t != "" && exists p :: p in pieces && Trim(p) == t
  {
    if pieces == [] then []
    else
      var t := Trim(pieces[0]);
      TrimIdempotent(pieces[0]);
      var rest := Tokens(pieces[1..]);
      assert forall p :: p in pieces <==> p == pieces[0] || p in pieces[1..];
      if t == "" then rest else [t] + rest
  }

  /** Tokenising distributes over concatenation of the piece lists. */
  lemma {:induction false} TokensConcat(a: seq<string>, b: seq<string>)
    ensures Tokens(a + b) == Tokens(a) + Tokens(b)
  {
    if a == [] {
      assert a + b == b;
    } else {
      assert (a + b)[0] == a[0] && (a + b)[1..] == a[1..] + b;
      TokensConcat(a[1..], b);
    }
  }

  /** `input.split(',').map(s => s.trim()).filter(s => s !== '')`. */
  function ParseSkillInput(input: string): (r: seq<string>)
    ensures forall i :: 0 <= i < |r| ==> r[i] != "" && Trim(r[i]) == r[i] && ',' !in r[i]
  {
    var pieces := Split(input, ',');
    var r := Tokens(pieces);
    forall i | 0 <= i < |r| ensures ',' !in r[i] {
      assert r[i] in r;
      var p :| p in pieces && Trim(p) == r[i];
      TrimSubset(p);
    }
    r
  }

  /** `Array.from(new Set([...skills, ...tokens]))`. */
  function MergeSkills(skills: seq<string>, tokens: seq<string>): (r: seq<string>)
    ensures NoDuplicates(r)
    ensures forall s :: s in r <==> s in skills || s in tokens
    ensures InFirstAppearanceOrder(r, skills + tokens)
    ensures NoDuplicates(skills) ==> |skills| <= |r| && r[..|skills|] == skills
  {
    DedupIntoSpec([], skills + tokens);
    DedupIntoOrder([], skills + tokens);
    assert [] + (skills + tokens) == skills + tokens;
    KeepsDistinctPrefix(skills, tokens);
    Dedup(skills + tokens)
  }

  lemma KeepsDistinctPrefix(skills: seq<string>, tokens: seq<string>)
    ensures NoDuplicates(skills) ==>
      |skills| <= |Dedup(skills + tokens)| && Dedup(skills + tokens)[..|skills|] == skills
  {
    if NoDuplicates(skills) {
      DedupIntoConcat([], skills, tokens);
      DedupIntoDistinct([], skills);
      assert [] + skills == skills;
      DedupIntoSpec(skills, tokens);
    }
  }

  /** Past the old skills come exactly the tokens that were not skills already. */
  lemma MergeSkillsAppendsNew(skills: seq<string>, tokens: seq<string>, s: string)
    requires NoDuplicates(skills)
    ensures s in MergeSkills(skills, tokens)[|skills|..] <==> s in tokens && s !in skills
  {
    var r := MergeSkills(skills, tokens);
    assert r == r[..|skills|] + r[|skills|..];
    forall j | |skills| <= j < |r| ensures r[j] !in skills {
      forall i | 0 <= i < |skills| ensures skills[i] != r[j] {
        assert r[i] == skills[i];
      }
    }
    if s in tokens && s !in skills {
      var k :| 0 <= k < |r| && r[k] == s;
      forall i | 0 <= i < |skills| ensures r[i] != s {
        assert r[i] == r[..|skills|][i];
      }
      assert r[|skills|..][k - |skills|] == s;
    }
  }

  /** Merging the same tokens a second time changes nothing. */
  lemma MergeSkillsIdempotent(skills: seq<string>, tokens: seq<string>)
    ensures MergeSkills(MergeSkills(skills, tokens), tokens) == MergeSkills(skills, tokens)
  {
    var r := MergeSkills(skills, tokens);
    assert Dedup(r + tokens) == DedupInto(DedupInto([], r), tokens) by {
      DedupIntoConcat([], r, tokens);
    }
    assert [] + r == r;
    DedupIntoDistinct([], r);
    DedupIntoSeen(r, tokens);
  }

  /** Merging the tokens of an input that are already skills changes nothing. */
  lemma MergeKnownSkills(skills: seq<string>, tokens: seq<string>)
    requires NoDuplicates(skills)
    requires forall t :: t in tokens ==> t in skills
    ensures MergeSkills(skills, tokens) == skills
  {
    DedupIntoConcat([], skills, tokens);
    assert [] + skills == skills;
    DedupIntoDistinct([], skills);
    DedupIntoSeen(skills, tokens);
  }

  /** `skills.filter(skill => skill !== s)`. */
  function RemoveSkill(skills: seq<string>, s: string): (r: seq<string>)
    ensures s !in r
    ensures forall t :: t in r <==> t in skills && t != s
    ensures s !in skills ==> r == skills
  {
    var r := RemoveWhere(skills, k => k, s);
    assert forall i :: 0 <= i < |r| ==> r[i] != s;
    assert s !in skills ==> !HasKey(skills, k => k, s);
    r
  }

  /** Removal keeps the other skills in relative order: it distributes over any split. */
  lemma RemoveSkillConcat(a: seq<string>, b: seq<string>, s: string)
    ensures RemoveSkill(a + b, s) == RemoveSkill(a, s) + RemoveSkill(b, s)
  {
    RemoveWhereConcat(a, b, k => k, s);
  }

  /** The form's own state: the text in the input box. */
  class SkillsForm {
    var skillInput: string

    constructor()
      ensures skillInput == ""
    {
      skillInput := "";
    }

    /** The input box's `onChange`. */
    method SetSkillInput(value: string)
      modifies this
      ensures skillInput == value
    {
      skillInput := value;
    }

    /**
     * `handleAddSkill`: an input that is blank once trimmed is ignored and stays in the box;
     * otherwise its tokens are merged into the skills and the box is cleared.
     */
    method HandleAddSkill(store: ResumeContext.ResumeProvider)
      requires store.Valid()
      modifies this, store
      ensures store.Valid()
      ensures Trim(old(skillInput)) == "" ==>
        skillInput == old(skillInput) && store.resumeData == old(store.resumeData)
        && store.storage == old(store.storage)
      ensures Trim(old(skillInput)) != "" ==>
        skillInput == "" && store.resumeData == ResumeDocument.UpdateSkills(old(store.resumeData),
          MergeSkills(old(store.resumeData.skills), ParseSkillInput(old(skillInput))))
        && store.storage == old(store.storage)[ResumeContext.DataKey := DocumentCodec.Encode(store.resumeData)]
      ensures store.template == old(store.template) && store.language == old(store.language)
    {
      if Trim(skillInput) != "" {
        var updated := MergeSkills(store.resumeData.skills, ParseSkillInput(skillInput));
        store.UpdateSkills(updated);
        skillInput := "";
      }
    }

    /** `handleRemoveSkill`. */
    method HandleRemoveSkill(store: ResumeContext.ResumeProvider, skill: string)
      requires store.Valid()
      modifies store
      ensures store.Valid()
      ensures store.resumeData ==
        ResumeDocument.UpdateSkills(old(store.resumeData), RemoveSkill(old(store.resumeData.skills), skill))
      ensures store.storage == old(store.storage)[ResumeContext.DataKey := DocumentCodec.Encode(store.resumeData)]
      ensures store.template == old(store.template) && store.language == old(store.language)
    {
      store.UpdateSkills(RemoveSkill(store.resumeData.skills, skill));
    }
  }
}
