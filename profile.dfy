/** The profile routes that build or edit the acting user's profile: building the profile
    fields (with the skills list), and adding and removing experience and education
    entries. Each editing handler receives the document `Profile.findOne` returned (`null`
    when there was none) and, for inserts, the id the database mints for the new entry. */
module Profiles {
  import opened Options
  import opened Http
  import opened Sequences
  import opened Strings

  /** The body fields of PUT /profile/experience; an absent text field is the empty string. */
  datatype ExperienceInput = ExperienceInput(
    title: string, company: string, location: string, from: string, to: string,
    current: bool, description: string)

  datatype Experience = Experience(
    id: string, title: string, company: string, location: string, from: string, to: string,
    current: bool, description: string)

  /** The body fields of PUT /profile/education; an absent text field is the empty string. */
  datatype EducationInput = EducationInput(
    school: string, degree: string, fieldofstudy: string, from: string, to: string,
    current: bool, description: string)

  datatype Education = Education(
    id: string, school: string, degree: string, fieldofstudy: string, from: string, to: string,
    current: bool, description: string)

  /** A profile document as fetched: owner, experience and education (each newest first). */
  class Profile {
    const user: UserId
    var experience: seq<Experience>
    var education: seq<Education>

    constructor (owner: UserId, experience0: seq<Experience>, education0: seq<Education>)
      ensures user == owner && experience == experience0 && education == education0
    {
      user := owner;
      experience := experience0;
      education := education0;
    }
  }

  /** What the profile routes' catch blocks send, here for a null document's TypeError. */
  const ProfileServerError := ServerError("Server error")

  // ---------------------------------------------------------------------------
  // Experience

  /** The route's required-field checks, in the order the route lists them. */
  function ExperienceChecks(input: ExperienceInput): seq<(string, string)>
  {
    [(input.title, "Title is required"),
     (input.company, "Company is required"),
     (input.from, "From date is required")]
  }

  /** `newExp`, with the id the database assigns when it is inserted. */
  function NewExperience(id: string, input: ExperienceInput): Experience
  {
    Experience(id, input.title, input.company, input.location, input.from, input.to,
               input.current, input.description)
  }

  /** `profile.experience.map(item => item.id)`, the route's own id view. */
  function ExperienceIds(exps: seq<Experience>): (ids: seq<string>)
    ensures |ids| == |exps|
    ensures forall i :: 0 <= i < |exps| ==> ids[i] == exps[i].id
  {
    seq(|exps|, i requires 0 <= i < |exps| => exps[i].id)
  }

  /** The in-memory step of PUT /profile/experience on the profile's experience list. */
  function AddExperienceResult(exps: seq<Experience>, input: ExperienceInput, freshId: string)
    : Result<seq<Experience>>
  {
    var errs := Required(ExperienceChecks(input));
    if errs != [] then Err(Invalid(errs))
    else Ok([NewExperience(freshId, input)] + exps)
  }

  /** The in-memory step of DELETE /profile/experience/:exp_id: the guarded splice. */
  function RemoveExperienceResult(exps: seq<Experience>, expId: string): seq<Experience>
  {
    RemoveFirst(exps, ExperienceIds(exps), expId)
  }

  /** PUT /profile/experience */
  method AddExperience(profile: Profile?, input: ExperienceInput, freshId: string)
    returns (r: Outcome)
    modifies profile
    ensures profile == null ==>
      var errs := Required(ExperienceChecks(input));
      r == Fail(if errs != [] then Invalid(errs) else ProfileServerError)
    ensures profile != null ==>
      Saved(r, profile.experience) == AddExperienceResult(old(profile.experience), input, freshId)
    ensures profile != null && r.Fail? ==> profile.experience == old(profile.experience)
    ensures profile != null ==> profile.education == old(profile.education)
  {
    var errs := Required(ExperienceChecks(input));
    if errs != [] {
      return Fail(Invalid(errs));
    }
    if profile == null {
      return Fail(ProfileServerError);
    }
    profile.experience := [NewExperience(freshId, input)] + profile.experience;
    r := Pass;
  }

  /** DELETE /profile/experience/:exp_id */
  method RemoveExperience(profile: Profile?, expId: string) returns (r: Outcome)
    modifies profile
    ensures profile == null ==> r == Fail(ProfileServerError)
    ensures profile != null ==>
      r == Pass && profile.experience == RemoveExperienceResult(old(profile.experience), expId)
    ensures profile != null ==> profile.education == old(profile.education)
  {
    if profile == null {
      return Fail(ProfileServerError);
    }
    var k := FindIndex(ExperienceIds(profile.experience), expId);
    if k != -1 {
      profile.experience := SpliceOne(profile.experience, k);
    }
    r := Pass;
  }

  /** Creation is refused with the validator's 400 exactly when title, company or from is empty. */
  lemma AddExperienceValidates(exps: seq<Experience>, input: ExperienceInput, freshId: string)
    ensures AddExperienceResult(exps, input, freshId).Err? <==>
      input.title == "" || input.company == "" || input.from == ""
    ensures AddExperienceResult(exps, input, freshId).Err? ==>
      AddExperienceResult(exps, input, freshId) == Err(Invalid(Required(ExperienceChecks(input))))
  {
    var c := ExperienceChecks(input);
    assert c[0].0 == input.title && c[1].0 == input.company && c[2].0 == input.from;
  }

  /** An accepted experience goes first; the earlier entries follow, unchanged and in order. */
  lemma AddExperiencePrepends(exps: seq<Experience>, input: ExperienceInput, freshId: string)
    requires input.title != "" && input.company != "" && input.from != ""
    ensures AddExperienceResult(exps, input, freshId).Ok?
    ensures var e := AddExperienceResult(exps, input, freshId).value;
      |e| == |exps| + 1 && e[0] == NewExperience(freshId, input) && e[1..] == exps
  {
    AddExperienceValidates(exps, input, freshId);
  }

  /** Removing an id that is not there leaves the list as it was (the first entry is not dropped). */
  lemma RemoveExperienceMissing(exps: seq<Experience>, expId: string)
    requires forall i :: 0 <= i < |exps| ==> exps[i].id != expId
    ensures RemoveExperienceResult(exps, expId) == exps
  {
    RemoveFirstMiss(exps, ExperienceIds(exps), expId);
  }

  /** Removing an id that is there removes exactly its first entry; the rest keep their order. */
  lemma RemoveExperiencePresent(exps: seq<Experience>, expId: string, k: nat)
    requires k < |exps| && exps[k].id == expId
    requires forall i :: 0 <= i < k ==> exps[i].id != expId
    ensures RemoveExperienceResult(exps, expId) == exps[..k] + exps[k + 1..]
    ensures |RemoveExperienceResult(exps, expId)| == |exps| - 1
  {
    var ids := ExperienceIds(exps);
    RemoveFirstHit(exps, ids, expId);
    assert ids[k] == expId;
  }

  /** With fresh ids, adding and removing keep the entry ids distinct. */
  lemma ExperienceIdsStayDistinct(exps: seq<Experience>, input: ExperienceInput, freshId: string, expId: string)
    requires Distinct(ExperienceIds(exps))
    requires freshId !in ExperienceIds(exps)
    ensures AddExperienceResult(exps, input, freshId).Ok? ==>
      Distinct(ExperienceIds(AddExperienceResult(exps, input, freshId).value))
    ensures Distinct(ExperienceIds(RemoveExperienceResult(exps, expId)))
  {
    var ids := ExperienceIds(exps);
    if AddExperienceResult(exps, input, freshId).Ok? {
      var e := AddExperienceResult(exps, input, freshId).value;
      assert ExperienceIds(e) == [freshId] + ids;
      DistinctPrepend(freshId, ids);
    }
    var k := IndexOf(ids, expId);
    if k != -1 {
      SpliceOneAt(exps, k);
      SpliceOneAt(ids, k);
      assert ExperienceIds(SpliceOne(exps, k)) == SpliceOne(ids, k);
      DistinctSpliceOne(ids, k);
    }
  }

  /** Two additions, then removing the older one, then removing an id that is not there. */
  lemma ExperienceScenario(a: ExperienceInput, b: ExperienceInput, idA: string, idB: string, other: string)
    requires a.title != "" && a.company != "" && a.from != ""
    requires b.title != "" && b.company != "" && b.from != ""
    requires idA != idB && other != idB
    ensures AddExperienceResult([], a, idA).Ok?
    ensures AddExperienceResult(AddExperienceResult([], a, idA).value, b, idB).Ok?
    ensures var two := AddExperienceResult(AddExperienceResult([], a, idA).value, b, idB).value;
      two == [NewExperience(idB, b), NewExperience(idA, a)] &&
      RemoveExperienceResult(two, idA) == [NewExperience(idB, b)] &&
      RemoveExperienceResult(RemoveExperienceResult(two, idA), other) == [NewExperience(idB, b)]
  {
    AddExperiencePrepends([], a, idA);
    var one := AddExperienceResult([], a, idA).value;
    AddExperiencePrepends(one, b, idB);
    var two := AddExperienceResult(one, b, idB).value;
    assert two == [NewExperience(idB, b), NewExperience(idA, a)];
    RemoveExperiencePresent(two, idA, 1);
    assert two[..1] + two[2..] == [NewExperience(idB, b)];
    RemoveExperienceMissing([NewExperience(idB, b)], other);
  }

  // ---------------------------------------------------------------------------
  // Education

  /** The route's required-field checks, in the order the route lists them. */
  function EducationChecks(input: EducationInput): seq<(string, string)>
  {
    [(input.school, "School is required"),
     (input.degree, "Degree is required"),
     (input.fieldofstudy, "Field of Study is required"),
     (input.from, "From date is required"),
     (input.to, "To date is required")]
  }

  /** `newEducation`, with the id the database assigns when it is inserted. */
  function NewEducation(id: string, input: EducationInput): Education
  {
    Education(id, input.school, input.degree, input.fieldofstudy, input.from, input.to,
              input.current, input.description)
  }

  /** `profile.education.map(item => item.id)`, the route's own id view. */
  function EducationIds(edus: seq<Education>): (ids: seq<string>)
    ensures |ids| == |edus|
    ensures forall i :: 0 <= i < |edus| ==> ids[i] == edus[i].id
  {
    seq(|edus|, i requires 0 <= i < |edus| => edus[i].id)
  }

  /** The in-memory step of PUT /profile/education on the profile's education list. */
  function AddEducationResult(edus: seq<Education>, input: EducationInput, freshId: string)
    : Result<seq<Education>>
  {
    var errs := Required(EducationChecks(input));
    if errs != [] then Err(Invalid(errs))
    else Ok([NewEducation(freshId, input)] + edus)
  }

  /** The in-memory step of DELETE /profile/education/:educ_id: the guarded splice. */
  function RemoveEducationResult(edus: seq<Education>, eduId: string): seq<Education>
  {
    RemoveFirst(edus, EducationIds(edus), eduId)
  }

  /** PUT /profile/education */
  method AddEducation(profile: Profile?, input: EducationInput, freshId: string)
    returns (r: Outcome)
    modifies profile
    ensures profile == null ==>
      var errs := Required(EducationChecks(input));
      r == Fail(if errs != [] then Invalid(errs) else ProfileServerError)
    ensures profile != null ==>
      Saved(r, profile.education) == AddEducationResult(old(profile.education), input, freshId)
    ensures profile != null && r.Fail? ==> profile.education == old(profile.education)
    ensures profile != null ==> profile.experience == old(profile.experience)
  {
    var errs := Required(EducationChecks(input));
    if errs != [] {
      return Fail(Invalid(errs));
    }
    if profile == null {
      return Fail(ProfileServerError);
    }
    profile.education := [NewEducation(freshId, input)] + profile.education;
    r := Pass;
  }

  /** DELETE /profile/education/:educ_id */
  method RemoveEducation(profile: Profile?, eduId: string) returns (r: Outcome)
    modifies profile
    ensures profile == null ==> r == Fail(ProfileServerError)
    ensures profile != null ==>
      r == Pass && profile.education == RemoveEducationResult(old(profile.education), eduId)
    ensures profile != null ==> profile.experience == old(profile.experience)
  {
    if profile == null {
      return Fail(ProfileServerError);
    }
    var k := FindIndex(EducationIds(profile.education), eduId);
    if k != -1 {
      profile.education := SpliceOne(profile.education, k);
    }
    r := Pass;
  }

  /** Creation is refused with the validator's 400 exactly when school, degree, fieldofstudy,
      from or to is empty. */
  lemma AddEducationValidates(edus: seq<Education>, input: EducationInput, freshId: string)
    ensures AddEducationResult(edus, input, freshId).Err? <==>
      input.school == "" || input.degree == "" || input.fieldofstudy == "" ||
      input.from == "" || input.to == ""
    ensures AddEducationResult(edus, input, freshId).Err? ==>
      AddEducationResult(edus, input, freshId) == Err(Invalid(Required(EducationChecks(input))))
  {
    var c := EducationChecks(input);
    assert c[0].0 == input.school && c[1].0 == input.degree && c[2].0 == input.fieldofstudy;
    assert c[3].0 == input.from && c[4].0 == input.to;
  }

  /** An accepted education goes first; the earlier entries follow, unchanged and in order. */
  lemma AddEducationPrepends(edus: seq<Education>, input: EducationInput, freshId: string)
    requires input.school != "" && input.degree != "" && input.fieldofstudy != ""
    requires input.from != "" && input.to != ""
    ensures AddEducationResult(edus, input, freshId).Ok?
    ensures var e := AddEducationResult(edus, input, freshId).value;
      |e| == |edus| + 1 && e[0] == NewEducation(freshId, input) && e[1..] == edus
  {
    AddEducationValidates(edus, input, freshId);
  }

  /** Removing an id that is not there leaves the list as it was (the first entry is not dropped). */
  lemma RemoveEducationMissing(edus: seq<Education>, eduId: string)
    requires forall i :: 0 <= i < |edus| ==> edus[i].id != eduId
    ensures RemoveEducationResult(edus, eduId) == edus
  {
    RemoveFirstMiss(edus, EducationIds(edus), eduId);
  }

  /** Removing an id that is there removes exactly its first entry; the rest keep their order. */
  lemma RemoveEducationPresent(edus: seq<Education>, eduId: string, k: nat)
    requires k < |edus| && edus[k].id == eduId
    requires forall i :: 0 <= i < k ==> edus[i].id != eduId
    ensures RemoveEducationResult(edus, eduId) == edus[..k] + edus[k + 1..]
    ensures |RemoveEducationResult(edus, eduId)| == |edus| - 1
  {
    var ids := EducationIds(edus);
    RemoveFirstHit(edus, ids, eduId);
    assert ids[k] == eduId;
  }

  /** With fresh ids, adding and removing keep the entry ids distinct. */
  lemma EducationIdsStayDistinct(edus: seq<Education>, input: EducationInput, freshId: string, eduId: string)
    requires Distinct(EducationIds(edus))
    requires freshId !in EducationIds(edus)
    ensures AddEducationResult(edus, input, freshId).Ok? ==>
      Distinct(EducationIds(AddEducationResult(edus, input, freshId).value))
    ensures Distinct(EducationIds(RemoveEducationResult(edus, eduId)))
  {
    var ids := EducationIds(edus);
    if AddEducationResult(edus, input, freshId).Ok? {
      var e := AddEducationResult(edus, input, freshId).value;
      assert EducationIds(e) == [freshId] + ids;
      DistinctPrepend(freshId, ids);
    }
    var k := IndexOf(ids, eduId);
    if k != -1 {
      SpliceOneAt(edus, k);
      SpliceOneAt(ids, k);
      assert EducationIds(SpliceOne(edus, k)) == SpliceOne(ids, k);
      DistinctSpliceOne(ids, k);
    }
  }

  // ---------------------------------------------------------------------------
  // Profile fields

  /** The body fields of POST /profile; an absent field is the empty string (JavaScript's
      falsy values among strings). */
  datatype ProfileInput = ProfileInput(
    company: string, website: string, location: string, status: string, skills: string,
    bio: string, githubusername: string,
    youtube: string, twitter: string, facebook: string, linkedin: string, instagram: string)

  datatype Social = Social(
    youtube: Option<string>, twitter: Option<string>, facebook: Option<string>,
    linkedin: Option<string>, instagram: Option<string>)

  /** `profileFields`: None is a key the builder never set. */
  datatype ProfileFields = ProfileFields(
    user: UserId, company: Option<string>, website: Option<string>, location: Option<string>,
    status: Option<string>, skills: Option<seq<string>>, bio: Option<string>,
    githubusername: Option<string>, social: Social)

  /** The route's required-field checks, in the order the route lists them. */
  function ProfileChecks(body: ProfileInput): seq<(string, string)>
  {
    [(body.status, "Please enter a status"), (body.skills, "Please enter skills")]
  }

  /** Reading the misspelt variable `instragram` throws before the route's try block. */
  const InstagramError := Unhandled("ReferenceError: instragram is not defined")

  /** A builder field holds the input exactly when the input is truthy (non-empty). */
  predicate CopiedIfTruthy(field: Option<string>, input: string)
  {
    (field.Some? <==> input != "") && (field.Some? ==> field.value == input)
  }

  /** Each piece of `s.split(',')`, trimmed. */
  function TrimAll(pieces: seq<string>): (r: seq<string>)
    ensures |r| == |pieces|
    ensures forall i :: 0 <= i < |pieces| ==> r[i] == Trim(pieces[i])
  {
    if pieces == [] then [] else [Trim(pieces[0])] + TrimAll(pieces[1..])
  }

  /** `skills.split(',').map(skill => skill.trim())` */
  function ParseSkills(skills: string): seq<string>
  {
    TrimAll(Split(skills, ','))
  }

  /** One skill per comma-separated segment (commas + 1 of them, an empty string included);
      each skill is its segment with the surrounding whitespace removed. */
  lemma ParseSkillsPieces(skills: string)
    ensures |ParseSkills(skills)| == Count(skills, ',') + 1
    ensures forall i :: 0 <= i < |ParseSkills(skills)| ==>
      ParseSkills(skills)[i] == Trim(Split(skills, ',')[i]) &&
      ',' !in ParseSkills(skills)[i]
    ensures forall i :: 0 <= i < |ParseSkills(skills)| ==> var p := ParseSkills(skills)[i];
      p != [] ==> !IsWhitespace(p[0]) && !IsWhitespace(p[|p| - 1])
  {
    var pieces := Split(skills, ',');
    var r := TrimAll(pieces);
    forall i | 0 <= i < |r|
      ensures ',' !in r[i]
      ensures r[i] != [] ==> !IsWhitespace(r[i][0]) && !IsWhitespace(r[i][|r[i]| - 1])
    {
      assert r[i] == Trim(pieces[i]);
      TrimOmits(pieces[i], ',');
      TrimEnds(pieces[i]);
    }
  }

  /** The split step of the worked example below. */
  lemma SplitExample()
    ensures Split("js, go", ',') == ["js", " go"]
  {
    var pieces := ["js", " go"];
    assert pieces[1..] == [" go"];
    assert Join(pieces, ',') == "js, go";
    assert ',' !in pieces[0] && ',' !in pieces[1];
    SplitUnique("js, go", ',', pieces);
  }

  /** The trim steps of the worked example below. */
  lemma TrimExample()
    ensures Trim("js") == "js" && Trim(" go") == "go"
  {
    assert 'j' !in WhitespaceChars && 's' !in WhitespaceChars;
    TrimBare("js");
    assert ' ' in WhitespaceChars;
    assert 'g' !in WhitespaceChars && 'o' !in WhitespaceChars;
    assert [' '] + "go" == " go";
    TrimDropsLeading(' ', "go");
    TrimBare("go");
  }

  /** A worked example: "js, go" gives the two skills without the space. */
  lemma ParseSkillsExample()
    ensures ParseSkills("js, go") == ["js", "go"]
  {
    SplitExample();
    TrimExample();
    var r := TrimAll(["js", " go"]);
    assert |r| == 2 && r[0] == Trim("js") && r[1] == Trim(" go");
  }

  /** One `if (field) target = field;` of the builder. */
  method CopyIfTruthy(input: string) returns (field: Option<string>)
    ensures CopiedIfTruthy(field, input)
  {
    field := None;
    if input != "" {
      field := Some(input);
    }
  }

  /** The `social` object: each network copied when truthy. Reading the misspelt
      `instragram` makes a truthy instagram throw. */
  method BuildSocial(body: ProfileInput) returns (r: Result<Social>)
    ensures r.Ok? <==> body.instagram == ""
    ensures r.Err? ==> r == Err(InstagramError)
    ensures r.Ok? ==> var s := r.value;
      CopiedIfTruthy(s.youtube, body.youtube) && CopiedIfTruthy(s.twitter, body.twitter) &&
      CopiedIfTruthy(s.facebook, body.facebook) && CopiedIfTruthy(s.linkedin, body.linkedin) &&
      s.instagram == None
  {
    var youtube := CopyIfTruthy(body.youtube);
    var twitter := CopyIfTruthy(body.twitter);
    var facebook := CopyIfTruthy(body.facebook);
    var linkedin := CopyIfTruthy(body.linkedin);
    if body.instagram != "" {
      return Err(InstagramError);
    }
    r := Ok(Social(youtube, twitter, facebook, linkedin, None));
  }

  /** The plain fields of `profileFields`, each copied when truthy; skills split and trimmed. */
  method CopyFields(actor: UserId, body: ProfileInput) returns (f: ProfileFields)
    ensures f.user == actor && f.social == Social(None, None, None, None, None)
    ensures CopiedIfTruthy(f.company, body.company) && CopiedIfTruthy(f.website, body.website) &&
      CopiedIfTruthy(f.location, body.location) && CopiedIfTruthy(f.status, body.status) &&
      CopiedIfTruthy(f.bio, body.bio) && CopiedIfTruthy(f.githubusername, body.githubusername)
    ensures (f.skills.Some? <==> body.skills != "") &&
      (f.skills.Some? ==> f.skills.value == ParseSkills(body.skills))
  {
    var company := CopyIfTruthy(body.company);
    var website := CopyIfTruthy(body.website);
    var location := CopyIfTruthy(body.location);
    var status := CopyIfTruthy(body.status);
    var skills: Option<seq<string>> := None;
    if body.skills != "" {
      skills := Some(ParseSkills(body.skills));
    }
    var bio := CopyIfTruthy(body.bio);
    var githubusername := CopyIfTruthy(body.githubusername);
    f := ProfileFields(actor, company, website, location, status, skills, bio, githubusername,
                       Social(None, None, None, None, None));
  }

  /** POST /profile up to the database call: validation, then the step-by-step build of
      `profileFields` and its `social` object. */
  method BuildProfileFields(actor: UserId, body: ProfileInput) returns (r: Result<ProfileFields>)
    ensures Required(ProfileChecks(body)) != [] ==> r == Err(Invalid(Required(ProfileChecks(body))))
    ensures r.Ok? <==> body.status != "" && body.skills != "" && body.instagram == ""
    ensures r.Err? && body.status != "" && body.skills != "" ==> r == Err(InstagramError)
    ensures r.Ok? ==> var f := r.value;
      f.user == actor && f.status == Some(body.status) && f.skills == Some(ParseSkills(body.skills)) &&
      CopiedIfTruthy(f.company, body.company) && CopiedIfTruthy(f.website, body.website) &&
      CopiedIfTruthy(f.location, body.location) && CopiedIfTruthy(f.bio, body.bio) &&
      CopiedIfTruthy(f.githubusername, body.githubusername)
    ensures r.Ok? ==> var s := r.value.social;
      CopiedIfTruthy(s.youtube, body.youtube) && CopiedIfTruthy(s.twitter, body.twitter) &&
      CopiedIfTruthy(s.facebook, body.facebook) && CopiedIfTruthy(s.linkedin, body.linkedin) &&
      s.instagram == None
  {
    var errs := Required(ProfileChecks(body));
    var checks := ProfileChecks(body);
    assert checks[0].0 == body.status && checks[1].0 == body.skills;
    if errs != [] {
      return Err(Invalid(errs));
    }
    var f := CopyFields(actor, body);
    var social := BuildSocial(body);
    if social.Err? {
      return Err(social.error);
    }
    r := Ok(f.(social := social.value));
  }
}
