/** The profile record and the deterministic logic around it: hydrating the
    form from a loaded record, validating a save, building the record that is
    sent, and choosing what the user is told about the answer. */
module Profile {
  import opened JsValues
  import opened JsStrings
  import opened Forms

  const STUDENT := "student"
  const TUTOR := "tutor"

  /** The message of the TypeError thrown by `user.id` when there is no user
      (V8's wording for a null `user`). */
  const NO_USER_ERROR := "Cannot read properties of null (reading 'id')"

  /** The `hourlyRate` state: what was typed into the number input, or the
      number a loaded record carried (the loader stores `p.hourly_rate` as is). */
  datatype RateField = Typed(text: string) | Loaded(amount: Num)

  /** `hourlyRate` used as a condition. */
  predicate RateTruthy(r: RateField) {
    match r
    case Typed(t) => t != ""
    case Loaded(x) => NumTruthy(x)
  }

  /** `Number(hourlyRate)`. */
  function RateNumber(r: RateField): Num {
    match r
    case Typed(t) => ToNumber(t)
    case Loaded(x) => x
  }

  /** The nine editable fields of the form. */
  datatype Draft = Draft(
    role: string, name: string, school: string, major: string, grade: string,
    hourlyRate: RateField, subjects: seq<string>, bio: string, photoUrl: string)

  /** The state the form starts in: a student, the user's display name, and
      everything else empty. */
  function InitialDraft(user: Option<User>): Draft {
    Draft(STUDENT, if user.Some? then StrOr(user.value.name, "") else "",
          "", "", "", Typed(""), [], "", "")
  }

  // ---------------------------------------------------------------- loading

  /** A stored profile as the backend returns it; any field may be missing. */
  datatype RemoteProfile = RemoteProfile(
    role: Option<string>, name: Option<string>, school: Option<string>,
    major: Option<string>, grade: Option<string>, hourlyRate: Option<Num>,
    subjects: Option<seq<string>>, bio: Option<string>, photoUrl: Option<string>)

  /** How `GET /api/profile/:id` ended: an answer, or a thrown error. */
  datatype LoadReply = LoadReplied(success: bool, profile: Option<RemoteProfile>) | LoadThrew

  /** The loader changes the form only for a user with an id and an answer
      with `success` set and a profile present. */
  predicate LoadApplies(user: Option<User>, reply: LoadReply) {
    HasId(user) && reply.LoadReplied? && reply.success && reply.profile.Some?
  }

  /** The nine setters of the loader: each field takes the remote value when
      it is truthy, else a fixed default; the name falls back to the user's
      display name first. */
  function Hydrate(p: RemoteProfile, user: User): (r: Draft)
    ensures r.role != ""
    ensures r.hourlyRate == Typed("") || (r.hourlyRate.Loaded? && NumTruthy(r.hourlyRate.amount))
  {
    Draft(
      StrOr(p.role, STUDENT),
      StrOr(p.name, StrOr(user.name, "")),
      StrOr(p.school, ""),
      StrOr(p.major, ""),
      StrOr(p.grade, ""),
      if p.hourlyRate.Some? && NumTruthy(p.hourlyRate.value) then Loaded(p.hourlyRate.value) else Typed(""),
      if p.subjects.Some? then p.subjects.value else [],
      StrOr(p.bio, ""),
      StrOr(p.photoUrl, ""))
  }

  /** The effect of a completed load on the form. */
  function Load(user: Option<User>, reply: LoadReply, d: Draft): (r: Draft)
    ensures !LoadApplies(user, reply) ==> r == d
    ensures LoadApplies(user, reply) ==> r == Hydrate(reply.profile.value, user.value)
    ensures LoadApplies(user, reply) ==> r.role != "" && r.role == StrOr(reply.profile.value.role, STUDENT)
    ensures LoadApplies(user, reply) ==> r.hourlyRate == Typed("") || (r.hourlyRate.Loaded? && NumTruthy(r.hourlyRate.amount))
  {
    if LoadApplies(user, reply) then Hydrate(reply.profile.value, user.value) else d
  }

  /** A failed, empty or refused load leaves a fresh form at its defaults. */
  lemma LoadMissKeepsDefaults(user: Option<User>, reply: LoadReply)
    requires !LoadApplies(user, reply)
    ensures Load(user, reply, InitialDraft(user)) == InitialDraft(user)
  {
  }

  /** A record without any truthy field (its subjects missing or empty)
      hydrates to exactly the defaults. */
  lemma HydrateEmptyRecord(p: RemoteProfile, user: User)
    requires !StrTruthy(p.role) && !StrTruthy(p.name) && !StrTruthy(p.school)
    requires !StrTruthy(p.major) && !StrTruthy(p.grade) && !StrTruthy(p.bio) && !StrTruthy(p.photoUrl)
    requires p.hourlyRate.None? || !NumTruthy(p.hourlyRate.value)
    requires p.subjects.None? || p.subjects.value == []
    ensures Hydrate(p, user) == InitialDraft(Some(user))
  {
  }

  /** The fallbacks of the loader, field by field: a truthy remote value
      wins, anything else gives the default (for the name, the user's own
      display name first). An array is truthy even when empty. */
  lemma HydrateFallbacks(p: RemoteProfile, user: User)
    ensures var r := Hydrate(p, user);
      (StrTruthy(p.role) ==> r.role == p.role.value) && (!StrTruthy(p.role) ==> r.role == STUDENT)
    ensures var r := Hydrate(p, user);
      (StrTruthy(p.name) ==> r.name == p.name.value) &&
      (!StrTruthy(p.name) && StrTruthy(user.name) ==> r.name == user.name.value) &&
      (!StrTruthy(p.name) && !StrTruthy(user.name) ==> r.name == "")
    ensures var r := Hydrate(p, user);
      (StrTruthy(p.school) ==> r.school == p.school.value) && (!StrTruthy(p.school) ==> r.school == "")
    ensures var r := Hydrate(p, user);
      (StrTruthy(p.major) ==> r.major == p.major.value) && (!StrTruthy(p.major) ==> r.major == "")
    ensures var r := Hydrate(p, user);
      (StrTruthy(p.grade) ==> r.grade == p.grade.value) && (!StrTruthy(p.grade) ==> r.grade == "")
    ensures var r := Hydrate(p, user);
      (p.hourlyRate.Some? && NumTruthy(p.hourlyRate.value) ==> r.hourlyRate == Loaded(p.hourlyRate.value)) &&
      (p.hourlyRate.None? || !NumTruthy(p.hourlyRate.value) ==> r.hourlyRate == Typed(""))
    ensures var r := Hydrate(p, user);
      (p.subjects.Some? ==> r.subjects == p.subjects.value) && (p.subjects.None? ==> r.subjects == [])
    ensures var r := Hydrate(p, user);
      (StrTruthy(p.bio) ==> r.bio == p.bio.value) && (!StrTruthy(p.bio) ==> r.bio == "")
    ensures var r := Hydrate(p, user);
      (StrTruthy(p.photoUrl) ==> r.photoUrl == p.photoUrl.value) && (!StrTruthy(p.photoUrl) ==> r.photoUrl == "")
  {
  }

  // ----------------------------------------------------------------- saving

  /** The validation of a save, checked in order; `None` when it passes. */
  function SaveCheck(d: Draft): (r: Option<Notice>)
    ensures r.Some? ==> r.value == EnterName || r.value == SelectSubject
  {
    if Trim(d.name) == "" then Some(EnterName)
    else if d.role == TUTOR && |d.subjects| == 0 then Some(SelectSubject)
    else None
  }

  /** The record `POST /api/profile` is sent. */
  datatype Payload = Payload(
    id: string, role: string, name: string, school: string, major: string,
    grade: string, hourlyRate: Option<Num>, subjects: seq<string>,
    photoUrl: Option<string>, bio: string)

  /** The payload literal of `saveProfile`. */
  function BuildPayload(id: string, d: Draft): (p: Payload)
    ensures p.id == id && p.role == d.role && p.subjects == d.subjects
    ensures p.name == Trim(d.name) && p.school == Trim(d.school) && p.major == Trim(d.major)
    ensures p.grade == Trim(d.grade) && p.bio == Trim(d.bio)
    ensures p.photoUrl.None? <==> d.photoUrl == ""
    ensures d.photoUrl != "" ==> p.photoUrl == Some(d.photoUrl)
    ensures p.hourlyRate.Some? ==> p.hourlyRate.value == RateNumber(d.hourlyRate)
  {
    Payload(
      id, d.role, Trim(d.name), Trim(d.school), Trim(d.major), Trim(d.grade),
      if d.role == TUTOR && RateTruthy(d.hourlyRate) then Some(RateNumber(d.hourlyRate)) else None,
      d.subjects,
      if d.photoUrl != "" then Some(d.photoUrl) else None,
      Trim(d.bio))
  }

  /** What a save does before any answer: refuse with a notice, fail while
      building the payload (there is no user to take the id from), or send. */
  datatype SavePlan = Invalid(notice: Notice) | Unbuildable | Submit(payload: Payload)

  function PlanSave(user: Option<User>, d: Draft): (r: SavePlan)
    ensures r.Invalid? <==> SaveCheck(d).Some?
    ensures r.Unbuildable? <==> SaveCheck(d).None? && user.None?
    ensures r.Submit? ==> r.payload.id == user.value.id && r.payload == BuildPayload(user.value.id, d)
  {
    match SaveCheck(d)
    case Some(n) => Invalid(n)
    case None => if user.None? then Unbuildable else Submit(BuildPayload(user.value.id, d))
  }

  /** The order of the checks: a blank name is refused whatever the role and
      subjects; a tutor with a name but no subject is refused next; anything
      else with a user is sent. */
  lemma SaveValidationOrder(user: Option<User>, d: Draft)
    ensures Trim(d.name) == "" ==> PlanSave(user, d) == Invalid(EnterName)
    ensures Trim(d.name) != "" && d.role == TUTOR && d.subjects == [] ==>
              PlanSave(user, d) == Invalid(SelectSubject)
    ensures PlanSave(user, d).Submit? <==>
              user.Some? && Trim(d.name) != "" && !(d.role == TUTOR && d.subjects == [])
  {
  }

  /** A name of white space alone counts as blank. */
  lemma BlankNameRefused(user: Option<User>, d: Draft)
    requires AllSpace(d.name)
    ensures PlanSave(user, d) == Invalid(EnterName)
  {
  }

  /** `hourly_rate` is null unless the role is tutor and a rate was entered;
      then it is the rate as a number. */
  lemma PayloadRate(id: string, d: Draft)
    ensures BuildPayload(id, d).hourlyRate.Some? <==> d.role == TUTOR && RateTruthy(d.hourlyRate)
    ensures d.role != TUTOR ==> BuildPayload(id, d).hourlyRate == None
    ensures d.hourlyRate.Typed? && d.role == TUTOR && d.hourlyRate.text != "" ==>
              BuildPayload(id, d).hourlyRate == Some(ToNumber(d.hourlyRate.text))
  {
  }

  /** Neither end of a string is white space. */
  predicate Unpadded(t: string) {
    t == [] || (!IsSpace(t[0]) && !IsSpace(t[|t| - 1]))
  }

  /** The text fields of a payload carry no surrounding white space, and
      building a payload again from its own values changes nothing. */
  lemma PayloadStable(id: string, d: Draft)
    ensures var p := BuildPayload(id, d);
      Unpadded(p.name) && Unpadded(p.school) && Unpadded(p.major) &&
      Unpadded(p.grade) && Unpadded(p.bio)
    ensures var p := BuildPayload(id, d);
      BuildPayload(id, d.(name := p.name, school := p.school, major := p.major,
                          grade := p.grade, bio := p.bio)) == p
  {
    var p := BuildPayload(id, d);
    TrimIdempotent(d.name);
    TrimIdempotent(d.school);
    TrimIdempotent(d.major);
    TrimIdempotent(d.grade);
    TrimIdempotent(d.bio);
    var e := d.(name := p.name, school := p.school, major := p.major, grade := p.grade, bio := p.bio);
    assert e.role == d.role && e.hourlyRate == d.hourlyRate && e.subjects == d.subjects && e.photoUrl == d.photoUrl;
    assert BuildPayload(id, e).name == p.name;
    assert BuildPayload(id, e).bio == p.bio;
  }

  /** A tutor named "Ada" teaching Algebra at a typed rate of "30" sends the
      number 30. */
  lemma TutorScenario(user: User)
    ensures PlanSave(Some(user), Draft(TUTOR, "Ada", "", "", "", Typed("30"), ["Algebra"], "", ""))
         == Submit(Payload(user.id, TUTOR, "Ada", "", "", "", Some(Int(30)), ["Algebra"], None, ""))
  {
    TrimOfUnpadded("Ada");
    ToNumberOfDigits("30");
    assert DigitsValue("30") == 30 by {
      assert "30"[..1] == "3";
    }
  }

  /** A student's typed rate is ignored. */
  lemma StudentScenario(user: User)
    ensures PlanSave(Some(user), Draft(STUDENT, "Ada", "", "", "", Typed("30"), [], "", ""))
         == Submit(Payload(user.id, STUDENT, "Ada", "", "", "", None, [], None, ""))
  {
    TrimOfUnpadded("Ada");
  }

  // ---------------------------------------------------------- save outcome

  /** How `POST /api/profile` ended: an answer, or a thrown error with the
      message of its response body (if any) and its own message. */
  datatype SaveResponse =
    | SaveReplied(success: bool, profile: Option<RemoteProfile>, message: Option<string>)
    | SaveThrew(responseMessage: Option<string>, errorMessage: string)

  /** The alert after the request: success, the server's message or
      "Save failed" for `success: false`, and "Save failed: " with the
      server's or the error's message for a thrown error. */
  function SaveNotice(r: SaveResponse): (n: Notice)
    ensures n == ProfileSaved <==> r.SaveReplied? && r.success
    ensures n.SaveFailed? <==> r.SaveThrew?
  {
    match r
    case SaveReplied(ok, _, m) => if ok then ProfileSaved else SaveRefused(StrOr(m, "Save failed"))
    case SaveThrew(rm, em) => SaveFailed(StrOr(rm, em))
  }

  /** Whether `onSaved` was called, and with what. */
  datatype Callback = NotCalled | CalledWith(profile: Option<RemoteProfile>)

  function SavedCallback(r: SaveResponse): (c: Callback)
    ensures c.CalledWith? <==> r.SaveReplied? && r.success
    ensures c.CalledWith? ==> c.profile == r.profile
  {
    if r.SaveReplied? && r.success then CalledWith(r.profile) else NotCalled
  }

  /** The server's message, when it sends one, is what the user reads; the
      generic text appears only without one. */
  lemma SaveNoticeText(r: SaveResponse)
    ensures r.SaveReplied? && r.success ==> Text(SaveNotice(r)) == "Profile saved successfully!"
    ensures r.SaveReplied? && !r.success && StrTruthy(r.message) ==> Text(SaveNotice(r)) == r.message.value
    ensures r.SaveReplied? && !r.success && !StrTruthy(r.message) ==> Text(SaveNotice(r)) == "Save failed"
    ensures r.SaveThrew? && StrTruthy(r.responseMessage) ==>
              Text(SaveNotice(r)) == "Save failed: " + r.responseMessage.value
    ensures r.SaveThrew? && !StrTruthy(r.responseMessage) ==>
              Text(SaveNotice(r)) == "Save failed: " + r.errorMessage
  {
  }

  // ------------------------------------------------------ save, then reload

  /** The record a later load returns for a saved payload, assuming the
      backend keeps the fields as sent. */
  function AsStored(p: Payload): RemoteProfile {
    RemoteProfile(Some(p.role), Some(p.name), Some(p.school), Some(p.major),
                  Some(p.grade), p.hourlyRate, Some(p.subjects), Some(p.bio), p.photoUrl)
  }

  /** Saving, reloading what was saved and saving again sends the same record,
      provided a role was set and the rate sent was null or a truthy number. */
  lemma SaveReloadSave(user: User, d: Draft)
    requires d.role != "" && SaveCheck(d) == None
    requires var r := BuildPayload(user.id, d).hourlyRate; r.None? || NumTruthy(r.value)
    ensures var p := BuildPayload(user.id, d);
      SaveCheck(Hydrate(AsStored(p), user)) == None &&
      BuildPayload(user.id, Hydrate(AsStored(p), user)) == p
  {
    PayloadStable(user.id, d);
  }

  /** A rate of 0 does not survive a reload: the loader turns it into an empty
      field, and the next save sends null. */
  lemma ZeroRateLostOnReload(user: User, d: Draft)
    requires BuildPayload(user.id, d).hourlyRate == Some(Int(0))
    ensures Hydrate(AsStored(BuildPayload(user.id, d)), user).hourlyRate == Typed("")
    ensures BuildPayload(user.id, Hydrate(AsStored(BuildPayload(user.id, d)), user)).hourlyRate == None
  {
  }
}
