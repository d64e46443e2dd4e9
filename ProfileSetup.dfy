/** The profile form component as an object: each state hook is a field,
    and each handler is a method that updates the fields the way the
    handler's setters do. Network answers, the clock and the storage
    service's URL resolution are parameters. */
module ProfileSetup {
  import opened JsValues
  import opened JsStrings
  import opened Forms
  import opened Subjects
  import opened Profile
  import opened Avatar

  class FormState {
    /** The `user` prop. */
    const user: Option<User>

    var role: string
    var name: string
    var school: string
    var major: string
    var grade: string
    var hourlyRate: RateField
    var subjects: seq<string>
    var bio: string
    var photoUrl: string
    var uploading: bool
    var saving: bool

    /** The nine editable fields as one value. */
    function Current(): Draft
      reads this
    {
      Draft(role, name, school, major, grade, hourlyRate, subjects, bio, photoUrl)
    }

    /** The initial values of the state hooks. */
    constructor (user: Option<User>)
      ensures this.user == user
      ensures Current() == InitialDraft(user)
      ensures !uploading && !saving
    {
      this.user := user;
      role := STUDENT;
      name := if user.Some? then StrOr(user.value.name, "") else "";
      school, major, grade := "", "", "";
      hourlyRate := Typed("");
      subjects := [];
      bio, photoUrl := "", "";
      uploading, saving := false, false;
    }

    /** The loader once its request has ended: nine setters when the answer
      carries a profile, nothing otherwise. */
    method LoadProfile(reply: LoadReply)
      modifies this`role, this`name, this`school, this`major, this`grade
      modifies this`hourlyRate, this`subjects, this`bio, this`photoUrl
      ensures Current() == Load(user, reply, old(Current()))
      ensures uploading == old(uploading) && saving == old(saving)
    {
      if !HasId(user) {
        return;
      }
      if reply.LoadReplied? && reply.success && reply.profile.Some? {
        var p := reply.profile.value;
        role := StrOr(p.role, STUDENT);
        name := StrOr(p.name, StrOr(user.value.name, ""));
        school := StrOr(p.school, "");
        major := StrOr(p.major, "");
        grade := StrOr(p.grade, "");
        hourlyRate := if p.hourlyRate.Some? && NumTruthy(p.hourlyRate.value) then Loaded(p.hourlyRate.value) else Typed("");
        subjects := if p.subjects.Some? then p.subjects.value else [];
        bio := StrOr(p.bio, "");
        photoUrl := StrOr(p.photoUrl, "");
        assert Current() == Hydrate(p, user.value);
        assert LoadApplies(user, reply);
      }
    }

    /** A click on a subject chip. */
    method ToggleSubject(s: string)
      modifies this`subjects
      ensures subjects == Toggle(old(subjects), s)
      ensures Members(subjects) == if s in old(subjects) then Members(old(subjects)) - {s} else Members(old(subjects)) + {s}
      ensures NoDuplicates(old(subjects)) ==> NoDuplicates(subjects)
      ensures Current() == old(Current()).(subjects := subjects)
    {
      ToggleMembers(subjects, s);
      if NoDuplicates(subjects) {
        ToggleKeepsNoDuplicates(subjects, s);
      }
      subjects := if s in subjects then RemoveAll(subjects, s) else subjects + [s];
    }

    /** `uploadPhoto` up to the storage call: the four checks, then the
      `uploading` flag and the key. */
    method StartUpload(file: Option<File>, ts: nat) returns (plan: UploadPlan)
      modifies this`uploading
      ensures plan == PlanUpload(user, file, ts)
      ensures uploading == (plan.Begin? || old(uploading))
    {
      if file.None? {
        return Refused(SelectFile);
      }
      if !HasId(user) {
        return Refused(UserIdMissing);
      }
      if !StartsWith(file.value.mediaType, IMAGE_PREFIX) {
        return Refused(NotAnImage);
      }
      if file.value.size > MAX_PHOTO_BYTES {
        return Refused(FileTooLarge);
      }
      uploading := true;
      var ext := FileExt(file.value.name);
      var fileName := user.value.id + "-" + Decimal(ts) + "." + ext;
      var filePath := KEY_PREFIX + fileName;
      assert filePath == StorageKey(user.value.id, ts, ext) by {
        StorageKeyRegroup(user.value.id, ts, ext);
      }
      assert PlanUpload(user, file, ts) == Begin(StorageKey(user.value.id, ts, ext));
      return Begin(filePath);
    }

    /** `uploadPhoto` after the storage call: on success the public URL of
      the key becomes the photo; `uploading` is cleared either way. */
    method FinishUpload(key: string, result: StorageResult, publicUrl: string -> string)
      returns (notice: Notice)
      modifies this`photoUrl, this`uploading
      ensures photoUrl == (if result.StoreOk? then publicUrl(key) else old(photoUrl))
      ensures !uploading
      ensures notice == UploadNotice(result)
    {
      match result {
        case StoreOk =>
          photoUrl := publicUrl(key);
          notice := PhotoUploaded;
        case StoreFailed(m) =>
          notice := UploadFailed(m);
      }
      uploading := false;
    }

    /** One whole upload: a refused one makes no storage request and changes
      nothing; a begun one requests storage under the derived key and ends
      with `uploading` cleared; no other field changes. */
    method UploadPhoto(file: Option<File>, ts: nat, result: StorageResult, publicUrl: string -> string)
      returns (notice: Notice, request: Option<StorageCall>)
      modifies this`photoUrl, this`uploading
      ensures var plan := PlanUpload(user, file, ts);
        if plan.Refused? then
          notice == plan.notice && request == None &&
          photoUrl == old(photoUrl) && uploading == old(uploading)
        else
          request == Some(StorageCallFor(plan.key)) && notice == UploadNotice(result) && !uploading &&
          photoUrl == (if result.StoreOk? then publicUrl(plan.key) else old(photoUrl))
      ensures Current() == old(Current()).(photoUrl := photoUrl)
    {
      var plan := StartUpload(file, ts);
      if plan.Refused? {
        return plan.notice, None;
      }
      request := Some(StorageCallFor(plan.key));
      notice := FinishUpload(plan.key, result, publicUrl);
    }

    /** `saveProfile` up to the request: the two checks, then the `saving`
      flag and the payload. */
    method StartSave() returns (plan: SavePlan)
      modifies this`saving
      ensures plan == PlanSave(user, Current())
      ensures saving == (!plan.Invalid? || old(saving))
    {
      if Trim(name) == "" {
        return Invalid(EnterName);
      }
      if role == TUTOR && |subjects| == 0 {
        return Invalid(SelectSubject);
      }
      saving := true;
      if user.None? {
        return Unbuildable;
      }
      var rate := if role == TUTOR && RateTruthy(hourlyRate) then Some(RateNumber(hourlyRate)) else None;
      var photo := if photoUrl != "" then Some(photoUrl) else None;
      plan := Submit(Payload(user.value.id, role, Trim(name), Trim(school), Trim(major), Trim(grade),
                             rate, subjects, photo, Trim(bio)));
    }

    /** `saveProfile` after the request: the notice, the `onSaved` call, and
      `saving` cleared whatever the answer. */
    method FinishSave(response: SaveResponse) returns (notice: Notice, callback: Callback)
      modifies this`saving
      ensures !saving
      ensures notice == SaveNotice(response)
      ensures callback == SavedCallback(response)
    {
      match response {
        case SaveReplied(ok, p, m) =>
          if ok {
            notice, callback := ProfileSaved, CalledWith(p);
          } else {
            notice, callback := SaveRefused(StrOr(m, "Save failed")), NotCalled;
          }
        case SaveThrew(rm, em) =>
          notice, callback := SaveFailed(StrOr(rm, em)), NotCalled;
      }
      saving := false;
    }

    /** One whole save. The draft never changes; a refused save sends
      nothing and leaves `saving` alone; otherwise `saving` ends false. */
    method SaveProfile(response: SaveResponse) returns (notice: Notice, sent: Option<Payload>, callback: Callback)
      modifies this`saving
      ensures Current() == old(Current())
      ensures match PlanSave(user, old(Current()))
        case Invalid(n) => notice == n && sent == None && callback == NotCalled && saving == old(saving)
        case Unbuildable => notice == SaveFailed(NO_USER_ERROR) && sent == None && callback == NotCalled && !saving
        case Submit(p) => notice == SaveNotice(response) && sent == Some(p) &&
                          callback == SavedCallback(response) && !saving
    {
      var plan := StartSave();
      match plan {
        case Invalid(n) =>
          notice, sent, callback := n, None, NotCalled;
        case Unbuildable =>
          // building the payload throws before any request is made
          notice, callback := FinishSave(SaveThrew(None, NO_USER_ERROR));
          sent := None;
        case Submit(p) =>
          notice, callback := FinishSave(response);
          sent := Some(p);
      }
    }
  }

  /** A save the backend refuses with a message shows that message and
      leaves the draft exactly as entered. */
  method RefusedSaveKeepsDraft(user: User) returns (shown: string, before: Draft, after: Draft)
    ensures shown == "Name taken"
    ensures after == before && after.name == "Ada" && after.role == TUTOR
  {
    var form := new FormState(Some(user));
    form.role := TUTOR;
    form.name := "Ada";
    form.subjects := ["Algebra"];
    form.hourlyRate := Typed("30");
    before := form.Current();
    assert before == Draft(TUTOR, "Ada", "", "", "", Typed("30"), ["Algebra"], "", "");
    TutorScenario(user);
    var reply := SaveReplied(false, None, Some("Name taken"));
    var notice, sent, callback := form.SaveProfile(reply);
    assert |"Name taken"| == 10;
    assert notice == SaveNotice(reply) == SaveRefused("Name taken");
    shown := Text(notice);
    after := form.Current();
  }
}
