/** The deterministic part of the avatar upload: the checks made before
    anything is sent, the storage key the image is stored under, and the
    notice shown once storage has answered. */
module Avatar {
  import opened JsValues
  import opened JsStrings
  import opened Forms

  /** 5 MiB: the largest accepted image. */
  const MAX_PHOTO_BYTES: nat := 5 * 1024 * 1024
  const IMAGE_PREFIX := "image/"
  const KEY_PREFIX := "avatars/"

  /** The chosen file: its name, its media type and its size in bytes. */
  datatype File = File(name: string, mediaType: string, size: nat)

  /** `file.name.split('.').pop()`. */
  function FileExt(name: string): (ext: string)
    ensures '.' !in ext
  {
    Last(Split(name, '.'))
  }

  /** `ext` is the dot-free tail of `name` after its last dot, or the whole
      of a name without a dot. */
  predicate IsLastSegment(name: string, ext: string) {
    '.' !in ext && |ext| <= |name| && name[|name| - |ext|..] == ext &&
    (|ext| < |name| ==> name[|name| - |ext| - 1] == '.')
  }

  /** A last segment of `tail` stays one when a character is put in front,
      unless it was all of `tail` and the character is not a dot. */
  lemma ConsLastSegment(c: char, tail: string, ext: string)
    requires IsLastSegment(tail, ext)
    requires |ext| < |tail| || c == '.'
    ensures IsLastSegment([c] + tail, ext)
  {
    var name := [c] + tail;
    assert name[|name| - |ext|..] == tail[|tail| - |ext|..];
    if |ext| < |tail| {
      assert name[|name| - |ext| - 1] == tail[|tail| - |ext| - 1];
    }
  }

  /** The extension is the dot-free tail of the name after its last dot, or
      the whole name when there is no dot. */
  lemma {:induction false} FileExtIsLastSegment(name: string)
    ensures IsLastSegment(name, FileExt(name))
    ensures '.' !in name ==> FileExt(name) == name
    decreases |name|
  {
    if name != [] {
      var c, tail := name[0], name[1..];
      assert name == [c] + tail;
      FileExtIsLastSegment(tail);
      var rest := Split(tail, '.');
      SplitCons(c, tail, '.');
      if c == '.' {
        assert FileExt(name) == Last(rest);
        ConsLastSegment(c, tail, FileExt(tail));
      } else if |rest| == 1 {
        assert rest[0] == tail;
        assert FileExt(name) == name;
      } else {
        assert FileExt(name) == Last(rest);
        // the tail holds a dot, so its last segment is shorter than the tail
        assert '.' in tail;
        ConsLastSegment(c, tail, FileExt(tail));
      }
    }
  }

  /** The object key: `avatars/<user id>-<timestamp>.<extension>`. */
  function StorageKey(id: string, ts: nat, ext: string): string {
    KEY_PREFIX + id + "-" + Decimal(ts) + "." + ext
  }

  /** The key is the prefix followed by the file name `<id>-<ts>.<ext>`. */
  lemma StorageKeyRegroup(id: string, ts: nat, ext: string)
    ensures StorageKey(id, ts, ext) == KEY_PREFIX + (id + "-" + Decimal(ts) + "." + ext)
  {
  }

  /** Position of the first '.' in `s`, or `|s|` when there is none. */
  function FirstDot(s: string): (k: nat)
    ensures k <= |s|
  {
    if s == [] || s[0] == '.' then 0 else 1 + FirstDot(s[1..])
  }

  lemma {:induction false} FirstDotAfterDigits(d: string, ext: string)
    requires AllDigits(d)
    ensures FirstDot(d + "." + ext) == |d|
  {
    if d != [] {
      assert (d + "." + ext)[1..] == d[1..] + "." + ext;
      FirstDotAfterDigits(d[1..], ext);
    }
  }

  /** A user's key determines the timestamp and the extension it was made
      from: uploads at different times never share a key. */
  lemma StorageKeyInjective(id: string, t1: nat, e1: string, t2: nat, e2: string)
    requires StorageKey(id, t1, e1) == StorageKey(id, t2, e2)
    ensures t1 == t2 && e1 == e2
  {
    var pre := KEY_PREFIX + id + "-";
    var d1, d2 := Decimal(t1), Decimal(t2);
    var x1, x2 := d1 + "." + e1, d2 + "." + e2;
    assert StorageKey(id, t1, e1) == pre + x1;
    assert StorageKey(id, t2, e2) == pre + x2;
    assert x1 == (pre + x1)[|pre|..];
    assert x2 == (pre + x2)[|pre|..];
    FirstDotAfterDigits(d1, e1);
    FirstDotAfterDigits(d2, e2);
    assert d1 == x1[..|d1|] && d2 == x2[..|d2|];
    assert e1 == x1[|d1| + 1..] && e2 == x2[|d2| + 1..];
    DecimalInjective(t1, t2);
  }

  /** What an upload does before storage is called: refuse with a notice, or
      begin an upload under a key. */
  datatype UploadPlan = Refused(notice: Notice) | Begin(key: string)

  /** The four checks of `uploadPhoto`, in their order, then the key. */
  function PlanUpload(user: Option<User>, file: Option<File>, ts: nat): (r: UploadPlan)
    ensures r.Refused? ==> r.notice in {SelectFile, UserIdMissing, NotAnImage, FileTooLarge}
    ensures r.Begin? ==> HasId(user) && file.Some? && file.value.size <= MAX_PHOTO_BYTES
  {
    if file.None? then Refused(SelectFile)
    else if !HasId(user) then Refused(UserIdMissing)
    else if !StartsWith(file.value.mediaType, IMAGE_PREFIX) then Refused(NotAnImage)
    else if file.value.size > MAX_PHOTO_BYTES then Refused(FileTooLarge)
    else Begin(StorageKey(user.value.id, ts, FileExt(file.value.name)))
  }

  /** Each check wins over the ones after it; an upload begins exactly when
      all four pass, under the key built from the user, the time and the
      file's extension. */
  lemma UploadRejectionOrder(user: Option<User>, file: Option<File>, ts: nat)
    ensures file.None? ==> PlanUpload(user, file, ts) == Refused(SelectFile)
    ensures file.Some? && !HasId(user) ==> PlanUpload(user, file, ts) == Refused(UserIdMissing)
    ensures file.Some? && HasId(user) && !StartsWith(file.value.mediaType, "image/") ==>
              PlanUpload(user, file, ts) == Refused(NotAnImage)
    ensures file.Some? && HasId(user) && StartsWith(file.value.mediaType, "image/") &&
            file.value.size > 5 * 1024 * 1024 ==>
              PlanUpload(user, file, ts) == Refused(FileTooLarge)
    ensures PlanUpload(user, file, ts).Begin? <==>
              file.Some? && HasId(user) && StartsWith(file.value.mediaType, "image/") &&
              file.value.size <= 5 * 1024 * 1024
    ensures PlanUpload(user, file, ts).Begin? ==>
              PlanUpload(user, file, ts).key == "avatars/" + user.value.id + "-" + Decimal(ts) + "." + FileExt(file.value.name)
  {
  }

  /** An image of exactly 5 MiB is accepted. */
  lemma FiveMebibytesAccepted(user: User, name: string, ts: nat)
    requires user.id != ""
    ensures PlanUpload(Some(user), Some(File(name, "image/png", 5242880)), ts).Begin?
  {
  }

  /** The storage request: bucket, object path, cache lifetime in seconds
      (as text) and whether an existing object may be overwritten. */
  datatype StorageCall = StorageCall(bucket: string, path: string, cacheControl: string, upsert: bool)

  /** The request an upload makes for a key: into the avatars bucket, cached
      for an hour, never overwriting. */
  function StorageCallFor(key: string): (c: StorageCall)
    ensures c.path == key && c.bucket == "avatars" && !c.upsert
  {
    StorageCall("avatars", key, "3600", false)
  }

  /** How the storage call ended. */
  datatype StorageResult = StoreOk | StoreFailed(message: string)

  /** The alert once storage has answered. */
  function UploadNotice(r: StorageResult): (n: Notice)
    ensures n == PhotoUploaded <==> r.StoreOk?
    ensures r.StoreFailed? ==> Text(n) == "Upload failed: " + r.message
  {
    match r
    case StoreOk => PhotoUploaded
    case StoreFailed(m) => UploadFailed(m)
  }
}
