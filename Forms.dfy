/** What the profile form shares between its operations: the signed-in user
    handed to the component, and the notices the form shows with `alert`. */
module Forms {
  import opened JsValues

  /** The `user` prop: an identity with an optional display name. An `id`
      of "" stands for a missing or falsy id. */
  datatype User = User(id: string, name: Option<string>)

  /** Whether `user?.id` is truthy. */
  predicate HasId(user: Option<User>) {
    user.Some? && user.value.id != ""
  }

  /** Every alert the form can raise, one constructor per call site. */
  datatype Notice =
    | SelectFile                   // no file chosen
    | UserIdMissing                // no user id at upload time
    | NotAnImage                   // media type is not image/*
    | FileTooLarge                 // more than 5 MiB
    | PhotoUploaded
    | UploadFailed(detail: string) // storage error message
    | EnterName                    // name blank after trimming
    | SelectSubject                // tutor without subjects
    | ProfileSaved
    | SaveRefused(text: string)    // backend answered success: false
    | SaveFailed(detail: string)   // the request, or building it, threw

  /** The exact text the form passes to `alert`. */
  function Text(n: Notice): string {
    match n
    case SelectFile => "Please select a file"
    case UserIdMissing => "User ID not found. Please log in again."
    case NotAnImage => "Please select an image file"
    case FileTooLarge => "File size must be less than 5MB"
    case PhotoUploaded => "Photo uploaded successfully!"
    case UploadFailed(d) => "Upload failed: " + d
    case EnterName => "Please enter your name"
    case SelectSubject => "Please select at least one subject you can tutor"
    case ProfileSaved => "Profile saved successfully!"
    case SaveRefused(t) => t
    case SaveFailed(d) => "Save failed: " + d
  }
}
