/**
 * The image upload panel (components/editor/ImageUploadPanel.tsx): it checks a selected
 * file's MIME type and size, uploads it to the blob store, shows the result as a preview
 * and hands its URL to the owner, and always ends an upload with the busy flag and the
 * progress reset.
 */
module ImageUploadPanel {
  import opened Options
  import opened Backend
  import opened Feedback

  /** The MIME types the panel accepts. */
  const AllowedTypes: seq<string> := ["image/png", "image/jpeg", "image/jpg", "image/webp"]

  /** The largest accepted size in bytes: 5 MiB. */
  const MaxImageBytes: nat := 5 * 1024 * 1024

  /** What the panel reads of a selected `File`. */
  datatype File = File(mimeType: string, size: nat)

  datatype Verdict = Accepted | WrongType | TooLarge

  /** The two checks, type first. */
  function CheckFile(f: File): (v: Verdict)
    ensures v == Accepted <==> f.mimeType in AllowedTypes && f.size <= MaxImageBytes
    ensures v == WrongType <==> f.mimeType !in AllowedTypes
    ensures v == TooLarge <==> f.mimeType in AllowedTypes && f.size > MaxImageBytes
  {
    if f.mimeType !in AllowedTypes then WrongType
    else if f.size > MaxImageBytes then TooLarge
    else Accepted
  }

  /** The limit is inclusive: a file of exactly 5,242,880 bytes passes, one byte more does not. */
  lemma SizeLimitBoundary(mimeType: string)
    requires mimeType in AllowedTypes
    ensures CheckFile(File(mimeType, 5242880)) == Accepted
    ensures CheckFile(File(mimeType, 5242881)) == TooLarge
  {
  }

  /** The toast for a file that failed a check. */
  function RejectionToast(v: Verdict): (t: Toast)
    requires v != Accepted
    ensures v == WrongType ==> t == Error("Please select a PNG, JPG, or WebP image")
    ensures v == TooLarge ==> t == Error("Image size must be less than 5MB")
  {
    if v == WrongType then Error("Please select a PNG, JPG, or WebP image")
    else Error("Image size must be less than 5MB")
  }

  /** The toast once the transfer settles. */
  function UploadToast(transfer: Reply<string>): (t: Toast)
    ensures transfer.Resolved? ==> t == Success("Image uploaded successfully")
    ensures transfer.Rejected? && MentionsAccess(transfer.message) ==> t == Error("Owner access required to upload images")
    ensures transfer.Rejected? && !MentionsAccess(transfer.message) ==> t == Error("Failed to upload image")
  {
    match transfer
    case Resolved(_) => Success("Image uploaded successfully")
    case Rejected(message) =>
      if MentionsAccess(MessageOr(message, "")) then Error("Owner access required to upload images")
      else Error("Failed to upload image")
  }

  class UploadPanel {
    const disabled: bool
    var uploading: bool
    var uploadProgress: int
    var previewUrl: string

    /** The panel is idle: no upload under way and no progress shown. */
    predicate Idle()
      reads this
    {
      !uploading && uploadProgress == 0
    }

    /** The preview starts from `currentImageUrl` and ignores later changes of it. */
    constructor (currentImageUrl: string, disabled: bool)
      ensures this.disabled == disabled && previewUrl == currentImageUrl && Idle()
    {
      this.disabled := disabled;
      uploading := false;
      uploadProgress := 0;
      previewUrl := currentImageUrl;
    }

    /** `isDisabled`: the controls are off while the owner disables them or an upload runs. */
    predicate IsDisabled()
      reads this
    {
      disabled || uploading
    }

    /** A preview, with its remove button, is shown instead of the file chooser. */
    predicate ShowsPreview()
      reads this
    {
      previewUrl != ""
    }

    /** The first step of an accepted file: the panel turns busy with zero progress. */
    method BeginUpload()
      modifies this
      ensures uploading && uploadProgress == 0 && IsDisabled()
      ensures previewUrl == old(previewUrl)
    {
      uploading := true;
      uploadProgress := 0;
    }

    /**
     * The transfer and the `finally`: on success the preview and the owner receive the same
     * URL; on failure the preview stays; either way the panel ends idle.
     */
    method FinishUpload(transfer: Reply<string>) returns (uploaded: Option<string>, toast: Toast)
      modifies this
      ensures Idle()
      ensures transfer.Resolved? ==> uploaded == Some(transfer.value) && previewUrl == transfer.value
      ensures transfer.Rejected? ==> uploaded == None && previewUrl == old(previewUrl)
      ensures toast == UploadToast(transfer)
    {
      uploaded := None;
      if transfer.Resolved? {
        previewUrl := transfer.value;
        uploaded := Some(transfer.value);
      }
      toast := UploadToast(transfer);
      uploading := false;
      uploadProgress := 0;
    }

    /**
     * `handleFileSelect`: no file does nothing; a file that fails a check only raises its
     * toast; an accepted file is uploaded, and `uploaded` is what the owner's
     * `onImageUploaded` receives.
     */
    method HandleFileSelect(file: Option<File>, transfer: Reply<string>) returns (uploaded: Option<string>, toast: Option<Toast>)
      modifies this
      ensures file.None? ==> uploaded == None && toast == None
      ensures file.Some? && CheckFile(file.value) != Accepted ==>
        uploaded == None && toast == Some(RejectionToast(CheckFile(file.value)))
      ensures file.None? || CheckFile(file.value) != Accepted ==>
        uploading == old(uploading) && uploadProgress == old(uploadProgress) && previewUrl == old(previewUrl)
      ensures file.Some? && CheckFile(file.value) == Accepted ==>
        Idle() && toast == Some(UploadToast(transfer)) &&
        (transfer.Resolved? ==> uploaded == Some(transfer.value) && previewUrl == transfer.value) &&
        (transfer.Rejected? ==> uploaded == None && previewUrl == old(previewUrl))
    {
      if file.None? {
        return None, None;
      }
      var verdict := CheckFile(file.value);
      if verdict != Accepted {
        return None, Some(RejectionToast(verdict));
      }
      BeginUpload();
      var t;
      uploaded, t := FinishUpload(transfer);
      toast := Some(t);
    }

    /** `handleRemove`: a disabled panel ignores it; otherwise the preview clears and the owner receives `''`. */
    method HandleRemove() returns (notified: Option<string>)
      modifies this
      ensures disabled ==> notified == None && previewUrl == old(previewUrl)
      ensures !disabled ==> notified == Some("") && previewUrl == ""
      ensures uploading == old(uploading) && uploadProgress == old(uploadProgress)
    {
      if disabled {
        return None;
      }
      previewUrl := "";
      notified := Some("");
    }
  }
}
