/** The web app's CV upload page: which files it accepts, by picker or by
    drag and drop, and what an upload does to the page's state. The
    browser's file object is reduced to its name, MIME type and size; the
    HTTP request is an input that either succeeds or fails. */
module CVUpload {
  import opened Common

  datatype FileInfo = FileInfo(name: string, mimeType: string, size: nat)

  /** How the upload request ended: accepted, or refused with the error
      field of the response body when it had one. */
  datatype UploadOutcome = Uploaded | Refused(serverError: Option<string>)

  const AllowedTypes: seq<string> := [
    "application/pdf",
    "application/vnd.openxmlformats-officedocument.wordprocessingml.document",
    "application/msword"
  ]

  /** Ten megabytes. */
  const MaxSize: nat := 10 * 1024 * 1024

  const TypeError := "Faqat PDF yoki DOCX formatidagi fayllar qabul qilinadi"
  const SizeError := "Fayl hajmi 10MB dan oshmasligi kerak"
  const NoFileError := "Iltimos, fayl tanlang"
  const UploadError := "CV yuklashda xatolik yuz berdi"

  predicate Acceptable(f: FileInfo) {
    f.mimeType in AllowedTypes && f.size <= MaxSize
  }

  /** The message a file is refused with, or None when it is accepted.
      The type is checked before the size. */
  function Refusal(f: FileInfo): (r: Option<string>)
    ensures r.None? <==> Acceptable(f)
    ensures r == Some(TypeError) <==> f.mimeType !in AllowedTypes
    ensures r == Some(SizeError) <==> f.mimeType in AllowedTypes && f.size > MaxSize
  {
    if f.mimeType !in AllowedTypes then Some(TypeError)
    else if f.size > MaxSize then Some(SizeError)
    else None
  }

  /** The message shown after a refused upload: the server's error when
      it gave a non-empty one, a fixed message otherwise. */
  function FailureMessage(serverError: Option<string>): (m: string)
    ensures serverError.Some? && serverError.value != [] ==> m == serverError.value
    ensures serverError.None? || serverError.value == [] ==> m == UploadError
    ensures m != []
  {
    if serverError.Some? && serverError.value != [] then serverError.value else UploadError
  }

  class UploadPage {
    var file: Option<FileInfo>
    var uploading: bool
    var uploaded: bool
    var error: Option<string>
    /** Every file sent to the server, in order. */
    var sent: seq<FileInfo>

    /** A file held by the page was accepted. */
    predicate Valid()
      reads this
    {
      file.Some? ==> Acceptable(file.value)
    }

    constructor ()
      ensures file.None? && !uploading && !uploaded && error.None? && sent == []
      ensures Valid()
    {
      file := None;
      uploading := false;
      uploaded := false;
      error := None;
      sent := [];
    }

    /** A file chosen with the picker: an accepted one replaces the held
        file and clears the error, a refused one only sets the error, and
        a cancelled picker changes nothing. */
    method SelectFile(picked: Option<FileInfo>)
      requires Valid()
      modifies this
      ensures picked.None? ==> file == old(file) && error == old(error)
      ensures picked.Some? && Acceptable(picked.value) ==> file == picked && error.None?
      ensures picked.Some? && !Acceptable(picked.value) ==>
        file == old(file) && error == Refusal(picked.value)
      ensures uploading == old(uploading) && uploaded == old(uploaded) && sent == old(sent)
      ensures Valid()
    {
      if picked.Some? {
        var refusal := Refusal(picked.value);
        if refusal.Some? {
          error := refusal;
          return;
        }
        file := picked;
        error := None;
      }
    }

    /** A file dropped on the upload area, under the picker's rules. */
    method DropFile(dropped: Option<FileInfo>)
      requires Valid()
      modifies this
      ensures dropped.None? ==> file == old(file) && error == old(error)
      ensures dropped.Some? && Acceptable(dropped.value) ==> file == dropped && error.None?
      ensures dropped.Some? && !Acceptable(dropped.value) ==>
        file == old(file) && error == Refusal(dropped.value)
      ensures uploading == old(uploading) && uploaded == old(uploaded) && sent == old(sent)
      ensures Valid()
    {
      if dropped.Some? {
        var refusal := Refusal(dropped.value);
        if refusal.Some? {
          error := refusal;
          return;
        }
        file := dropped;
        error := None;
      }
    }

    /** Starts an upload. Without a file it only reports that one is
        needed; with one it sends it and clears the error. */
    method BeginUpload()
      requires Valid()
      modifies this
      ensures old(file).None? ==>
        error == Some(NoFileError) && sent == old(sent) && uploading == old(uploading)
      ensures old(file).Some? ==>
        uploading && error.None? && sent == old(sent) + [old(file).value]
      ensures file == old(file) && uploaded == old(uploaded)
      ensures Valid()
    {
      if file.None? {
        error := Some(NoFileError);
        return;
      }
      uploading := true;
      error := None;
      sent := sent + [file.value];
    }

    /** Ends an upload: success shows the confirmation and drops the
        file, failure keeps the file and shows why; either way the page
        stops uploading. */
    method FinishUpload(outcome: UploadOutcome)
      requires Valid() && uploading
      modifies this
      ensures outcome.Uploaded? ==> uploaded && file.None? && error == old(error)
      ensures outcome.Refused? ==>
        uploaded == old(uploaded) && file == old(file) &&
        error == Some(FailureMessage(outcome.serverError))
      ensures !uploading && sent == old(sent)
      ensures Valid()
    {
      if outcome.Uploaded? {
        uploaded := true;
        file := None;
      } else {
        error := Some(FailureMessage(outcome.serverError));
      }
      uploading := false;
    }
  }

  /** Every accepted file fits the size limit and has one of the document
      types, and every such file is accepted. */
  lemma AcceptedDocuments(f: FileInfo)
    ensures Acceptable(f) <==> Refusal(f).None?
    ensures Acceptable(f) ==> f.size <= 10485760
    ensures f.mimeType == "application/pdf" && f.size <= 10485760 ==> Acceptable(f)
  {
    assert AllowedTypes[0] == "application/pdf";
  }
}
