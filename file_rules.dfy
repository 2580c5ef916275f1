/** The file-input rule shared by frontend/src/Pages/Dashboard.jsx (images) and
    frontend/src/components/ResumeReviewer.jsx (PDFs): no file does nothing, a file
    over 5 MiB is refused before its type is looked at, and otherwise the MIME type
    must start with the expected prefix. */
module FileRules {
  import opened Js

  /** The `File` fields the rule reads. */
  datatype FileInfo = FileInfo(name: string, size: int, mimeType: string)

  /** `5 * 1024 * 1024`. */
  const MaxBytes: int := 5 * 1024 * 1024

  const SizeMessage := "File size must be < 5MB"

  /** What a change of the file input does: nothing, a toast, or keeping the file. */
  datatype Decision = Ignore | Reject(message: string) | Accept(file: FileInfo)

  function Decide(file: Maybe<FileInfo>, typePrefix: string, typeMessage: string): (r: Decision)
    ensures r == Ignore <==> file.Undefined?
    ensures r.Accept? <==> file.Defined? && file.value.size <= MaxBytes && StartsWith(file.value.mimeType, typePrefix)
    ensures r.Accept? ==> r.file == file.value
    ensures file.Defined? && file.value.size > MaxBytes ==> r == Reject(SizeMessage)
    ensures file.Defined? && file.value.size <= MaxBytes && !StartsWith(file.value.mimeType, typePrefix) ==>
              r == Reject(typeMessage)
  {
    if file.Undefined? then Ignore
    else if file.value.size > MaxBytes then Reject(SizeMessage)
    else if !StartsWith(file.value.mimeType, typePrefix) then Reject(typeMessage)
    else Accept(file.value)
  }

  /** The bound is inclusive: exactly 5 MiB passes the size check, one byte more
      does not, whatever the type. */
  lemma SizeBoundary(name: string, mimeType: string, typePrefix: string, typeMessage: string)
    requires StartsWith(mimeType, typePrefix)
    ensures Decide(Defined(FileInfo(name, 5242880, mimeType)), typePrefix, typeMessage).Accept?
    ensures Decide(Defined(FileInfo(name, 5242881, mimeType)), typePrefix, typeMessage) == Reject(SizeMessage)
  {
  }

  /** The size check comes first: a file that is both too large and of the wrong
      type gets the size message. */
  lemma SizeBeforeType(f: FileInfo, typePrefix: string, typeMessage: string)
    requires f.size > MaxBytes && !StartsWith(f.mimeType, typePrefix)
    ensures Decide(Defined(f), typePrefix, typeMessage).message == SizeMessage
  {
  }
}
