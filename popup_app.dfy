/**
 * The popup's PDF picker (entrypoints/popup/App.tsx): the displayed file name
 * and the upload button's disabled flag follow the file input's selection.
 */
module PopupApp {
  import opened Wrappers

  const PLACEHOLDER := "ファイルが選択されていません"

  datatype File = File(name: string)

  /** What `handleUpload` does: return early, or pass its guard with the chosen file. */
  datatype UploadStep = EarlyReturn | PassedGuard(file: File)

  class UploadPanel {
    var fileName: string
    var isDisabled: bool
    /** The input's current first file, as the change handler last saw it. */
    ghost var selected: Option<File>

    /** The view agrees with the selection. */
    ghost predicate Valid()
      reads this
    {
      && isDisabled == selected.None?
      && fileName == (if selected.Some? then selected.value.name else PLACEHOLDER)
    }

    constructor ()
      ensures Valid() && selected == None
      ensures fileName == PLACEHOLDER && isDisabled
    {
      fileName := PLACEHOLDER;
      isDisabled := true;
      selected := None;
    }

    /** `handleFileChange` with `event.target.files?.[0]`. */
    method HandleFileChange(file: Option<File>)
      modifies this
      ensures Valid() && selected == file
      ensures file.Some? ==> fileName == file.value.name && !isDisabled
      ensures file.None? ==> fileName == PLACEHOLDER && isDisabled
    {
      fileName := if file.Some? then file.value.name else PLACEHOLDER;
      isDisabled := file.None?;
      selected := file;
    }
  }

  /** `handleUpload` reads the input's first file and returns when there is none; nothing follows its guard. */
  method HandleUpload(inputFile: Option<File>) returns (step: UploadStep)
    ensures inputFile.None? <==> step == EarlyReturn
    ensures inputFile.Some? ==> step == PassedGuard(inputFile.value)
  {
    if inputFile.None? {
      return EarlyReturn;
    }
    step := PassedGuard(inputFile.value);
  }
}
