/**
 * The check an uploaded image file must pass before it is cropped: one of
 * three image types, then at most 2 MiB.
 */
module ImageUtils {
  import opened Wrappers

  /** The parts of a browser `File` the checks read. */
  datatype ImageFile = ImageFile(name: string, mimeType: string, size: int)

  const VALID_TYPES: seq<string> := ["image/jpeg", "image/png", "image/webp"]
  const MAX_SIZE: int := 2 * 1024 * 1024

  const INVALID_FORMAT_MESSAGE: string := "Formato inválido. Use JPEG, PNG ou WEBP."
  const TOO_LARGE_MESSAGE: string := "Arquivo muito grande. Máximo: 2MB."

  /** `{valid, error?}`. */
  datatype ImageValidationResult = ImageValidationResult(valid: bool, error: Option<string>)

  /**
   * `validateImageFile`: a type outside the three is refused with the format
   * message before the size is looked at; then a size above 2 MiB is refused;
   * anything else is valid, with no error.
   */
  function ValidateImageFile(file: ImageFile): (r: ImageValidationResult)
    ensures r.valid <==> file.mimeType in VALID_TYPES && file.size <= MAX_SIZE
    ensures r.valid <==> r.error.None?
    ensures file.mimeType !in VALID_TYPES ==> r.error == Some(INVALID_FORMAT_MESSAGE)
    ensures file.mimeType in VALID_TYPES && file.size > MAX_SIZE ==> r.error == Some(TOO_LARGE_MESSAGE)
  {
    if file.mimeType !in VALID_TYPES then ImageValidationResult(false, Some(INVALID_FORMAT_MESSAGE))
    else if file.size > MAX_SIZE then ImageValidationResult(false, Some(TOO_LARGE_MESSAGE))
    else ImageValidationResult(true, None)
  }

  /** "image/jpg" is not among the types, so such a file is refused whatever its size. */
  lemma JpgAliasIsRefused(name: string, size: int)
    ensures ValidateImageFile(ImageFile(name, "image/jpg", size)) ==
      ImageValidationResult(false, Some(INVALID_FORMAT_MESSAGE))
  {
    assert "image/jpg" != "image/jpeg" && "image/jpg" != "image/png" && "image/jpg" != "image/webp";
  }

  /** The limit is inclusive: exactly 2 MiB passes, one byte more does not. */
  lemma SizeLimitIsInclusive(name: string)
    ensures ValidateImageFile(ImageFile(name, "image/png", 2097152)).valid
    ensures ValidateImageFile(ImageFile(name, "image/png", 2097153)).error == Some(TOO_LARGE_MESSAGE)
  {
    assert "image/png" in VALID_TYPES;
  }

  /** A wrong type reports the format error even when the file is also too large. */
  lemma TypeIsCheckedFirst(file: ImageFile)
    requires file.mimeType !in VALID_TYPES && file.size > MAX_SIZE
    ensures ValidateImageFile(file).error == Some(INVALID_FORMAT_MESSAGE)
  {
  }
}
