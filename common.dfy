/** Values shared by the editor's components: the optional wrapper that stands
    for TypeScript's `T | null`, the editing modes, and the image and result
    records that the panels, the service and the application pass around. */
module Common {

  datatype Option<+T> = None | Some(value: T)

  /** A value, or the error that was thrown instead. */
  datatype Result<+T, +E> = Ok(value: T) | Err(error: E)

  /** The editing modes offered by the sidebar. */
  datatype AppMode = Renovation | Marketplace | MerchantCoin | General

  /** An image the user uploaded (or a previous result fed back as input).
      The browser `File` object it also carries is not part of this model. */
  datatype UploadedImage = UploadedImage(
    id: string,
    previewUrl: string,
    base64: string,
    mimeType: string)

  /** One successful edit: the returned data URL, when it arrived and the
      prompt that produced it. */
  datatype GenerationResult = GenerationResult(
    imageUrl: string,
    timestamp: int,
    prompt: string)

  /** JavaScript truthiness of an optional string: present and not empty. */
  predicate Truthy(s: Option<string>)
  {
    s.Some? && s.value != ""
  }
}
