/** The image store: the photo taken on the camera screen and the
    analysis result the service returned for it, as two independent
    nullable fields. */
module ImageContext {
  import opened Wrappers
  import opened Document

  /** `CapturedImage`: `uri`, optional `base64`, `timestamp`. */
  datatype CapturedImage = CapturedImage(uri: string, base64: Option<string>, timestamp: string)

  /** `ImageProvider`. The analysis result is the service's document. */
  class ImageStore {
    var capturedImage: Option<CapturedImage>
    var analysisResult: Option<Document>

    /** Both fields start null. */
    constructor ()
      ensures capturedImage == None && analysisResult == None
    {
      capturedImage := None;
      analysisResult := None;
    }

    /** `setCapturedImage`: the analysis result is not touched. */
    method SetCapturedImage(image: Option<CapturedImage>)
      modifies this`capturedImage
      ensures capturedImage == image
      ensures analysisResult == old(analysisResult)
    {
      capturedImage := image;
    }

    /** `setAnalysisResult`: the captured image is not touched. */
    method SetAnalysisResult(result: Option<Document>)
      modifies this`analysisResult
      ensures analysisResult == result
      ensures capturedImage == old(capturedImage)
    {
      analysisResult := result;
    }

    /** `clearImage`: drops the photo and keeps the analysis result. */
    method ClearImage()
      modifies this`capturedImage
      ensures capturedImage == None
      ensures analysisResult == old(analysisResult)
    {
      capturedImage := None;
    }

    /** `clearAll`: drops both. */
    method ClearAll()
      modifies this
      ensures capturedImage == None && analysisResult == None
    {
      capturedImage := None;
      analysisResult := None;
    }
  }

  const MissingImageProvider := "useImageContext must be used within an ImageProvider"

  /** `useImageContext`: the nearest provider, or an error outside one. */
  function UseImageContext(provider: Option<ImageStore>): (r: Result<ImageStore, string>)
    ensures r.Failure? <==> provider.None?
    ensures r.Success? ==> r.value == provider.value
    ensures r.Failure? ==> r.error == MissingImageProvider
  {
    match provider
    case Some(store) => Success(store)
    case None => Failure(MissingImageProvider)
  }
}
