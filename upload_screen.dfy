/** The upload screen: four pieces of view state driven by `startUpload`, which
    runs once when the screen appears and again on each tap of Retry. The
    asynchronous function is cut at its one `await`: `StartUpload` is the part
    before it and returns the call it makes, `OnProgress` is the progress
    callback (run on the main queue), and `UploadReturned` is the rest, given
    what the upload returned or threw and what the JSON decoder made of it. */
module UploadScreen {
  import opened Basics
  import opened Models
  import opened AuthService

  const READY_MESSAGE := "Ready to upload"
  const UPLOADING_MESSAGE := "Uploading..."
  const SUCCESS_HEADING := " Upload Successful!\nJob ID: "
  const FILE_LABEL := "\nFile: "
  const FAILURE_PREFIX := "Upload failed: "

  /** The text shown after a successful upload (the multi-line literal's lines joined by
      line breaks): the heading, then the job id, then the file name, each readable back. */
  function SuccessMessage(jobId: string, originalname: string): (m: string)
    ensures |m| == |SUCCESS_HEADING| + |jobId| + |FILE_LABEL| + |originalname|
    ensures m[..|SUCCESS_HEADING|] == SUCCESS_HEADING
    ensures m[|SUCCESS_HEADING|..|SUCCESS_HEADING| + |jobId|] == jobId
    ensures m[|SUCCESS_HEADING| + |jobId|..|m| - |originalname|] == FILE_LABEL
    ensures m[|m| - |originalname|..] == originalname
  {
    ConcatAssoc(SUCCESS_HEADING, jobId, FILE_LABEL);
    ConcatAssoc(SUCCESS_HEADING + jobId, FILE_LABEL, originalname);
    SUCCESS_HEADING + jobId + FILE_LABEL + originalname
  }

  /** The text shown after a failure: the fixed prefix, then the error's description. */
  function FailureMessage(description: string): (m: string)
    ensures |m| == |FAILURE_PREFIX| + |description|
    ensures m[..|FAILURE_PREFIX|] == FAILURE_PREFIX && m[|FAILURE_PREFIX|..] == description
  {
    FAILURE_PREFIX + description
  }

  /** The four texts the screen shows can never be confused with one another. */
  lemma MessagesDistinct(jobId: string, originalname: string, description: string)
    ensures SuccessMessage(jobId, originalname) != FailureMessage(description)
    ensures SuccessMessage(jobId, originalname) != READY_MESSAGE
    ensures SuccessMessage(jobId, originalname) != UPLOADING_MESSAGE
    ensures FailureMessage(description) != READY_MESSAGE
    ensures FailureMessage(description) != UPLOADING_MESSAGE
  {
    var s, f := SuccessMessage(jobId, originalname), FailureMessage(description);
    assert s[0] == ' ' && f[0] == 'U';
    assert f[1] == 'p' && f[6] == ' ';
    assert READY_MESSAGE[0] == 'R' && UPLOADING_MESSAGE[6] == 'i';
  }

  /** The arguments `startUpload` hands to `UploadService.uploadFile`. */
  datatype UploadCall = UploadCall(sessionId: string, jobId: string, accessToken: string, fileURL: Url)

  class UploadScreen {
    const fileURL: Url
    const sessionId: string
    const jobId: string
    const accessToken: string

    var isUploading: bool
    var progress: real
    var message: string
    var showRetry: bool

    constructor (fileURL: Url, sessionId: string, jobId: string, accessToken: string)
      ensures this.fileURL == fileURL && this.sessionId == sessionId
      ensures this.jobId == jobId && this.accessToken == accessToken
      ensures !isUploading && progress == 0.0 && message == READY_MESSAGE && !showRetry
    {
      this.fileURL := fileURL;
      this.sessionId := sessionId;
      this.jobId := jobId;
      this.accessToken := accessToken;
      isUploading := false;
      progress := 0.0;
      message := READY_MESSAGE;
      showRetry := false;
    }

    /** `startUpload` up to its `await`: the state is reset and the upload is started. */
    method StartUpload() returns (call: UploadCall)
      modifies this
      ensures isUploading && progress == 0.0 && !showRetry && message == UPLOADING_MESSAGE
      ensures call == UploadCall(sessionId, jobId, accessToken, fileURL)
    {
      isUploading := true;
      progress := 0.0;
      showRetry := false;
      message := UPLOADING_MESSAGE;
      call := UploadCall(sessionId, jobId, accessToken, fileURL);
    }

    /** The Retry button, shown only after a failure: the whole of `startUpload` again. */
    method Retry() returns (call: UploadCall)
      requires showRetry
      modifies this
      ensures isUploading && progress == 0.0 && !showRetry && message == UPLOADING_MESSAGE
      ensures call == UploadCall(sessionId, jobId, accessToken, fileURL)
    {
      call := StartUpload();
    }

    /** The progress callback: the reported fraction replaces the shown one, as it is. */
    method OnProgress(newProgress: real)
      modifies this`progress
      ensures progress == newProgress
    {
      progress := newProgress;
    }

    /** `startUpload` after its `await`. `outcome` is what `uploadFile` returned or threw,
        `describe` gives an upload error's `localizedDescription`, and `decode` is the
        JSON decoder for `UploadResponse` (a failure carries its description). */
    method UploadReturned(
      outcome: Result<seq<Byte>, UploadError>, describe: UploadError -> string,
      decode: seq<Byte> -> Result<UploadResponse, string>)
      modifies this`isUploading, this`message, this`showRetry
      ensures !isUploading
      ensures outcome.Failure? ==> message == FailureMessage(describe(outcome.error)) && showRetry
      ensures outcome.Success? && decode(outcome.value).Failure? ==>
        message == FailureMessage(decode(outcome.value).error) && showRetry
      ensures outcome.Success? && decode(outcome.value).Success? ==>
        var r := decode(outcome.value).value;
        message == SuccessMessage(r.data.jobId, r.data.createdJob.data.file.originalname) && !showRetry
    {
      match outcome {
        case Failure(e) =>
          message := FailureMessage(describe(e));
          isUploading := false;
          showRetry := true;
        case Success(responseData) =>
          match decode(responseData) {
            case Failure(description) =>
              message := FailureMessage(description);
              isUploading := false;
              showRetry := true;
            case Success(decoded) =>
              message := SuccessMessage(decoded.data.jobId, decoded.data.createdJob.data.file.originalname);
              isUploading := false;
              showRetry := false;
          }
      }
    }
  }
}
