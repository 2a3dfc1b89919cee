/** The JSON records the app exchanges with its back end, reduced to plain
    values. Only the fields the rest of the model reads are transcribed;
    `Codable` conformance and key mapping are not part of this model. */
module Models {
  import opened Basics

  datatype User = User(id: string, email: string, firstName: string)

  /** The `data` of a successful login: the bearer token and its lifetime. */
  datatype Session = Session(accessToken: string, expiresIn: int, user: Option<User>)

  datatype LoginResponse = LoginResponse(success: bool, data: Option<Session>)

  /** A server-side recording session; only its identifier matters here. */
  datatype SessionData = SessionData(id: string, createdAt: string, updatedAt: string)

  /** Unlike the other envelopes, `data` is not optional here. */
  datatype SessionResponse = SessionResponse(success: bool, data: SessionData)

  datatype JobData = JobData(jobId: string)

  datatype CreateJobResponse = CreateJobResponse(success: bool, data: Option<JobData>)

  /** The request bodies the app posts as JSON. */
  datatype RequestBody =
    | LoginRequest(email: string, password: string)
    | SessionRequest(name: string, condition: string)
    | EmptyRequest

  datatype UploadedFile = UploadedFile(
    fieldname: string, originalname: string, encoding: string, mimetype: string,
    destination: string, filename: string, path: string, size: int)

  datatype CreatedJobData = CreatedJobData(sessionId: string, userId: string, file: UploadedFile, jobId: string)

  datatype CreatedJob = CreatedJob(name: string, data: CreatedJobData)

  datatype UploadData = UploadData(jobId: string, createdJob: CreatedJob)

  datatype UploadResponse = UploadResponse(success: bool, data: UploadData)
}
