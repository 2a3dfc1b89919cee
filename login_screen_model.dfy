/** The login screen's view model: one `login` runs the three calls of the
    login flow in order and publishes its progress in six fields. What each
    `post` returned is an input (the session and job outcomes as functions of
    the arguments they are called with), and the method returns the calls it
    made, each with a snapshot of the published flags taken when that call
    went out. */
module LoginScreenModel {
  import opened Basics
  import opened Models
  import opened ApiService
  import opened AuthService

  const UNKNOWN_ERROR_MESSAGE := " Unknown Err occured"

  /** A call of the flow and the published state at the moment it was made. */
  datatype Step = Step(call: ApiCall, isLoading: bool, isLoggedIn: bool, errorMessage: Option<string>)

  class LoginScreenModel {
    var isLoading: bool
    var isLoggedIn: bool
    var errorMessage: Option<string>
    var currentSessionId: string
    var currentjobId: string
    var currentAccessToken: string

    constructor ()
      ensures !isLoading && !isLoggedIn && errorMessage.None?
      ensures currentSessionId == "" && currentjobId == "" && currentAccessToken == ""
    {
      isLoading := false;
      isLoggedIn := false;
      errorMessage := None;
      currentSessionId := "";
      currentjobId := "";
      currentAccessToken := "";
    }

    /** `login(email:password:)`. `loginPosted` is what the login `post` returned or threw,
        `sessionPosted` and `jobPosted` the same for the later calls, given their arguments. */
    method Login(
      email: string, password: string,
      loginPosted: Result<LoginResponse, ApiError>,
      sessionPosted: string -> Result<SessionResponse, ApiError>,
      jobPosted: (string, string) -> Result<CreateJobResponse, ApiError>)
      returns (steps: seq<Step>)
      modifies this
      // Every call goes out while loading, with the error cleared; loading is over on every exit.
      ensures 1 <= |steps| <= 3
      ensures forall i :: 0 <= i < |steps| ==> steps[i].isLoading && steps[i].errorMessage.None?
      ensures !isLoading
      // The calls, strictly in order, each only after the one before succeeded.
      ensures steps[0] == Step(LoginCall(email, password), true, old(isLoggedIn), None)
      ensures |steps| >= 2 <==> AuthService.Login(loginPosted).Success?
      ensures |steps| >= 2 ==>
        var token := AuthService.Login(loginPosted).value.accessToken;
        steps[1] == Step(CreateSessionCall(token), true, true, None)
      ensures |steps| == 3 <==>
        (AuthService.Login(loginPosted).Success?
         && CreateSession(sessionPosted(AuthService.Login(loginPosted).value.accessToken)).Success?)
      ensures |steps| == 3 ==>
        var token := AuthService.Login(loginPosted).value.accessToken;
        var id := CreateSession(sessionPosted(token)).value.id;
        steps[2] == Step(CreateUploadJobCall(id, token), true, true, None)
      // The token and the session id are kept from the steps that produced them.
      ensures currentAccessToken ==
        if AuthService.Login(loginPosted).Success? then AuthService.Login(loginPosted).value.accessToken
        else old(currentAccessToken)
      ensures currentSessionId ==
        if |steps| == 3 then CreateSession(sessionPosted(AuthService.Login(loginPosted).value.accessToken)).value.id
        else old(currentSessionId)
      // Full success: logged in, no error, and the job id stored.
      ensures (|steps| == 3 && CreateUploadJob(jobPosted(currentSessionId, currentAccessToken)).Success?) ==>
        isLoggedIn && errorMessage.None?
        && currentjobId == CreateUploadJob(jobPosted(currentSessionId, currentAccessToken)).value.jobId
      // Any failure: logged out, the one fixed message, and the job id untouched.
      ensures !(|steps| == 3 && CreateUploadJob(jobPosted(currentSessionId, currentAccessToken)).Success?) ==>
        !isLoggedIn && errorMessage == Some(UNKNOWN_ERROR_MESSAGE) && currentjobId == old(currentjobId)
    {
      isLoading := true;
      errorMessage := None;
      steps := [Step(LoginCall(email, password), isLoading, isLoggedIn, errorMessage)];
      var session := AuthService.Login(loginPosted);
      if session.Failure? {
        Fail();
        isLoading := false;
        return;
      }
      currentAccessToken := session.value.accessToken;
      isLoggedIn := true;
      steps := steps + [Step(CreateSessionCall(session.value.accessToken), isLoading, isLoggedIn, errorMessage)];
      var sessionData := CreateSession(sessionPosted(session.value.accessToken));
      if sessionData.Failure? {
        Fail();
        isLoading := false;
        return;
      }
      currentSessionId := sessionData.value.id;
      steps := steps + [Step(CreateUploadJobCall(sessionData.value.id, session.value.accessToken),
                             isLoading, isLoggedIn, errorMessage)];
      var jobData := CreateUploadJob(jobPosted(sessionData.value.id, session.value.accessToken));
      if jobData.Failure? {
        Fail();
        isLoading := false;
        return;
      }
      currentjobId := jobData.value.jobId;
      isLoading := false;
    }

    /** The `catch` clause of `login`. */
    method Fail()
      modifies this`isLoggedIn, this`errorMessage
      ensures !isLoggedIn && errorMessage == Some(UNKNOWN_ERROR_MESSAGE)
    {
      isLoggedIn := false;
      errorMessage := Some(UNKNOWN_ERROR_MESSAGE);
    }
  }
}
