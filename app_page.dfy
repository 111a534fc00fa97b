/**
 * The application shell (app/page.tsx): which page is shown, the login endpoint and popups,
 * the two-step logout, and the register-type selection.
 */
module AppPage {
  import opened Wrappers
  import opened Register

  datatype PageType = Home | Login | RegisterPage | RegisterSelection | Dashboard | Contact | Resources | Privacy

  /** The signed-in user as the authentication context decodes it from the token. */
  datatype User = User(user_type: string)

  /**
   * What the login request produced: it threw, it answered with a `null` body (reading
   * `response.data.token` then throws), or it answered with a body that may carry a token.
   */
  datatype LoginResponse = LoginThrew | NullData | LoginAnswered(token: Option<string>)

  const AdminLoginEndpoint := "/auth/admin/login"
  const StudentLoginEndpoint := "/auth/student/login"
  const InvalidCredentials := "Invalid credentials. Please try again."

  /** The effect on `[user, isLoading]`: once loading is over, the page follows the user. */
  function PageAfterAuth(current: PageType, user: Option<User>, isLoading: bool): (page: PageType)
    ensures isLoading ==> page == current
    ensures !isLoading ==> (page == Dashboard <==> user.Some?)
    ensures !isLoading ==> (page == Home <==> user.None?)
  {
    if isLoading then current else if user.Some? then Dashboard else Home
  }

  /** The login endpoint: the admin one for admins, the student one for everyone else. */
  function LoginEndpoint(userType: UserType): (endpoint: string)
    ensures endpoint == AdminLoginEndpoint <==> userType == Admin
    ensures endpoint == StudentLoginEndpoint <==> userType == Student
  {
    assert |AdminLoginEndpoint| != |StudentLoginEndpoint|;
    match userType
    case Admin => AdminLoginEndpoint
    case Student => StudentLoginEndpoint
  }

  /** `response.data.token` is truthy. */
  predicate HasToken(response: LoginResponse) {
    response.LoginAnswered? && response.token.Some? && response.token.value != ""
  }

  /**
   * The login signs someone in: the answer carries a token and the authentication context
   * decodes it (`decoded` is `None` when `jwtDecode` throws on the token).
   */
  predicate SignsIn(response: LoginResponse, decoded: Option<User>) {
    HasToken(response) && decoded.Some?
  }

  /**
   * The error `handleLogin` rethrows: anything thrown inside its `try` (the request, reading
   * a `null` body, decoding the token) yields one, always the same text.
   */
  function LoginError(response: LoginResponse, decoded: Option<User>): (error: Option<string>)
    ensures error.Some? <==> response.LoginThrew? || response.NullData? || (HasToken(response) && decoded.None?)
    ensures error.Some? ==> error.value == InvalidCredentials
    ensures SignsIn(response, decoded) ==> error == None
    ensures response.LoginAnswered? && !HasToken(response) ==> error == None
  {
    match response
    case LoginThrew => Some(InvalidCredentials)
    case NullData => Some(InvalidCredentials)
    case LoginAnswered(token) =>
      if token.Some? && token.value != "" && decoded.None? then Some(InvalidCredentials) else None
  }

  /** The dashboard is rendered only on the dashboard page with a signed-in user. */
  predicate ShowsDashboard(page: PageType, user: Option<User>) {
    page == Dashboard && user.Some?
  }

  /** After the effect has run, the dashboard is shown exactly when someone is signed in. */
  lemma DashboardFollowsUser(current: PageType, user: Option<User>)
    ensures ShowsDashboard(PageAfterAuth(current, user, false), user) <==> user.Some?
  {
  }

  /** One login request as sent. */
  datatype LoginRequest = LoginRequest(endpoint: string, email: string, password: string)

  class App {
    var currentPage: PageType
    var registerUserType: UserType
    var user: Option<User>
    var isLoading: bool
    var showWelcomePopup: bool
    var showGoodbyePopup: bool
    /** Every login request sent, in order. */
    var requests: seq<LoginRequest>

    /** The first render: the home page, the student register type, both popups closed. */
    constructor (user: Option<User>, isLoading: bool)
      ensures currentPage == Home && registerUserType == Student
      ensures this.user == user && this.isLoading == isLoading
      ensures !showWelcomePopup && !showGoodbyePopup && requests == []
    {
      currentPage := Home;
      registerUserType := Student;
      this.user := user;
      this.isLoading := isLoading;
      showWelcomePopup, showGoodbyePopup := false, false;
      requests := [];
    }

    /** The routing effect, run whenever `user` or `isLoading` changes. */
    method SyncPage()
      modifies this`currentPage
      ensures currentPage == PageAfterAuth(old(currentPage), user, isLoading)
      ensures !isLoading ==> (ShowsDashboard(currentPage, user) <==> user.Some?)
    {
      if !isLoading {
        if user.Some? {
          currentPage := Dashboard;
        } else {
          currentPage := Home;
        }
      }
    }

    /**
     * `handleLogin`: post to the endpoint of the user type; a token that the authentication
     * context decodes signs in the decoded user and opens the welcome popup; a failed request,
     * a `null` body or a token that does not decode changes nothing and yields the
     * invalid-credentials error.
     */
    method HandleLogin(email: string, password: string, userType: UserType, response: LoginResponse,
                       decoded: Option<User>)
      returns (error: Option<string>)
      modifies this`user, this`showWelcomePopup, this`requests
      ensures requests == old(requests) + [LoginRequest(LoginEndpoint(userType), email, password)]
      ensures error == LoginError(response, decoded)
      ensures SignsIn(response, decoded) ==> user == decoded && showWelcomePopup
      ensures !SignsIn(response, decoded) ==> user == old(user) && showWelcomePopup == old(showWelcomePopup)
    {
      var endpoint := if userType == Admin then AdminLoginEndpoint else StudentLoginEndpoint;
      requests := requests + [LoginRequest(endpoint, email, password)];
      error := None;
      match response {
        case LoginThrew =>
          error := Some(InvalidCredentials);
        case NullData =>
          error := Some(InvalidCredentials);
        case LoginAnswered(token) =>
          if token.Some? && token.value != "" {
            if decoded.None? {
              error := Some(InvalidCredentials);
            } else {
              user := decoded;
              showWelcomePopup := true;
            }
          }
      }
    }

    /** `handleLogout` only asks for confirmation through the goodbye popup. */
    method HandleLogout()
      modifies this`showGoodbyePopup
      ensures showGoodbyePopup
    {
      showGoodbyePopup := true;
    }

    /** `completeLogout` signs the user out and closes the goodbye popup. */
    method CompleteLogout()
      modifies this`user, this`showGoodbyePopup
      ensures user == None && !showGoodbyePopup
    {
      user := None;
      showGoodbyePopup := false;
    }

    method NavigateToPage(page: PageType)
      modifies this`currentPage
      ensures currentPage == page
    {
      currentPage := page;
    }

    /** `handleRegisterSelection`: remember the chosen type and open the registration page. */
    method HandleRegisterSelection(selected: UserType)
      modifies this`registerUserType, this`currentPage
      ensures registerUserType == selected && currentPage == RegisterPage
    {
      registerUserType := selected;
      currentPage := RegisterPage;
    }
  }
}
