/**
 * The registration page (components/register-page.tsx): the password check, the payload sent to
 * the student registration endpoint, and the error or success message the form shows afterwards.
 */
module Register {
  import opened Wrappers

  datatype UserType = Student | Admin

  /** The body of the registration request; an empty department id is sent as `null`. */
  datatype RegisterPayload = RegisterPayload(
    email: string, password: string, full_name: string, registration_number: string,
    department_id: Option<string>)

  /** What the server did with the request: accepted it, or failed, maybe with an `error` field. */
  datatype RegisterResponse = Accepted | Failed(error: Option<string>)

  const RegisterEndpoint := "/auth/student/register"
  const PasswordMismatch := "Passwords do not match!"
  const RegistrationSucceeded := "Registration successful! You will be redirected to the login page shortly."
  const RegistrationFailed := "Registration failed. Please try again."

  /** The request body; `departmentId || null` sends `null` for the empty string. */
  function MakePayload(email: string, password: string, fullName: string, registrationNumber: string,
                       departmentId: string): (p: RegisterPayload)
    ensures p.department_id == None <==> departmentId == ""
    ensures p.department_id.Some? ==> p.department_id.value == departmentId
    ensures p.email == email && p.password == password
    ensures p.full_name == fullName && p.registration_number == registrationNumber
  {
    RegisterPayload(email, password, fullName, registrationNumber,
                    if departmentId == "" then None else Some(departmentId))
  }

  /** `err.response.data.error` when it is a non-empty string, the generic message otherwise. */
  function FailureMessage(serverError: Option<string>): (m: string)
    ensures m != ""
    ensures serverError.Some? && serverError.value != "" ==> m == serverError.value
    ensures serverError.None? || serverError.value == "" ==> m == RegistrationFailed
  {
    if serverError.Some? && serverError.value != "" then serverError.value else RegistrationFailed
  }

  /** The messages shown once a submit has finished. */
  datatype Messages = Messages(error: string, success: string)

  /**
   * The outcome of one submit: a mismatch is reported before anything is sent; otherwise the
   * server's answer decides between the success text and a failure text. Exactly one of the two
   * messages is set.
   */
  function SubmitMessages(password: string, confirmPassword: string, response: RegisterResponse): (m: Messages)
    ensures (m.error == "") != (m.success == "")
    ensures password != confirmPassword ==> m.error == PasswordMismatch
    ensures m.success != "" <==> password == confirmPassword && response == Accepted
    ensures m.success != "" ==> m.success == RegistrationSucceeded
    ensures password == confirmPassword && response.Failed? ==> m.error == FailureMessage(response.error)
  {
    if password != confirmPassword then Messages(PasswordMismatch, "")
    else match response
      case Accepted => Messages("", RegistrationSucceeded)
      case Failed(error) => Messages(FailureMessage(error), "")
  }

  /** The form is rendered only for students; admins see a notice instead. */
  function FormShown(userType: UserType): (shown: bool)
    ensures shown <==> userType != Admin
  {
    match userType
    case Student => true
    case Admin => false
  }

  /** One registration request as sent: the endpoint and the body. */
  datatype Request = Request(endpoint: string, payload: RegisterPayload)

  class RegisterForm {
    var email: string
    var password: string
    var confirmPassword: string
    var fullName: string
    var registrationNumber: string
    var departmentId: string
    var isLoading: bool
    var error: string
    var success: string
    /** Every registration request this form has sent, in order. */
    var requests: seq<Request>

    constructor ()
      ensures email == "" && password == "" && confirmPassword == "" && fullName == ""
      ensures registrationNumber == "" && departmentId == ""
      ensures !isLoading && error == "" && success == "" && requests == []
    {
      email, password, confirmPassword, fullName := "", "", "", "";
      registrationNumber, departmentId := "", "";
      isLoading, error, success := false, "", "";
      requests := [];
    }

    /** The submit button is disabled while a request is in flight. */
    predicate SubmitDisabled()
      reads this
    {
      isLoading
    }

    /**
     * `handleSubmit`: clear both messages, stop on a password mismatch without sending anything,
     * otherwise send the payload and show the server's verdict; loading always ends.
     */
    method HandleSubmit(response: RegisterResponse)
      modifies this`isLoading, this`error, this`success, this`requests
      ensures !isLoading
      ensures Messages(error, success) == SubmitMessages(password, confirmPassword, response)
      ensures password != confirmPassword ==> requests == old(requests)
      ensures password == confirmPassword ==>
                requests == old(requests) + [Request(RegisterEndpoint,
                  MakePayload(email, password, fullName, registrationNumber, departmentId))]
    {
      isLoading := true;
      error := "";
      success := "";
      if password != confirmPassword {
        error := PasswordMismatch;
        isLoading := false;
        return;
      }
      var payload := MakePayload(email, password, fullName, registrationNumber, departmentId);
      requests := requests + [Request(RegisterEndpoint, payload)];
      match response {
        case Accepted =>
          success := RegistrationSucceeded;
        case Failed(serverError) =>
          if serverError.Some? && serverError.value != "" {
            error := serverError.value;
          } else {
            error := RegistrationFailed;
          }
      }
      isLoading := false;
    }
  }
}
