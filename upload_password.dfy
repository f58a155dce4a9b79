/**
 * `POST /api/validate-upload-password`: tells the upload form whether a
 * password is the configured upload password, before any file is sent.
 */
module UploadPassword {
  import opened Wrappers
  import UploadMusic

  const OnlyPost: string := "Alleen POST toegestaan."
  const PasswordNotSet: string := "UPLOAD_PASSWORD is not set in environment."
  const PasswordRequired: string := "Wachtwoord is verplicht."
  const WrongPassword: string := "Wachtwoord is onjuist."

  /** The JSON answer: `valid` when the route sends it, `message` when it sends one. */
  datatype Reply = Reply(status: nat, valid: Option<bool>, message: Option<string>)

  /** The `password` field of the JSON body: absent, a string, or another JSON value with its truthiness. */
  datatype Field = Absent | Text(text: string) | NonString(truthy: bool)

  /** `!password` in JavaScript. */
  predicate Falsy(f: Field) {
    f.Absent? || (f.Text? && f.text == "") || (f.NonString? && !f.truthy)
  }

  /** The handler; a password that is not a string never equals the configured one. */
  function Validate(httpMethod: string, uploadPassword: Option<string>, password: Field): (r: Reply)
    ensures httpMethod != "POST" ==> r == Reply(405, None, Some(OnlyPost))
    ensures httpMethod == "POST" && (uploadPassword.None? || uploadPassword.value == "") ==> r == Reply(500, None, Some(PasswordNotSet))
    ensures r.status == 400 <==>
              httpMethod == "POST" && uploadPassword.Some? && uploadPassword.value != "" && Falsy(password)
    ensures r.status == 200 <==>
              httpMethod == "POST" && uploadPassword.Some? && uploadPassword.value != ""
              && password == Text(uploadPassword.value)
    ensures r.status == 200 ==> r == Reply(200, Some(true), None)
    ensures r.valid == Some(false) <==> r.status == 401
    ensures r.status == 401 ==> r.message == Some(WrongPassword)
    ensures httpMethod == "POST" && uploadPassword.Some? && uploadPassword.value != "" && password.NonString? && password.truthy
            ==> r.status == 401
    ensures r.status in {200, 400, 401, 405, 500}
  {
    if httpMethod != "POST" then Reply(405, None, Some(OnlyPost))
    else if uploadPassword.None? || uploadPassword.value == "" then Reply(500, None, Some(PasswordNotSet))
    else if Falsy(password) then Reply(400, None, Some(PasswordRequired))
    else if password.Text? && password.text == uploadPassword.value then Reply(200, Some(true), None)
    else Reply(401, Some(false), Some(WrongPassword))
  }

  /** The form's password field as this check sees it: absent, or the text sent. */
  function FieldOf(password: Option<string>): Field {
    if password.None? then Absent else Text(password.value)
  }

  /**
   * For a form that carries a file and parses, the check answers `valid`
   * exactly when the upload itself is authorized: both require the
   * configured password, non-empty, matched exactly.
   */
  lemma ValidExactlyWhenUploadAccepts(uploadPassword: Option<string>, raw: UploadMusic.RawForm)
    requires !raw.error && raw.file.Some?
    ensures Validate("POST", uploadPassword, FieldOf(raw.password)).status == 200
            <==> UploadMusic.Authorized(uploadPassword, raw)
  {
  }
}
