/**
 * `backend/main.py`: the stateless variant of `POST /auth/telegram`. It checks
 * the payload with the same `validate_telegram_data` and answers with a fixed
 * message; it keeps no users.
 */
module BackendAuth {
  import opened Wrappers
  import opened Http
  import opened TelegramInitData
  import Users

  datatype Response = Authenticated(message: string) | Rejected(status: Status)

  const SuccessMessage: string := "Authentication successful"

  /** `auth_telegram`: a missing bot token is a server error before anything is
      checked, a payload that does not check out is unauthorized, and every
      genuine payload gets the same answer. */
  function AuthTelegram(crypto: Crypto, botToken: Option<string>, initData: Option<QueryParams>): (r: Response)
    ensures botToken.None? || botToken == Some("") ==> r == Rejected(InternalServerError)
    ensures botToken.Some? && botToken.value != "" ==>
      (r == Authenticated(SuccessMessage) <==> InitDataValid(crypto, initData, botToken.value))
    ensures botToken.Some? && botToken.value != "" && !InitDataValid(crypto, initData, botToken.value)
      ==> r == Rejected(Unauthorized)
    ensures r.Rejected? ==> r.status.Code() == 500 || r.status.Code() == 401
  {
    if botToken.None? || botToken.value == "" then Rejected(InternalServerError)
    else if !InitDataValid(crypto, initData, botToken.value) then Rejected(Unauthorized)
    else Authenticated(SuccessMessage)
  }

  /** Both `auth_telegram`s turn away the same requests with the same status
      before looking at any user data; only payloads this one accepts reach
      `main.py`'s user lookup. */
  lemma AgreesWithUserEndpoint(t: Users.UserTable, crypto: Crypto, botToken: Option<string>,
                               initData: Option<QueryParams>, userParams: QueryParams,
                               decodeJson: string -> Users.UserJson)
    ensures var mine := AuthTelegram(crypto, botToken, initData);
      var theirs := Users.Authenticate(t, crypto, botToken, initData, userParams, decodeJson);
      && (mine.Rejected? ==> theirs == (Users.AuthFailed(mine.status), t))
      && (theirs.0.AuthFailed? && theirs.0.status == Unauthorized ==> mine == Rejected(Unauthorized))
      && (theirs.0.UserCreated? || theirs.0.UserFound? ==> mine == Authenticated(SuccessMessage))
  {
  }
}
