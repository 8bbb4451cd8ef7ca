/** The HTTP statuses the handlers answer with. */
module Http {

  datatype Status = BadRequest | Unauthorized | NotFound | InternalServerError {
    function Code(): int {
      match this
      case BadRequest => 400
      case Unauthorized => 401
      case NotFound => 404
      case InternalServerError => 500
    }
  }
}

/**
 * The user endpoints of `main.py`: `POST /auth/telegram` finds or creates the
 * user a genuine Telegram payload names, and
 * `PUT /users/{telegram_id}/complete_onboarding` sets that user's onboarding
 * flag. The `users` table is a map from `telegram_id` (a unique column) to
 * the row.
 */
module Users {
  import opened Wrappers
  import opened Http
  import opened TelegramInitData

  datatype UserRecord = UserRecord(id: nat, telegramId: string, onboardingCompleted: bool)

  /** The `users` table and the next value of its autoincrement key. */
  datatype UserTable = UserTable(users: map<string, UserRecord>, nextId: nat)

  /** Every row is filed under its own telegram id, and ids are distinct and
      below the next one to be handed out. */
  predicate TableInvariant(t: UserTable)
  {
    && (forall k :: k in t.users ==> t.users[k].telegramId == k && t.users[k].id < t.nextId)
    && (forall a, b :: a in t.users && b in t.users && a != b ==> t.users[a].id != t.users[b].id)
  }

  /** What `json.loads` makes of the `user` field, as far as the handler looks:
      `Object(Some(s))` when the object has an `id` whose `str()` is `s`,
      `Object(None)` when it has none. */
  datatype UserJson = Malformed | NotAnObject | Object(id: Option<string>)

  datatype AuthOutcome =
    | UserCreated(user: UserRecord)
    | UserFound(user: UserRecord)
    | AuthFailed(status: Status)

  datatype OnboardingOutcome =
    | AlreadyCompleted(user: UserRecord)
    | Completed(user: UserRecord)
    | OnboardingFailed(status: Status)

  const UserKey: string := "user"

  /** `str(user_info.get("id"))`: a missing id reads as the text "None". */
  const MissingIdText: string := "None"

  /**
   * The telegram id named by the payload (`userParams` is `parse_qs` of the
   * unquoted payload). The two 400 errors raised inside the `try` are caught
   * by its `except Exception` and answered with 500; only malformed JSON gets
   * a 400. A missing `id` is not caught: it becomes the id "None".
   */
  function TelegramIdOf(userParams: QueryParams, decodeJson: string -> UserJson): (r: Result<string, Status>)
    ensures r.Ok? ==> r.value != ""
    ensures r.Err? ==> r.error == BadRequest || r.error == InternalServerError
    ensures UserKey !in userParams || userParams[UserKey] == [] || userParams[UserKey][0] == ""
      ==> r == Err(InternalServerError)
    ensures (UserKey in userParams && userParams[UserKey] != [] && userParams[UserKey][0] != ""
             && decodeJson(userParams[UserKey][0]).NotAnObject?) ==> r == Err(InternalServerError)
    ensures r == Err(BadRequest) <==>
      UserKey in userParams && userParams[UserKey] != [] && userParams[UserKey][0] != ""
      && decodeJson(userParams[UserKey][0]).Malformed?
    ensures (UserKey in userParams && userParams[UserKey] != [] && userParams[UserKey][0] != ""
             && decodeJson(userParams[UserKey][0]) == Object(None)) ==> r == Ok(MissingIdText)
    ensures (UserKey in userParams && userParams[UserKey] != [] && userParams[UserKey][0] != ""
             && decodeJson(userParams[UserKey][0]).Object? && decodeJson(userParams[UserKey][0]).id.Some?) ==>
      var s := decodeJson(userParams[UserKey][0]).id.value;
      r == (if s == "" then Err(InternalServerError) else Ok(s))
  {
    if UserKey !in userParams || userParams[UserKey] == [] || userParams[UserKey][0] == "" then
      Err(InternalServerError)
    else
      match decodeJson(userParams[UserKey][0])
      case Malformed => Err(BadRequest)
      case NotAnObject => Err(InternalServerError)
      case Object(id) =>
        var telegramId := id.GetOr(MissingIdText);
        if telegramId == "" then Err(InternalServerError) else Ok(telegramId)
  }

  /** Look the user up by telegram id; add a fresh one, not yet onboarded, if there is none. */
  function FindOrCreate(t: UserTable, telegramId: string): (r: (AuthOutcome, UserTable))
    ensures r.0.UserFound? <==> telegramId in t.users
    ensures r.0.UserFound? || r.0.UserCreated?
    ensures telegramId in r.1.users && r.1.users[telegramId] == r.0.user
    ensures r.1.users.Keys == t.users.Keys + {telegramId}
    ensures telegramId in t.users ==> r.1 == t
    ensures telegramId !in t.users ==>
      r.0.user == UserRecord(t.nextId, telegramId, false) && r.1.nextId == t.nextId + 1
      && forall k :: k in t.users ==> r.1.users[k] == t.users[k]
  {
    if telegramId in t.users then (UserFound(t.users[telegramId]), t)
    else
      var user := UserRecord(t.nextId, telegramId, false);
      (UserCreated(user), UserTable(t.users[telegramId := user], t.nextId + 1))
  }

  /** `auth_telegram`: the outcome and the table afterwards. */
  function Authenticate(t: UserTable, crypto: Crypto, botToken: Option<string>,
                        initData: Option<QueryParams>, userParams: QueryParams,
                        decodeJson: string -> UserJson): (r: (AuthOutcome, UserTable))
    ensures botToken.None? || botToken == Some("") ==> r == (AuthFailed(InternalServerError), t)
    ensures botToken.Some? && botToken.value != "" && !InitDataValid(crypto, initData, botToken.value)
      ==> r == (AuthFailed(Unauthorized), t)
    ensures r.0.AuthFailed? ==> r.1 == t
    ensures r.0.UserFound? ==> r.1 == t && r.0.user in t.users.Values
    ensures r.0.UserCreated? ==> var u := r.0.user;
      && u.telegramId !in t.users && u.id == t.nextId && !u.onboardingCompleted
      && r.1 == UserTable(t.users[u.telegramId := u], t.nextId + 1)
    ensures forall k :: k in t.users ==> k in r.1.users && r.1.users[k] == t.users[k]
    ensures botToken.Some? && botToken.value != "" && InitDataValid(crypto, initData, botToken.value) ==>
      match TelegramIdOf(userParams, decodeJson)
      case Err(status) => r == (AuthFailed(status), t)
      case Ok(id) =>
        && (id in t.users ==> r == (UserFound(t.users[id]), t))
        && (id !in t.users ==> r.0 == UserCreated(UserRecord(t.nextId, id, false)))
  {
    if botToken.None? || botToken.value == "" then (AuthFailed(InternalServerError), t)
    else if !InitDataValid(crypto, initData, botToken.value) then (AuthFailed(Unauthorized), t)
    else
      match TelegramIdOf(userParams, decodeJson)
      case Err(status) => (AuthFailed(status), t)
      case Ok(telegramId) => FindOrCreate(t, telegramId)
  }

  /** Signing in keeps telegram ids unique and ids distinct. */
  lemma AuthenticatePreservesInvariant(t: UserTable, crypto: Crypto, botToken: Option<string>,
                                       initData: Option<QueryParams>, userParams: QueryParams,
                                       decodeJson: string -> UserJson)
    requires TableInvariant(t)
    ensures TableInvariant(Authenticate(t, crypto, botToken, initData, userParams, decodeJson).1)
  {
    var r := Authenticate(t, crypto, botToken, initData, userParams, decodeJson);
    if r.0.UserCreated? {
      var u := r.0.user;
      var users := r.1.users;
      forall a, b | a in users && b in users && a != b ensures users[a].id != users[b].id {
        if a == u.telegramId {
          assert users[b] == t.users[b];
        } else if b == u.telegramId {
          assert users[a] == t.users[a];
        }
      }
    }
  }

  /** Signing in twice with the same payload finds the user the first call found
      or created, and changes nothing the second time. */
  lemma AuthenticateIdempotent(t: UserTable, crypto: Crypto, botToken: Option<string>,
                               initData: Option<QueryParams>, userParams: QueryParams,
                               decodeJson: string -> UserJson)
    ensures var first := Authenticate(t, crypto, botToken, initData, userParams, decodeJson);
      var second := Authenticate(first.1, crypto, botToken, initData, userParams, decodeJson);
      && second.1 == first.1
      && (first.0.AuthFailed? ==> second.0 == first.0)
      && (!first.0.AuthFailed? ==> second.0 == UserFound(first.0.user))
  {
    var first := Authenticate(t, crypto, botToken, initData, userParams, decodeJson);
    if first.0.UserCreated? {
      var tid := TelegramIdOf(userParams, decodeJson);
      assert tid == Ok(first.0.user.telegramId);
    }
  }

  /** `complete_onboarding`: the outcome and the table afterwards. */
  function Onboard(t: UserTable, telegramId: string): (r: (OnboardingOutcome, UserTable))
    ensures telegramId !in t.users <==> r.0 == OnboardingFailed(NotFound)
    ensures r.0.AlreadyCompleted? || r.0.OnboardingFailed? ==> r.1 == t
    ensures r.0.AlreadyCompleted? <==> telegramId in t.users && t.users[telegramId].onboardingCompleted
    ensures r.1.nextId == t.nextId && r.1.users.Keys == t.users.Keys
    ensures forall k :: k in t.users && k != telegramId ==> r.1.users[k] == t.users[k]
    ensures telegramId in t.users ==> var u := r.1.users[telegramId];
      && u.onboardingCompleted && u.id == t.users[telegramId].id
      && u.telegramId == t.users[telegramId].telegramId
      && (r.0.Completed? || r.0.AlreadyCompleted?) && r.0.user == u
  {
    if telegramId !in t.users then (OnboardingFailed(NotFound), t)
    else
      var user := t.users[telegramId];
      if user.onboardingCompleted then (AlreadyCompleted(user), t)
      else
        var done := user.(onboardingCompleted := true);
        (Completed(done), UserTable(t.users[telegramId := done], t.nextId))
  }

  /** Completing onboarding twice leaves the table as completing it once; the
      second call reports it already done. */
  lemma OnboardIdempotent(t: UserTable, telegramId: string)
    ensures var once := Onboard(t, telegramId);
      var twice := Onboard(once.1, telegramId);
      && twice.1 == once.1
      && (telegramId in t.users ==> twice.0 == AlreadyCompleted(once.0.user))
      && (telegramId !in t.users ==> twice.0 == OnboardingFailed(NotFound))
  {
  }

  lemma OnboardPreservesInvariant(t: UserTable, telegramId: string)
    requires TableInvariant(t)
    ensures TableInvariant(Onboard(t, telegramId).1)
  {
    var after := Onboard(t, telegramId).1;
    forall a, b | a in after.users && b in after.users && a != b
      ensures after.users[a].id != after.users[b].id
    {
      assert after.users[a].id == t.users[a].id && after.users[b].id == t.users[b].id;
    }
  }

  /** The `users` table behind the two endpoints. */
  class UserStore {
    var users: map<string, UserRecord>
    var nextId: nat

    function Table(): UserTable
      reads this
    {
      UserTable(users, nextId)
    }

    ghost predicate Valid()
      reads this
    {
      TableInvariant(Table())
    }

    /** An empty table; the autoincrement key starts at 1. */
    constructor ()
      ensures Valid() && users == map[] && nextId == 1
    {
      users := map[];
      nextId := 1;
    }

    /** `auth_telegram`. `initData` is `parse_qs` of the raw payload (`None`
        when it raised) and `userParams` is `parse_qs` of the unquoted payload. */
    method AuthTelegram(crypto: Crypto, botToken: Option<string>, initData: Option<QueryParams>,
                        userParams: QueryParams, decodeJson: string -> UserJson)
      returns (outcome: AuthOutcome)
      requires Valid()
      modifies this
      ensures Valid()
      ensures (outcome, Table()) == Authenticate(old(Table()), crypto, botToken, initData, userParams, decodeJson)
    {
      AuthenticatePreservesInvariant(Table(), crypto, botToken, initData, userParams, decodeJson);
      if botToken.None? || botToken.value == "" {
        return AuthFailed(InternalServerError);
      }
      var isValid := ValidateTelegramData(crypto, initData, botToken.value);
      if !isValid {
        return AuthFailed(Unauthorized);
      }
      var telegramId := TelegramIdOf(userParams, decodeJson);
      if telegramId.Err? {
        return AuthFailed(telegramId.error);
      }
      if telegramId.value in users {
        return UserFound(users[telegramId.value]);
      }
      var user := UserRecord(nextId, telegramId.value, false);
      users := users[telegramId.value := user];
      nextId := nextId + 1;
      outcome := UserCreated(user);
    }

    /** `complete_onboarding` */
    method CompleteOnboarding(telegramId: string) returns (outcome: OnboardingOutcome)
      requires Valid()
      modifies this
      ensures Valid()
      ensures (outcome, Table()) == Onboard(old(Table()), telegramId)
    {
      OnboardPreservesInvariant(Table(), telegramId);
      if telegramId !in users {
        return OnboardingFailed(NotFound);
      }
      var user := users[telegramId];
      if user.onboardingCompleted {
        return AlreadyCompleted(user);
      }
      user := user.(onboardingCompleted := true);
      users := users[telegramId := user];
      outcome := Completed(user);
    }
  }
}
