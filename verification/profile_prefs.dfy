/** The profile views of userprofile/api.py: the notification and language
    preferences, which a PUT overwrites key by key, and the enveloped
    profile detail. The preference columns belong to the user model, which
    is not part of this model; they hold whatever JSON value the request
    carried. */
module ProfilePrefs {
  import opened Wrappers
  import opened Json
  import opened Responses

  /** The preference columns of the requesting user. */
  datatype Preferences = Preferences(sms: Json, email: Json, appLang: Json)

  /** A parsed request body: key to JSON value. */
  type RequestData = map<string, Json>

  const SmsKey := "sms_notification"
  const EmailKey := "email_notification"
  const LangKey := "app_lang"

  /** `UserNotificationAPI.get`: the two notification flags, nothing else. */
  function GetNotificationPrefs(u: Preferences): (r: Reply<Json>)
    ensures r.Reply? && r.code == 200 && r.body.JObj?
    ensures r.body.fields.Keys == {SmsKey, EmailKey}
    ensures r.body.fields[SmsKey] == u.sms && r.body.fields[EmailKey] == u.email
  {
    Reply(200, JObj(map[SmsKey := u.sms, EmailKey := u.email]))
  }

  /** `UserNotificationAPI.put`: each flag present in the request overwrites
      the stored one, an absent flag keeps its value; the language is never
      touched, and the reply is always 204. */
  function PutNotificationPrefs(u: Preferences, data: RequestData): (r: Served<Json, Preferences>)
    ensures r.reply == Reply(204, JNull)
    ensures r.state.sms == (if SmsKey in data then data[SmsKey] else u.sms)
    ensures r.state.email == (if EmailKey in data then data[EmailKey] else u.email)
    ensures r.state.appLang == u.appLang
  {
    var sms := if SmsKey in data then data[SmsKey] else u.sms;
    var email := if EmailKey in data then data[EmailKey] else u.email;
    Served(Reply(204, JNull), u.(sms := sms, email := email))
  }

  /** `UserLanguageAPI.get`: the language alone. */
  function GetLanguage(u: Preferences): (r: Reply<Json>)
    ensures r.Reply? && r.code == 200 && r.body.JObj?
    ensures r.body.fields.Keys == {LangKey} && r.body.fields[LangKey] == u.appLang
  {
    Reply(200, JObj(map[LangKey := u.appLang]))
  }

  /** `UserLanguageAPI.put`: the language is overwritten only when the
      request carries it; the notification flags are never touched, and the
      reply is always 200 with no body. */
  function PutLanguage(u: Preferences, data: RequestData): (r: Served<Json, Preferences>)
    ensures r.reply == Reply(200, JNull)
    ensures r.state.appLang == (if LangKey in data then data[LangKey] else u.appLang)
    ensures r.state.sms == u.sms && r.state.email == u.email
  {
    if LangKey in data then Served(Reply(200, JNull), u.(appLang := data[LangKey]))
    else Served(Reply(200, JNull), u)
  }

  /** A request with none of the preference keys changes nothing. */
  lemma PutWithoutKeysKeepsPreferences(u: Preferences, data: RequestData)
    requires SmsKey !in data && EmailKey !in data && LangKey !in data
    ensures PutNotificationPrefs(u, data) == Served(Reply(204, JNull), u)
    ensures PutLanguage(u, data) == Served(Reply(200, JNull), u)
  {
  }

  /** Repeating a PUT gives the state a single one gives. */
  lemma PutsAreIdempotent(u: Preferences, data: RequestData)
    ensures var once := PutNotificationPrefs(u, data).state;
            PutNotificationPrefs(once, data).state == once
    ensures var once := PutLanguage(u, data).state;
            PutLanguage(once, data).state == once
  {
  }

  /** Two successive PUTs act like one PUT of the merged request in which
      the later request's keys win: the last write of each key counts. */
  lemma PutsCompose(u: Preferences, first: RequestData, second: RequestData)
    ensures PutNotificationPrefs(PutNotificationPrefs(u, first).state, second).state
         == PutNotificationPrefs(u, first + second).state
    ensures PutLanguage(PutLanguage(u, first).state, second).state
         == PutLanguage(u, first + second).state
  {
  }

  // UserProfileDetailAPI

  /** `UserProfileDetailAPI.get`. `user` is the request's user (`None` when
      it is falsy); `serialize` is the profile serializer, which may raise
      (`Err` carries the exception text). A profile is wrapped as
      `data.profile` with 200; a missing user is a default 400 error
      envelope; a raising serializer a 400 error envelope whose message is
      the exception text. */
  function GetProfile<U>(user: Option<U>, serialize: U -> Result<Json>): (r: Reply<Envelope>)
    ensures r.Reply?
    ensures r.code == 200 <==> user.Some? && serialize(user.value).Ok?
    ensures r.code != 200 ==> r.code == 400 && r.body.status == "NOK"
    ensures r.code == 200 ==>
      && r.body.status == "OK"
      && r.body.data == JObj(map["profile" := serialize(user.value).value])
    ensures user.None? ==> r.body.message == JStr("Operation failed.")
    ensures user.Some? && serialize(user.value).Err? ==> r.body.message == JStr(serialize(user.value).error)
  {
    match user
    case None => ErrorResponse(statusCode := Some(400))
    case Some(u) =>
      match serialize(u)
      case Err(e) => ErrorResponse(msj := JStr(e), statusCode := Some(400))
      case Ok(profile) => SuccessResponse(inputData := JObj(map["profile" := profile]), statusCode := Some(200))
  }

  /** `UserProfileDetailAPI.put`. `validate` is the partial-update
      serializer: the updated user when the data is valid, `None`
      otherwise. Valid data is saved and answered with a default 200
      success envelope; invalid data with a default 400 error envelope,
      the user unchanged. */
  function PutProfile<U>(user: U, data: RequestData, validate: (U, RequestData) -> Option<U>): (r: Served<Envelope, U>)
    ensures r.reply.Reply?
    ensures validate(user, data).Some? ==>
      && r.reply.code == 200 && r.reply.body.status == "OK"
      && r.state == validate(user, data).value
    ensures validate(user, data).None? ==>
      && r.reply.code == 400 && r.reply.body.status == "NOK"
      && r.state == user
  {
    match validate(user, data)
    case Some(updated) => Served(SuccessResponse(statusCode := Some(200)), updated)
    case None => Served(ErrorResponse(statusCode := Some(400)), user)
  }
}
