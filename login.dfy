/** The sign-in page of the web dashboard
    (ArgosDashboard/frontend/src/pages/LoginPage.jsx): the cookie-consent
    banner with its stored choice, and the submission that stores the token
    and writes the token cookie. The server's answer is a parameter. */
module LoginFlow {
  import opened Wrappers
  import opened Text
  import opened Json
  import AppShell

  const CookiePrefKey: string := "argos-cookie-preferences"

  /** The consent choice the banner keeps; `decision` holds whatever the
      stored document had, so it is a JSON value (null before any choice). */
  datatype CookieChoice = CookieChoice(analytics: bool, marketing: bool, decision: Json)

  datatype LoginForm = LoginForm(username: string, password: string, remember: bool)

  datatype FormField = Username | Password | Remember

  datatype ConsentFlag = Analytics | Marketing

  /** The document `persistCookiePrefs` stores; `isoNow` stands for
      `new Date().toISOString()`. */
  function PersistedChoice(prefs: CookieChoice, isoNow: string): (doc: Json)
    ensures doc.JObj? && "necessary" in doc.fields && doc.fields["necessary"] == JBool(true)
    ensures ChoiceOf(doc).analytics == prefs.analytics && ChoiceOf(doc).marketing == prefs.marketing
  {
    JObj(map[
      "necessary" := JBool(true),
      "analytics" := JBool(prefs.analytics),
      "marketing" := JBool(prefs.marketing),
      "decision" := prefs.decision,
      "updatedAt" := JStr(isoNow)])
  }

  /** The choice read back from a parsed document that is not null: the flags
      by truthiness, a falsy decision replaced by "custom". */
  function ChoiceOf(v: Json): (c: CookieChoice)
    requires v != JNull
    ensures Truthy(Some(c.decision))
    ensures Truthy(Member(v, "decision").value) ==> c.decision == Member(v, "decision").value.value
    ensures !Truthy(Member(v, "decision").value) ==> c.decision == JStr("custom")
    ensures c.analytics <==> Truthy(Member(v, "analytics").value)
    ensures c.marketing <==> Truthy(Member(v, "marketing").value)
  {
    var decision := Member(v, "decision").value;
    CookieChoice(
      Truthy(Member(v, "analytics").value),
      Truthy(Member(v, "marketing").value),
      if Truthy(decision) then decision.value else JStr("custom"))
  }

  /** What the mount effect does with the stored entry. */
  datatype RestoreAction = KeepInitial | Restore(choice: CookieChoice) | Discard

  /** Nothing or an empty string stored keeps the initial state; text that
      does not parse, or the document `null` whose property read throws, is
      removed; any other document is restored. */
  function RestoreStored(stored: Option<Blob>): (a: RestoreAction)
    ensures a.Discard? <==> stored == Some(Garbled) || stored == Some(Doc(JNull))
    ensures a.KeepInitial? <==> stored == None || stored == Some(EmptyText)
  {
    match stored
    case None => KeepInitial
    case Some(EmptyText) => KeepInitial
    case Some(Garbled) => Discard
    case Some(Doc(v)) => if v == JNull then Discard else Restore(ChoiceOf(v))
  }

  /** A stored choice reads back as itself, except that a falsy decision
      comes back as "custom". */
  lemma PersistRestoreRoundTrip(prefs: CookieChoice, isoNow: string)
    ensures RestoreStored(Some(Doc(PersistedChoice(prefs, isoNow)))) ==
      Restore(prefs.(decision := if Truthy(Some(prefs.decision)) then prefs.decision else JStr("custom")))
  {
    var v := PersistedChoice(prefs, isoNow);
    assert Member(v, "analytics") == Ok(Some(JBool(prefs.analytics)));
    assert Member(v, "marketing") == Ok(Some(JBool(prefs.marketing)));
    assert Member(v, "decision") == Ok(Some(prefs.decision));
  }

  /** The stored document always says the necessary cookies are on. */
  lemma PersistedChoiceNecessary(prefs: CookieChoice, isoNow: string)
    ensures var v := PersistedChoice(prefs, isoNow);
      v.JObj? && "necessary" in v.fields && v.fields["necessary"] == JBool(true)
  {
  }

  // ---------------------------------------------------------------- submission

  /** The text of the message when the error body is the document `null`. */
  const NullBodyMessage: string := "Cannot read properties of null (reading 'detail')"

  /** How the request to the sign-in endpoint ended: a token, a refusal with
      its parsed body (the empty object when it is not JSON), or a rejected
      `fetch` with its message. */
  datatype LoginOutcome = Accepted(token: string) | Refused(body: Json) | Unreachable(message: string)

  /** The message shown after a failed submission; `textOf` stands for
      JavaScript's `String(value)` of the body's `detail` member. */
  function SubmitError(outcome: LoginOutcome, textOf: Json -> string): (m: string)
    requires !outcome.Accepted?
    ensures m != ""
  {
    var message :=
      match outcome
      case Unreachable(text) => text
      case Refused(body) =>
        match Member(body, "detail")
        case Err(_) => NullBodyMessage
        case Ok(detail) => if Truthy(detail) then textOf(detail.value) else "Invalid credentials";
    if message != "" then message else "Unable to login."
  }

  /** A refusal without a usable `detail` says "Invalid credentials"; one
      with a string `detail` shows that string. */
  lemma SubmitErrorMessages(fields: map<string, Json>, textOf: Json -> string)
    ensures ("detail" !in fields || !Truthy(Some(fields["detail"]))) ==>
      SubmitError(Refused(JObj(fields)), textOf) == "Invalid credentials"
    ensures ("detail" in fields && fields["detail"].JStr? && fields["detail"].s != "" &&
             textOf(fields["detail"]) == fields["detail"].s) ==>
      SubmitError(Refused(JObj(fields)), textOf) == fields["detail"].s
  {
  }

  /** What joins the attributes of a cookie being written. */
  const AttributeSeparator: string := "; "

  const PathAttribute: string := "Path=/"
  const SameSiteAttribute: string := "SameSite=Lax"
  /** A remembered sign-in lasts seven days. */
  const RememberAttribute: string := "Max-Age=604800"

  /** The attributes of the token cookie, in the order they are pushed. */
  function TokenCookieAttributes(token: string, remember: bool): (attrs: seq<string>)
    ensures |attrs| == if remember then 4 else 3
    ensures attrs[0] == AppShell.TokenName + "=" + token
    ensures attrs[1] == PathAttribute && attrs[2] == SameSiteAttribute
    ensures remember ==> attrs[3] == RememberAttribute
  {
    [AppShell.TokenName + "=" + token, PathAttribute, SameSiteAttribute] + (if remember then [RememberAttribute] else [])
  }

  /** The entry the shell reads back from the cookie jar is the first
      attribute, and it gives the token when the token holds neither ';'
      nor '='. */
  lemma LoginCookieReadsBack(token: string, remember: bool, decode: string -> string)
    requires ';' !in token && '=' !in token
    ensures AppShell.GetCookieValue(TokenCookieAttributes(token, remember)[0], AppShell.TokenName, decode) ==
      Some(decode(token))
  {
    AppShell.TokenCookieReadsBack(token, decode);
  }

  /** The cookie attributes assembled as the page does: the three fixed ones,
      then the lifetime only for a remembered sign-in. */
  method BuildTokenCookie(token: string, remember: bool) returns (cookie: string)
    ensures cookie == Join(TokenCookieAttributes(token, remember), AttributeSeparator)
  {
    var attrs := [AppShell.TokenName + "=" + token, PathAttribute, SameSiteAttribute];
    if remember {
      var maxAge := "Max-Age=" + NatToString(60 * 60 * 24 * 7);
      SevenDaysAttribute();
      attrs := attrs + [maxAge];
    }
    assert attrs == TokenCookieAttributes(token, remember);
    cookie := Join(attrs, AttributeSeparator);
  }

  /** Seven days in seconds, printed, is the remembered cookie's lifetime. */
  lemma SevenDaysAttribute()
    ensures "Max-Age=" + NatToString(60 * 60 * 24 * 7) == RememberAttribute
  {
    assert NatToString(6) == "6";
    assert NatToString(60) == "60";
    assert NatToString(604) == "604";
    assert NatToString(6048) == "6048";
    assert NatToString(60480) == "60480";
    assert NatToString(604800) == "604800";
  }

  class LoginPage {
    var form: LoginForm
    var error: Option<string>
    var loading: bool
    var cookiePrefs: CookieChoice
    var isCookieModalOpen: bool
    var isCookieBannerVisible: bool
    /** The stored consent entry, the two token entries, the last cookie
        text written and the token handed to the shell. */
    var storedPrefs: Option<Blob>
    var localToken: Option<string>
    var sessionToken: Option<string>
    var lastCookieWrite: Option<string>
    var signedInWith: Option<string>

    /** The first render. */
    constructor (storedPrefs: Option<Blob>, localToken: Option<string>, sessionToken: Option<string>)
      ensures form == LoginForm("", "", false) && error == None && !loading
      ensures cookiePrefs == CookieChoice(false, false, JNull)
      ensures isCookieModalOpen && isCookieBannerVisible
      ensures this.storedPrefs == storedPrefs && this.localToken == localToken && this.sessionToken == sessionToken
      ensures lastCookieWrite == None && signedInWith == None
    {
      form := LoginForm("", "", false);
      error := None;
      loading := false;
      cookiePrefs := CookieChoice(false, false, JNull);
      isCookieModalOpen := true;
      isCookieBannerVisible := true;
      this.storedPrefs := storedPrefs;
      this.localToken := localToken;
      this.sessionToken := sessionToken;
      lastCookieWrite := None;
      signedInWith := None;
    }

    /** The mount effect that restores a stored consent choice. */
    method RestoreCookiePrefs()
      modifies this
      ensures var a := RestoreStored(old(storedPrefs));
        && (a.KeepInitial? || a.Discard? ==>
              && cookiePrefs == old(cookiePrefs)
              && isCookieBannerVisible == old(isCookieBannerVisible)
              && isCookieModalOpen == old(isCookieModalOpen))
        && (a.KeepInitial? ==> storedPrefs == old(storedPrefs))
        && (a.Discard? ==> storedPrefs == None)
        && (a.Restore? ==>
              && cookiePrefs == a.choice
              && storedPrefs == old(storedPrefs)
              && !isCookieBannerVisible && !isCookieModalOpen)
      ensures form == old(form) && error == old(error) && loading == old(loading)
      ensures localToken == old(localToken) && sessionToken == old(sessionToken)
      ensures lastCookieWrite == old(lastCookieWrite) && signedInWith == old(signedInWith)
    {
      match RestoreStored(storedPrefs)
      case KeepInitial =>
      case Discard =>
        storedPrefs := None;
      case Restore(choice) =>
        cookiePrefs := choice;
        isCookieBannerVisible := false;
        isCookieModalOpen := false;
    }

    /** Records a decision: the choice is kept and stored, and the banner and
        the dialog close. */
    method Decide(updated: CookieChoice, isoNow: string)
      modifies this
      ensures cookiePrefs == updated && storedPrefs == Some(Doc(PersistedChoice(updated, isoNow)))
      ensures !isCookieBannerVisible && !isCookieModalOpen
      ensures form == old(form) && error == old(error) && loading == old(loading)
      ensures localToken == old(localToken) && sessionToken == old(sessionToken)
      ensures lastCookieWrite == old(lastCookieWrite) && signedInWith == old(signedInWith)
    {
      cookiePrefs := updated;
      storedPrefs := Some(Doc(PersistedChoice(updated, isoNow)));
      isCookieBannerVisible := false;
      isCookieModalOpen := false;
    }

    /** `handleCookieAcceptAll` */
    method AcceptAll(isoNow: string)
      modifies this
      ensures cookiePrefs == CookieChoice(true, true, JStr("accept_all"))
      ensures storedPrefs == Some(Doc(PersistedChoice(cookiePrefs, isoNow)))
      ensures !isCookieBannerVisible && !isCookieModalOpen
      ensures form == old(form) && error == old(error) && loading == old(loading)
      ensures localToken == old(localToken) && sessionToken == old(sessionToken)
      ensures lastCookieWrite == old(lastCookieWrite) && signedInWith == old(signedInWith)
    {
      Decide(CookieChoice(true, true, JStr("accept_all")), isoNow);
    }

    /** `handleCookieRejectAll` */
    method RejectAll(isoNow: string)
      modifies this
      ensures cookiePrefs == CookieChoice(false, false, JStr("reject_all"))
      ensures storedPrefs == Some(Doc(PersistedChoice(cookiePrefs, isoNow)))
      ensures !isCookieBannerVisible && !isCookieModalOpen
      ensures form == old(form) && error == old(error) && loading == old(loading)
      ensures localToken == old(localToken) && sessionToken == old(sessionToken)
      ensures lastCookieWrite == old(lastCookieWrite) && signedInWith == old(signedInWith)
    {
      Decide(CookieChoice(false, false, JStr("reject_all")), isoNow);
    }

    /** `handleCookieSave`: the current toggles with the decision "custom". */
    method SaveChoice(isoNow: string)
      modifies this
      ensures cookiePrefs == old(cookiePrefs).(decision := JStr("custom"))
      ensures storedPrefs == Some(Doc(PersistedChoice(cookiePrefs, isoNow)))
      ensures !isCookieBannerVisible && !isCookieModalOpen
      ensures form == old(form) && error == old(error) && loading == old(loading)
      ensures localToken == old(localToken) && sessionToken == old(sessionToken)
      ensures lastCookieWrite == old(lastCookieWrite) && signedInWith == old(signedInWith)
    {
      Decide(cookiePrefs.(decision := JStr("custom")), isoNow);
    }

    /** `handleCookieToggle(field)`: one flag set, nothing stored. */
    method ToggleConsent(flag: ConsentFlag, checked: bool)
      modifies this
      ensures cookiePrefs == (if flag == Analytics then old(cookiePrefs).(analytics := checked)
                              else old(cookiePrefs).(marketing := checked))
      ensures storedPrefs == old(storedPrefs) && isCookieBannerVisible == old(isCookieBannerVisible)
      ensures isCookieModalOpen == old(isCookieModalOpen)
      ensures form == old(form) && error == old(error) && loading == old(loading)
      ensures localToken == old(localToken) && sessionToken == old(sessionToken)
      ensures lastCookieWrite == old(lastCookieWrite) && signedInWith == old(signedInWith)
    {
      if flag == Analytics {
        cookiePrefs := cookiePrefs.(analytics := checked);
      } else {
        cookiePrefs := cookiePrefs.(marketing := checked);
      }
    }

    /** `handleChange(field)`: the field takes the input's text, or its
        checked state for "remember", and the error is cleared. */
    method HandleChange(field: FormField, text: string, checked: bool)
      modifies this
      ensures form == match field
        case Username => old(form).(username := text)
        case Password => old(form).(password := text)
        case Remember => old(form).(remember := checked)
      ensures error == None
      ensures loading == old(loading) && cookiePrefs == old(cookiePrefs) && storedPrefs == old(storedPrefs)
      ensures isCookieBannerVisible == old(isCookieBannerVisible) && isCookieModalOpen == old(isCookieModalOpen)
      ensures localToken == old(localToken) && sessionToken == old(sessionToken)
      ensures lastCookieWrite == old(lastCookieWrite) && signedInWith == old(signedInWith)
    {
      match field {
        case Username => form := form.(username := text);
        case Password => form := form.(password := text);
        case Remember => form := form.(remember := checked);
      }
      error := None;
    }

    /** `handleSubmit` once the request has ended. On success both token
        entries are removed, the token goes to local storage for a
        remembered sign-in and to session storage otherwise, the token cookie
        is written and the shell is told; on failure only the error is set. */
    method HandleSubmit(outcome: LoginOutcome, textOf: Json -> string)
      modifies this
      ensures !loading
      ensures outcome.Accepted? ==>
        && localToken == (if form.remember then Some(outcome.token) else None)
        && sessionToken == (if form.remember then None else Some(outcome.token))
        && lastCookieWrite == Some(Join(TokenCookieAttributes(outcome.token, form.remember), AttributeSeparator))
        && signedInWith == Some(outcome.token)
        && error == old(error)
      ensures !outcome.Accepted? ==>
        && error == Some(SubmitError(outcome, textOf))
        && localToken == old(localToken) && sessionToken == old(sessionToken)
        && lastCookieWrite == old(lastCookieWrite) && signedInWith == old(signedInWith)
      ensures form == old(form) && cookiePrefs == old(cookiePrefs) && storedPrefs == old(storedPrefs)
      ensures isCookieBannerVisible == old(isCookieBannerVisible) && isCookieModalOpen == old(isCookieModalOpen)
    {
      loading := true;
      if outcome.Accepted? {
        localToken := None;
        sessionToken := None;
        if form.remember {
          localToken := Some(outcome.token);
        } else {
          sessionToken := Some(outcome.token);
        }
        var cookie := BuildTokenCookie(outcome.token, form.remember);
        lastCookieWrite := Some(cookie);
        signedInWith := Some(outcome.token);
      } else {
        error := Some(SubmitError(outcome, textOf));
      }
      loading := false;
    }
  }
}
