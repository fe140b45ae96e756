/** The cookie-preferences page of the web dashboard
    (ArgosDashboard/frontend/src/pages/CookiePreferences.jsx): four consent
    flags merged over defaults on load, toggled row by row, and stored in
    local storage and a cookie. */
module CookieConsent {
  import opened Wrappers
  import opened Json
  import LoginFlow

  /** The same storage entry the sign-in page uses for its own choice. */
  const CookiePrefStorageKey: string := LoginFlow.CookiePrefKey

  const DefaultCookiePrefs: map<string, Json> := map[
    "necessary" := JBool(true),
    "performance" := JBool(true),
    "functional" := JBool(false),
    "targeting" := JBool(false)]

  const AllAccepted: map<string, Json> := map[
    "necessary" := JBool(true),
    "performance" := JBool(true),
    "functional" := JBool(true),
    "targeting" := JBool(true)]

  /** `{ ...DEFAULT_COOKIE_PREFS, ...parsed }`: every parsed entry wins, and
      every default the document lacks is kept. */
  function MergeDefaults(parsed: Json): (prefs: map<string, Json>)
    ensures prefs.Keys == DefaultCookiePrefs.Keys + SpreadEntries(parsed).Keys
    ensures forall k :: k in SpreadEntries(parsed) ==> prefs[k] == SpreadEntries(parsed)[k]
    ensures forall k :: k in DefaultCookiePrefs && k !in SpreadEntries(parsed) ==> prefs[k] == DefaultCookiePrefs[k]
  {
    DefaultCookiePrefs + SpreadEntries(parsed)
  }

  /** Loading what the page itself stored gives it back unchanged as long as
      it holds the four flags. */
  lemma MergeDefaultsOfStored(prefs: map<string, Json>)
    requires DefaultCookiePrefs.Keys <= prefs.Keys
    ensures MergeDefaults(JObj(prefs)) == prefs
  {
  }

  /** The four rows of the page. */
  datatype CookieRow = Necessary | Performance | Functional | Targeting

  function RowKey(row: CookieRow): string
  {
    match row
    case Necessary => "necessary"
    case Performance => "performance"
    case Functional => "functional"
    case Targeting => "targeting"
  }

  /** The cookie text written with the stored document; `encoded` stands for
      `encodeURIComponent(JSON.stringify(prefs))`. One year in seconds. */
  function ConsentCookie(encoded: string): string
  {
    "argos-cookie-pref=" + encoded + "; Path=/; Max-Age=31536000; SameSite=Lax"
  }

  class CookiePreferencesPage {
    var preferences: map<string, Json>
    var status: Option<string>
    /** The stored entry and the last cookie text written. */
    var storedPrefs: Option<Blob>
    var lastCookieWrite: Option<string>

    /** Whether a row's switch shows as on: the necessary row always is. */
    function RowChecked(row: CookieRow): (on: bool)
      reads this
      ensures row == Necessary ==> on
      ensures row != Necessary ==> (on <==> RowKey(row) in preferences && Truthy(Some(preferences[RowKey(row)])))
    {
      if row == Necessary then true
      else RowKey(row) in preferences && Truthy(Some(preferences[RowKey(row)]))
    }

    /** The first render. */
    constructor (storedPrefs: Option<Blob>)
      ensures preferences == DefaultCookiePrefs && status == None
      ensures this.storedPrefs == storedPrefs && lastCookieWrite == None
    {
      preferences := DefaultCookiePrefs;
      status := None;
      this.storedPrefs := storedPrefs;
      lastCookieWrite := None;
    }

    /** The mount effect: a parsed document is merged over the defaults;
        nothing stored, an empty string or text that does not parse changes
        nothing. */
    method Load()
      modifies this
      ensures storedPrefs.Some? && storedPrefs.value.Doc? ==> preferences == MergeDefaults(storedPrefs.value.doc)
      ensures !(storedPrefs.Some? && storedPrefs.value.Doc?) ==> preferences == old(preferences)
      ensures status == old(status) && storedPrefs == old(storedPrefs) && lastCookieWrite == old(lastCookieWrite)
    {
      if storedPrefs.Some? && storedPrefs.value.Doc? {
        preferences := MergeDefaults(storedPrefs.value.doc);
      }
    }

    /** `persistPreferences` */
    method Persist(prefs: map<string, Json>, encoded: string)
      modifies this
      ensures storedPrefs == Some(Doc(JObj(prefs))) && lastCookieWrite == Some(ConsentCookie(encoded))
      ensures preferences == old(preferences) && status == old(status)
    {
      storedPrefs := Some(Doc(JObj(prefs)));
      lastCookieWrite := Some(ConsentCookie(encoded));
    }

    /** `handleToggle(key)(value)`: only that key changes, and the status is
        cleared. */
    method HandleToggle(key: string, value: bool)
      modifies this
      ensures key in preferences && preferences[key] == JBool(value)
      ensures forall k :: k != key ==> (k in preferences <==> k in old(preferences))
      ensures forall k :: k != key && k in old(preferences) ==> preferences[k] == old(preferences)[k]
      ensures status == None
      ensures storedPrefs == old(storedPrefs) && lastCookieWrite == old(lastCookieWrite)
    {
      preferences := preferences[key := JBool(value)];
      status := None;
    }

    /** A change on a row's switch: the necessary row does nothing, any other
        row flips the flag it shows. */
    method ToggleRow(row: CookieRow)
      modifies this
      ensures row == Necessary ==> preferences == old(preferences) && status == old(status)
      ensures row != Necessary ==>
        && preferences == old(preferences)[RowKey(row) := JBool(!old(RowChecked(row)))]
        && RowChecked(row) == !old(RowChecked(row)) && status == None
      ensures forall other :: other != row ==> RowChecked(other) == old(RowChecked(other))
      ensures storedPrefs == old(storedPrefs) && lastCookieWrite == old(lastCookieWrite)
    {
      if row != Necessary {
        HandleToggle(RowKey(row), !RowChecked(row));
      }
    }

    /** `handleSave`: the current choice is stored as it is. */
    method HandleSave(encoded: string)
      modifies this
      ensures storedPrefs == Some(Doc(JObj(preferences))) && lastCookieWrite == Some(ConsentCookie(encoded))
      ensures preferences == old(preferences) && status == Some("saved")
    {
      Persist(preferences, encoded);
      status := Some("saved");
    }

    /** `handleAcceptAll`: all four flags on, stored. */
    method HandleAcceptAll(encoded: string)
      modifies this
      ensures preferences == AllAccepted && status == Some("accepted")
      ensures forall row :: RowChecked(row)
      ensures storedPrefs == Some(Doc(JObj(AllAccepted))) && lastCookieWrite == Some(ConsentCookie(encoded))
    {
      preferences := AllAccepted;
      Persist(AllAccepted, encoded);
      status := Some("accepted");
    }
  }

  /** The two pages share one storage entry but not its fields. Accepting
      everything here reads on the sign-in page as analytics and marketing
      refused with the decision "custom", and a sign-in choice read here
      leaves the three optional flags at their defaults. */
  lemma PagesReadEachOthersEntry(choice: LoginFlow.CookieChoice, isoNow: string)
    ensures LoginFlow.RestoreStored(Some(Doc(JObj(AllAccepted)))) ==
      LoginFlow.Restore(LoginFlow.CookieChoice(false, false, JStr("custom")))
    ensures var merged := MergeDefaults(LoginFlow.PersistedChoice(choice, isoNow));
      && merged["performance"] == JBool(true)
      && merged["functional"] == JBool(false)
      && merged["targeting"] == JBool(false)
  {
    AcceptedReadOnSignIn();
    SignInChoiceReadHere(choice, isoNow);
  }

  lemma AcceptedReadOnSignIn()
    ensures LoginFlow.ChoiceOf(JObj(AllAccepted)) == LoginFlow.CookieChoice(false, false, JStr("custom"))
  {
    var v := JObj(AllAccepted);
    assert Member(v, "analytics") == Ok(None);
    assert Member(v, "marketing") == Ok(None);
    assert Member(v, "decision") == Ok(None);
  }

  lemma SignInChoiceReadHere(choice: LoginFlow.CookieChoice, isoNow: string)
    ensures var stored := SpreadEntries(LoginFlow.PersistedChoice(choice, isoNow));
      "performance" !in stored && "functional" !in stored && "targeting" !in stored
  {
  }
}
