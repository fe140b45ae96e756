/** The application shell of the web dashboard
    (ArgosDashboard/frontend/src/App.jsx): the theme, the sign-in token
    restored from storage or a cookie, sign-out and the page shown. Storage
    entries and the cookie text are fields and parameters. */
module AppShell {
  import opened Wrappers
  import opened Text

  const TokenName: string := "argos-token"

  /** The cookie text written at sign-out, which expires the token cookie. */
  const ExpiredTokenCookie: string := "argos-token=; Max-Age=0; path=/; samesite=lax; secure=false;"

  // ---------------------------------------------------------------- cookies

  /** What separates the entries of `document.cookie`. */
  const EntrySeparator: string := "; "

  /** No row starts with `prefix`. */
  predicate NoneStartsWith(rows: seq<string>, prefix: string)
  {
    forall i :: 0 <= i < |rows| ==> !StartsWith(rows[i], prefix)
  }

  /** The index of the first row starting with `prefix`, or -1
      (`Array.prototype.find` on a `startsWith` test). */
  function FindStartingWith(rows: seq<string>, prefix: string): (r: int)
    ensures -1 <= r < |rows|
    ensures r == -1 <==> NoneStartsWith(rows, prefix)
    ensures r >= 0 ==> StartsWith(rows[r], prefix) && forall i :: 0 <= i < r ==> !StartsWith(rows[i], prefix)
  {
    if rows == [] then -1
    else if StartsWith(rows[0], prefix) then 0
    else
      var k := FindStartingWith(rows[1..], prefix);
      if k == -1 then -1 else k + 1
  }

  /** `getCookieValue(name)` on the cookie text: the first "; "-separated
      entry starting with `name=`, cut at its '=' signs, and the second piece
      decoded; `decode` stands for `decodeURIComponent`. */
  function GetCookieValue(cookie: string, name: string, decode: string -> string): (r: Option<string>)
    ensures r.None? <==> NoneStartsWith(Split(cookie, EntrySeparator), name + "=")
  {
    var rows := Split(cookie, EntrySeparator);
    var i := FindStartingWith(rows, name + "=");
    if i < 0 then None
    else
      var row := rows[i];
      assert StartsWith(rows[i], name + "=");
      assert row[..|name| + 1] == name + "=" && row[|name|] == '=';
      SplitAtFirst(row, '=');
      var value := Split(row, "=")[1];
      Some(decode(value))
  }

  /** For a name without '=', the value read is the text between the first
      and the second '=' of the first matching entry: a value holding '=' is
      cut short. */
  lemma {:induction false} GetCookieValueTruncates(cookie: string, name: string, decode: string -> string)
    requires '=' !in name
    requires FindStartingWith(Split(cookie, EntrySeparator), name + "=") >= 0
    ensures var row := Split(cookie, EntrySeparator)[FindStartingWith(Split(cookie, EntrySeparator), name + "=")];
      GetCookieValue(cookie, name, decode) == Some(decode(UpTo(row[|name| + 1..], '=')))
  {
    var rows := Split(cookie, EntrySeparator);
    var row := rows[FindStartingWith(rows, name + "=")];
    EntryValue(row, name);
  }

  /** The second '='-piece of an entry `name=...` is the text after `name=`
      up to the next '='. */
  lemma {:induction false} EntryValue(row: string, name: string)
    requires '=' !in name && StartsWith(row, name + "=")
    ensures |Split(row, "=")| >= 2 && Split(row, "=")[1] == UpTo(row[|name| + 1..], '=')
  {
    assert row[..|name| + 1] == name + "=";
    assert row[|name|] == '=';
    assert row[..|name|] == name;
    var k := IndexOf(row, '=');
    assert k == |name|;
    SplitAtFirst(row, '=');
    SplitHead(row[|name| + 1..], '=');
  }

  /** A token cookie written without ';' or '=' in the token reads back as
      that token. */
  lemma {:induction false} TokenCookieReadsBack(token: string, decode: string -> string)
    requires ';' !in token && '=' !in token
    ensures GetCookieValue(TokenName + "=" + token, TokenName, decode) == Some(decode(token))
  {
    var cookie := TokenName + "=" + token;
    assert ';' !in cookie;
    SplitNoSeparator(cookie, EntrySeparator);
    assert StartsWith(cookie, TokenName + "=");
    GetCookieValueTruncates(cookie, TokenName, decode);
    assert cookie[|TokenName| + 1..] == token;
  }

  // ---------------------------------------------------------------- theme

  /** `getInitialTheme` in a browser: a stored "light" or "dark" wins,
      anything else defers to the system preference. */
  function InitialTheme(stored: Option<string>, prefersDark: bool): (t: string)
    ensures t == "light" || t == "dark"
    ensures stored.Some? && (stored.value == "light" || stored.value == "dark") ==> t == stored.value
    ensures !(stored.Some? && (stored.value == "light" || stored.value == "dark")) ==>
      t == (if prefersDark then "dark" else "light")
  {
    if stored.Some? && (stored.value == "light" || stored.value == "dark") then stored.value
    else if prefersDark then "dark" else "light"
  }

  /** `toggleTheme`'s update. */
  function Toggled(theme: string): (t: string)
    ensures t == "light" || t == "dark"
    ensures t != theme
  {
    if theme == "dark" then "light" else "dark"
  }

  /** Toggling twice restores a light or dark theme. */
  lemma ToggleTwice(theme: string)
    requires theme == "light" || theme == "dark"
    ensures Toggled(Toggled(theme)) == theme
  {
  }

  // ---------------------------------------------------------------- token and pages

  /** JavaScript truthiness of a stored string. */
  predicate TruthyText(v: Option<string>)
  {
    v.Some? && v.value != ""
  }

  /** `a || b` on two strings. */
  function OrElse(a: Option<string>, b: Option<string>): Option<string>
  {
    if TruthyText(a) then a else b
  }

  /** The token the shell starts with: local storage, then session storage,
      then the cookie. */
  function ResolveToken(local: Option<string>, session: Option<string>, cookie: Option<string>): (t: Option<string>)
    ensures t == local || t == session || t == cookie
    ensures TruthyText(local) ==> t == local
  {
    OrElse(OrElse(local, session), cookie)
  }

  /** The first non-empty source wins, and there is a token exactly when one
      of the sources has one. */
  lemma ResolveTokenFirstWins(local: Option<string>, session: Option<string>, cookie: Option<string>)
    ensures var t := ResolveToken(local, session, cookie);
      && (TruthyText(t) <==> TruthyText(local) || TruthyText(session) || TruthyText(cookie))
      && (TruthyText(local) ==> t == local)
      && (!TruthyText(local) && TruthyText(session) ==> t == session)
      && (!TruthyText(local) && !TruthyText(session) ==> t == cookie)
  {
  }

  datatype View = LoginView | DashboardView | InventoryView | ReportsView | SettingsView

  /** `renderPage`: the three named pages, the dashboard for anything else. */
  function RenderPage(activePage: string): (v: View)
    ensures v != LoginView
    ensures activePage == "inventory" <==> v == InventoryView
    ensures activePage == "reports" <==> v == ReportsView
    ensures activePage == "settings" <==> v == SettingsView
  {
    match activePage
    case "inventory" => InventoryView
    case "reports" => ReportsView
    case "settings" => SettingsView
    case _ => DashboardView
  }

  /** An unknown page renders the dashboard. */
  lemma UnknownPageIsDashboard(activePage: string)
    requires activePage != "inventory" && activePage != "reports" && activePage != "settings"
    ensures RenderPage(activePage) == DashboardView
  {
  }

  class AppState {
    var theme: string
    var activePage: string
    var authToken: Option<string>
    var isSidebarCollapsed: bool
    /** The "argos-theme" and "argos-token" entries of the storages, and the
        last cookie text the shell wrote. */
    var storedTheme: Option<string>
    var localToken: Option<string>
    var sessionToken: Option<string>
    var lastCookieWrite: Option<string>

    /** What the shell shows: the login page without a token, else the
        active page. */
    function CurrentView(): View
      reads this
    {
      if TruthyText(authToken) then RenderPage(activePage) else LoginView
    }

    /** The first render in a browser, with its theme effect. */
    constructor (storedTheme: Option<string>, prefersDark: bool, localToken: Option<string>, sessionToken: Option<string>)
      ensures theme == InitialTheme(storedTheme, prefersDark) && this.storedTheme == Some(theme)
      ensures activePage == "dashboard" && authToken == None && !isSidebarCollapsed
      ensures this.localToken == localToken && this.sessionToken == sessionToken && lastCookieWrite == None
      ensures CurrentView() == LoginView
    {
      theme := InitialTheme(storedTheme, prefersDark);
      activePage := "dashboard";
      authToken := None;
      isSidebarCollapsed := false;
      this.storedTheme := Some(InitialTheme(storedTheme, prefersDark));
      this.localToken := localToken;
      this.sessionToken := sessionToken;
      lastCookieWrite := None;
    }

    /** The mount effect: a token found in storage or the cookie signs in. */
    method RestoreToken(cookie: string, decode: string -> string)
      modifies this
      ensures var t := ResolveToken(localToken, sessionToken, GetCookieValue(cookie, TokenName, decode));
        authToken == if TruthyText(t) then t else old(authToken)
      ensures theme == old(theme) && activePage == old(activePage) && storedTheme == old(storedTheme)
      ensures localToken == old(localToken) && sessionToken == old(sessionToken)
      ensures lastCookieWrite == old(lastCookieWrite) && isSidebarCollapsed == old(isSidebarCollapsed)
    {
      var storedToken := OrElse(localToken, sessionToken);
      var cookieToken := GetCookieValue(cookie, TokenName, decode);
      var token := OrElse(storedToken, cookieToken);
      if TruthyText(token) {
        authToken := token;
      }
    }

    /** `toggleTheme`, with the effect that stores the new theme. */
    method ToggleTheme()
      modifies this
      ensures theme == Toggled(old(theme)) && storedTheme == Some(theme)
      ensures activePage == old(activePage) && authToken == old(authToken)
      ensures localToken == old(localToken) && sessionToken == old(sessionToken)
      ensures lastCookieWrite == old(lastCookieWrite) && isSidebarCollapsed == old(isSidebarCollapsed)
    {
      theme := Toggled(theme);
      storedTheme := Some(theme);
    }

    /** `handleLoginSuccess` */
    method HandleLoginSuccess(token: string)
      modifies this
      ensures authToken == Some(token)
      ensures token != "" ==> CurrentView() == RenderPage(activePage)
      ensures theme == old(theme) && activePage == old(activePage) && storedTheme == old(storedTheme)
      ensures localToken == old(localToken) && sessionToken == old(sessionToken)
      ensures lastCookieWrite == old(lastCookieWrite) && isSidebarCollapsed == old(isSidebarCollapsed)
    {
      authToken := Some(token);
    }

    /** `handleLogout`: both stored tokens and the cookie are removed, the
        token is dropped and the next sign-in starts on the dashboard. */
    method HandleLogout()
      modifies this
      ensures localToken == None && sessionToken == None && lastCookieWrite == Some(ExpiredTokenCookie)
      ensures authToken == None && activePage == "dashboard"
      ensures CurrentView() == LoginView
      ensures theme == old(theme) && storedTheme == old(storedTheme) && isSidebarCollapsed == old(isSidebarCollapsed)
    {
      localToken := None;
      sessionToken := None;
      lastCookieWrite := Some(ExpiredTokenCookie);
      authToken := None;
      activePage := "dashboard";
    }

    /** A click on a navigation item. */
    method Navigate(page: string)
      modifies this
      ensures activePage == page
      ensures TruthyText(authToken) ==> CurrentView() == RenderPage(page)
      ensures theme == old(theme) && authToken == old(authToken) && storedTheme == old(storedTheme)
      ensures localToken == old(localToken) && sessionToken == old(sessionToken)
      ensures lastCookieWrite == old(lastCookieWrite) && isSidebarCollapsed == old(isSidebarCollapsed)
    {
      activePage := page;
    }
  }
}
