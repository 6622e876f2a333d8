/** Navigation route strings: the login route with its `isEmailSent` argument,
    the other screens' routes, and the home tabs. */
module Routes {
  import opened KotlinRuntime

  const NestedAuthRoute: string := "auth_route"
  const NestedHomeRoute: string := "home_route"
  const IsEmailSentArg: string := "isEmailSent"

  const SignupRoute: string := "signup"
  const ForgotPasswordRoute: string := "forgotPassword"
  const MessageRoute: string := "message"

  /** `Route.LoginScreen`: its route, and the route template with the argument
      placeholder that the navigation graph registers. */
  datatype LoginScreen = LoginScreen(route: string, routeWithArgs: string)

  /** `LoginScreen.getRouteWithArgs`: the route, a slash, and the flag as "true" or "false". */
  function GetRouteWithArgs(screen: LoginScreen, isEmailVerified: bool := false): (r: string)
    ensures |r| == |screen.route| + 1 + |BoolText(isEmailVerified)|
    ensures r[..|screen.route| + 1] == screen.route + "/"
    ensures r[|screen.route| + 1..] == (if isEmailVerified then "true" else "false")
  {
    screen.route + "/" + BoolText(isEmailVerified)
  }

  /** The argument placeholder that ends the registered login template. */
  const FlagPlaceholder: string := "/{" + IsEmailSentArg + "}"

  /** The screen's template ends with the `{isEmailSent}` placeholder. */
  predicate HasFlagTemplate(screen: LoginScreen) {
    |FlagPlaceholder| <= |screen.routeWithArgs|
    && screen.routeWithArgs[|screen.routeWithArgs| - |FlagPlaceholder|..] == FlagPlaceholder
  }

  /** The part of the template before the placeholder's slash. */
  function TemplatePrefix(screen: LoginScreen): (p: string)
    requires HasFlagTemplate(screen)
    ensures screen.routeWithArgs == p + FlagPlaceholder
  {
    screen.routeWithArgs[..|screen.routeWithArgs| - |FlagPlaceholder|]
  }

  /** `LoginScreen()` with its defaults: the template is derived from the route. */
  function NewLoginScreen(route: string := "login"): (s: LoginScreen)
    ensures s.route == route
    ensures s.routeWithArgs == route + "/{" + IsEmailSentArg + "}"
    ensures HasFlagTemplate(s) && TemplatePrefix(s) == route
  {
    var s := LoginScreen(route, route + FlagPlaceholder);
    assert s.routeWithArgs[|s.routeWithArgs| - |FlagPlaceholder|..] == FlagPlaceholder;
    s
  }

  /** What the navigation graph binds to `{isEmailSent}` when it matches a
      concrete path against the screen's registered template: the one non-empty
      path segment after the template's prefix and a slash. A path of another
      shape, or a template without the placeholder, matches nothing. */
  function ArgumentOf(screen: LoginScreen, path: string): (a: Option<string>)
    ensures a.Some? ==>
              && HasFlagTemplate(screen)
              && path == TemplatePrefix(screen) + "/" + a.value
              && a.value != "" && '/' !in a.value
  {
    if !HasFlagTemplate(screen) then None
    else
      var head := TemplatePrefix(screen) + "/";
      if |head| < |path| && path[..|head|] == head && '/' !in path[|head|..]
      then Some(path[|head|..])
      else None
  }

  /** Conversely, every non-empty segment without a slash, placed after the
      template's prefix, is matched and bound unchanged. */
  lemma SegmentIsBound(screen: LoginScreen, segment: string)
    requires HasFlagTemplate(screen)
    requires segment != "" && '/' !in segment
    ensures ArgumentOf(screen, TemplatePrefix(screen) + "/" + segment) == Some(segment)
  {
    var head := TemplatePrefix(screen) + "/";
    assert (head + segment)[..|head|] == head;
    assert (head + segment)[|head|..] == segment;
  }

  /** Round trip: for a login screen built with any route, the graph reads back
      from `getRouteWithArgs(b)` the text of `b`, and `toBoolean` turns it into `b`. */
  lemma EmailSentFlagRoundTrip(route: string, b: bool)
    ensures ArgumentOf(NewLoginScreen(route), GetRouteWithArgs(NewLoginScreen(route), b)) == Some(BoolText(b))
    ensures ToBoolean(ArgumentOf(NewLoginScreen(route), GetRouteWithArgs(NewLoginScreen(route), b))) == b
  {
    var screen := NewLoginScreen(route);
    assert '/' !in BoolText(b) by {
      assert BoolText(b) == "true" || BoolText(b) == "false";
    }
    SegmentIsBound(screen, BoolText(b));
    ToBooleanReadsBoolText(b);
  }

  /** The concrete strings of the default login screen, and the paths its
      template does not match. */
  lemma DefaultLoginRoutes()
    ensures NewLoginScreen().routeWithArgs == "login/{isEmailSent}"
    ensures GetRouteWithArgs(NewLoginScreen(), true) == "login/true"
    ensures GetRouteWithArgs(NewLoginScreen(), false) == "login/false"
    ensures GetRouteWithArgs(NewLoginScreen()) == "login/false"
    ensures ArgumentOf(NewLoginScreen(), "login/").None?
    ensures ArgumentOf(NewLoginScreen(), "login/a/b").None?
    ensures ArgumentOf(NewLoginScreen(), "signup/true").None?
  {
    var screen := NewLoginScreen();
    assert TemplatePrefix(screen) + "/" == "login/";
    assert "login/a/b"[|"login/"|..] == "a/b";
    assert "a/b"[1] == '/';
  }

  /** The home tabs, in declaration order. */
  datatype Tab = Chats | VisualIq

  /** A tab's `title`. */
  function TabTitle(t: Tab): string {
    match t
    case Chats => "Chit Chat"
    case VisualIq => "Visual IQ"
  }

  /** `Tabs.entries`. */
  const AllTabs: seq<Tab> := [Chats, VisualIq]

  /** The tab a title names, as the home graph uses titles as routes. */
  function TabOf(title: string): (t: Option<Tab>)
    ensures t.Some? ==> TabTitle(t.value) == title
    ensures t.None? ==> forall i :: 0 <= i < |AllTabs| ==> TabTitle(AllTabs[i]) != title
  {
    if title == TabTitle(Chats) then Some(Chats)
    else if title == TabTitle(VisualIq) then Some(VisualIq)
    else None
  }

  /** Every tab is listed once, Chats first, and its title leads back to it. */
  lemma TabsOrderAndTitles(t: Tab)
    ensures AllTabs[0] == Chats && AllTabs[1] == VisualIq && |AllTabs| == 2
    ensures TabTitle(Chats) == "Chit Chat" && TabTitle(VisualIq) == "Visual IQ"
    ensures t in AllTabs
    ensures TabOf(TabTitle(t)) == Some(t)
  {
  }
}
