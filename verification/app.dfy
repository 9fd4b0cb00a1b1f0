/**
  The navigation shell (App.tsx): a logged-in flag and a page id, the login,
  logout and navigate transitions, and the rule that picks what is rendered.
  Navigation requests come from the sidebar (components/Sidebar.tsx), which
  only ever asks for one of the three page ids.
 */
module App {
  import LoginPage

  const DefaultPage: string := "subscriptions"

  /** The page ids the shell renders a page for. */
  const PageIds: set<string> := {"dashboard", "subscriptions", "paymentDetails"}

  datatype AppState = AppState(isLoggedIn: bool, page: string)

  const Initial: AppState := AppState(false, DefaultPage)

  /** `handleLogin`: the login form accepted the credentials. */
  function Login(s: AppState): (r: AppState)
    ensures r.isLoggedIn && r.page == s.page
  {
    s.(isLoggedIn := true)
  }

  /** `handleLogout`. */
  function Logout(s: AppState): (r: AppState)
    ensures !r.isLoggedIn && r.page == DefaultPage
  {
    AppState(false, DefaultPage)
  }

  /** `navigateTo`, which is `setPage` itself. */
  function NavigateTo(s: AppState, page: string): (r: AppState)
    ensures r.page == page && r.isLoggedIn == s.isLoggedIn
  {
    s.(page := page)
  }

  datatype Screen = LoginScreen | DashboardScreen | SubscriptionsScreen | PaymentDetailsScreen

  /**
    The components the shell renders, in JSX order. Logged out, only the login
    form is shown whatever the page id; logged in, each page is shown exactly
    when its id is the current one, so a known id shows one page and any other
    id shows nothing.
   */
  function Rendered(s: AppState): (r: seq<Screen>)
    ensures !s.isLoggedIn ==> r == [LoginScreen]
    ensures s.isLoggedIn ==> LoginScreen !in r
    ensures s.isLoggedIn ==> (DashboardScreen in r <==> s.page == "dashboard")
    ensures s.isLoggedIn ==> (SubscriptionsScreen in r <==> s.page == "subscriptions")
    ensures s.isLoggedIn ==> (PaymentDetailsScreen in r <==> s.page == "paymentDetails")
    ensures s.isLoggedIn ==> |r| == (if s.page in PageIds then 1 else 0)
  {
    if s.isLoggedIn then
      (if s.page == "dashboard" then [DashboardScreen] else [])
      + (if s.page == "subscriptions" then [SubscriptionsScreen] else [])
      + (if s.page == "paymentDetails" then [PaymentDetailsScreen] else [])
    else [LoginScreen]
  }

  /** The user actions the shell reacts to. */
  datatype Event = LoginAccepted | LogoutClicked | SidebarClicked(target: string)

  function Step(s: AppState, e: Event): AppState {
    match e
    case LoginAccepted => Login(s)
    case LogoutClicked => Logout(s)
    case SidebarClicked(target) => NavigateTo(s, target)
  }

  function Run(s: AppState, events: seq<Event>): AppState
    decreases |events|
  {
    if |events| == 0 then s else Run(Step(s, events[0]), events[1..])
  }

  /** The sidebar's three buttons. */
  ghost predicate FromSidebar(e: Event) {
    e.SidebarClicked? ==> e.target in PageIds
  }

  /** Starting from a known page, sidebar-driven runs never leave the known pages. */
  lemma {:induction false} RunStaysOnKnownPages(s: AppState, events: seq<Event>)
    requires s.page in PageIds
    requires forall i :: 0 <= i < |events| ==> FromSidebar(events[i])
    ensures Run(s, events).page in PageIds
    ensures Run(s, events).isLoggedIn ==> |Rendered(Run(s, events))| == 1
    decreases |events|
  {
    if |events| > 0 {
      RunStaysOnKnownPages(Step(s, events[0]), events[1..]);
    }
  }

  /** From start-up, every reachable screen shows exactly one component. */
  lemma ReachableStatesRenderOneScreen(events: seq<Event>)
    requires forall i :: 0 <= i < |events| ==> FromSidebar(events[i])
    ensures |Rendered(Run(Initial, events))| == 1
  {
    RunStaysOnKnownPages(Initial, events);
  }

  /** Logging out and in again lands on the subscriptions page, whatever page was open. */
  lemma LogoutThenLoginLandsOnDefault(s: AppState)
    ensures Login(Logout(s)) == AppState(true, DefaultPage)
    ensures Rendered(Login(Logout(s))) == [SubscriptionsScreen]
  {
  }

  /**
    Submitting the login form: the browser only submits once both required
    fields are filled, and the shell logs in exactly when the form accepts.
   */
  function SubmitLogin(s: AppState, form: LoginPage.Form, store: LoginPage.Store)
    : (r: (AppState, LoginPage.Submission))
    ensures r.0.isLoggedIn <==> s.isLoggedIn || (form.username == LoginPage.DemoUsername
                                              && form.password == LoginPage.DemoPassword)
    ensures r.0.page == s.page
    ensures form.username == "" || form.password == "" ==>
              r == (s, LoginPage.Submission(form, store, false))
  {
    var submission := LoginPage.Submit(form, store);
    (if submission.loggedIn then Login(s) else s, submission)
  }
}
