/** `AppContent`: the element the router shows for a route, given whether
    the initial session check is still pending and whether a user is
    signed in. */
module App {
  /** The routes of the route table, in declaration order; `Unmatched` is
      the catch-all `*`. */
  datatype Route =
    | AuthRoute | OnboardingRoute | HomeRoute | ProfileRoute | NewPostRoute
    | NotificationsRoute | ChatsRoute | ChatRoute | SearchRoute | InvestmentRoute
    | Unmatched

  /** The path pattern of each route. */
  function Pattern(route: Route): string
  {
    match route
    case AuthRoute => "/auth"
    case OnboardingRoute => "/onboarding"
    case HomeRoute => "/"
    case ProfileRoute => "/profile/:id?"
    case NewPostRoute => "/new-post"
    case NotificationsRoute => "/notifications"
    case ChatsRoute => "/chats"
    case ChatRoute => "/chat/:id"
    case SearchRoute => "/search"
    case InvestmentRoute => "/investment/:id"
    case Unmatched => "*"
  }

  datatype Page =
    | AuthPage | OnboardingPage | HomePage | ProfilePage | NewPostPage
    | NotificationsPage | ChatsPage | ChatPage | SearchPage | InvestmentPage
    | NotFoundPage

  /** What `AppContent` renders: the loading screen, a page, or a
      `<Navigate>` to another route. */
  datatype Element = LoadingScreen | Show(page: Page) | Redirect(to: Route)

  /** Every route except `/auth` and the catch-all requires a user. */
  predicate IsProtected(route: Route)
  {
    !route.AuthRoute? && !route.Unmatched?
  }

  /** The page a route's element is built from. */
  function PageOf(route: Route): Page
  {
    match route
    case AuthRoute => AuthPage
    case OnboardingRoute => OnboardingPage
    case HomeRoute => HomePage
    case ProfileRoute => ProfilePage
    case NewPostRoute => NewPostPage
    case NotificationsRoute => NotificationsPage
    case ChatsRoute => ChatsPage
    case ChatRoute => ChatPage
    case SearchRoute => SearchPage
    case InvestmentRoute => InvestmentPage
    case Unmatched => NotFoundPage
  }

  /** The route table of `AppContent`, entry by entry. */
  function AppContent(loading: bool, signedIn: bool, route: Route): (e: Element)
    ensures loading ==> e == LoadingScreen
    ensures !loading && route == AuthRoute ==> e == (if signedIn then Redirect(OnboardingRoute) else Show(AuthPage))
    ensures !loading && IsProtected(route) ==> e == (if signedIn then Show(PageOf(route)) else Redirect(AuthRoute))
    ensures !loading && route == Unmatched ==> e == Show(NotFoundPage)
    ensures e.Redirect? ==> Pattern(e.to) == (if signedIn then "/onboarding" else "/auth")
  {
    if loading then LoadingScreen
    else
      match route
      case AuthRoute => if signedIn then Redirect(OnboardingRoute) else Show(AuthPage)
      case Unmatched => Show(NotFoundPage)
      case OnboardingRoute => if signedIn then Show(OnboardingPage) else Redirect(AuthRoute)
      case HomeRoute => if signedIn then Show(HomePage) else Redirect(AuthRoute)
      case ProfileRoute => if signedIn then Show(ProfilePage) else Redirect(AuthRoute)
      case NewPostRoute => if signedIn then Show(NewPostPage) else Redirect(AuthRoute)
      case NotificationsRoute => if signedIn then Show(NotificationsPage) else Redirect(AuthRoute)
      case ChatsRoute => if signedIn then Show(ChatsPage) else Redirect(AuthRoute)
      case ChatRoute => if signedIn then Show(ChatPage) else Redirect(AuthRoute)
      case SearchRoute => if signedIn then Show(SearchPage) else Redirect(AuthRoute)
      case InvestmentRoute => if signedIn then Show(InvestmentPage) else Redirect(AuthRoute)
  }

  /** A redirect never leads to another redirect: its target shows a page
      for the same user. */
  lemma NoRedirectChains(signedIn: bool, route: Route)
    requires AppContent(false, signedIn, route).Redirect?
    ensures AppContent(false, signedIn, AppContent(false, signedIn, route).to).Show?
  {
  }

  /** A signed-out user only ever sees the Auth page or NotFound, and a
      signed-in user never sees the Auth page. */
  lemma PagesByUser(route: Route)
    ensures AppContent(false, false, route).Show? ==>
      AppContent(false, false, route).page == AuthPage || AppContent(false, false, route).page == NotFoundPage
    ensures AppContent(false, true, route).Show? ==> AppContent(false, true, route).page != AuthPage
  {
  }

  /** Once loaded, every route the signed-in user can reach shows its own page. */
  lemma SignedInSeesEveryPage(route: Route)
    requires route != AuthRoute
    ensures AppContent(false, true, route) == Show(PageOf(route))
  {
  }
}
