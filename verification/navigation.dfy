/** The root navigator: it keeps `isAuthenticated`, which is `null` until the
    auth listener first reports and a boolean afterwards, renders nothing
    while it is `null`, and otherwise mounts a stack of six screens whose
    initial route is `Home` for a signed-in user and `Welcome` otherwise.
    Listener callbacks are modelled as a sequence of notifications applied
    in delivery order; unmounting releases the subscription. */
module AppNavigation {
  import opened Common

  // ---------------------------------------------------------------------------
  // The authentication state and the listener
  // ---------------------------------------------------------------------------

  /** `isAuthenticated`: `Unknown` is the initial `null`. */
  datatype AuthState = Unknown | Known(authenticated: bool)

  /** One call of the auth-state listener, with the current user (an opaque
      user id) or `null`. */
  datatype Notification = Notification(user: Option<string>)

  /** The navigator's state together with whether its subscription is live. */
  datatype Navigator = Navigator(state: AuthState, subscribed: bool)

  /** Right after mounting: state `null`, listener registered by the effect. */
  const Mounted: Navigator := Navigator(Unknown, true)

  /** The listener body `setIsAuthenticated(!!user)`: the user id is dropped
      and only its presence is kept. A released subscription delivers
      nothing. */
  function OnAuthStateChanged(nav: Navigator, n: Notification): (nav': Navigator)
    ensures nav'.subscribed == nav.subscribed
    ensures nav.subscribed ==> nav'.state == Known(n.user.Some?)
    ensures !nav.subscribed ==> nav' == nav
    ensures nav'.state.Known? || nav.state == Unknown
  {
    if nav.subscribed then nav.(state := Known(n.user.Some?)) else nav
  }

  /** The effect's cleanup: `unsubscribe()`. */
  function Unsubscribe(nav: Navigator): (nav': Navigator)
    ensures !nav'.subscribed && nav'.state == nav.state
  {
    nav.(subscribed := false)
  }

  /** Notifications applied one after another, in delivery order. */
  function Deliver(nav: Navigator, ns: seq<Notification>): Navigator
    decreases |ns|
  {
    if |ns| == 0 then nav else Deliver(OnAuthStateChanged(nav, ns[0]), ns[1..])
  }

  /** The successive values written to `isAuthenticated`, one per delivered
      notification. React may fold several writes into one re-render; this
      is the sequence of writes, not of renders. */
  function StateWrites(nav: Navigator, ns: seq<Notification>): seq<AuthState>
    decreases |ns|
  {
    if |ns| == 0 then []
    else
      var next := OnAuthStateChanged(nav, ns[0]);
      [next.state] + StateWrites(next, ns[1..])
  }

  /** Delivery never changes whether the subscription is live. */
  lemma {:induction false} DeliverKeepsSubscription(nav: Navigator, ns: seq<Notification>)
    ensures Deliver(nav, ns).subscribed == nav.subscribed
    decreases |ns|
  {
    if |ns| > 0 {
      DeliverKeepsSubscription(OnAuthStateChanged(nav, ns[0]), ns[1..]);
    }
  }

  /** While subscribed, the state is whatever the last notification said. */
  lemma {:induction false} DeliverReflectsLast(nav: Navigator, ns: seq<Notification>)
    requires nav.subscribed && |ns| > 0
    ensures Deliver(nav, ns).state == Known(ns[|ns| - 1].user.Some?)
    decreases |ns|
  {
    var next := OnAuthStateChanged(nav, ns[0]);
    if |ns| > 1 {
      DeliverReflectsLast(next, ns[1..]);
      assert ns[1..][|ns[1..]| - 1] == ns[|ns| - 1];
    }
  }

  /** Once known, the state is never `null` again. */
  lemma {:induction false} KnownStaysKnown(nav: Navigator, ns: seq<Notification>)
    requires nav.state.Known?
    ensures Deliver(nav, ns).state.Known?
    decreases |ns|
  {
    if |ns| > 0 {
      KnownStaysKnown(OnAuthStateChanged(nav, ns[0]), ns[1..]);
    }
  }

  /** From mounting, the state is `null` exactly until the first
      notification arrives. */
  lemma UnknownUntilFirstNotification(ns: seq<Notification>)
    ensures Deliver(Mounted, ns).state == Unknown <==> |ns| == 0
  {
  }

  /** While subscribed, every notification writes the state once, in
      delivery order: the k-th value written to `isAuthenticated` is `!!user`
      of the k-th notification. */
  lemma {:induction false} StateWritesInDeliveryOrder(nav: Navigator, ns: seq<Notification>)
    requires nav.subscribed
    ensures |StateWrites(nav, ns)| == |ns|
    ensures forall k | 0 <= k < |ns| :: StateWrites(nav, ns)[k] == Known(ns[k].user.Some?)
    decreases |ns|
  {
    if |ns| > 0 {
      var next := OnAuthStateChanged(nav, ns[0]);
      StateWritesInDeliveryOrder(next, ns[1..]);
      forall k | 0 < k < |ns|
        ensures StateWrites(nav, ns)[k] == Known(ns[k].user.Some?)
      {
        assert StateWrites(nav, ns)[k] == StateWrites(next, ns[1..])[k - 1];
        assert ns[1..][k - 1] == ns[k];
      }
    }
  }

  /** After the cleanup ran, notifications have no effect at all. */
  lemma {:induction false} UnsubscribedIgnoresNotifications(nav: Navigator, ns: seq<Notification>)
    ensures Deliver(Unsubscribe(nav), ns) == Unsubscribe(nav)
    decreases |ns|
  {
    if |ns| > 0 {
      UnsubscribedIgnoresNotifications(nav, ns[1..]);
    }
  }

  // ---------------------------------------------------------------------------
  // Rendering
  // ---------------------------------------------------------------------------

  /** A `Stack.Screen` and its `options.gestureEnabled`, if it sets one. */
  datatype ScreenEntry = ScreenEntry(name: Route, gestureOption: Option<bool>)

  /** A mounted `Stack.Navigator`: its initial route, the default
      `gestureEnabled` of `screenOptions`, and its screens. */
  datatype StackConfig = StackConfig(initialRoute: Route, gestureDefault: bool, screens: seq<ScreenEntry>)

  const RegisteredScreens: seq<ScreenEntry> := [
    ScreenEntry(Welcome, None),
    ScreenEntry(Login, Some(false)),
    ScreenEntry(SignUp, Some(false)),
    ScreenEntry(ForgotPassword, Some(false)),
    ScreenEntry(Home, None),
    ScreenEntry(AboutUs, Some(false))
  ]

  function RouteNames(screens: seq<ScreenEntry>): set<Route> {
    set e | e in screens :: e.name
  }

  /** `initialRouteName`. */
  function InitialRoute(authenticated: bool): (r: Route)
    ensures r == Home <==> authenticated
    ensures r == Welcome <==> !authenticated
  {
    if authenticated then Home else Welcome
  }

  /** What the component renders: nothing while the state is `null`,
      otherwise the stack navigator. */
  function Render(s: AuthState): (cfg: Option<StackConfig>)
    ensures cfg.None? <==> s == Unknown
    ensures cfg.Some? ==> cfg.value.initialRoute == InitialRoute(s.authenticated)
    ensures cfg.Some? ==> cfg.value.initialRoute in RouteNames(cfg.value.screens)
  {
    match s
    case Unknown => None
    case Known(b) =>
      assert RegisteredScreens[0].name == Welcome && RegisteredScreens[4].name == Home;
      Some(StackConfig(InitialRoute(b), false, RegisteredScreens))
  }

  /** The `gestureEnabled` option of the first screen registered as `r`. */
  function GestureOption(screens: seq<ScreenEntry>, r: Route): Option<bool>
    decreases |screens|
  {
    if |screens| == 0 then None
    else if screens[0].name == r then screens[0].gestureOption
    else GestureOption(screens[1..], r)
  }

  /** Whether the back gesture is on for a route: the screen's own option,
      else the navigator's default. */
  function GestureEnabled(cfg: StackConfig, r: Route): bool {
    match GestureOption(cfg.screens, r)
    case Some(b) => b
    case None => cfg.gestureDefault
  }

  /** Whenever a navigator is mounted, the back gesture is off on every
      route: off by default, and explicitly off on `Login`, `SignUp`,
      `ForgotPassword` and `AboutUs`. */
  lemma BackGestureDisabledEverywhere(s: AuthState, r: Route)
    requires s.Known?
    ensures !Render(s).value.gestureDefault
    ensures !GestureEnabled(Render(s).value, r)
    ensures r in {Login, SignUp, ForgotPassword, AboutUs} ==>
              GestureOption(Render(s).value.screens, r) == Some(false)
  {
  }

  /** Whenever a navigator is mounted, it registers exactly the six routes,
      which are all the values of `Route`, and starts on one of them. */
  lemma RegisteredRoutesAreAllRoutes(s: AuthState, r: Route)
    requires s.Known?
    ensures RouteNames(Render(s).value.screens) == {Welcome, Login, SignUp, ForgotPassword, Home, AboutUs}
    ensures r in RouteNames(Render(s).value.screens)
    ensures Render(s).value.initialRoute in RouteNames(Render(s).value.screens)
  {
  }

  /** What a mounted app shows after a run of notifications: nothing before
      the first, then a navigator whose initial route follows the latest. */
  lemma RenderAfterNotifications(ns: seq<Notification>)
    ensures Render(Deliver(Mounted, ns).state).None? <==> |ns| == 0
    ensures |ns| > 0 ==>
              Render(Deliver(Mounted, ns).state).value.initialRoute ==
                (if ns[|ns| - 1].user.Some? then Home else Welcome)
  {
  }

  /** Anonymous, then signed in as "u1", then signed out from elsewhere:
      the initial route goes Welcome, Home, Welcome. */
  lemma SignInSignOutScenario()
    ensures var ns := [Notification(None), Notification(Some("u1")), Notification(None)];
            && Render(Deliver(Mounted, ns[..1]).state) == Some(StackConfig(Welcome, false, RegisteredScreens))
            && Render(Deliver(Mounted, ns[..2]).state) == Some(StackConfig(Home, false, RegisteredScreens))
            && Render(Deliver(Mounted, ns).state) == Some(StackConfig(Welcome, false, RegisteredScreens))
  {
    var ns := [Notification(None), Notification(Some("u1")), Notification(None)];
    RenderAfterNotifications(ns[..1]);
    RenderAfterNotifications(ns[..2]);
    RenderAfterNotifications(ns);
  }
}
