/** The step indicator shown on every story screen: one dot per step, a
    dot per route that can be clicked or activated from the keyboard, arrow
    keys that move one step, Home and End, and the width of each dot. Steps
    are numbered from 1; the route of step `k` is entry `k - 1` of the
    route list. */
module ProgressIndicator {
  import opened Wrappers

  /** The route of each step of the app's flow, from the landing page to
      the share screen. */
  const DEFAULT_ROUTES: seq<string> := ["/", "/connect", "/loading", "/vibe-check", "/persona", "/share"]

  const HOME_ROUTE := "/"

  /** The component's properties (`onNext` and `showNext` only concern the
      next button's rendering). */
  datatype Props = Props(currentStep: int, totalSteps: int, routes: Option<seq<string>>)

  /** `routes || DEFAULT_ROUTES`: a given list, even an empty one, is used
      as it is. */
  function RouteMap(p: Props): (r: seq<string>)
    ensures p.routes.Some? ==> r == p.routes.value
    ensures p.routes.None? ==> r == DEFAULT_ROUTES
  {
    p.routes.GetOr(DEFAULT_ROUTES)
  }

  /** `routeMap[i]`: undefined outside the list. */
  function RouteAt(routes: seq<string>, i: int): (r: Option<string>)
    ensures r.Some? <==> 0 <= i < |routes|
    ensures r.Some? ==> r.value == routes[i]
  {
    if 0 <= i < |routes| then Some(routes[i]) else None
  }

  /** A route the code follows: defined and not the empty string. */
  function Followed(route: Option<string>): (r: Option<string>)
    ensures r.Some? <==> route.Some? && route.value != []
    ensures r.Some? ==> r == route
  {
    if route.Some? && route.value != [] then route else None
  }

  datatype Direction = Left | Right

  /** The route `handleStepNavigation` pushes, if any. */
  function NavigationTarget(p: Props, d: Direction): Option<string> {
    var routes := RouteMap(p);
    match d
    case Left => if p.currentStep > 1 then Followed(RouteAt(routes, p.currentStep - 2)) else None
    case Right => if p.currentStep < p.totalSteps then Followed(RouteAt(routes, p.currentStep)) else None
  }

  /** `isClickable` for the dot at `index` (step `index + 1`). */
  predicate IsClickable(p: Props, index: int) {
    Followed(RouteAt(RouteMap(p), index)).Some? && index + 1 != p.currentStep
  }

  /** The keys the step dots react to; `OtherKey` is any other key. */
  datatype Key = Enter | Space | ArrowLeft | ArrowRight | Home | End | OtherKey

  /** The route `handleStepKeyDown` pushes for a key pressed on the dot at
      `stepIndex` whose route is `route`, if any. */
  function KeyTarget(p: Props, key: Key, stepIndex: int, route: Option<string>): Option<string> {
    match key
    case Enter => if stepIndex + 1 != p.currentStep then Followed(route) else None
    case Space => if stepIndex + 1 != p.currentStep then Followed(route) else None
    case ArrowLeft => NavigationTarget(p, Left)
    case ArrowRight => NavigationTarget(p, Right)
    case Home => Some(HOME_ROUTE)
    case End => Followed(RouteAt(RouteMap(p), |RouteMap(p)| - 1))
    case OtherKey => None
  }

  /** Every key but `OtherKey` has its default action prevented. */
  predicate Handled(key: Key) {
    !key.OtherKey?
  }

  // ---------------------------------------------------------------------
  // Navigation rules

  /** Left moves to the previous step's route: it happens only past the
      first step, and only when that route is there. */
  lemma LeftNavigation(p: Props)
    ensures var t := NavigationTarget(p, Left);
      t.Some? <==> p.currentStep > 1 && p.currentStep - 2 < |RouteMap(p)| && RouteMap(p)[p.currentStep - 2] != []
    ensures var t := NavigationTarget(p, Left);
      t.Some? ==> t.value == RouteMap(p)[p.currentStep - 2]
  {
  }

  /** Right moves to the next step's route: it happens only before the last
      step, and only when that route is there. */
  lemma RightNavigation(p: Props)
    ensures var t := NavigationTarget(p, Right);
      t.Some? <==> 0 <= p.currentStep < p.totalSteps && p.currentStep < |RouteMap(p)| && RouteMap(p)[p.currentStep] != []
    ensures var t := NavigationTarget(p, Right);
      t.Some? ==> t.value == RouteMap(p)[p.currentStep]
  {
  }

  /** Navigation never leaves the route list and never pushes an empty
      route. */
  lemma NavigationInRoutes(p: Props, d: Direction)
    ensures var t := NavigationTarget(p, d);
      t.Some? ==> t.value in RouteMap(p) && t.value != []
  {
  }

  /** The route of step `k`. */
  function StepRoute(routes: seq<string>, k: int): Option<string> {
    RouteAt(routes, k - 1)
  }

  /** Left from step `k` and right from step `k - 1` are inverse moves: the
      first reaches the route of step `k - 1`, the second the route of step
      `k`. */
  lemma LeftRightInverse(p: Props, k: int)
    requires 2 <= k <= p.totalSteps && k <= |RouteMap(p)|
    requires RouteMap(p)[k - 1] != [] && RouteMap(p)[k - 2] != []
    ensures NavigationTarget(p.(currentStep := k), Left) == StepRoute(RouteMap(p), k - 1)
    ensures NavigationTarget(p.(currentStep := k - 1), Right) == StepRoute(RouteMap(p), k)
  {
  }

  /** The dot is clickable exactly when its route is there and it is not
      the current step; the current step's dot never is. */
  lemma ClickableRule(p: Props, index: int)
    ensures IsClickable(p, index) <==>
      0 <= index < |RouteMap(p)| && RouteMap(p)[index] != [] && index + 1 != p.currentStep
    ensures !IsClickable(p, p.currentStep - 1)
  {
  }

  /** Enter and Space follow the dot's route only when it is there and the
      dot is not the current step's. */
  lemma ActivateRule(p: Props, key: Key, stepIndex: int, route: Option<string>)
    requires key == Enter || key == Space
    ensures var t := KeyTarget(p, key, stepIndex, route);
      t.Some? <==> route.Some? && route.value != [] && stepIndex + 1 != p.currentStep
    ensures var t := KeyTarget(p, key, stepIndex, route);
      t.Some? ==> t == route
  {
  }

  /** On a dot, Enter and Space do what a click does. */
  lemma ActivateLikeClick(p: Props, key: Key, index: int)
    requires key == Enter || key == Space
    ensures KeyTarget(p, key, index, RouteAt(RouteMap(p), index)).Some? <==> IsClickable(p, index)
  {
  }

  /** Home always goes to `/`; End goes to the last route, when the list
      has one and it is not empty. */
  lemma HomeEndRule(p: Props, stepIndex: int, route: Option<string>)
    ensures KeyTarget(p, Home, stepIndex, route) == Some(HOME_ROUTE)
    ensures var t := KeyTarget(p, End, stepIndex, route);
      t.Some? <==> |RouteMap(p)| > 0 && RouteMap(p)[|RouteMap(p)| - 1] != []
    ensures var t := KeyTarget(p, End, stepIndex, route);
      t.Some? ==> t.value == RouteMap(p)[|RouteMap(p)| - 1]
  {
  }

  /** The arrow keys are the two navigation moves. */
  lemma ArrowKeysNavigate(p: Props, stepIndex: int, route: Option<string>)
    ensures KeyTarget(p, ArrowLeft, stepIndex, route) == NavigationTarget(p, Left)
    ensures KeyTarget(p, ArrowRight, stepIndex, route) == NavigationTarget(p, Right)
    ensures KeyTarget(p, OtherKey, stepIndex, route) == None
  {
  }

  // ---------------------------------------------------------------------
  // The default routes

  /** The default list has a distinct, non-empty route for each of the six
      steps, step 1 being `/` and step 6 `/share`. */
  lemma DefaultRoutesShape()
    ensures |DEFAULT_ROUTES| == 6
    ensures forall i :: 0 <= i < 6 ==> DEFAULT_ROUTES[i] != []
    ensures forall i, j :: 0 <= i < j < 6 ==> DEFAULT_ROUTES[i] != DEFAULT_ROUTES[j]
    ensures DEFAULT_ROUTES[0] == HOME_ROUTE && DEFAULT_ROUTES[5] == "/share"
  {
    assert DEFAULT_ROUTES[1][1] == 'c' && DEFAULT_ROUTES[2][1] == 'l' && DEFAULT_ROUTES[4][1] == 'p';
  }

  /** Without a route list, step `k` of 1 to 6 has the `k`-th default route,
      and every such step but the current one can be clicked. */
  lemma DefaultStepRoutes(p: Props, k: int)
    requires p.routes.None? && 1 <= k <= 6
    ensures StepRoute(RouteMap(p), k) == Some(DEFAULT_ROUTES[k - 1])
    ensures IsClickable(p, k - 1) <==> k != p.currentStep
  {
    DefaultRoutesShape();
  }

  // ---------------------------------------------------------------------
  // Dot widths

  /** `window.innerWidth < 768`. */
  predicate IsMobile(innerWidth: int) {
    innerWidth < 768
  }

  /** The width in pixels of the dot of step `stepNumber`. */
  function DotWidth(stepNumber: int, currentStep: int, mobile: bool): nat {
    if stepNumber == currentStep then (if mobile then 40 else 60)
    else if stepNumber < currentStep then (if mobile then 30 else 40)
    else if mobile then 20 else 30
  }

  /** The active dot is 60px wide (40px on mobile), a completed one 40px
      (30px) and an upcoming one 30px (20px): the active dot is the widest,
      an upcoming dot the narrowest, and each is narrower on mobile. */
  lemma DotWidths(stepNumber: int, currentStep: int, mobile: bool)
    ensures stepNumber == currentStep ==> DotWidth(stepNumber, currentStep, mobile) == (if mobile then 40 else 60)
    ensures stepNumber < currentStep ==> DotWidth(stepNumber, currentStep, mobile) == (if mobile then 30 else 40)
    ensures stepNumber > currentStep ==> DotWidth(stepNumber, currentStep, mobile) == (if mobile then 20 else 30)
    ensures stepNumber != currentStep ==> DotWidth(stepNumber, currentStep, mobile) < DotWidth(currentStep, currentStep, mobile)
    ensures DotWidth(currentStep + 1, currentStep, mobile) < DotWidth(currentStep - 1, currentStep, mobile)
    ensures DotWidth(stepNumber, currentStep, true) < DotWidth(stepNumber, currentStep, false)
  {
  }

  // ---------------------------------------------------------------------
  // Navigation side effects

  /** The app router, reduced to the routes pushed onto it. */
  class Router {
    var pushed: seq<string>

    constructor ()
      ensures pushed == []
    {
      pushed := [];
    }

    /** `router.push(route)`. */
    method Push(route: string)
      modifies this
      ensures pushed == old(pushed) + [route]
    {
      pushed := pushed + [route];
    }
  }

  /** The pushes an optional target makes. */
  function Pushes(target: Option<string>): seq<string> {
    if target.Some? then [target.value] else []
  }

  /** `handleStepNavigation`. */
  method HandleStepNavigation(router: Router, p: Props, d: Direction)
    modifies router
    ensures router.pushed == old(router.pushed) + Pushes(NavigationTarget(p, d))
  {
    var routeMap := if p.routes.Some? then p.routes.value else DEFAULT_ROUTES;
    if d == Left && p.currentStep > 1 {
      if p.currentStep - 2 < |routeMap| && routeMap[p.currentStep - 2] != [] {
        router.Push(routeMap[p.currentStep - 2]);
      }
    } else if d == Right && p.currentStep < p.totalSteps {
      if 0 <= p.currentStep < |routeMap| && routeMap[p.currentStep] != [] {
        router.Push(routeMap[p.currentStep]);
      }
    }
  }

  /** `handleStepKeyDown`: the result says whether the default action was
      prevented. */
  method HandleStepKeyDown(router: Router, p: Props, key: Key, stepIndex: int, route: Option<string>)
    returns (prevented: bool)
    modifies router
    ensures prevented <==> Handled(key)
    ensures router.pushed == old(router.pushed) + Pushes(KeyTarget(p, key, stepIndex, route))
  {
    prevented := true;
    match key {
      case Enter | Space =>
        if route.Some? && route.value != [] && stepIndex + 1 != p.currentStep {
          router.Push(route.value);
        }
      case ArrowLeft =>
        HandleStepNavigation(router, p, Left);
      case ArrowRight =>
        HandleStepNavigation(router, p, Right);
      case Home =>
        router.Push(HOME_ROUTE);
      case End =>
        var routeMap := if p.routes.Some? then p.routes.value else DEFAULT_ROUTES;
        if |routeMap| > 0 && routeMap[|routeMap| - 1] != [] {
          router.Push(routeMap[|routeMap| - 1]);
        }
      case OtherKey =>
        prevented := false;
    }
  }

  /** The click handler of the dot at `index`. */
  method HandleClick(router: Router, p: Props, index: int)
    modifies router
    ensures router.pushed == old(router.pushed) + (if IsClickable(p, index) then [RouteMap(p)[index]] else [])
  {
    var routeMap := if p.routes.Some? then p.routes.value else DEFAULT_ROUTES;
    if 0 <= index < |routeMap| && routeMap[index] != [] && index + 1 != p.currentStep {
      router.Push(routeMap[index]);
    }
  }

  /** `handleHomeKeyDown`: Enter and Space on the home button go to `/`. */
  method HandleHomeKeyDown(router: Router, key: Key) returns (prevented: bool)
    modifies router
    ensures prevented <==> key == Enter || key == Space
    ensures router.pushed == old(router.pushed) + (if prevented then [HOME_ROUTE] else [])
  {
    prevented := key == Enter || key == Space;
    if prevented {
      router.Push(HOME_ROUTE);
    }
  }
}
