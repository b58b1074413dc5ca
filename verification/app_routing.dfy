/**
 * The application shell's navigation rules: the redirect effect between the
 * landing page and the dashboard, the "get started" action, the loading gate
 * and which screen each path shows. The wallet's state is an input; the
 * 100 ms settling delay is the `ready` flag.
 */
module AppRouting {

  import opened Base

  /** What the shell reads from the wallet adapter, plus its own settled-delay flag. */
  datatype WalletStatus = WalletStatus(ready: bool, connecting: bool, connected: bool)

  const LandingPath := "/"
  const DashboardPath := "/dashboard"

  /** The shell shows the loading screen until the wallet state has settled. */
  predicate Settling(w: WalletStatus) {
    !w.ready || w.connecting
  }

  /**
   * The redirect effect: a connected wallet on the landing page goes to the
   * dashboard, a disconnected one on the dashboard goes back; nothing moves
   * while the wallet is settling.
   */
  function Redirect(w: WalletStatus, path: string): (target: Option<string>)
    ensures Settling(w) ==> target.None?
    ensures !Settling(w) && w.connected && path == LandingPath ==> target == Some(DashboardPath)
    ensures !Settling(w) && !w.connected && path == DashboardPath ==> target == Some(LandingPath)
    ensures target.Some? ==> target.value != path && target.value in {LandingPath, DashboardPath}
    ensures path !in {LandingPath, DashboardPath} ==> target.None?
  {
    if Settling(w) then None
    else if w.connected && path == LandingPath then Some(DashboardPath)
    else if !w.connected && path == DashboardPath then Some(LandingPath)
    else None
  }

  /** The path after the redirect effect has run. */
  function Settle(w: WalletStatus, path: string): string {
    Redirect(w, path).GetOr(path)
  }

  /** The redirect's target is left alone by the redirect: one step settles. */
  lemma RedirectIdempotent(w: WalletStatus, path: string)
    ensures Redirect(w, Settle(w, path)).None?
    ensures Settle(w, Settle(w, path)) == Settle(w, path)
  {
  }

  /** `handleGetStarted`: only a connected wallet is taken to the dashboard. */
  function HandleGetStarted(connected: bool): (target: Option<string>)
    ensures target.Some? <==> connected
    ensures target.Some? ==> target.value == DashboardPath
  {
    if connected then Some(DashboardPath) else None
  }

  datatype Screen = Loading | Landing | Dashboard | Docs | NoMatch

  /** The screen for a path: the loading gate first, then the route table; the dashboard route needs a connected wallet. */
  function Render(w: WalletStatus, path: string): (s: Screen)
    ensures Settling(w) <==> s == Loading
    ensures s == Dashboard <==> !Settling(w) && w.connected && path == DashboardPath
    ensures !Settling(w) && !w.connected && path == DashboardPath ==> s == Landing
    ensures !Settling(w) && path in {LandingPath, "/vault"} ==> s == Landing
    ensures !Settling(w) && path == "/docs" ==> s == Docs
    ensures s == NoMatch <==> !Settling(w) && path !in {LandingPath, DashboardPath, "/vault", "/docs"}
  {
    if Settling(w) then Loading
    else if path == LandingPath || path == "/vault" then Landing
    else if path == DashboardPath then (if w.connected then Dashboard else Landing)
    else if path == "/docs" then Docs
    else NoMatch
  }

  /**
   * Once settled, the landing page and the dashboard agree with the wallet: a
   * connected wallet that starts on either ends on the dashboard, a
   * disconnected one on the landing page.
   */
  lemma SettledScreenFollowsWallet(w: WalletStatus, path: string)
    requires !Settling(w) && path in {LandingPath, DashboardPath}
    ensures Render(w, Settle(w, path)) == if w.connected then Dashboard else Landing
  {
  }

  /** "Get started" from a settled, connected wallet shows the dashboard. */
  lemma GetStartedShowsDashboard(w: WalletStatus)
    requires !Settling(w) && w.connected
    ensures Render(w, HandleGetStarted(w.connected).value) == Dashboard
  {
  }
}
