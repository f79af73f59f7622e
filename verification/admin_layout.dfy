/** The admin area's frame: the sign-in gate, the log-out button and the
    sidebar highlight. */
module AdminLayout {
  import opened Optional
  import opened Text
  import Navigation

  const AuthKey: string := "admin_authenticated"

  const LoginPath: string := "/admin/login"

  /** Browser storage, as far as the gate reads it. */
  type Storage = map<string, string>

  function StoredFlag(s: Storage): Option<string> {
    if AuthKey in s then Some(s[AuthKey]) else None
  }

  /** Signed in exactly when the stored flag is the string "true". */
  predicate Authenticated(s: Storage) {
    StoredFlag(s) == Some("true")
  }

  /** What the frame renders. */
  datatype View = Loading | BareChildren | Nothing | AdminChrome

  /** The frame's state. The layout stays mounted while the browser moves
      between admin pages, the login page included, so this state carries
      over from one page to the next. */
  datatype Layout = Layout(authenticated: bool, loading: bool)

  /** The state when the frame is first mounted. */
  const Mounted: Layout := Layout(false, true)

  /** The effect's outcome: the new state, and where to send the browser. */
  datatype Gate = Gate(state: Layout, redirect: Option<string>)

  /** The effect that runs on every path change. A stored "true" signs the
      frame in; nothing ever signs it out. A missing flag only redirects,
      except on the login page itself. */
  function CheckAuth(st: Layout, s: Storage, pathname: string): (g: Gate)
    ensures g.state.authenticated <==> st.authenticated || Authenticated(s)
    ensures !g.state.loading
    ensures g.redirect.Some? <==> !Authenticated(s) && pathname != LoginPath
    ensures g.redirect.Some? ==> g.redirect.value == LoginPath
  {
    var authenticated := if StoredFlag(s) == Some("true") then true else st.authenticated;
    var redirect := if StoredFlag(s) == Some("true") then None
                    else if pathname != LoginPath then Some(LoginPath)
                    else None;
    Gate(Layout(authenticated, false), redirect)
  }

  /** The frame for a path in a given state. */
  function Render(st: Layout, pathname: string): View {
    if st.loading then Loading
    else if pathname == LoginPath then BareChildren
    else if !st.authenticated then Nothing
    else AdminChrome
  }

  /** After the effect: the login page renders bare, whatever the storage
      holds; any other page shows the admin frame exactly when the frame was
      already signed in or the flag is stored, and otherwise renders nothing
      and heads for the login page. */
  lemma GateDecision(st: Layout, s: Storage, pathname: string)
    ensures var g := CheckAuth(st, s, pathname);
      var v := Render(g.state, pathname);
      && (pathname == LoginPath ==> v == BareChildren && g.redirect.None?)
      && (pathname != LoginPath ==> (v == AdminChrome <==> st.authenticated || Authenticated(s)))
      && (pathname != LoginPath && !st.authenticated && !Authenticated(s) ==> v == Nothing && g.redirect == Some(LoginPath))
  {
  }

  /** On a freshly mounted frame the loading screen shows first; once the
      effect has run, a page other than login shows the admin frame exactly
      when the flag is stored. */
  lemma FreshMountGate(s: Storage, pathname: string)
    requires pathname != LoginPath
    ensures Render(Mounted, pathname) == Loading
    ensures Render(CheckAuth(Mounted, s, pathname).state, pathname) == AdminChrome <==> Authenticated(s)
  {
  }

  /** A visit: the storage as it stands and the page the browser is on. */
  datatype Visit = Visit(storage: Storage, pathname: string)

  /** The frame's state after the effect has run for each visit in turn. */
  function RunVisits(st: Layout, visits: seq<Visit>): Layout
    decreases |visits|
  {
    if visits == [] then st
    else RunVisits(CheckAuth(st, visits[0].storage, visits[0].pathname).state, visits[1..])
  }

  /** Once signed in, the mounted frame stays signed in, whatever the
      storage holds later. */
  lemma {:induction false} AuthenticationSticks(st: Layout, visits: seq<Visit>)
    requires st.authenticated
    ensures RunVisits(st, visits).authenticated
    decreases |visits|
  {
    if visits != [] {
      AuthenticationSticks(CheckAuth(st, visits[0].storage, visits[0].pathname).state, visits[1..]);
    }
  }

  /** `handleLogout`: forget the flag and go to the login page. The frame's
      own state is left as it is. */
  function Logout(s: Storage): (r: (Storage, string))
    ensures AuthKey !in r.0 && r.1 == LoginPath
    ensures forall k :: k != AuthKey ==> (k in r.0 <==> k in s) && (k in s ==> r.0[k] == s[k])
  {
    (s - {AuthKey}, LoginPath)
  }

  /** As written, logging out does not lock the mounted frame: signed in on
      an admin page, log out, land on the login page and go back. The admin
      frame renders before the effect runs and again after it, although the
      flag is gone; only the effect's redirect sends the browser away. */
  lemma LogoutThenBackShowsFrame(s: Storage, page: string)
    requires Authenticated(s) && page != LoginPath
    ensures var g1 := CheckAuth(Mounted, s, page);
      var s' := Logout(s).0;
      var g2 := CheckAuth(g1.state, s', LoginPath);
      var g3 := CheckAuth(g2.state, s', page);
      && Render(g1.state, page) == AdminChrome
      && !Authenticated(s')
      && Render(g2.state, page) == AdminChrome
      && Render(g3.state, page) == AdminChrome
      && g3.redirect == Some(LoginPath)
  {
  }

  /** The effect as the gate evidently intends it: the frame is signed in
      exactly when the flag is stored now. */
  function CheckAuthFixed(st: Layout, s: Storage, pathname: string): (g: Gate)
    ensures g.state.authenticated <==> Authenticated(s)
    ensures !g.state.loading
    ensures g.redirect == CheckAuth(st, s, pathname).redirect
  {
    var g := CheckAuth(st, s, pathname);
    Gate(g.state.(authenticated := Authenticated(s)), g.redirect)
  }

  /** With the intended effect, logging out locks every admin page but the
      login page, whatever state the frame was in: going back renders
      nothing both before and after the effect runs, and redirects. */
  lemma LogoutLocksOut(st: Layout, s: Storage, page: string)
    requires page != LoginPath
    ensures var s' := Logout(s).0;
      var g2 := CheckAuthFixed(st, s', LoginPath);
      var g3 := CheckAuthFixed(g2.state, s', page);
      && Render(g2.state, LoginPath) == BareChildren
      && Render(g2.state, page) == Nothing
      && Render(g3.state, page) == Nothing
      && g3.redirect == Some(LoginPath)
  {
  }

  /** The sidebar's links. */
  const NavHrefs: seq<string> := [
    "/admin", "/admin/products", "/admin/orders", "/admin/customers",
    "/admin/reviews", "/admin/analytics", "/admin/settings"]

  /** The sidebar highlight: the dashboard only on "/admin" itself, the
      others on their own path or any path under it. */
  function NavActive(pathname: string, href: string): (b: bool)
    ensures href == "/admin" ==> (b <==> pathname == "/admin")
    ensures href != "/admin" && href != "/" ==> (b <==> Navigation.IsActive(pathname, href))
  {
    pathname == href || (href != "/admin" && StartsWith(pathname, href))
  }

  /** On a page under a section, the dashboard link is not highlighted but
      the section's is. */
  lemma DashboardNotOnSubpages(rest: string)
    requires rest != []
    ensures !NavActive("/admin/products" + rest, "/admin")
    ensures NavActive("/admin/products" + rest, "/admin/products")
  {
    var p := "/admin/products" + rest;
    assert |p| > |"/admin"|;
    assert p[..|"/admin/products"|] == "/admin/products";
  }
}
