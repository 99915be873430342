/** `Shell`: the frame around every page, and who may see it. */
module Shell {
  import opened Wrappers

  const AUTH_PREFIX := "/auth"
  const LANDING := "/"
  const LOGIN := "/auth/login"

  /** What the frame renders. */
  datatype View =
    | Spinner     // the loading screen
    | Blank       // nothing at all
    | Bare        // the page alone
    | Framed      // navigation, header and the page

  /** The frame's rendering together with the route it asks to go to, if any. */
  datatype Decision = Decision(view: View, redirect: Option<string>)

  /** A path with no current value is neither an auth page nor the landing page. */
  predicate IsAuthPage(pathname: Option<string>) {
    pathname.Some? && |AUTH_PREFIX| <= |pathname.value| && pathname.value[..|AUTH_PREFIX|] == AUTH_PREFIX
  }

  predicate IsLandingPage(pathname: Option<string>) {
    pathname == Some(LANDING)
  }

  /** The effect: sign-in is required away from the auth and landing pages once loading is over. */
  function Redirect(loading: bool, signedIn: bool, pathname: Option<string>): (r: Option<string>)
    ensures r.Some? ==> r.value == LOGIN
  {
    if !loading && !signedIn && !IsAuthPage(pathname) && !IsLandingPage(pathname) then Some(LOGIN) else None
  }

  /** The render, in the order of its early returns. */
  function Render(loading: bool, signedIn: bool, pathname: Option<string>): (v: View)
    ensures loading <==> v == Spinner
    ensures v == Framed ==> signedIn && !IsAuthPage(pathname)
  {
    if loading then Spinner
    else if !signedIn && !IsAuthPage(pathname) && !IsLandingPage(pathname) then Blank
    else if IsAuthPage(pathname) || (IsLandingPage(pathname) && !signedIn) then Bare
    else Framed
  }

  function Decide(loading: bool, signedIn: bool, pathname: Option<string>): (d: Decision)
    ensures d.view == Render(loading, signedIn, pathname) && d.redirect == Redirect(loading, signedIn, pathname)
    ensures d.redirect.Some? <==> d.view == Blank
  {
    Decision(Render(loading, signedIn, pathname), Redirect(loading, signedIn, pathname))
  }

  /** The decision table of the frame, row by row. */
  lemma DecisionTable(loading: bool, signedIn: bool, pathname: Option<string>)
    ensures var d := Decide(loading, signedIn, pathname);
      && (loading ==> d == Decision(Spinner, None))
      && (!loading && !signedIn && !IsAuthPage(pathname) && !IsLandingPage(pathname) ==> d == Decision(Blank, Some(LOGIN)))
      && (!loading && IsAuthPage(pathname) ==> d == Decision(Bare, None))
      && (!loading && IsLandingPage(pathname) ==> d == Decision(if signedIn then Framed else Bare, None))
      && (!loading && signedIn && !IsAuthPage(pathname) ==> d == Decision(Framed, None))
  {
  }

  /** Signed-out visitors see the navigation nowhere, and signed-in ones see it everywhere outside the auth pages. */
  lemma FramedExactlyWhenSignedIn(signedIn: bool, pathname: Option<string>)
    ensures Render(false, signedIn, pathname) == Framed <==> signedIn && !IsAuthPage(pathname)
  {
  }

  /** The auth test looks at the start of the path only. */
  lemma AuthIsAPrefixTest()
    ensures IsAuthPage(Some("/authx")) && IsAuthPage(Some("/auth/login")) && IsAuthPage(Some("/auth"))
    ensures !IsAuthPage(Some("/aut")) && !IsAuthPage(Some("/dashboard")) && !IsAuthPage(None)
  {
    assert "/authx"[..5] == "/auth";
    assert "/auth/login"[..5] == "/auth";
    assert "/dashboard"[..5] != "/auth" by { assert "/dashboard"[1] == 'd'; }
  }
}
