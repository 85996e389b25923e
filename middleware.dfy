/** The request guard in front of the pages: a request without a session
    token is sent to sign in, a non-admin on an admin page is sent to the
    sale screen, and the root page sends each role to its home page. */
module Middleware {
  import opened Common
  import opened Ledger

  /** The session token; its role may be missing. */
  datatype Token = Token(role: Option<Role>)

  datatype Decision =
    | Redirect(target: string)  // a redirect to `target`
    | SignIn                    // the authentication layer's sign-in redirect
    | Continue                  // `NextResponse.next()`: the request goes on

  predicate IsAdmin(token: Option<Token>) {
    token.Some? && token.value.role == Some(Admin)
  }

  predicate IsVendedor(token: Option<Token>) {
    token.Some? && token.value.role == Some(Vendedor)
  }

  /** The `authorized` callback: a token is enough. */
  predicate Authorized(token: Option<Token>) {
    token.Some?
  }

  /** The paths the guard runs on: "/", and "/admin", "/pos" and
      "/historial" with anything below them. */
  predicate Matched(path: string) {
    || path == "/"
    || UnderPrefix(path, "/admin") || UnderPrefix(path, "/pos") || UnderPrefix(path, "/historial")
  }

  /** `prefix` itself or a path below it. */
  predicate UnderPrefix(path: string, prefix: string) {
    path == prefix || StartsWith(path, prefix + "/")
  }

  /** The middleware function: admin pages for admins only, then the root
      redirect by role, otherwise the request goes on. */
  function Decide(path: string, token: Option<Token>): (d: Decision)
    ensures d != SignIn
    ensures StartsWith(path, "/admin") && !IsAdmin(token) ==> d == Redirect("/pos")
    ensures StartsWith(path, "/admin") && IsAdmin(token) ==> d == Continue
    ensures path == "/" && IsAdmin(token) ==> d == Redirect("/admin/productos")
    ensures path == "/" && IsVendedor(token) ==> d == Redirect("/pos")
    ensures path == "/" && !IsAdmin(token) && !IsVendedor(token) ==> d == Continue
    ensures !StartsWith(path, "/admin") && path != "/" ==> d == Continue
  {
    if StartsWith(path, "/admin") && !IsAdmin(token) then Redirect("/pos")
    else if path == "/" && token.Some? then
      if IsAdmin(token) then Redirect("/admin/productos")
      else if IsVendedor(token) then Redirect("/pos")
      else Continue
    else Continue
  }

  /** The whole guard: paths outside the matcher are not looked at; on the
      others a request without a token signs in first. */
  function Guard(path: string, token: Option<Token>): (d: Decision)
    ensures !Matched(path) ==> d == Continue
    ensures Matched(path) && !Authorized(token) ==> d == SignIn
    ensures Matched(path) && Authorized(token) ==> d == Decide(path, token)
  {
    if !Matched(path) then Continue
    else if !Authorized(token) then SignIn
    else Decide(path, token)
  }

  /** A request reaches an admin page only with an admin token. */
  lemma AdminPagesNeedAdmin(path: string, token: Option<Token>)
    requires UnderPrefix(path, "/admin")
    ensures Guard(path, token) == Continue <==> IsAdmin(token)
  {
    assert StartsWith(path, "/admin") by {
      if path != "/admin" {
        assert path[..|"/admin/"|] == "/admin/";
        assert path[..|"/admin"|] == ("/admin/")[..|"/admin"|];
      }
    }
  }

  /** The root sends admins to the catalogue and sellers to the sale
      screen, and lets supervisors and role-less tokens through. */
  lemma RootByRole(role: Option<Role>)
    ensures Guard("/", Some(Token(role))) ==
      if role == Some(Admin) then Redirect("/admin/productos")
      else if role == Some(Vendedor) then Redirect("/pos")
      else Continue
  {
    assert Matched("/");
    assert !StartsWith("/", "/admin");
  }
}
