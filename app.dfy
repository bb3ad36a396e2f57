/** The request handlers of the shortener as methods on one object that holds
    the `urls` table and one client's `session["admin"]` flag. The handlers
    that write the table (Index, RedirectUrl, Toggle) are proved equal to the
    table functions of module Links; the others state their effect on the
    session flag, or that they only read, in their own contracts. */
module App {
  import opened Codes
  import opened Links

  const AdminUser: string := "admin"
  /** The plaintext whose hash is `ADMIN_PASS_HASH`. */
  const AdminPassword: string := "admin123"

  const ReservedMessage: string := "This short code is reserved. Choose another."
  const DuplicateMessage: string := "Short code already exists. Try another."
  const LoginError: string := "Invalid username or password"

  /** `check_password_hash(ADMIN_PASS_HASH, pwd)`: the hash was made from
      AdminPassword, so the check accepts exactly that password. */
  predicate PasswordMatches(pwd: string) {
    pwd == AdminPassword
  }

  predicate CredentialsAccepted(user: string, pwd: string) {
    user == AdminUser && PasswordMatches(pwd)
  }

  /** What a handler sends back: a rendered template with the values it is
      given, or a redirect. `IndexPage.shortCode` is the code that
      `request.host_url` is prefixed to. */
  datatype Response =
    | IndexPage(shortCode: Option<string>, message: Option<string>)
    | RedirectTo(location: string)
    | ExpiredPage
    | StatsPage(row: Link)
    | LoginPage(error: Option<string>)
    | AdminPage(data: Table)
    | ServerError

  /** `redirect(url_for(code))` for a reserved code. The endpoints admin,
      login and logout take no argument and build their own paths; stats
      and toggle need a `code` argument that is not given, so building
      their URL fails and the request ends in a server error. */
  function EndpointResponse(endpoint: string): (page: Response)
    requires IsReserved(endpoint)
    ensures page.ServerError? <==> endpoint in {"stats", "toggle"}
    ensures !page.ServerError? ==> page == RedirectTo("/" + endpoint)
  {
    if endpoint == "stats" || endpoint == "toggle" then ServerError else RedirectTo("/" + endpoint)
  }

  /** The page `index` renders for each outcome of a submission. */
  function IndexResponse(outcome: CreateOutcome): (page: Response)
    ensures page.IndexPage?
    ensures page.shortCode.Some? <==> outcome.Created?
    ensures page.message.Some? <==> !outcome.Created?
    ensures outcome.Created? ==> page.shortCode == Some(outcome.code)
    ensures outcome.ReservedCode? ==> page.message == Some(ReservedMessage)
    ensures outcome.DuplicateCode? ==> page.message == Some(DuplicateMessage)
  {
    match outcome
    case Created(code) => IndexPage(Some(code), None)
    case ReservedCode => IndexPage(None, Some(ReservedMessage))
    case DuplicateCode => IndexPage(None, Some(DuplicateMessage))
  }

  /** The response `redirect_url` gives for each outcome of a lookup. */
  function RedirectResponse(outcome: ResolveOutcome): (page: Response)
    requires outcome.ReservedRoute? ==> IsReserved(outcome.endpoint)
    ensures outcome.Target? ==> page == RedirectTo(outcome.url)
    ensures outcome.NotFound? ==> page == ExpiredPage
    ensures outcome.ReservedRoute? ==> page == EndpointResponse(outcome.endpoint)
  {
    match outcome
    case ReservedRoute(endpoint) => EndpointResponse(endpoint)
    case Target(url) => RedirectTo(url)
    case NotFound => ExpiredPage
  }

  class Shortener {
    var links: Table
    var admin: bool

    ghost predicate Valid()
      reads this
    {
      WellFormed(links)
    }

    /** `init_db` over the rows `urls.db` already holds (none on a first
        start), and a client without a session. */
    constructor (rows: Table)
      requires WellFormed(rows)
      ensures Valid()
      ensures links == rows && !admin
    {
      links := rows;
      admin := false;
    }

    /** POST `/`. `picks` are the draws `generate_code` would make. */
    method Index(url: string, custom: string, expiry: Option<int>, picks: seq<nat>) returns (page: Response)
      requires Valid()
      requires |picks| == CodeLength && ValidPicks(picks)
      modifies this`links
      ensures Valid() && Grows(old(links), links)
      ensures var r := Create(old(links), url, custom, expiry, picks);
        links == r.table && page == IndexResponse(r.outcome)
    {
      var code := ChooseCode(custom, picks);
      if code in ReservedRoutes {
        page := IndexPage(None, Some(ReservedMessage));
      } else if code in links {
        page := IndexPage(None, Some(DuplicateMessage));
      } else {
        links := links[code := NewLink(url, expiry)];
        page := IndexPage(Some(code), None);
      }
    }

    /** GET `/<code>` at time `now`. */
    method RedirectUrl(code: string, now: int) returns (page: Response)
      requires Valid()
      modifies this`links
      ensures Valid() && Grows(old(links), links)
      ensures var r := Resolve(old(links), code, now);
        links == r.table && page == RedirectResponse(r.outcome)
    {
      if code in ReservedRoutes {
        return EndpointResponse(code);
      }
      if code !in links || !links[code].active || IsExpired(links[code], now) {
        return ExpiredPage;
      }
      var row := links[code];
      links := links[code := row.(clicks := row.clicks + 1)];
      page := RedirectTo(row.url);
    }

    /** GET `/stats/<code>`: the row whatever its active flag or expiry, and
        the not-found page only when there is no row. */
    method Stats(code: string) returns (page: Response)
      ensures page.StatsPage? <==> code in links
      ensures page.StatsPage? ==> page.row == links[code]
      ensures !page.StatsPage? ==> page == ExpiredPage
    {
      if code in links {
        page := StatsPage(links[code]);
      } else {
        page := ExpiredPage;
      }
    }

    /** POST `/login`. A failed attempt leaves the session as it was. */
    method Login(user: string, pwd: string) returns (page: Response)
      modifies this`admin
      ensures admin == (old(admin) || CredentialsAccepted(user, pwd))
      ensures page == if CredentialsAccepted(user, pwd) then RedirectTo("/admin") else LoginPage(Some(LoginError))
    {
      if user == AdminUser && PasswordMatches(pwd) {
        admin := true;
        page := RedirectTo("/admin");
      } else {
        page := LoginPage(Some(LoginError));
      }
    }

    /** GET `/admin`: every row, for a logged-in client only. */
    method Admin() returns (page: Response)
      ensures !admin ==> page == RedirectTo("/login")
      ensures admin ==> page == AdminPage(links)
    {
      if !admin {
        return RedirectTo("/login");
      }
      page := AdminPage(links);
    }

    /** GET `/toggle/<code>`: flips one row's active flag, for a logged-in
        client only. */
    method Toggle(code: string) returns (page: Response)
      requires Valid()
      modifies this`links
      ensures Valid() && Grows(old(links), links)
      ensures links == if admin then ToggleActive(old(links), code) else old(links)
      ensures page == RedirectTo(if admin then "/admin" else "/login")
    {
      if !admin {
        return RedirectTo("/login");
      }
      if code in links {
        links := links[code := links[code].(active := !links[code].active)];
      }
      page := RedirectTo("/admin");
    }

    /** GET `/logout`: `session.clear()`. */
    method Logout() returns (page: Response)
      modifies this`admin
      ensures !admin
      ensures page == RedirectTo("/login")
    {
      admin := false;
      page := RedirectTo("/login");
    }
  }

  /** A fresh service, one submission without a custom code or expiry, a
      visit of the short code the page shows, then its stats page. The
      generated code is either reserved ("logout" or "toggle", refused with
      the reserved message, so there is nothing to visit) or it redirects to
      the URL and the stats show one click. */
  method ShortenVisitAndInspect(url: string, picks: seq<nat>, now: int)
    returns (created: Response, visit: Option<Response>, stats: Option<Response>)
    requires |picks| == CodeLength && ValidPicks(picks)
    ensures created.IndexPage?
    ensures created.shortCode.None? ==>
      && created.message == Some(ReservedMessage)
      && GenerateCode(CodeLength, picks) in {"logout", "toggle"}
      && visit.None? && stats.None?
    ensures created.shortCode.Some? ==>
      && created.shortCode.value == GenerateCode(CodeLength, picks)
      && visit == Some(RedirectTo(url))
      && stats == Some(StatsPage(Link(url, 1, None, true)))
  {
    var s := new Shortener(map[]);
    created := s.Index(url, "", None, picks);
    GeneratedReservedCodes(picks);
    if created.shortCode.Some? {
      var code := created.shortCode.value;
      var page := s.RedirectUrl(code, now);
      visit := Some(page);
      page := s.Stats(code);
      stats := Some(page);
    } else {
      visit, stats := None, None;
    }
  }

  /** The admin gate: a logged-out client is sent to `/login` by `/admin` and
      `/toggle/<code>` and the table stays as it was; after a login with the
      right credentials both succeed; after logout they are refused again. */
  method GateScenario(s: Shortener, pwd: string, code: string) returns (before: Response, after: Response, again: Response)
    requires s.Valid() && !s.admin
    modifies s
    ensures before == RedirectTo("/login") && again == RedirectTo("/login")
    ensures PasswordMatches(pwd) <==> after == RedirectTo("/admin")
    ensures PasswordMatches(pwd) ==> s.links == ToggleActive(old(s.links), code)
    ensures !PasswordMatches(pwd) ==> s.links == old(s.links)
  {
    before := s.Toggle(code);
    var _ := s.Login(AdminUser, pwd);
    after := s.Toggle(code);
    var _ := s.Logout();
    again := s.Admin();
  }
}
