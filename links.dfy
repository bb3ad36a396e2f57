/** The `urls` table as a map from short code to row, and the effect each
    request handler has on it, as pure functions with the properties the
    handlers promise. */
module Links {
  import opened Codes

  datatype Option<+T> = None | Some(value: T)

  /** One row of `urls`. The autoincrement id and `created_at` carry no
      behaviour; an expiry is a timestamp on the same scale as `now`. */
  datatype Link = Link(url: string, clicks: nat, expiresAt: Option<int>, active: bool)

  /** `short_code TEXT UNIQUE`: at most one row per code. */
  type Table = map<string, Link>

  /** `is_expired`: a row without an expiry never expires; one with an
      expiry has expired once `now` is strictly later. */
  predicate IsExpired(link: Link, now: int) {
    match link.expiresAt
    case None => false
    case Some(at) => now > at
  }

  lemma NoExpiryNeverExpires(link: Link, now: int)
    requires link.expiresAt.None?
    ensures !IsExpired(link, now)
  {
  }

  /** The comparison is strict: a row is still live at its expiry instant
      and expired at any later one. */
  lemma ExpiryBoundary(link: Link, at: int, now: int)
    requires link.expiresAt == Some(at)
    ensures !IsExpired(link, at)
    ensures IsExpired(link, now) <==> at < now
  {
  }

  /** Expiry is permanent: once expired, a row stays expired. */
  lemma ExpiryIsPermanent(link: Link, now: int, later: int)
    requires IsExpired(link, now) && now <= later
    ensures IsExpired(link, later)
  {
  }

  /** A row serves redirects when it is active and not expired. */
  predicate Serves(link: Link, now: int) {
    link.active && !IsExpired(link, now)
  }

  /** Every code in the table is non-empty and not a reserved route. */
  ghost predicate WellFormed(t: Table) {
    forall code :: code in t ==> code != [] && !IsReserved(code)
  }

  /** How a table may evolve: rows are never removed, their URL and expiry
      never change, and click counts never decrease. */
  ghost predicate Grows(t: Table, t': Table) {
    && t.Keys <= t'.Keys
    && forall code :: code in t ==>
         && t'[code].url == t[code].url
         && t'[code].expiresAt == t[code].expiresAt
         && t'[code].clicks >= t[code].clicks
  }

  /** The code a submission uses: the stripped custom code when it is not
      empty, otherwise `generate_code()`. */
  function ChooseCode(custom: string, picks: seq<nat>): (code: string)
    requires |picks| == CodeLength && ValidPicks(picks)
    ensures code != []
    ensures Strip(custom) != [] ==> code == Strip(custom)
    ensures Strip(custom) == [] ==> code == GenerateCode(CodeLength, picks)
    ensures Strip(custom) == [] ==> |code| == CodeLength && AllAsciiAlnum(code)
  {
    var stripped := Strip(custom);
    if stripped != [] then stripped else GenerateCode(CodeLength, picks)
  }

  /** A fresh row: the given URL, no clicks, active, and the expiry field as
      submitted (`expiry or None`). */
  function NewLink(url: string, expiry: Option<int>): Link {
    Link(url, 0, expiry, true)
  }

  datatype CreateOutcome = Created(code: string) | ReservedCode | DuplicateCode

  datatype Step<+O> = Step(table: Table, outcome: O)

  /** The POST branch of `index`: reserved codes and codes already present
      are rejected without touching the table; any other code gets exactly
      one new row. */
  function Create(t: Table, url: string, custom: string, expiry: Option<int>, picks: seq<nat>): (r: Step<CreateOutcome>)
    requires |picks| == CodeLength && ValidPicks(picks)
    ensures var code := ChooseCode(custom, picks);
      && (IsReserved(code) ==> r == Step(t, ReservedCode))
      && (!IsReserved(code) && code in t ==> r == Step(t, DuplicateCode))
      && (r.outcome.Created? <==> !IsReserved(code) && code !in t)
      && (r.outcome.Created? ==>
            && r.outcome.code == code
            && r.table.Keys == t.Keys + {code}
            && r.table[code] == Link(url, 0, expiry, true)
            && forall k :: k in t ==> r.table[k] == t[k])
  {
    var code := ChooseCode(custom, picks);
    if IsReserved(code) then Step(t, ReservedCode)
    else if code in t then Step(t, DuplicateCode)
    else Step(t[code := NewLink(url, expiry)], Created(code))
  }

  datatype ResolveOutcome = ReservedRoute(endpoint: string) | Target(url: string) | NotFound

  /** `redirect_url`: a reserved code is handed to its own route; a row that
      is present, active and unexpired has its clicks increased by one and
      yields its URL; anything else changes nothing. */
  function Resolve(t: Table, code: string, now: int): (r: Step<ResolveOutcome>)
    ensures IsReserved(code) ==> r == Step(t, ReservedRoute(code))
    ensures r.outcome.Target? <==> !IsReserved(code) && code in t && Serves(t[code], now)
    ensures r.outcome.Target? ==>
      && r.outcome.url == t[code].url
      && r.table.Keys == t.Keys
      && r.table[code] == t[code].(clicks := t[code].clicks + 1)
      && forall k :: k in t && k != code ==> r.table[k] == t[k]
    ensures !IsReserved(code) && !(code in t && Serves(t[code], now)) ==> r.outcome == NotFound
    ensures !r.outcome.Target? ==> r.table == t
  {
    if IsReserved(code) then Step(t, ReservedRoute(code))
    else if code !in t || !t[code].active || IsExpired(t[code], now) then Step(t, NotFound)
    else
      var row := t[code];
      Step(t[code := row.(clicks := row.clicks + 1)], Target(row.url))
  }

  /** `UPDATE urls SET is_active = NOT is_active WHERE short_code=?`: only
      the named row's flag flips; an absent code matches no row. */
  function ToggleActive(t: Table, code: string): (t': Table)
    ensures t'.Keys == t.Keys
    ensures code in t ==> t'[code].active == !t[code].active
    ensures code in t ==> t'[code] == t[code].(active := t'[code].active)
    ensures forall k :: k in t && k != code ==> t'[k] == t[k]
  {
    if code in t then t[code := t[code].(active := !t[code].active)] else t
  }

  lemma ToggleTwice(t: Table, code: string)
    ensures ToggleActive(ToggleActive(t, code), code) == t
  {
  }

  lemma ToggleAbsent(t: Table, code: string)
    requires code !in t
    ensures ToggleActive(t, code) == t
  {
  }

  // Each operation keeps the table well formed and lets it only grow.

  lemma CreateKeeps(t: Table, url: string, custom: string, expiry: Option<int>, picks: seq<nat>)
    requires |picks| == CodeLength && ValidPicks(picks)
    requires WellFormed(t)
    ensures WellFormed(Create(t, url, custom, expiry, picks).table)
    ensures Grows(t, Create(t, url, custom, expiry, picks).table)
  {
  }

  lemma ResolveKeeps(t: Table, code: string, now: int)
    requires WellFormed(t)
    ensures WellFormed(Resolve(t, code, now).table)
    ensures Grows(t, Resolve(t, code, now).table)
  {
  }

  lemma ToggleKeeps(t: Table, code: string)
    requires WellFormed(t)
    ensures WellFormed(ToggleActive(t, code))
    ensures Grows(t, ToggleActive(t, code))
  {
  }

  /** In a well-formed table no reserved code has a row, so the reserved
      branch of `redirect_url` never hides a stored link. */
  lemma ReservedNeverStored(t: Table, code: string)
    requires WellFormed(t) && IsReserved(code)
    ensures code !in t
  {
  }

  /** Submitting the same non-empty custom code twice: the second attempt is
      refused as a duplicate and leaves the table as the first left it. */
  lemma SecondSubmissionIsDuplicate(t: Table, url1: string, url2: string, custom: string,
                                    e1: Option<int>, e2: Option<int>, p1: seq<nat>, p2: seq<nat>)
    requires |p1| == CodeLength && ValidPicks(p1) && |p2| == CodeLength && ValidPicks(p2)
    requires Strip(custom) != []
    requires Create(t, url1, custom, e1, p1).outcome.Created?
    ensures var t1 := Create(t, url1, custom, e1, p1).table;
      Create(t1, url2, custom, e2, p2) == Step(t1, DuplicateCode)
  {
  }

  /** A created link resolves to the submitted URL while it has not expired,
      after which it has one click. */
  lemma CreateThenResolve(t: Table, url: string, custom: string, expiry: Option<int>, picks: seq<nat>, now: int)
    requires |picks| == CodeLength && ValidPicks(picks)
    requires Create(t, url, custom, expiry, picks).outcome.Created?
    requires expiry.None? || now <= expiry.value
    ensures var c := Create(t, url, custom, expiry, picks);
      var r := Resolve(c.table, c.outcome.code, now);
      && r.outcome == Target(url)
      && r.table[c.outcome.code] == Link(url, 1, expiry, true)
  {
  }

  /** With no custom code, the generator may draw "logout" or "toggle", and
      the submission is then refused as reserved although the user chose
      nothing. */
  lemma GeneratedCodeCanBeRefused(t: Table, url: string, expiry: Option<int>)
    ensures AllAsciiAlnum("logout") && AllAsciiAlnum("toggle")
    ensures Create(t, url, "", expiry, PicksFor("logout")) == Step(t, ReservedCode)
    ensures Create(t, url, "", expiry, PicksFor("toggle")) == Step(t, ReservedCode)
  {
    ReservedCodesCanBeGenerated();
    GenerateCodeReaches("logout");
    GenerateCodeReaches("toggle");
  }

  /** The requests that touch the table: a submission to `/`, a visit of
      `/<code>` at time `now`, and an admin's `/toggle/<code>`. */
  datatype Request =
    | Submit(url: string, custom: string, expiry: Option<int>, picks: seq<nat>)
    | Visit(code: string, now: int)
    | Flip(code: string)

  predicate ValidRequest(req: Request) {
    req.Submit? ==> |req.picks| == CodeLength && ValidPicks(req.picks)
  }

  function Apply(t: Table, req: Request): Table
    requires ValidRequest(req)
  {
    match req
    case Submit(url, custom, expiry, picks) => Create(t, url, custom, expiry, picks).table
    case Visit(code, now) => Resolve(t, code, now).table
    case Flip(code) => ToggleActive(t, code)
  }

  /** The table after serving the requests one after another. */
  function Run(t: Table, reqs: seq<Request>): Table
    requires forall i :: 0 <= i < |reqs| ==> ValidRequest(reqs[i])
    decreases reqs
  {
    if reqs == [] then t else Run(Apply(t, reqs[0]), reqs[1..])
  }

  lemma GrowsTransitive(t0: Table, t1: Table, t2: Table)
    requires Grows(t0, t1) && Grows(t1, t2)
    ensures Grows(t0, t2)
  {
  }

  /** Over any sequence of requests no code becomes empty or reserved, no row
      disappears, no URL or expiry changes, and no click count decreases. */
  lemma {:induction false} RunKeeps(t: Table, reqs: seq<Request>)
    requires WellFormed(t)
    requires forall i :: 0 <= i < |reqs| ==> ValidRequest(reqs[i])
    ensures WellFormed(Run(t, reqs)) && Grows(t, Run(t, reqs))
    decreases reqs
  {
    if reqs != [] {
      var t1 := Apply(t, reqs[0]);
      match reqs[0] {
        case Submit(url, custom, expiry, picks) => CreateKeeps(t, url, custom, expiry, picks);
        case Visit(code, now) => ResolveKeeps(t, code, now);
        case Flip(code) => ToggleKeeps(t, code);
      }
      RunKeeps(t1, reqs[1..]);
      GrowsTransitive(t, t1, Run(t, reqs));
    }
  }
}
