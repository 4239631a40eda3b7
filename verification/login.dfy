/**
 * The decision logic of the login component
 * (projects/ovni-games/src/lib/login/login.component.ts): query-string
 * concatenation, the OAuth button list built from the server's services,
 * the OAuth link, the credentials login round and the form error messages.
 *
 * The browser's `location`, the asset prefix and `encodeURIComponent` are
 * parameters; the Angular form validators, the HTTP icon fetch and the login
 * service behind `login()` are outside the model, and the requests made to
 * the latter are appended to a ghost `requests` log.
 */
module Login {
  import opened Js

  /** `concatQueryParams(base, params)`: a falsy `params` (null or the empty
      string) leaves `base` alone; otherwise `params` follows `base` after a
      `?` if `base` has none yet, and after a `&` if it has. */
  function ConcatQueryParams(base: string, params: Option<string>): (r: string)
    ensures base <= r
    ensures params.None? || params.value == "" ==> r == base
    ensures params.Some? && params.value != "" ==>
              && |r| == |base| + 1 + |params.value|
              && (r[|base|] == '?' || r[|base|] == '&')
              && (r[|base|] == '?' <==> '?' !in base)
              && r[|base| + 1..] == params.value
  {
    if params.Some? && params.value != "" then
      base + [if '?' in base then '&' else '?'] + params.value
    else
      base
  }

  /** Whatever the base, a second parameter string is always joined with
      `&`: the first one left a `?` behind. */
  lemma ConcatTwice(base: string, first: string, second: string)
    requires first != "" && second != ""
    ensures var once := ConcatQueryParams(base, Some(first));
            ConcatQueryParams(once, Some(second)) == once + "&" + second
  {
    var once := ConcatQueryParams(base, Some(first));
    if '?' !in base {
      assert once[|base|] == '?';
    } else {
      var i :| 0 <= i < |base| && base[i] == '?';
      assert once[i] == '?';
    }
  }

  /** `location.origin || location.protocol + '//' + location.host` reads
      these three properties of the browser location. */
  datatype Location = Location(origin: string, protocol: string, host: string)

  function Origin(loc: Location): (r: string)
    ensures loc.origin != "" ==> r == loc.origin
    ensures loc.origin == "" ==> r == loc.protocol + "//" + loc.host
  {
    if loc.origin != "" then loc.origin else loc.protocol + "//" + loc.host
  }

  /** The two requests the component makes of its login service. */
  datatype Request =
    | OAuthServicesRequest
    | LoginRequest(email: string, password: string, remember: bool)

  /** One OAuth provider as the server describes it. Only `login` is
      rewritten by the component. */
  class OAuthService {
    const code: string
    var login: string
    const icon: string

    constructor (code: string, login: string, icon: string)
      ensures this.code == code && this.login == login && this.icon == icon
    {
      this.code := code;
      this.login := login;
      this.icon := icon;
    }
  }

  // ---------------------------------------------------------------------------
  // The OAuth button list

  /** The filter of `ngOnInit`: a listed code (or any code when there is no
      list; an empty list is still a list) that is not excluded. */
  predicate Allowed(code: string, oAuthList: Option<seq<string>>, exclusion: seq<string>): (r: bool)
  {
    (oAuthList.None? || code in oAuthList.value) && code !in exclusion
  }

  /** An empty `oAuthList` allows no service, no list and no exclusion
      allow every service, and an excluded code is never allowed, listed or
      not. */
  lemma AllowedCases(code: string, oAuthList: Option<seq<string>>, exclusion: seq<string>)
    ensures oAuthList == Some([]) ==> !Allowed(code, oAuthList, exclusion)
    ensures oAuthList.None? && exclusion == [] ==> Allowed(code, oAuthList, exclusion)
    ensures code in exclusion ==> !Allowed(code, oAuthList, exclusion)
  {
  }

  /** The services the filter keeps, in server order. */
  function Survivors(services: seq<OAuthService>, oAuthList: Option<seq<string>>,
                     exclusion: seq<string>): (r: seq<OAuthService>)
    ensures forall i :: 0 <= i < |r| ==> r[i] in services && Allowed(r[i].code, oAuthList, exclusion)
    ensures forall i :: 0 <= i < |services| && Allowed(services[i].code, oAuthList, exclusion) ==> services[i] in r
  {
    if services == [] then []
    else
      var last := services[|services| - 1];
      var init := services[..|services| - 1];
      assert forall i :: 0 <= i < |init| ==> init[i] == services[i];
      Survivors(init, oAuthList, exclusion)
        + (if Allowed(last.code, oAuthList, exclusion) then [last] else [])
  }

  /** A server service is kept exactly when its code is allowed. */
  lemma SurvivorsMembership(services: seq<OAuthService>, oAuthList: Option<seq<string>>, exclusion: seq<string>)
    ensures forall s :: s in services ==>
              (s in Survivors(services, oAuthList, exclusion) <==> Allowed(s.code, oAuthList, exclusion))
  {
    var kept := Survivors(services, oAuthList, exclusion);
    forall s | s in services
      ensures s in kept <==> Allowed(s.code, oAuthList, exclusion)
    {
      var i :| 0 <= i < |services| && services[i] == s;
      if s in kept {
        var k :| 0 <= k < |kept| && kept[k] == s;
      }
    }
  }

  /** `a` is `b` with some elements left out and the rest in their order. */
  predicate IsSubsequence<T(==)>(a: seq<T>, b: seq<T>)
    decreases |b|
  {
    if a == [] then true
    else if b == [] then false
    else if a[|a| - 1] == b[|b| - 1] && IsSubsequence(a[..|a| - 1], b[..|b| - 1]) then true
    else IsSubsequence(a, b[..|b| - 1])
  }

  /** Without an `oAuthList` the buttons keep the server order: the kept
      services are a subsequence of the server's list. */
  lemma {:induction false} SurvivorsKeepOrder(services: seq<OAuthService>, oAuthList: Option<seq<string>>,
                                              exclusion: seq<string>)
    ensures IsSubsequence(Survivors(services, oAuthList, exclusion), services)
  {
    if services != [] {
      var init := services[..|services| - 1];
      var last := services[|services| - 1];
      var kept := Survivors(init, oAuthList, exclusion);
      SurvivorsKeepOrder(init, oAuthList, exclusion);
      if Allowed(last.code, oAuthList, exclusion) {
        var r := kept + [last];
        assert r[..|r| - 1] == kept;
      } else {
        assert Survivors(services, oAuthList, exclusion) == kept;
        SubsequenceOfLonger(kept, init, last);
      }
    }
  }

  lemma {:induction false} SubsequenceOfLonger<T>(a: seq<T>, b: seq<T>, x: T)
    requires IsSubsequence(a, b)
    ensures IsSubsequence(a, b + [x])
    decreases |b|
  {
    var bx := b + [x];
    assert bx[..|bx| - 1] == b;
    if a != [] && a[|a| - 1] == x && IsSubsequence(a[..|a| - 1], b) {
    }
  }

  /** The elements of a sequence are pairwise different objects. */
  predicate Distinct<T(==)>(s: seq<T>) {
    forall i, j :: 0 <= i < j < |s| ==> s[i] != s[j]
  }

  lemma {:induction false} SurvivorsDistinct(services: seq<OAuthService>, oAuthList: Option<seq<string>>,
                                             exclusion: seq<string>)
    requires Distinct(services)
    ensures Distinct(Survivors(services, oAuthList, exclusion))
  {
    if services != [] {
      var init := services[..|services| - 1];
      var last := services[|services| - 1];
      assert Distinct(init) by {
        forall i, j | 0 <= i < j < |init|
          ensures init[i] != init[j]
        {
          assert init[i] == services[i] && init[j] == services[j];
        }
      }
      SurvivorsDistinct(init, oAuthList, exclusion);
      assert last !in init by {
        forall i | 0 <= i < |init|
          ensures init[i] != last
        {
          assert init[i] == services[i];
        }
      }
    }
  }

  /** The `list` dictionary: each kept service under its code, the later of
      two services with one code winning. */
  function Table(kept: seq<OAuthService>): map<string, OAuthService> {
    if kept == [] then map[]
    else Table(kept[..|kept| - 1])[kept[|kept| - 1].code := kept[|kept| - 1]]
  }

  /** Each entry of the `list` dictionary is a kept service under its own
      code, and every kept service's code has an entry. */
  lemma {:induction false} TableEntries(kept: seq<OAuthService>)
    ensures forall c :: c in Table(kept) ==> Table(kept)[c] in kept && Table(kept)[c].code == c
    ensures forall i :: 0 <= i < |kept| ==> kept[i].code in Table(kept)
  {
    if kept != [] {
      var init := kept[..|kept| - 1];
      TableEntries(init);
      assert forall i :: 0 <= i < |init| ==> init[i] == kept[i];
    }
  }

  /** Entering one more kept service is one dictionary update. */
  lemma TableSnoc(kept: seq<OAuthService>, j: nat)
    requires j < |kept|
    ensures Table(kept[..j + 1]) == Table(kept[..j])[kept[j].code := kept[j]]
  {
    assert kept[..j + 1][..j] == kept[..j];
  }

  /** `oAuthList.map(code => list[code])`: a code with no entry gives
      `undefined`, here `null`. */
  function Reordered(oAuthList: seq<string>, table: map<string, OAuthService>): (r: seq<OAuthService?>)
    ensures |r| == |oAuthList|
    ensures forall i :: 0 <= i < |r| ==> r[i] == (if oAuthList[i] in table then table[oAuthList[i]] else null)
  {
    seq(|oAuthList|, i requires 0 <= i < |oAuthList| =>
      if oAuthList[i] in table then table[oAuthList[i]] else null)
  }

  /** With an `oAuthList`, the buttons follow it one for one: a listed code
      gives a kept service with that code, and the slot is empty exactly
      when no server service with that code passed the filter. */
  lemma ReorderedFollowsList(services: seq<OAuthService>, oAuthList: seq<string>, exclusion: seq<string>)
    ensures var r := Reordered(oAuthList, Table(Survivors(services, Some(oAuthList), exclusion)));
            && |r| == |oAuthList|
            && (forall i :: 0 <= i < |r| && r[i] != null ==>
                  r[i].code == oAuthList[i] && r[i] in services && oAuthList[i] !in exclusion)
            && (forall i :: 0 <= i < |r| ==>
                  (r[i] == null <==> forall s :: s in services ==> s.code != oAuthList[i] || s.code in exclusion))
  {
    var kept := Survivors(services, Some(oAuthList), exclusion);
    var table := Table(kept);
    TableEntries(kept);
    var r := Reordered(oAuthList, table);
    forall i | 0 <= i < |r|
      ensures r[i] == null <==> forall s :: s in services ==> s.code != oAuthList[i] || s.code in exclusion
    {
      if r[i] == null {
        forall s | s in services && s.code == oAuthList[i]
          ensures s.code in exclusion
        {
        }
      } else {
        assert r[i] in kept;
      }
    }
  }

  // ---------------------------------------------------------------------------
  // The component

  class LoginComponent {
    var allowOAuth: bool
    var oAuthExclusion: seq<string>
    var oAuthList: Option<seq<string>>
    var oAuthScope: Option<seq<string>>
    var loading: bool
    var oAuthLoading: bool
    var remember: bool
    var email: string
    var password: string
    /** The error keys of the `email`, `password` and `oauth` form controls. */
    var emailErrors: set<string>
    var passwordErrors: set<string>
    var oauthErrors: set<string>
    var oauthServices: seq<OAuthService?>
    /** `baseUrl` with `oauthRedirect` and `oauthError` flags appended. */
    const oauthRedirectUrl: string
    const oauthErrorUrl: string
    ghost var requests: seq<Request>
    /** The users emitted on `userLoggedIn`. */
    ghost var loggedIn: seq<Value>

    /** A fresh component for the page whose address, stripped of its
        `oauthError`, `error` and `oauthRedirect` flags, is `baseUrl`. Both
        form controls start empty and required, so both carry `required`. */
    constructor (baseUrl: string)
      ensures allowOAuth && oAuthExclusion == [] && oAuthList.None? && oAuthScope.None?
      ensures loading && oAuthLoading && !remember && email == "" && password == ""
      ensures emailErrors == {"required"} && passwordErrors == {"required"} && oauthErrors == {}
      ensures oauthServices == [] && requests == [] && loggedIn == []
      ensures oauthRedirectUrl == ConcatQueryParams(baseUrl, Some("oauthRedirect"))
      ensures oauthErrorUrl == ConcatQueryParams(baseUrl, Some("oauthError"))
    {
      allowOAuth := true;
      oAuthExclusion := [];
      oAuthList := None;
      oAuthScope := None;
      loading := true;
      oAuthLoading := true;
      remember := false;
      email, password := "", "";
      emailErrors, passwordErrors, oauthErrors := {"required"}, {"required"}, {};
      oauthServices := [];
      oauthRedirectUrl := ConcatQueryParams(baseUrl, Some("oauthRedirect"));
      oauthErrorUrl := ConcatQueryParams(baseUrl, Some("oauthError"));
      requests, loggedIn := [], [];
    }

    /** The query string appended to every OAuth login link. */
    function OAuthParams(encode: string -> string): string {
      "redirect_url=" + encode(oauthRedirectUrl) + "&error_url=" + encode(oauthErrorUrl)
    }

    /** The OAuth query is never empty, so every kept login link gets it,
        after a `?` or, if the link already has a query, a `&`. */
    lemma OAuthParamsAppended(login: string, encode: string -> string)
      ensures ConcatQueryParams(login, Some(OAuthParams(encode)))
           == login + [if '?' in login then '&' else '?'] + OAuthParams(encode)
    {
      assert OAuthParams(encode)[0] == 'r';
    }

    /** The synchronous part of `ngOnInit`, on the page address `href`. */
    method Init(href: string)
      modifies this`oauthErrors, this`loading, this`oAuthLoading, this`requests
      ensures oauthErrors == if Contains(href, "oauthError") then {"oauthError"} else old(oauthErrors)
      ensures !loading
      ensures !allowOAuth ==> !oAuthLoading && requests == old(requests)
      ensures allowOAuth ==> oAuthLoading == old(oAuthLoading) && requests == old(requests) + [OAuthServicesRequest]
    {
      if Contains(href, "oauthError") {
        oauthErrors := {"oauthError"};
      }
      loading := false;
      if !allowOAuth {
        oAuthLoading := false;
        return;
      }
      requests := requests + [OAuthServicesRequest];
    }

    /** The answer to the OAuth services request: keep the allowed services,
        append the redirect and error addresses to each kept service's
        login link, and, given an `oAuthList`, order the buttons by it. */
    method OnOAuthServices(services: seq<OAuthService>, encode: string -> string)
      requires Distinct(services)
      modifies this`oauthServices, services
      ensures var kept := Survivors(services, oAuthList, oAuthExclusion);
              oauthServices == if oAuthList.None? then kept else Reordered(oAuthList.value, Table(kept))
      ensures forall i :: 0 <= i < |services| ==>
                services[i].login == if Allowed(services[i].code, oAuthList, oAuthExclusion)
                                     then ConcatQueryParams(old(services[i].login), Some(OAuthParams(encode)))
                                     else old(services[i].login)
    {
      var kept := Survivors(services, oAuthList, oAuthExclusion);
      assert Distinct(kept) by {
        SurvivorsDistinct(services, oAuthList, oAuthExclusion);
      }
      var query := OAuthParams(encode);
      var list := RewriteLogins(kept, query);
      oauthServices := kept;
      if oAuthList.Some? {
        oauthServices := Reordered(oAuthList.value, list);
      }
      forall i | 0 <= i < |services|
        ensures services[i].login == if Allowed(services[i].code, oAuthList, oAuthExclusion)
                                     then ConcatQueryParams(old(services[i].login), Some(query))
                                     else old(services[i].login)
      {
        if services[i] in kept {
          var k :| 0 <= k < |kept| && kept[k] == services[i];
        }
      }
    }

    /** The `map` callback of `ngOnInit`, applied to each kept service in
        turn: the login link gets `query` appended, and with an `oAuthList`
        the service is entered in the `list` dictionary under its code. */
    method RewriteLogins(kept: seq<OAuthService>, query: string) returns (list: map<string, OAuthService>)
      requires Distinct(kept)
      modifies kept
      ensures oAuthList.Some? ==> list == Table(kept)
      ensures forall k :: 0 <= k < |kept| ==> kept[k].login == ConcatQueryParams(old(kept[k].login), Some(query))
    {
      list := map[];
      var j := 0;
      while j < |kept|
        invariant 0 <= j <= |kept|
        invariant oAuthList.Some? ==> list == Table(kept[..j])
        invariant forall k :: 0 <= k < j ==> kept[k].login == ConcatQueryParams(old(kept[k].login), Some(query))
        invariant forall k :: j <= k < |kept| ==> kept[k].login == old(kept[k].login)
      {
        var service := kept[j];
        service.login := ConcatQueryParams(service.login, Some(query));
        if oAuthList.Some? {
          TableSnoc(kept, j);
          list := list[service.code := service];
        }
        j := j + 1;
      }
      assert kept[..j] == kept;
    }

    /** `oAuthScope` is set and not empty. */
    predicate HasScope()
      reads this
    {
      oAuthScope.Some? && oAuthScope.value != []
    }

    /** `loginHref(href)`: a site-relative link is moved under the asset
        prefix, when there is one, and told the page origin; a non-empty
        OAuth scope is then appended, comma-joined. */
    function LoginHref(href: string, prefix: string, loc: Location, encode: string -> string): (r: string)
      reads this
      ensures var rooted := href != [] && href[0] == '/' && prefix != "";
              && (rooted ==> prefix + href <= r)
              && (!rooted ==> href <= r)
              && (!rooted && !HasScope() ==> r == href)
              && (!rooted && HasScope() ==>
                    r == href + [if '?' in href then '&' else '?'] + "scope=" + encode(Join(oAuthScope.value, ",")))
    {
      var moved := if href != [] && href[0] == '/' && prefix != ""
                   then ConcatQueryParams(prefix + href, Some("origin=" + encode(Origin(loc))))
                   else href;
      if HasScope()
      then ConcatQueryParams(moved, Some("scope=" + encode(Join(oAuthScope.value, ","))))
      else moved
    }

    /** The two parameters `loginHref` may add land at the end, each after
        its own separator, origin first. */
    lemma LoginHrefParameters(href: string, prefix: string, loc: Location, encode: string -> string)
      requires href != [] && href[0] == '/' && prefix != ""
      ensures var origin := "origin=" + encode(Origin(loc));
              var sep := if '?' in prefix + href then '&' else '?';
              && (!HasScope() ==> LoginHref(href, prefix, loc, encode) == prefix + href + [sep] + origin)
              && (HasScope() ==> LoginHref(href, prefix, loc, encode)
                                 == prefix + href + [sep] + origin + "&scope=" + encode(Join(oAuthScope.value, ",")))
    {
      var origin := "origin=" + encode(Origin(loc));
      if HasScope() {
        ConcatTwice(prefix + href, origin, "scope=" + encode(Join(oAuthScope.value, ",")));
      }
    }

    /** `login()`: the form is sent to the login service and the component
        shows its loading state until the answer. */
    method Login()
      modifies this`loading, this`requests
      ensures loading
      ensures requests == old(requests) + [LoginRequest(email, password, remember)]
    {
      loading := true;
      requests := requests + [LoginRequest(email, password, remember)];
    }

    /** `auth(user)` */
    method Auth(user: Value)
      modifies this`loggedIn
      ensures loggedIn == old(loggedIn) + [user]
    {
      loggedIn := loggedIn + [user];
    }

    /** The answer to `login()`, a user or `null`: a user is emitted as
        logged in; `null` replaces the email errors with `badLogin`. The
        component stops loading either way. */
    method OnLoginResolved(user: Value)
      requires user.Null? || user.Obj?
      modifies this`loading, this`loggedIn, this`emailErrors
      ensures !loading
      ensures user.Obj? ==> loggedIn == old(loggedIn) + [user] && emailErrors == old(emailErrors)
      ensures user.Null? ==> loggedIn == old(loggedIn) && emailErrors == {"badLogin"}
      ensures user.Null? ==> GetEmailErrorMessage() == "Wrong e-mail address or password"
    {
      loading := false;
      if Truthy(user) {
        Auth(user);
        return;
      }
      emailErrors := {"badLogin"};
    }

    /** The message under the email field: the first of `required`, `email`
        and `badLogin` the control has, or none. */
    function GetEmailErrorMessage(): (r: string)
      reads this
      ensures "required" in emailErrors ==> r == "You must enter a value"
      ensures "required" !in emailErrors && "email" in emailErrors ==> r == "Not a valid email"
      ensures "required" !in emailErrors && "email" !in emailErrors && "badLogin" in emailErrors
              ==> r == "Wrong e-mail address or password"
      ensures r == "" <==> "required" !in emailErrors && "email" !in emailErrors && "badLogin" !in emailErrors
    {
      if "required" in emailErrors then "You must enter a value"
      else if "email" in emailErrors then "Not a valid email"
      else if "badLogin" in emailErrors then "Wrong e-mail address or password"
      else ""
    }

    /** The three messages are different, so the message shown names the
        error that won: `badLogin` is reported only when the address is
        present and well formed. */
    lemma EmailMessageNamesError()
      ensures GetEmailErrorMessage() == "You must enter a value" <==> "required" in emailErrors
      ensures GetEmailErrorMessage() == "Not a valid email"
              <==> "required" !in emailErrors && "email" in emailErrors
      ensures GetEmailErrorMessage() == "Wrong e-mail address or password"
              <==> "required" !in emailErrors && "email" !in emailErrors && "badLogin" in emailErrors
    {
      assert "You must enter a value" != "Not a valid email";
      assert "You must enter a value" != "Wrong e-mail address or password";
      assert "Not a valid email" != "Wrong e-mail address or password";
    }

    /** The message under the password field. */
    function GetPasswordErrorMessage(): (r: string)
      reads this
      ensures r != "" <==> "required" in passwordErrors
      ensures r != "" ==> r == "You must enter a value"
    {
      if "required" in passwordErrors then "You must enter a value" else ""
    }
  }
}
