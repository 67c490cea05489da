/** `executor._send`: following redirects with credentials, whatever the upstream answers. */
module Redirects {
  import opened JsonValues

  type Pairs = seq<(string, string)>

  datatype Url = Url(scheme: string, host: string, port: Option<nat>, userinfo: string, path: string, query: Pairs)

  datatype Origin = Origin(scheme: string, host: string, port: Option<nat>)

  function DefaultPort(scheme: string): Option<nat> {
    if scheme == "http" then Some(80) else if scheme == "https" then Some(443) else None
  }

  /** An absent port, and port 0, read as the scheme's default. */
  function OriginOf(url: Url): Origin {
    Origin(url.scheme, url.host,
           if url.port.Some? && url.port.value != 0 then url.port else DefaultPort(url.scheme))
  }

  // ------------------------------------------------------------ the credential in the query

  /** Whether `name` is, ignoring case, one of the credential's names. */
  predicate Taken(lower: string -> string, auth: Pairs, name: string) {
    exists i :: 0 <= i < |auth| && lower(auth[i].0) == lower(name)
  }

  /** The pairs whose name is not a credential's. */
  function Kept(lower: string -> string, auth: Pairs, query: Pairs): (r: Pairs)
    ensures forall i :: 0 <= i < |r| ==> r[i] in query && !Taken(lower, auth, r[i].0)
  {
    if |query| == 0 then []
    else if Taken(lower, auth, query[0].0) then Kept(lower, auth, query[1..])
    else [query[0]] + Kept(lower, auth, query[1..])
  }

  function WithAuth(lower: string -> string, auth: Pairs, url: Url): Url {
    if |auth| == 0 then url else url.(query := Kept(lower, auth, url.query) + auth)
  }

  /** The values `query` gives `name`, ignoring the case of names. */
  function Values(lower: string -> string, query: Pairs, name: string): seq<string> {
    if |query| == 0 then []
    else (if lower(query[0].0) == lower(name) then [query[0].1] else []) + Values(lower, query[1..], name)
  }

  /** Every credential name is there exactly once and holds the configured value. */
  ghost predicate Credentialed(lower: string -> string, auth: Pairs, query: Pairs) {
    forall i :: 0 <= i < |auth| ==> Values(lower, query, auth[i].0) == [auth[i].1]
  }

  ghost predicate CaseDistinct(lower: string -> string, auth: Pairs) {
    forall i, j :: 0 <= i < j < |auth| ==> lower(auth[i].0) != lower(auth[j].0)
  }

  lemma {:induction false} ValuesAppend(lower: string -> string, xs: Pairs, ys: Pairs, name: string)
    ensures Values(lower, xs + ys, name) == Values(lower, xs, name) + Values(lower, ys, name)
  {
    if |xs| == 0 {
      assert xs + ys == ys;
    } else {
      assert (xs + ys)[1..] == xs[1..] + ys;
      ValuesAppend(lower, xs[1..], ys, name);
      var own := if lower(xs[0].0) == lower(name) then [xs[0].1] else [];
      assert Values(lower, xs + ys, name) == own + (Values(lower, xs[1..], name) + Values(lower, ys, name));
    }
  }

  lemma {:induction false} NoValues(lower: string -> string, query: Pairs, name: string)
    requires forall i :: 0 <= i < |query| ==> lower(query[i].0) != lower(name)
    ensures Values(lower, query, name) == []
  {
    if |query| > 0 {
      NoValues(lower, query[1..], name);
    }
  }

  /** Each entry of `query` before and after the i-th contributes its own values. */
  lemma ValuesAround(lower: string -> string, query: Pairs, i: nat, name: string)
    requires i < |query| && lower(query[i].0) == lower(name)
    ensures Values(lower, query, name) ==
            Values(lower, query[..i], name) + [query[i].1] + Values(lower, query[i + 1..], name)
  {
    assert query == query[..i] + query[i..];
    ValuesAppend(lower, query[..i], query[i..], name);
    assert query[i..][1..] == query[i + 1..];
  }

  lemma ValuesAfterAuth(lower: string -> string, auth: Pairs, url: Url, name: string)
    requires Taken(lower, auth, name)
    ensures Values(lower, WithAuth(lower, auth, url).query, name) == Values(lower, auth, name)
  {
    var kept := Kept(lower, auth, url.query);
    ValuesAppend(lower, kept, auth, name);
    forall i | 0 <= i < |kept|
      ensures lower(kept[i].0) != lower(name)
    {
      assert !Taken(lower, auth, kept[i].0);
    }
    NoValues(lower, kept, name);
  }

  /** Whatever query the arguments or a redirect brought, each credential name ends up there
      exactly once with the configured value, exactly when no two credential names differ
      only in case. */
  lemma CredentialedIff(lower: string -> string, auth: Pairs, url: Url)
    ensures Credentialed(lower, auth, WithAuth(lower, auth, url).query) <==> CaseDistinct(lower, auth)
  {
    hide Values, WithAuth;
    forall i | 0 <= i < |auth|
      ensures Values(lower, WithAuth(lower, auth, url).query, auth[i].0) ==
              Values(lower, auth[..i], auth[i].0) + [auth[i].1] + Values(lower, auth[i + 1..], auth[i].0)
    {
      ValuesAfterAuth(lower, auth, url, auth[i].0);
      ValuesAround(lower, auth, i, auth[i].0);
    }
    if CaseDistinct(lower, auth) {
      forall i | 0 <= i < |auth|
        ensures Values(lower, WithAuth(lower, auth, url).query, auth[i].0) == [auth[i].1]
      {
        NoValues(lower, auth[..i], auth[i].0);
        NoValues(lower, auth[i + 1..], auth[i].0);
      }
    } else {
      var i, j :| 0 <= i < j < |auth| && lower(auth[i].0) == lower(auth[j].0);
      assert auth[i + 1..][j - i - 1] == auth[j];
      ValuesAround(lower, auth[i + 1..], j - i - 1, auth[i].0);
      assert |Values(lower, WithAuth(lower, auth, url).query, auth[i].0)| >= 2;
    }
  }

  lemma {:induction false} KeptTwice(lower: string -> string, auth: Pairs, query: Pairs)
    requires forall i :: 0 <= i < |query| ==> !Taken(lower, auth, query[i].0)
    ensures Kept(lower, auth, query) == query
  {
    if |query| > 0 {
      KeptTwice(lower, auth, query[1..]);
    }
  }

  lemma {:induction false} KeptAppend(lower: string -> string, auth: Pairs, xs: Pairs, ys: Pairs)
    ensures Kept(lower, auth, xs + ys) == Kept(lower, auth, xs) + Kept(lower, auth, ys)
  {
    if |xs| == 0 {
      assert xs + ys == ys;
    } else {
      assert (xs + ys)[1..] == xs[1..] + ys;
      KeptAppend(lower, auth, xs[1..], ys);
    }
  }

  lemma {:induction false} NoneKept(lower: string -> string, auth: Pairs, query: Pairs)
    requires forall i :: 0 <= i < |query| ==> Taken(lower, auth, query[i].0)
    ensures Kept(lower, auth, query) == []
  {
    if |query| > 0 {
      NoneKept(lower, auth, query[1..]);
    }
  }

  /** Setting the credential again changes nothing, and the other pairs stay as they were. */
  lemma OthersUntouched(lower: string -> string, auth: Pairs, url: Url)
    ensures Kept(lower, auth, WithAuth(lower, auth, url).query) == Kept(lower, auth, url.query)
    ensures WithAuth(lower, auth, WithAuth(lower, auth, url)) == WithAuth(lower, auth, url)
  {
    var kept := Kept(lower, auth, url.query);
    KeptAppend(lower, auth, kept, auth);
    KeptTwice(lower, auth, kept);
    forall i | 0 <= i < |auth|
      ensures Taken(lower, auth, auth[i].0)
    {
    }
    NoneKept(lower, auth, auth);
  }

  // ------------------------------------------------------------ the loop

  /** Header values by lower-case name. */
  type Headers = map<string, string>

  const CONTENT_TYPE := "content-type"

  datatype Request = Request(verb: string, url: Url, headers: Headers, body: Option<seq<bv8>>)

  /** `location` is empty when the response has none. */
  datatype Response = Response(status: int, location: string)

  /** What the outside world does: resolve a host safely, answer or fail on the n-th request,
      and join a location to a URL (which can fail). */
  datatype World = World(
    pinned: (nat, string) -> bool,
    answer: nat -> Option<Response>,
    join: (Url, string) -> Option<Url>)

  datatype Outcome =
    | Answered(response: Response)
    | WrongOrigin
    | Blocked
    | Failed
    | RedirectHasCredentials
    | RedirectLeavesOrigin
    | TooManyRedirects

  predicate Redirects(response: Response) {
    300 <= response.status < 400 && response.location != ""
  }

  /** A redirect after which the request becomes a GET without a body. */
  predicate BecomesGet(response: Response, verb: string) {
    response.status == 303 || (response.status in {301, 302} && verb == "POST")
  }

  /** The request is the original one, or one that a redirect turned into a plain GET. */
  ghost predicate SameOrPlainGet(request: Request, prepared: Request) {
    || (request.verb == prepared.verb && request.body == prepared.body && request.headers == prepared.headers)
    || (request.verb == "GET" && request.body.None? && request.headers == prepared.headers - {CONTENT_TYPE})
  }

  /** `next` follows `response` to `request`: to where its location leads on the same origin,
      with the credential set again, and with the body as RFC 9110 section 15.4 lets it go. */
  ghost predicate Follows(lower: string -> string, auth: Pairs, w: World, request: Request, response: Response,
                          next: Request) {
    && Redirects(response)
    && w.join(request.url, response.location).Some?
    && next.url == WithAuth(lower, auth, w.join(request.url, response.location).value)
    && next.url.userinfo == ""
    && OriginOf(next.url) == OriginOf(request.url)
    && (if BecomesGet(response, request.verb)
        then next.verb == "GET" && next.body.None? && next.headers == request.headers - {CONTENT_TYPE}
        else next.verb == request.verb && next.body == request.body && next.headers == request.headers)
  }

  /** Where the answer to the n-th request redirects to, if it does and a URL comes out. */
  function Target(w: World, n: nat, request: Request): Option<Url> {
    if w.answer(n).Some? && Redirects(w.answer(n).value) then w.join(request.url, w.answer(n).value.location) else None
  }

  /** Why a run stops after these requests, told from the outside world alone. */
  ghost predicate StopsWith(base: Url, first: Url, w: World, sent: seq<Request>, limit: nat, outcome: Outcome) {
    if |sent| == 0 then
      if OriginOf(first) != OriginOf(base) then outcome == WrongOrigin
      else outcome == Blocked && !w.pinned(0, first.host)
    else
      var n := |sent| - 1;
      var answer, target := w.answer(n), Target(w, n, sent[n]);
      match outcome
      case WrongOrigin => false
      case Answered(response) => answer == Some(response) && !Redirects(response)
      case Failed => answer.None? || (Redirects(answer.value) && target.None?)
      case RedirectHasCredentials => target.Some? && target.value.userinfo != ""
      case RedirectLeavesOrigin =>
        target.Some? && target.value.userinfo == "" && OriginOf(target.value) != OriginOf(base)
      case TooManyRedirects => Followable(base, target) && n == limit
      case Blocked => Followable(base, target) && n < limit && !w.pinned(n + 1, target.value.host)
  }

  /** A redirect the hub is willing to follow, hops permitting. */
  predicate Followable(base: Url, target: Option<Url>) {
    target.Some? && target.value.userinfo == "" && OriginOf(target.value) == OriginOf(base)
  }

  /** What holds of the n-th request sent: it stays on the base URL's origin, at a host that
      passed the check, with the credential in its query and nothing else changed. */
  ghost predicate Safe(lower: string -> string, auth: Pairs, base: Url, prepared: Request, request: Request) {
    && OriginOf(request.url) == OriginOf(base)
    && (CaseDistinct(lower, auth) ==> Credentialed(lower, auth, request.url.query))
    && SameOrPlainGet(request, prepared)
  }

  /** The requests sent so far: safe, checked, and each following the answer to the one before. */
  ghost predicate Trail(lower: string -> string, auth: Pairs, base: Url, prepared: Request, w: World,
                        sent: seq<Request>) {
    && (forall i :: 0 <= i < |sent| ==> Safe(lower, auth, base, prepared, sent[i]) && w.pinned(i, sent[i].url.host))
    && (forall i :: 0 <= i < |sent| - 1 ==>
          w.answer(i).Some? && Follows(lower, auth, w, sent[i], w.answer(i).value, sent[i + 1]))
  }

  /** `request` can be sent next. */
  ghost predicate Extends(lower: string -> string, auth: Pairs, w: World, sent: seq<Request>, request: Request) {
    var n := |sent| - 1;
    n >= 0 ==> w.answer(n).Some? && Follows(lower, auth, w, sent[n], w.answer(n).value, request)
  }

  lemma Sent(lower: string -> string, auth: Pairs, base: Url, prepared: Request, w: World, sent: seq<Request>,
             request: Request)
    requires Trail(lower, auth, base, prepared, w, sent) && Extends(lower, auth, w, sent, request)
    requires Safe(lower, auth, base, prepared, request) && w.pinned(|sent|, request.url.host)
    ensures Trail(lower, auth, base, prepared, w, sent + [request])
  {
    hide Safe, Follows;
  }

  function FirstRequest(lower: string -> string, auth: Pairs, first: Url, prepared: Request): Request {
    prepared.(url := WithAuth(lower, auth, first.(query := prepared.url.query)))
  }

  lemma FirstSafe(lower: string -> string, auth: Pairs, base: Url, first: Url, prepared: Request)
    requires OriginOf(first) == OriginOf(base)
    ensures Safe(lower, auth, base, prepared, FirstRequest(lower, auth, first, prepared))
  {
    hide WithAuth, Credentialed, CaseDistinct;
    OnlyTheQuery(lower, auth, first.(query := prepared.url.query));
    CredentialedIff(lower, auth, first.(query := prepared.url.query));
  }

  function Redirected(lower: string -> string, auth: Pairs, request: Request, response: Response,
                      target: Url): Request {
    var url := WithAuth(lower, auth, target);
    if BecomesGet(response, request.verb)
    then Request("GET", url, request.headers - {CONTENT_TYPE}, None)
    else request.(url := url)
  }

  lemma RedirectSafe(lower: string -> string, auth: Pairs, base: Url, prepared: Request, w: World,
                     request: Request, response: Response, target: Url)
    requires Safe(lower, auth, base, prepared, request) && Redirects(response)
    requires w.join(request.url, response.location) == Some(target)
    requires target.userinfo == "" && OriginOf(target) == OriginOf(base)
    ensures var next := Redirected(lower, auth, request, response, target);
            Safe(lower, auth, base, prepared, next) && Follows(lower, auth, w, request, response, next)
  {
    hide WithAuth, Credentialed, CaseDistinct;
    OnlyTheQuery(lower, auth, target);
    CredentialedIff(lower, auth, target);
  }

  /** A whole run: what was sent, and why it ended there. */
  ghost predicate IsRun(lower: string -> string, auth: Pairs, base: Url, first: Url, prepared: Request, limit: nat,
                        w: World, outcome: Outcome, sent: seq<Request>)
  {
    && |sent| <= limit + 1
    && Trail(lower, auth, base, prepared, w, sent)
    && (|sent| > 0 ==> OriginOf(first) == OriginOf(base) && sent[0] == FirstRequest(lower, auth, first, prepared))
    && StopsWith(base, first, w, sent, limit, outcome)
  }

  /** Sends `prepared` to `first`, the base URL with the path appended. `sent` is every request
      that left the hub, in order. */
  method Send(lower: string -> string, auth: Pairs, base: Url, first: Url, prepared: Request, limit: nat, w: World)
    returns (outcome: Outcome, sent: seq<Request>)
    ensures IsRun(lower, auth, base, first, prepared, limit, w, outcome, sent)
  {
    hide Credentialed, CaseDistinct, Follows, SameOrPlainGet, DefaultPort, WithAuth, Safe, Trail;
    sent := [];
    EmptyTrail(lower, auth, base, prepared, w);
    if OriginOf(first) != OriginOf(base) {
      return WrongOrigin, sent;
    }
    FirstSafe(lower, auth, base, first, prepared);
    OnlyTheQuery(lower, auth, first.(query := prepared.url.query));
    var url := WithAuth(lower, auth, first.(query := prepared.url.query));
    var verb, body, headers := prepared.verb, prepared.body, prepared.headers;
    var hop := 0;
    while hop < limit + 1
      invariant hop == |sent| <= limit
      invariant Trail(lower, auth, base, prepared, w, sent)
      invariant Safe(lower, auth, base, prepared, Request(verb, url, headers, body))
      invariant Extends(lower, auth, w, sent, Request(verb, url, headers, body))
      invariant hop > 0 ==>
                  var target := Target(w, hop - 1, sent[hop - 1]);
                  Followable(base, target) && target.value.host == url.host
      invariant hop == 0 ==> url.host == first.host
      invariant (sent + [Request(verb, url, headers, body)])[0] == FirstRequest(lower, auth, first, prepared)
      decreases limit - hop
    {
      if !w.pinned(hop, url.host) {
        return Blocked, sent;
      }
      var request := Request(verb, url, headers, body);
      Sent(lower, auth, base, prepared, w, sent, request);
      sent := sent + [request];
      var answer := w.answer(hop);
      if answer.None? {
        return Failed, sent;
      }
      var response := answer.value;
      if !Redirects(response) {
        return Answered(response), sent;
      }
      var joined := w.join(url, response.location);
      if joined.None? {
        return Failed, sent;
      }
      var target := joined.value;
      if target.userinfo != "" {
        return RedirectHasCredentials, sent;
      }
      if OriginOf(target) != OriginOf(base) {
        return RedirectLeavesOrigin, sent;
      }
      if hop == limit {
        return TooManyRedirects, sent;
      }
      RedirectSafe(lower, auth, base, prepared, w, request, response, target);
      if BecomesGet(response, verb) {
        verb, body := "GET", None;
        headers := headers - {CONTENT_TYPE};
      }
      OnlyTheQuery(lower, auth, target);
      url := WithAuth(lower, auth, target);
      hop := hop + 1;
    }
    assert false;
  }

  lemma EmptyTrail(lower: string -> string, auth: Pairs, base: Url, prepared: Request, w: World)
    ensures Trail(lower, auth, base, prepared, w, [])
  {
  }

  lemma OnlyTheQuery(lower: string -> string, auth: Pairs, url: Url)
    ensures WithAuth(lower, auth, url) == url.(query := WithAuth(lower, auth, url).query)
    ensures OriginOf(WithAuth(lower, auth, url)) == OriginOf(url)
  {
  }

  // ------------------------------------------------------------ there is one run

  lemma FollowsOne(lower: string -> string, auth: Pairs, w: World, request: Request, response: Response,
                   next: Request, other: Request)
    requires Follows(lower, auth, w, request, response, next) && Follows(lower, auth, w, request, response, other)
    ensures next == other
  {
  }

  /** Two runs send the same requests as far as both go. */
  lemma {:induction false} RunsAgree(lower: string -> string, auth: Pairs, base: Url, first: Url, prepared: Request,
                                     limit: nat, w: World, o: Outcome, sent: seq<Request>, o': Outcome,
                                     sent': seq<Request>, n: nat)
    requires IsRun(lower, auth, base, first, prepared, limit, w, o, sent)
    requires IsRun(lower, auth, base, first, prepared, limit, w, o', sent')
    requires n < |sent| && n < |sent'|
    ensures sent[n] == sent'[n]
  {
    hide Follows, Safe, StopsWith, FirstRequest;
    if n > 0 {
      RunsAgree(lower, auth, base, first, prepared, limit, w, o, sent, o', sent', n - 1);
      FollowsOne(lower, auth, w, sent[n - 1], w.answer(n - 1).value, sent[n - 1 + 1], sent'[n - 1 + 1]);
    }
  }

  /** A run that has stopped cannot be gone on with. */
  lemma StopIsFinal(lower: string -> string, auth: Pairs, base: Url, first: Url, prepared: Request,
                    limit: nat, w: World, o: Outcome, sent: seq<Request>, o': Outcome, sent': seq<Request>)
    requires IsRun(lower, auth, base, first, prepared, limit, w, o, sent)
    requires IsRun(lower, auth, base, first, prepared, limit, w, o', sent')
    ensures |sent| >= |sent'|
  {
    hide WithAuth, SameOrPlainGet, Credentialed, CaseDistinct, BecomesGet, DefaultPort;
    if |sent| < |sent'| {
      var n := |sent|;
      assert w.pinned(n, sent'[n].url.host);
      if n == 0 {
        OnlyTheQuery(lower, auth, first.(query := prepared.url.query));
      } else {
        RunsAgree(lower, auth, base, first, prepared, limit, w, o, sent, o', sent', n - 1);
        assert Follows(lower, auth, w, sent'[n - 1], w.answer(n - 1).value, sent'[n - 1 + 1]);
        assert Safe(lower, auth, base, prepared, sent'[n - 1]);
        OnlyTheQuery(lower, auth, w.join(sent'[n - 1].url, w.answer(n - 1).value.location).value);
      }
    }
  }

  /** Whatever the upstream does, the requests sent and the outcome are determined by it: two
      runs against the same world are the same run. */
  lemma RunIsUnique(lower: string -> string, auth: Pairs, base: Url, first: Url, prepared: Request,
                    limit: nat, w: World, o: Outcome, sent: seq<Request>, o': Outcome, sent': seq<Request>)
    requires IsRun(lower, auth, base, first, prepared, limit, w, o, sent)
    requires IsRun(lower, auth, base, first, prepared, limit, w, o', sent')
    ensures o == o' && sent == sent'
  {
    hide Trail, FirstRequest, OriginOf;
    StopIsFinal(lower, auth, base, first, prepared, limit, w, o, sent, o', sent');
    StopIsFinal(lower, auth, base, first, prepared, limit, w, o', sent', o, sent);
    forall n | 0 <= n < |sent|
      ensures sent[n] == sent'[n]
    {
      RunsAgree(lower, auth, base, first, prepared, limit, w, o, sent, o', sent', n);
    }
  }

  // ------------------------------------------------------------ what the statuses and ports mean

  /** Section 15.4 of RFC 9110, status by status: after 303, and after 301 or 302 to a POST, a GET
      with no body and no content type; after every other redirect the same method, body and
      headers again. */
  ghost predicate ByStatus(status: int, request: Request, next: Request) {
    if status == 303 || ((status == 301 || status == 302) && request.verb == "POST") then
      && next.verb == "GET" && next.body == None && "content-type" !in next.headers
      && (forall h :: h in next.headers <==> h in request.headers && h != "content-type")
      && (forall h :: h in next.headers && h in request.headers ==> next.headers[h] == request.headers[h])
    else next.verb == request.verb && next.body == request.body && next.headers == request.headers
  }

  lemma EachHopByStatus(lower: string -> string, auth: Pairs, base: Url, first: Url, prepared: Request, limit: nat,
                        w: World, outcome: Outcome, sent: seq<Request>, n: nat)
    requires IsRun(lower, auth, base, first, prepared, limit, w, outcome, sent) && n + 1 < |sent|
    ensures w.answer(n).Some?
    ensures var response := w.answer(n).value;
            && 300 <= response.status < 400 && response.location != ""
            && ByStatus(response.status, sent[n], sent[n + 1])
  {
    hide WithAuth, StopsWith, Safe;
    assert Follows(lower, auth, w, sent[n], w.answer(n).value, sent[n + 1]);
  }

  /** A run ends with an answer only when that answer asks for no redirect. */
  lemma AnsweredIsFinal(lower: string -> string, auth: Pairs, base: Url, first: Url, prepared: Request, limit: nat,
                        w: World, outcome: Outcome, sent: seq<Request>)
    requires IsRun(lower, auth, base, first, prepared, limit, w, outcome, sent) && outcome.Answered?
    ensures |sent| > 0 && w.answer(|sent| - 1) == Some(outcome.response)
    ensures outcome.response.status < 300 || outcome.response.status >= 400 || outcome.response.location == ""
  {
  }

  /** The port a URL means: its own, or 80 for http and 443 for https. */
  function PortMeant(url: Url): int {
    if url.port.Some? && url.port.value > 0 then url.port.value
    else if url.scheme == "http" then 80
    else if url.scheme == "https" then 443
    else -1
  }

  /** Two URLs have one origin exactly when scheme, host and the port meant are the same. */
  lemma SameOriginIff(x: Url, y: Url)
    ensures OriginOf(x) == OriginOf(y) <==> x.scheme == y.scheme && x.host == y.host && PortMeant(x) == PortMeant(y)
  {
  }

  /** A credential can be there twice: two configured names that differ only in case. */
  lemma CaseTwinsAppearTwice(url: Url)
    requires url.query == []
    ensures var lower := (s: string) => if s == "Key" then "key" else s;
            var auth := [("Key", "1"), ("key", "2")];
            Values(lower, WithAuth(lower, auth, url).query, "key") == ["1", "2"]
  {
    var lower := (s: string) => if s == "Key" then "key" else s;
    var auth := [("Key", "1"), ("key", "2")];
    assert Kept(lower, auth, url.query) + auth == auth;
    assert auth[1..] == [("key", "2")] && auth[1..][1..] == [];
    assert Values(lower, auth[1..], "key") == ["2"];
  }
}
