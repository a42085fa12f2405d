/** Session tokens, and the two routes from an agent to its session server. */
module Token {
  import opened Wrappers
  import opened Strings
  import opened JsonValues
  import opened Base64Url

  // ---------------------------------------------------------------- string searches

  /** Index of the first character of `s` among `stops`; `|s|` when there is none. */
  function FirstOf(s: string, stops: set<char>): (i: nat)
    ensures i <= |s| && (forall k :: 0 <= k < i ==> s[k] !in stops) && (i < |s| ==> s[i] in stops)
  {
    if |s| == 0 || s[0] in stops then 0 else 1 + FirstOf(s[1..], stops)
  }

  /** Index after the last `c` in `s`; zero when there is none. */
  function AfterLast(s: string, c: char): (i: nat)
    ensures i <= |s| && (forall k :: i <= k < |s| ==> s[k] != c) && (i > 0 ==> s[i-1] == c)
  {
    if |s| == 0 then 0 else if s[|s|-1] == c then |s| else AfterLast(s[..|s|-1], c)
  }

  lemma FirstOfIs(s: string, stops: set<char>, i: nat)
    requires i <= |s| && (forall k :: 0 <= k < i ==> s[k] !in stops) && (i < |s| ==> s[i] in stops)
    ensures FirstOf(s, stops) == i
  {
  }

  lemma AfterLastIs(s: string, c: char, i: nat)
    requires i <= |s| && (forall k :: i <= k < |s| ==> s[k] != c) && (i > 0 ==> s[i-1] == c)
    ensures AfterLast(s, c) == i
  {
  }

  // ---------------------------------------------------------------- tokens

  type Payload = map<string, Json>

  /** JSON printing and parsing, the keyed digest, and reading a number from text: library code. */
  datatype Library = Library(
    dumps: Payload -> seq<Byte>, loads: seq<Byte> -> Option<Json>, mac: (string, string) -> seq<Byte>,
    floatOf: string -> Option<real>)

  /** Parsing undoes printing (RFC 8259) of this payload, and no output is empty. */
  ghost predicate Trusted(lib: Library, payload: Payload) {
    && lib.loads(lib.dumps(payload)) == Some(Obj(payload)) && |lib.dumps(payload)| > 0
    && (forall k: string, m: string :: |lib.mac(k, m)| > 0)
  }

  /** For every payload there is a library to be trusted with it. */
  lemma SomeLibraryIsTrusted(payload: Payload) returns (lib: Library)
    ensures Trusted(lib, payload)
  {
    lib := Library(_ => [0], _ => Some(Obj(payload)), (_, _) => [0], _ => None);
  }

  datatype TokenError =
    | Malformed | BadSignature | Undecodable | NotAnObject | Missing(field: string) | BadExpiry | Expired

  datatype Verified = Claims(payload: Payload) | Refused(error: TokenError)

  function SignToken(payload: Payload, secret: string, lib: Library): string {
    var body := Encode(lib.dumps(payload));
    body + "." + Encode(lib.mac(secret, body))
  }

  const FIELDS := ["sid", "ip", "port", "exp"]

  function FirstMissing(payload: Payload, fields: seq<string>): Option<string> {
    if |fields| == 0 then None
    else if fields[0] !in payload then Some(fields[0]) else FirstMissing(payload, fields[1..])
  }

  /** `float(value)`; `None` where it raises. */
  function AsFloat(value: Json, lib: Library): Option<real> {
    match value
    case Num(number) => Some(number)
    case Bool(flag) => Some(if flag then 1.0 else 0.0)
    case Str(text) => lib.floatOf(text)
    case _ => None
  }

  /** What `verify_token` decides about a payload whose signature was good. */
  function CheckClaims(payload: Payload, now: real, lib: Library): Verified {
    match FirstMissing(payload, FIELDS)
    case Some(field) => Refused(Missing(field))
    case None =>
      if "exp" !in payload || AsFloat(payload["exp"], lib) == None then Refused(BadExpiry)
      else if AsFloat(payload["exp"], lib).value < now then Refused(Expired)
      else Claims(payload)
  }

  /** Claims pass exactly if all four fields are there and the expiry is a number, truth value or
      numeric text not before the time; a missing field is named in the order of the fields. */
  lemma ClaimsPassExactly(payload: Payload, now: real, lib: Library)
    ensures CheckClaims(payload, now, lib) == Claims(payload) <==>
      "sid" in payload && "ip" in payload && "port" in payload && "exp" in payload &&
      match payload["exp"]
      case Num(number) => number >= now
      case Bool(flag) => (if flag then 1.0 else 0.0) >= now
      case Str(text) => lib.floatOf(text).Some? && lib.floatOf(text).value >= now
      case _ => false
    ensures CheckClaims(payload, now, lib).Claims? ==> CheckClaims(payload, now, lib) == Claims(payload)
    ensures "sid" !in payload <==> CheckClaims(payload, now, lib) == Refused(Missing("sid"))
    ensures "sid" in payload && "ip" !in payload <==> CheckClaims(payload, now, lib) == Refused(Missing("ip"))
    ensures "sid" in payload && "ip" in payload && "port" !in payload <==>
      CheckClaims(payload, now, lib) == Refused(Missing("port"))
    ensures "sid" in payload && "ip" in payload && "port" in payload && "exp" !in payload <==>
      CheckClaims(payload, now, lib) == Refused(Missing("exp"))
  {
    var two, three, four := FIELDS[1..], FIELDS[1..][1..], FIELDS[1..][1..][1..];
    assert two[0] == "ip" && three[0] == "port" && four[0] == "exp" && four[1..] == [];
    assert FirstMissing(payload, FIELDS)
        == if "sid" in payload then FirstMissing(payload, two) else Some("sid");
    assert FirstMissing(payload, two) == if "ip" in payload then FirstMissing(payload, three) else Some("ip");
    assert FirstMissing(payload, three) == if "port" in payload then FirstMissing(payload, four) else Some("port");
    assert FirstMissing(payload, four) == if "exp" in payload then None else Some("exp");
  }

  function VerifyToken(token: string, secret: string, lib: Library, now: real): Verified {
    var dot := FirstOf(token, {'.'});
    var body, sig := token[..dot], if dot < |token| then token[dot+1..] else "";
    if |body| == 0 || |sig| == 0 then Refused(Malformed)
    else if sig != Encode(lib.mac(secret, body)) then Refused(BadSignature)
    else
      match Decode(body)
      case None => Refused(Undecodable)
      case Some(raw) =>
        match lib.loads(raw)
        case None => Refused(Undecodable)
        case Some(Obj(payload)) => CheckClaims(payload, now, lib)
        case Some(_) => Refused(NotAnObject)
  }

  /** SIGNED TOKENS VERIFY. For every payload, secret and time, what verification says of a
      signed token is what the claims alone deserve: the signature, the dot and the encoding
      never get in the way, and nothing but the signed claims comes back. */
  lemma SignedTokensVerify(payload: Payload, secret: string, lib: Library, now: real)
    requires Trusted(lib, payload)
    ensures VerifyToken(SignToken(payload, secret, lib), secret, lib, now) == CheckClaims(payload, now, lib)
  {
    hide Encode, Decode, CheckClaims;
    var body := Encode(lib.dumps(payload));
    var sig := Encode(lib.mac(secret, body));
    EncodedShape(lib.dumps(payload));
    EncodedShape(lib.mac(secret, body));
    var token := body + "." + sig;
    assert token[|body|] == '.' && forall k :: 0 <= k < |body| ==> token[k] == body[k];
    FirstOfIs(token, {'.'}, |body|);
    assert token[..|body|] == body && token[|body|+1..] == sig;
    DecodeUndoesEncode(lib.dumps(payload));
  }

  /** A token verifies only if it carries the digest of its own body, and then with unexpired
      claims that have every field. */
  lemma AcceptedTokensAreAuthentic(token: string, secret: string, lib: Library, now: real)
    requires VerifyToken(token, secret, lib, now).Claims?
    ensures exists body ::
      token == body + "." + Encode(lib.mac(secret, body)) && Decode(body).Some? &&
      lib.loads(Decode(body).value) == Some(Obj(VerifyToken(token, secret, lib, now).payload))
    ensures var payload := VerifyToken(token, secret, lib, now).payload;
            "sid" in payload && "ip" in payload && "port" in payload && "exp" in payload &&
            AsFloat(payload["exp"], lib).Some? && AsFloat(payload["exp"], lib).value >= now
  {
    hide Encode, Decode;
    var dot := FirstOf(token, {'.'});
    assert token == token[..dot] + "." + token[dot+1..];
    var payload := VerifyToken(token, secret, lib, now).payload;
    assert FIELDS[1..][0] == "ip" && FIELDS[1..][1..][0] == "port" && FIELDS[1..][1..][1..][0] == "exp";
    assert FirstMissing(payload, FIELDS) == None;
    assert FirstMissing(payload, FIELDS[1..]) == None;
    assert FirstMissing(payload, FIELDS[1..][1..]) == None;
    assert FirstMissing(payload, FIELDS[1..][1..][1..]) == None;
  }

  /** A nonempty body without a dot, a dot and the digest of that body, which decodes to `payload`. */
  ghost predicate Carries(token: string, body: string, secret: string, lib: Library, payload: Payload) {
    && token == body + "." + Encode(lib.mac(secret, body))
    && |body| > 0 && '.' !in body
    && Decode(body).Some? && lib.loads(Decode(body).value) == Some(Obj(payload))
  }

  lemma CarriedClaimsDecide(token: string, body: string, secret: string, lib: Library, now: real, payload: Payload)
    requires |lib.mac(secret, body)| > 0 && Carries(token, body, secret, lib, payload)
    ensures VerifyToken(token, secret, lib, now) == CheckClaims(payload, now, lib)
  {
    hide Encode, Decode, CheckClaims;
    var sig := Encode(lib.mac(secret, body));
    EncodedShape(lib.mac(secret, body));
    assert token[|body|] == '.' && forall k :: 0 <= k < |body| ==> token[k] == body[k];
    FirstOfIs(token, {'.'}, |body|);
    assert token[..|body|] == body && token[|body|+1..] == sig;
  }

  lemma AcceptedCarries(token: string, secret: string, lib: Library, now: real)
    requires VerifyToken(token, secret, lib, now).Claims?
    ensures var payload := VerifyToken(token, secret, lib, now).payload;
            Carries(token, token[..FirstOf(token, {'.'})], secret, lib, payload) &&
            CheckClaims(payload, now, lib) == Claims(payload)
  {
    hide Encode, Decode, CheckClaims;
    var dot := FirstOf(token, {'.'});
    assert dot < |token|;
    assert token == token[..dot] + "." + token[dot+1..];
    ClaimsPassExactly(lib.loads(Decode(token[..dot]).value).value.fields, now, lib);
  }

  /** A token is accepted, and with which claims, exactly if it carries claims that pass. */
  lemma AcceptedExactly(token: string, secret: string, lib: Library, now: real, payload: Payload)
    requires forall k: string, m: string :: |lib.mac(k, m)| > 0
    ensures VerifyToken(token, secret, lib, now) == Claims(payload) <==>
      (exists body :: Carries(token, body, secret, lib, payload)) && CheckClaims(payload, now, lib) == Claims(payload)
  {
    hide VerifyToken, Carries, CheckClaims;
    if VerifyToken(token, secret, lib, now) == Claims(payload) {
      AcceptedCarries(token, secret, lib, now);
    }
    if body :| Carries(token, body, secret, lib, payload) {
      CarriedClaimsDecide(token, body, secret, lib, now, payload);
    }
  }

  // ---------------------------------------------------------------- decimal ports

  predicate IsDigit(c: char) {
    '0' <= c <= '9'
  }

  predicate IsDecimal(s: string) {
    |s| > 0 && forall k :: 0 <= k < |s| ==> IsDigit(s[k])
  }

  function DigitValue(c: char): nat
    requires IsDigit(c)
  {
    c as int - '0' as int
  }

  function Value(s: string): nat
    requires forall k :: 0 <= k < |s| ==> IsDigit(s[k])
  {
    if |s| == 0 then 0 else Value(s[..|s|-1]) * 10 + DigitValue(s[|s|-1])
  }

  function Print(n: nat): (s: string)
    ensures IsDecimal(s)
  {
    if n < 10 then [('0' as int + n) as char] else Print(n / 10) + [('0' as int + n % 10) as char]
  }

  /** Written the way numbers print: no leading zero. */
  predicate IsCanonical(s: string) {
    IsDecimal(s) && (|s| == 1 || s[0] != '0')
  }

  lemma {:induction false} PrintIsCanonical(n: nat)
    ensures IsCanonical(Print(n)) && (n > 0 ==> Print(n)[0] != '0')
  {
    if n >= 10 {
      PrintIsCanonical(n / 10);
    }
  }

  lemma {:induction false} CanonicalValueIsPositive(s: string)
    requires IsCanonical(s) && s[0] != '0'
    ensures Value(s) > 0
  {
    if |s| > 1 {
      CanonicalValueIsPositive(s[..|s|-1]);
    }
  }

  lemma {:induction false} PrintOfValue(s: string)
    requires IsCanonical(s)
    ensures Print(Value(s)) == s
  {
    if |s| > 1 {
      var front := s[..|s|-1];
      CanonicalValueIsPositive(front);
      PrintOfValue(front);
      assert Value(s) / 10 == Value(front) && Value(s) % 10 == DigitValue(s[|s|-1]);
      assert s == front + [s[|s|-1]];
    }
  }

  /** A port survives being read and printed exactly when it has no leading zero. */
  lemma PortSurvives(s: string)
    requires IsDecimal(s)
    ensures Print(Value(s)) == s <==> IsCanonical(s)
  {
    if IsCanonical(s) { PrintOfValue(s); }
    PrintIsCanonical(Value(s));
  }

  // ---------------------------------------------------------------- addresses

  function Http(): string {
    "http://"
  }

  function Sessions(): string {
    "/sessions/"
  }

  /** `urlsplit(url).path` of an http URL. */
  function UrlPath(url: string): string {
    var rest := if Http() <= url then url[|Http()|..] else url;
    var path := if Http() <= url then rest[FirstOf(rest, {'/', '?', '#'})..] else rest;
    path[..FirstOf(path, {'?', '#'})]
  }

  function SessionIdOf(baseUrl: string): string {
    var path := StripRight(UrlPath(baseUrl), '/');
    path[AfterLast(path, '/')..]
  }

  /** Host and port of `ip:port`; `None` where `build_proxy_url` raises. */
  function ParseServerId(serverId: string): Option<(string, nat)> {
    var i := AfterLast(serverId, ':');
    if i <= 1 || !IsDecimal(serverId[i..]) then None
    else Some((serverId[..i-1], Value(serverId[i..])))
  }

  /** The claims of a session: its id, its server, and when they expire. */
  function ClaimsOf(sid: string, host: string, port: nat, exp: real): Payload {
    map["sid" := Str(sid), "ip" := Str(host), "port" := Num(port as real), "exp" := Num(exp)]
  }

  function BuildProxyUrl(baseUrl: string, serverId: string, proxyBase: string, exp: real): Option<(string, Payload)> {
    match ParseServerId(serverId)
    case None => None
    case Some((host, port)) =>
      var sid := SessionIdOf(baseUrl);
      Some((StripRight(proxyBase, '/') + "/s/" + sid + "/v1", ClaimsOf(sid, host, port, exp)))
  }

  /** Where the proxy forwards a chat request for `sid`, from verified claims. */
  function Upstream(payload: Payload, sid: string): Option<string> {
    if "sid" in payload && payload["sid"] == Str(sid) && "ip" in payload && payload["ip"].Str? &&
       "port" in payload && payload["port"].Num? && payload["port"].number >= 0.0 &&
       payload["port"].number == payload["port"].number.Floor as real
    then Some(Http() + payload["ip"].text + ":" + Print(payload["port"].number.Floor)
              + Sessions() + sid + "/v1/chat/completions")
    else None
  }

  /** Where the agent's client posts when it is given the session URL itself. */
  function DirectTarget(baseUrl: string): string {
    StripRight(baseUrl, '/') + "/v1" + "/chat/completions"
  }

  ghost predicate Free(s: string, stops: set<char>) {
    forall k :: 0 <= k < |s| ==> s[k] !in stops
  }

  function SessionUrl(host: string, port: string, sid: string): string {
    Http() + host + ":" + port + Sessions() + sid
  }

  /** The path of an http URL is what stands between its site and any query or fragment. */
  lemma UrlPathIs(site: string, path: string, extra: string)
    requires Free(site, {'/', '?', '#'}) && Free(path, {'?', '#'})
    requires |path| > 0 ==> path[0] == '/'
    requires |extra| > 0 ==> extra[0] in {'?', '#'}
    ensures UrlPath(Http() + (site + (path + extra))) == path
  {
    hide StripRight;
    var back := path + extra;
    var url, rest := Http() + (site + back), site + back;
    assert url[|Http()|..] == rest && Http() <= url;
    assert |rest| > |site| ==> rest[|site|] == back[0];
    FirstOfIs(rest, {'/', '?', '#'}, |site|);
    assert rest[|site|..] == back;
    assert |back| > |path| ==> back[|path|] == extra[0];
    FirstOfIs(back, {'?', '#'}, |path|);
    hide FirstOf;
    assert back[..|path|] == path;
  }

  lemma LastSegment(sid: string)
    requires |sid| > 0 && Free(sid, {'/', '?', '#'})
    ensures AfterLast(Sessions() + sid, '/') == |Sessions()| && (Sessions() + sid)[|Sessions()|..] == sid
    ensures (Sessions() + sid)[|Sessions() + sid| - 1] != '/' && Free(Sessions() + sid, {'?', '#'})
  {
    var path := Sessions() + sid;
    assert forall k :: |Sessions()| <= k < |path| ==> path[k] == sid[k - |Sessions()|];
    assert path[|Sessions()| - 1] == Sessions()[|Sessions()| - 1] == '/';
    AfterLastIs(path, '/', |Sessions()|);
  }

  /** The last segment of a path is read back from a URL, whatever slashes trail it. */
  lemma SegmentIsReadBack(site: string, path: string, slashes: string)
    requires Free(site, {'/', '?', '#'}) && Free(path, {'?', '#'}) && Free(slashes, {'?', '#'})
    requires |path| > 0 && path[0] == '/' && path[|path| - 1] != '/'
    requires forall k :: 0 <= k < |slashes| ==> slashes[k] == '/'
    ensures SessionIdOf(Http() + (site + (path + slashes))) == path[AfterLast(path, '/')..]
  {
    hide StripRight, AfterLast, UrlPath, Http;
    UrlPathIs(site, path + slashes, "");
    assert path + slashes + "" == path + slashes;
    StripRightOf(path, '/', slashes);
  }

  lemma Associate(a: string, b: string, c: string)
    ensures a + b + c == a + (b + c)
  {
  }

  lemma UrlRegroups(host: string, port: string, sid: string, slashes: string)
    ensures SessionUrl(host, port, sid) == Http() + (host + ":" + port) + (Sessions() + sid)
    ensures SessionUrl(host, port, sid) + slashes == Http() + ((host + ":" + port) + ((Sessions() + sid) + slashes))
  {
    hide Http, Sessions;
    var site, path := host + ":" + port, Sessions() + sid;
    Associate(Http(), host, ":");
    Associate(Http(), host + ":", port);
    Associate(Http() + site, Sessions(), sid);
    Associate(Http() + site, path, slashes);
    Associate(Http(), site, path + slashes);
  }

  lemma EndOf(front: string, back: string)
    requires |back| > 0
    ensures (front + back)[|front + back| - 1] == back[|back| - 1]
  {
  }

  lemma SitesAreFree(host: string, port: string)
    requires Free(host, {'/', '?', '#'}) && IsDecimal(port)
    ensures Free(host + ":" + port, {'/', '?', '#'})
  {
    forall k | 0 <= k < |port| ensures port[k] !in {'/', '?', '#'} {
      assert IsDigit(port[k]);
    }
  }

  /** The session id is read back from a session URL, and the trailing slashes are dropped. */
  lemma SessionIdIsReadBack(host: string, port: string, sid: string, slashes: string)
    requires Free(host, {'/', '?', '#'}) && IsDecimal(port) && |sid| > 0 && Free(sid, {'/', '?', '#'})
    requires forall k :: 0 <= k < |slashes| ==> slashes[k] == '/'
    ensures SessionIdOf(SessionUrl(host, port, sid) + slashes) == sid
    ensures StripRight(SessionUrl(host, port, sid) + slashes, '/') == SessionUrl(host, port, sid)
  {
    LastSegment(sid);
    SitesAreFree(host, port);
    assert (Sessions() + sid)[0] == '/' && Free(slashes, {'?', '#'});
    hide UrlPath, StripRight, AfterLast, Http, Sessions, SessionUrl, SessionIdOf, Free, IsDecimal;
    var site, path := host + ":" + port, Sessions() + sid;
    SegmentIsReadBack(site, path, slashes);
    UrlRegroups(host, port, sid, slashes);
    EndOf(Http() + site, path);
    StripRightOf(Http() + site + path, '/', slashes);
  }

  /** The last colon splits a server id, for hosts with colons too. */
  lemma ServerIdIsReadBack(host: string, port: string)
    requires |host| > 0 && IsDecimal(port)
    ensures ParseServerId(host + ":" + port) == Some((host, Value(port)))
  {
    var id := host + ":" + port;
    assert id[|host| + 1..] == port && id[..|host|] == host && id[|host|] == ':';
    AfterLastIs(id, ':', |host| + 1);
  }

  /** A server id is accepted exactly if it is some host, a colon and decimal digits. */
  lemma AcceptedServerIds(id: string)
    ensures ParseServerId(id).Some? <==>
      exists host: string, port: string :: |host| > 0 && IsDecimal(port) && id == host + ":" + port
  {
    if ParseServerId(id).Some? {
      var i := AfterLast(id, ':');
      assert id == id[..i-1] + ":" + id[i..];
      assert |id[..i-1]| > 0 && IsDecimal(id[i..]);
    }
    if host: string, port: string :| |host| > 0 && IsDecimal(port) && id == host + ":" + port {
      ServerIdIsReadBack(host, port);
    }
  }

  lemma BuiltClaimsPass(payload: Payload, now: real, lib: Library)
    requires "sid" in payload && "ip" in payload && "port" in payload && "exp" in payload
    requires payload["exp"].Num? && payload["exp"].number >= now
    ensures CheckClaims(payload, now, lib) == Claims(payload)
  {
    assert FIELDS[1..][0] == "ip" && FIELDS[1..][1..][0] == "port" && FIELDS[1..][1..][1..][0] == "exp";
    assert FirstMissing(payload, FIELDS[1..][1..][1..]) == None;
    assert FirstMissing(payload, FIELDS[1..][1..]) == None;
    assert FirstMissing(payload, FIELDS[1..]) == None;
  }

  lemma CutOut(front: string, a: string, b: string, back: string)
    ensures front + a + back == front + b + back <==> a == b
  {
    var left, right := front + a + back, front + b + back;
    if left == right {
      assert |a| == |b|;
      assert left[|front|..|front| + |a|] == a && right[|front|..|front| + |b|] == b;
    }
  }

  lemma Regroup(front: string, sid: string)
    ensures front + Sessions() + sid + "/v1/chat/completions" == front + (Sessions() + sid + "/v1/chat/completions")
    ensures front + Sessions() + sid + "/v1" + "/chat/completions"
         == front + (Sessions() + sid + "/v1/chat/completions")
  {
    assert "/v1" + "/chat/completions" == "/v1/chat/completions";
    Associate(front + Sessions() + sid, "/v1", "/chat/completions");
    Associate(front, Sessions() + sid, "/v1/chat/completions");
    Associate(front, Sessions(), sid);
  }

  lemma LastColon(host: string, port: string)
    requires IsDecimal(port)
    ensures AfterLast(host + ":" + port, ':') == |host| + 1
  {
    var id := host + ":" + port;
    assert id[|host| + 1..] == port && id[|host|] == ':';
    AfterLastIs(id, ':', |host| + 1);
  }

  lemma SitesDiffer(hostA: string, a: string, hostB: string, b: string)
    requires IsDecimal(a) && IsDecimal(b)
    ensures hostA + ":" + a == hostB + ":" + b <==> hostA == hostB && a == b
  {
    var left, right := hostA + ":" + a, hostB + ":" + b;
    if left == right {
      LastColon(hostA, a);
      LastColon(hostB, b);
      assert left[..|hostA|] == hostA && left[|hostA|+1..] == a;
      assert right[..|hostB|] == hostB && right[|hostB|+1..] == b;
    }
  }

  lemma SiteFirst(host: string, port: string)
    ensures Http() + host + ":" + port == Http() + (host + ":" + port)
  {
    hide Http;
    Associate(Http(), host, ":");
    Associate(Http(), host + ":", port);
  }

  /** Two addresses of one session are equal only if both host and port are. */
  lemma SameTarget(hostA: string, a: string, hostB: string, b: string, sid: string)
    requires IsDecimal(a) && IsDecimal(b)
    ensures (Http() + hostA + ":" + a + Sessions() + sid + "/v1/chat/completions"
             == SessionUrl(hostB, b, sid) + "/v1" + "/chat/completions") <==> hostA == hostB && a == b
  {
    var back := Sessions() + sid + "/v1/chat/completions";
    SitesDiffer(hostA, a, hostB, b);
    CutOut(Http(), hostA + ":" + a, hostB + ":" + b, back);
    SiteFirst(hostA, a);
    SiteFirst(hostB, b);
    hide Http, Sessions, IsDecimal;
    Regroup(Http() + hostA + ":" + a, sid);
    Regroup(Http() + hostB + ":" + b, sid);
  }

  /** ADDRESS AGREEMENT. For any session URL and any well-formed server id, minting the token,
      verifying it in time and forwarding reaches an upstream address. It is the address the
      direct path would use exactly if the hosts are equal and the URL's port is written the way
      the server id's port prints. */
  lemma ProxiedAndDirectAgree(host: string, port: string, serverHost: string, serverPort: string,
                              sid: string, slashes: string,
                              proxyBase: string, secret: string, lib: Library, exp: real, now: real)
    requires Free(host, {'/', '?', '#'}) && IsDecimal(port)
    requires |serverHost| > 0 && IsDecimal(serverPort)
    requires now <= exp && Trusted(lib, ClaimsOf(sid, serverHost, Value(serverPort), exp))
    requires |sid| > 0 && Free(sid, {'/', '?', '#'})
    requires forall k :: 0 <= k < |slashes| ==> slashes[k] == '/'
    ensures var baseUrl := SessionUrl(host, port, sid) + slashes;
            var built := BuildProxyUrl(baseUrl, serverHost + ":" + serverPort, proxyBase, exp);
            built.Some? && built.value.0 == StripRight(proxyBase, '/') + "/s/" + sid + "/v1" &&
            var verified := VerifyToken(SignToken(built.value.1, secret, lib), secret, lib, now);
            verified.Claims? && Upstream(verified.payload, sid).Some? &&
            (Upstream(verified.payload, sid).value == DirectTarget(baseUrl)
             <==> serverHost == host && Print(Value(serverPort)) == port)
  {
    hide SignToken, VerifyToken, StripRight, SessionIdOf, Http, Sessions, Print, Value, SessionUrl,
      ParseServerId, CheckClaims, Free;
    var baseUrl := SessionUrl(host, port, sid) + slashes;
    SessionIdIsReadBack(host, port, sid, slashes);
    ServerIdIsReadBack(serverHost, serverPort);
    var payload := BuildProxyUrl(baseUrl, serverHost + ":" + serverPort, proxyBase, exp).value.1;
    SignedTokensVerify(payload, secret, lib, now);
    BuiltClaimsPass(payload, now, lib);
    SameTarget(serverHost, Print(Value(serverPort)), host, port, sid);
  }

  /** Where the server id names the session URL's own host and port, the two addresses agree
      exactly if the port has no leading zero. */
  lemma OwnServerAgrees(host: string, port: string, sid: string, slashes: string,
                        proxyBase: string, secret: string, lib: Library, exp: real, now: real)
    requires |host| > 0 && Free(host, {'/', '?', '#'}) && IsDecimal(port)
    requires now <= exp && Trusted(lib, ClaimsOf(sid, host, Value(port), exp))
    requires |sid| > 0 && Free(sid, {'/', '?', '#'})
    requires forall k :: 0 <= k < |slashes| ==> slashes[k] == '/'
    ensures var baseUrl := SessionUrl(host, port, sid) + slashes;
            var built := BuildProxyUrl(baseUrl, host + ":" + port, proxyBase, exp);
            built.Some? &&
            var verified := VerifyToken(SignToken(built.value.1, secret, lib), secret, lib, now);
            verified.Claims? && Upstream(verified.payload, sid).Some? &&
            (Upstream(verified.payload, sid).value == DirectTarget(baseUrl) <==> IsCanonical(port))
  {
    hide SignToken, VerifyToken, BuildProxyUrl, Upstream, DirectTarget, Print, Value, SessionUrl,
      IsDecimal, IsCanonical, Free;
    ProxiedAndDirectAgree(host, port, host, port, sid, slashes, proxyBase, secret, lib, exp, now);
    PortSurvives(port);
  }

  /** A port for which they do not agree. */
  lemma LeadingZeroDisagrees(secret: string, lib: Library, exp: real)
    requires Trusted(lib, ClaimsOf("s1", "10.0.0.1", 80, exp))
    ensures var baseUrl := SessionUrl("10.0.0.1", "080", "s1");
            var built := BuildProxyUrl(baseUrl, "10.0.0.1:080", "http://proxy", exp);
            built.Some? &&
            var verified := VerifyToken(SignToken(built.value.1, secret, lib), secret, lib, exp);
            verified.Claims? && Upstream(verified.payload, "s1").Some? &&
            Upstream(verified.payload, "s1").value != DirectTarget(baseUrl)
  {
    assert IsDecimal("080") && !IsCanonical("080");
    assert Value("080") == 80 by {
      assert "080"[..2] == "08" && "08"[..1] == "0" && "0"[..0] == "";
    }
    assert "10.0.0.1" + ":" + "080" == "10.0.0.1:080";
    assert SessionUrl("10.0.0.1", "080", "s1") + "" == SessionUrl("10.0.0.1", "080", "s1");
    assert Free("10.0.0.1", {'/', '?', '#'}) && Free("s1", {'/', '?', '#'});
    hide SignToken, VerifyToken, BuildProxyUrl, Upstream, DirectTarget, SessionUrl, IsDecimal, IsCanonical, Free;
    OwnServerAgrees("10.0.0.1", "080", "s1", "", "http://proxy", secret, lib, exp, exp);
  }

  /** A token reaches the session it was minted for and no other. */
  lemma BoundToItsSession(minted: string, host: string, port: nat, exp: real, sid: string)
    ensures Upstream(ClaimsOf(minted, host, port, exp), sid)
         == if sid == minted
            then Some("http://" + host + ":" + Print(port) + "/sessions/" + sid + "/v1/chat/completions") else None
    ensures forall payload: Payload :: Upstream(payload, sid).Some? ==> "sid" in payload && payload["sid"] == Str(sid)
  {
    assert (port as real).Floor == port;
  }
}
