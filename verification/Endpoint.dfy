/** Endpoint canonicalisation (`parse_endpoint`, src/vlm_client.cpp). */
module Endpoints {
  import opened Common

  datatype Problem = NotHttp | BadBytes | Credentials | BadBracket | BadHost | BadPort
  datatype Result<+T> = Ok(value: T) | Err(problem: Problem)
  /** `suffix` is the colon and the port as written, if any. */
  datatype Authority = Authority(host: string, suffix: string, port: nat)
  datatype Endpoint = Endpoint(origin: string, host: string, port: nat, target: string)

  const SCHEME: string := "http://"
  const ROUTE: string := "/chat/completions"
  const VERSION: string := "/v1"

  predicate EndsAuthority(ch: char) {
    ch == '/' || ch == '?' || ch == '#'
  }

  function AuthorityLength(s: string): (n: nat)
    ensures n <= |s| && (n < |s| ==> EndsAuthority(s[n])) && forall i :: 0 <= i < n ==> !EndsAuthority(s[i])
  {
    if s == "" || EndsAuthority(s[0]) then 0 else 1 + AuthorityLength(s[1..])
  }

  predicate Printable(ch: char) {
    ch as int > 0x20 && ch as int != 0x7f
  }

  predicate DigitChar(ch: char) {
    '0' <= ch <= '9'
  }

  predicate HostChar(ch: char) {
    'a' <= ch <= 'z' || 'A' <= ch <= 'Z' || DigitChar(ch) || ch == '.' || ch == '-' || ch == '_'
  }

  predicate Ipv6Char(ch: char) {
    DigitChar(ch) || 'a' <= ch <= 'f' || 'A' <= ch <= 'F' || ch == ':' || ch == '.'
  }

  predicate StartsWith(s: string, prefix: string) {
    |prefix| <= |s| && s[..|prefix|] == prefix
  }

  predicate EndsWith(s: string, suffix: string) {
    |suffix| <= |s| && s[|s| - |suffix|..] == suffix
  }

  function LowerAll(s: string): string {
    seq(|s|, i requires 0 <= i < |s| => Lower(s[i]))
  }

  function Number(digits: string): nat {
    if digits == "" then 0
    else
      var d := digits[|digits| - 1];
      Number(digits[..|digits| - 1]) * 10 + if DigitChar(d) then d as int - '0' as int else 0
  }

  /** The port after a colon. */
  function PortOf(text: string): Result<nat> {
    if text != "" && (forall i :: 0 <= i < |text| ==> DigitChar(text[i])) &&
      1 <= Number(text) <= 65535 then Ok(Number(text))
    else Err(BadPort)
  }

  /** Host and port, before the host is folded to lower case. */
  function ParseAuthority(s: string): Result<Authority> {
    if StartsWith(s, "[") then
      var close := Find(s, ']');
      if close == |s| || close == 1 || !(forall i :: 1 <= i < close ==> Ipv6Char(s[i])) then Err(BadBracket)
      else
        var host, after := s[..close + 1], s[close + 1..];
        if after == "" then Ok(Authority(host, "", 80))
        else if after[0] != ':' then Err(BadBracket)
        else
          match PortOf(after[1..])
          case Err(p) => Err(p)
          case Ok(n) => Ok(Authority(host, ":" + after[1..], n))
    else
      var colon := Find(s, ':');
      var host := s[..colon];
      if host == "" || !(forall i :: 0 <= i < |host| ==> HostChar(host[i])) then Err(BadHost)
      else if colon == |s| then Ok(Authority(host, "", 80))
      else
        match PortOf(s[colon + 1..])
        case Err(p) => Err(p)
        case Ok(n) => Ok(Authority(host, ":" + s[colon + 1..], n))
  }

  /** Trailing slashes dropped: all of them, and nothing else. */
  function Stripped(path: string): (kept: string)
    ensures kept == "" || kept[|kept| - 1] != '/'
    ensures |kept| <= |path| && kept == path[..|kept|] && forall i :: |kept| <= i < |path| ==> path[i] == '/'
  {
    if path != "" && path[|path| - 1] == '/' then Stripped(path[..|path| - 1]) else path
  }

  method StripSlashes(text: string) returns (path: string)
    ensures path == Stripped(text) && (path == "" || path[|path| - 1] != '/')
    ensures |path| <= |text| && path == text[..|path|] && forall i :: |path| <= i < |text| ==> text[i] == '/'
  {
    path := text;
    while path != "" && path[|path| - 1] == '/'
      invariant Stripped(path) == Stripped(text)
      decreases |path|
    {
      path := path[..|path| - 1];
    }
  }

  /** The route of a base path: complete already, or completed. */
  function Routed(path: string): string {
    if EndsWith(path, ROUTE) then path
    else if EndsWith(path, VERSION) then path + ROUTE
    else path + VERSION + ROUTE
  }

  /** The request target of what follows the authority; a fragment is dropped. */
  function Target(tail: string): string {
    var sent := tail[..Find(tail, '#')];
    var question := Find(sent, '?');
    Routed(Stripped(sent[..question])) + sent[question..]
  }

  function Parse(endpoint: string): Result<Endpoint> {
    if !StartsWith(endpoint, SCHEME) then Err(NotHttp)
    else if !(forall i :: 0 <= i < |endpoint| ==> Printable(endpoint[i])) then Err(BadBytes)
    else
      var rest := endpoint[|SCHEME|..];
      var n := AuthorityLength(rest);
      var authority := rest[..n];
      if '@' in authority then Err(Credentials)
      else
        match ParseAuthority(authority)
        case Err(p) => Err(p)
        case Ok(a) => Ok(Endpoint(SCHEME + a.host + a.suffix, LowerAll(a.host), a.port, Target(rest[n..])))
  }

  // ---- the target is settled after one round -----------------------------

  lemma {:induction false} EndsWithAppend(a: string, b: string)
    ensures EndsWith(a + b, b)
  {
    assert (a + b)[|a|..] == b;
  }

  /** A routed path is the base and a rest of the route, nothing between: nothing more
      when the base ends in the route, the route alone when it ends in the version, and
      the whole otherwise. */
  lemma {:induction false} RoutedEnds(path: string)
    ensures EndsWith(Routed(path), ROUTE) && Stripped(Routed(path)) == Routed(path)
    ensures StartsWith(Routed(path), path)
    ensures var added := Routed(path)[|path|..];
            && (added == "" || added == ROUTE || added == VERSION + ROUTE)
            && (added == "" <==> EndsWith(path, ROUTE)) &&
               (added == ROUTE <==> !EndsWith(path, ROUTE) && EndsWith(path, VERSION))
  {
    EndsWithAppend(path, ROUTE);
    EndsWithAppend(path + VERSION, ROUTE);
    assert path + VERSION + ROUTE == path + (VERSION + ROUTE);
    var r := Routed(path);
    assert r[|r| - |ROUTE|..][|ROUTE| - 1] == r[|r| - 1] && ROUTE[|ROUTE| - 1] == 's';
  }

  ghost predicate Lacks(s: string, ch: char) {
    forall i :: 0 <= i < |s| ==> s[i] != ch
  }

  lemma {:induction false} LacksAppend(a: string, b: string, ch: char)
    requires Lacks(a, ch) && Lacks(b, ch)
    ensures Lacks(a + b, ch)
  {
  }

  lemma {:induction false} RoutedLacks(path: string, ch: char)
    requires Lacks(path, ch) && (ch == '#' || ch == '?')
    ensures Lacks(Routed(path), ch)
  {
    assert Lacks(ROUTE, ch) && Lacks(VERSION, ch);
    hide Lacks, EndsWith;
    LacksAppend(path, ROUTE, ch);
    LacksAppend(path, VERSION, ch);
    LacksAppend(path + VERSION, ROUTE, ch);
  }

  lemma {:induction false} FindNone(s: string, ch: char)
    requires Lacks(s, ch)
    ensures Find(s, ch) == |s|
  {
  }

  lemma {:induction false} FindSplit(a: string, b: string, ch: char)
    requires Lacks(a, ch) && (b == "" || b[0] == ch)
    ensures Find(a + b, ch) == |a|
  {
    var n := Find(a + b, ch);
    assert b != "" ==> (a + b)[|a|] == ch;
    assert forall i :: 0 <= i < |a| ==> (a + b)[i] == a[i];
  }

  /** The path and the query of a tail. */
  lemma {:induction false} TargetParts(tail: string) returns (path: string, query: string)
    ensures Target(tail) == Routed(path) + query && Lacks(path, '#') && Lacks(path, '?') && Lacks(query, '#')
    ensures query == "" || query[0] == '?'
    ensures tail != "" && EndsAuthority(tail[0]) ==> path == "" || path[0] == '/'
  {
    var sent := tail[..Find(tail, '#')];
    var question := Find(sent, '?');
    path, query := Stripped(sent[..question]), sent[question..];
  }

  lemma {:induction false} TargetSettles(path: string, query: string)
    requires Lacks(path, '#') && Lacks(path, '?') && Lacks(query, '#') && (query == "" || query[0] == '?')
    ensures Target(Routed(path) + query) == Routed(path) + query
  {
    hide Lacks, Find, Routed, Stripped, EndsWith;
    var r := Routed(path);
    var t := r + query;
    RoutedLacks(path, '#');
    RoutedLacks(path, '?');
    RoutedEnds(path);
    LacksAppend(r, query, '#');
    FindNone(t, '#');
    FindSplit(r, query, '?');
    assert t[..|t|] == t && t[..|r|] == r && t[|r|..] == query;
    RoutedAgain(r);
  }

  lemma {:induction false} RoutedAgain(path: string)
    requires EndsWith(path, ROUTE)
    ensures Routed(path) == path
  {
  }

  // ---- the canonical form parses back ------------------------------------

  lemma {:induction false} RoutedStarts(path: string)
    requires path == "" || path[0] == '/'
    ensures Routed(path) != "" && Routed(path)[0] == '/'
  {
    assert path == "" ==> path + VERSION + ROUTE == VERSION + ROUTE;
  }

  lemma {:induction false} AuthorityAgain(authority: string, target: string)
    requires (forall i :: 0 <= i < |authority| ==> !EndsAuthority(authority[i])) &&
             (target == "" || EndsAuthority(target[0]))
    ensures AuthorityLength(authority + target) == |authority|
  {
    var s := authority + target;
    var n := AuthorityLength(s);
    assert target != "" ==> EndsAuthority(s[|authority|]);
    assert forall i :: 0 <= i < |authority| ==> s[i] == authority[i];
  }

  /** Host and port put together again are the authority. */
  lemma {:induction false} Reassembled(s: string)
    requires ParseAuthority(s).Ok?
    ensures var a := ParseAuthority(s).value; SCHEME + a.host + a.suffix == SCHEME + s
  {
    hide PortOf, Ipv6Char, HostChar, SCHEME;
    var a := ParseAuthority(s).value;
    if StartsWith(s, "[") {
      var close := Find(s, ']');
      var after := s[close + 1..];
      assert after != "" ==> ":" + after[1..] == after;
      assert s == s[..close + 1] + after;
    } else {
      var colon := Find(s, ':');
      assert colon < |s| ==> s == s[..colon] + (":" + s[colon + 1..]);
      assert colon == |s| ==> s == s[..colon] + "";
    }
    assert a.host + a.suffix == s;
    assert SCHEME + a.host + a.suffix == SCHEME + (a.host + a.suffix);
  }

  ghost predicate AllPrintable(s: string) {
    forall i :: 0 <= i < |s| ==> Printable(s[i])
  }

  lemma {:induction false} TargetPrintable(tail: string)
    requires AllPrintable(tail)
    ensures AllPrintable(Target(tail))
  {
    var sent := tail[..Find(tail, '#')];
    var question := Find(sent, '?');
    var path := Stripped(sent[..question]);
    assert AllPrintable(path) && AllPrintable(ROUTE) && AllPrintable(VERSION) && AllPrintable(sent[question..]);
    hide Printable, EndsWith, Stripped;
    assert AllPrintable(Routed(path));
  }

  /** What a parsed endpoint is made of. */
  lemma {:induction false} ParsedParts(endpoint: string) returns (authority: string, tail: string)
    requires Parse(endpoint).Ok?
    ensures AllPrintable(SCHEME + authority) && AllPrintable(tail) &&
            (forall i :: 0 <= i < |authority| ==> !EndsAuthority(authority[i]))
    ensures tail == "" || EndsAuthority(tail[0])
    ensures '@' !in authority && ParseAuthority(authority).Ok?
    ensures var a := ParseAuthority(authority).value;
            Parse(endpoint).value == Endpoint(SCHEME + authority, LowerAll(a.host), a.port, Target(tail))
  {
    hide ParseAuthority, Target, LowerAll;
    var rest := endpoint[|SCHEME|..];
    var n := AuthorityLength(rest);
    authority, tail := rest[..n], rest[n..];
    assert SCHEME + authority == endpoint[..|SCHEME| + n] && tail == endpoint[|SCHEME| + n..];
    Reassembled(authority);
  }

  lemma {:induction false} ParseParts(authority: string, target: string)
    requires AllPrintable(SCHEME + authority) && AllPrintable(target)
    requires (forall i :: 0 <= i < |authority| ==> !EndsAuthority(authority[i]))
    requires target == "" || EndsAuthority(target[0])
    requires '@' !in authority && ParseAuthority(authority).Ok?
    ensures var a := ParseAuthority(authority).value;
            Parse(SCHEME + authority + target) ==
              Ok(Endpoint(SCHEME + authority, LowerAll(a.host), a.port, Target(target)))
  {
    hide ParseAuthority, Target, LowerAll, AuthorityLength;
    var s := SCHEME + authority + target;
    AuthorityAgain(authority, target);
    assert s[..|SCHEME|] == SCHEME && s[|SCHEME|..] == authority + target;
    assert (authority + target)[..|authority|] == authority && (authority + target)[|authority|..] == target;
    assert AllPrintable(s);
    Reassembled(authority);
  }

  /** For every endpoint that parses, origin and target together parse back to the
      very same origin, host, port and target. */
  lemma {:induction false} CanonicalFormIsFixed(endpoint: string)
    requires Parse(endpoint).Ok?
    ensures var e := Parse(endpoint).value; Parse(e.origin + e.target) == Ok(e)
  {
    hide Parse, ParseAuthority, Target, LowerAll, AllPrintable, Lacks;
    var authority, tail := ParsedParts(endpoint);
    TargetPrintable(tail);
    var path, query := TargetParts(tail);
    TargetSettles(path, query);
    TargetStarts(tail);
    ParseParts(authority, Target(tail));
  }

  lemma {:induction false} TargetStarts(tail: string)
    requires tail == "" || EndsAuthority(tail[0])
    ensures Target(tail) != "" && Target(tail)[0] == '/'
  {
    var sent := tail[..Find(tail, '#')];
    var question := Find(sent, '?');
    var path := Stripped(sent[..question]);
    hide Stripped, Routed;
    RoutedStarts(path);
  }

  // ---- comparing endpoints -----------------------------------------------

  predicate Same(left: string, right: string) {
    Parse(left).Ok? && Parse(right).Ok? &&
    Parse(left).value.host == Parse(right).value.host && Parse(left).value.port == Parse(right).value.port &&
    Parse(left).value.target == Parse(right).value.target
  }

  /** An equivalence on endpoints that parse, under which every endpoint equals its
      own canonical form. */
  lemma {:induction false} SameIsAnEquivalence(a: string, b: string, c: string)
    ensures Same(a, a) <==> Parse(a).Ok?
    ensures Same(a, b) ==> Same(b, a)
    ensures Same(a, b) && Same(b, c) ==> Same(a, c)
    ensures Parse(a).Ok? ==> Same(a, Parse(a).value.origin + Parse(a).value.target)
  {
    hide Parse;
    if Parse(a).Ok? {
      CanonicalFormIsFixed(a);
    }
  }

  // ---- what parses, written out --------------------------------------------

  predicate NamedHost(host: string) {
    host != "" && forall i :: 0 <= i < |host| ==> HostChar(host[i])
  }

  predicate BracketHost(host: string) {
    && |host| > 2 && host[0] == '[' && host[|host| - 1] == ']'
    && forall i :: 1 <= i < |host| - 1 ==> Ipv6Char(host[i])
  }

  predicate PortText(text: string) {
    text != "" && (forall i :: 0 <= i < |text| ==> DigitChar(text[i])) && 1 <= Number(text) <= 65535
  }

  /** The authority is a host, alone on the default port or followed by a port. */
  predicate Written(authority: string, host: string, suffix: string, port: nat) {
    && authority == host + suffix && (NamedHost(host) || BracketHost(host))
    && ((suffix == "" && port == 80) ||
        (suffix != "" && suffix[0] == ':' && PortText(suffix[1..]) && port == Number(suffix[1..])))
  }

  lemma {:induction false} PortExactly(text: string)
    ensures PortOf(text) == if PortText(text) then Ok(Number(text)) else Err(BadPort)
  {
  }

  lemma {:induction false} NamedParses(host: string, suffix: string)
    requires NamedHost(host) && (suffix == "" || suffix[0] == ':')
    ensures !StartsWith(host + suffix, "[") && Find(host + suffix, ':') == |host|
  {
    assert (host + suffix)[0] == host[0];
    FindSplit(host, suffix, ':');
  }

  lemma {:induction false} BracketParses(host: string, suffix: string)
    requires BracketHost(host)
    ensures StartsWith(host + suffix, "[") && Find(host + suffix, ']') == |host| - 1
  {
    var body := host[..|host| - 1];
    assert forall i :: 1 <= i < |body| ==> Ipv6Char(body[i]);
    FindSplit(body, "]" + suffix, ']');
    assert body + ("]" + suffix) == host + suffix;
  }

  lemma {:induction false} NamedAccepted(host: string, suffix: string, port: nat)
    requires NamedHost(host) && Written(host + suffix, host, suffix, port)
    ensures ParseAuthority(host + suffix) == Ok(Authority(host, suffix, port))
  {
    hide Find, StartsWith, Number, HostChar, DigitChar;
    var s := host + suffix;
    NamedParses(host, suffix);
    assert s[..|host|] == host;
    if suffix != "" {
      assert s[|host| + 1..] == suffix[1..] && ":" + suffix[1..] == suffix;
      PortExactly(suffix[1..]);
    }
  }

  lemma {:induction false} BracketAccepted(host: string, suffix: string, port: nat)
    requires BracketHost(host) && Written(host + suffix, host, suffix, port)
    ensures ParseAuthority(host + suffix) == Ok(Authority(host, suffix, port))
  {
    hide Find, StartsWith, Number, Ipv6Char, DigitChar;
    var s := host + suffix;
    BracketParses(host, suffix);
    assert s[..|host|] == host && s[|host|..] == suffix;
    if suffix != "" {
      assert ":" + suffix[1..] == suffix;
      PortExactly(suffix[1..]);
    }
  }

  lemma {:induction false} AcceptedIsWritten(s: string)
    requires ParseAuthority(s).Ok?
    ensures var a := ParseAuthority(s).value; Written(s, a.host, a.suffix, a.port)
  {
    hide Number, Ipv6Char, HostChar, DigitChar;
    Reassembled(s);
    var a := ParseAuthority(s).value;
    assert s == a.host + a.suffix by {
      assert SCHEME + a.host + a.suffix == SCHEME + (a.host + a.suffix);
      assert (SCHEME + s)[|SCHEME|..] == s && (SCHEME + (a.host + a.suffix))[|SCHEME|..] == a.host + a.suffix;
    }
    if StartsWith(s, "[") {
      var close := Find(s, ']');
      PortExactly(s[close + 1..][if close + 1 < |s| then 1 else 0..]);
    } else {
      var colon := Find(s, ':');
      PortExactly(s[if colon < |s| then colon + 1 else colon..]);
    }
  }

  /** An authority is accepted exactly when it is written so, and then split so. */
  lemma {:induction false} AuthorityExactly(s: string, host: string, suffix: string, port: nat)
    ensures ParseAuthority(s) == Ok(Authority(host, suffix, port)) <==> Written(s, host, suffix, port)
  {
    hide ParseAuthority, Number, NamedHost, BracketHost, PortText;
    if ParseAuthority(s) == Ok(Authority(host, suffix, port)) {
      AcceptedIsWritten(s);
    }
    if Written(s, host, suffix, port) {
      if NamedHost(host) {
        NamedAccepted(host, suffix, port);
      } else {
        BracketAccepted(host, suffix, port);
      }
    }
  }

  lemma {:induction false} WrittenIsPlain(authority: string, host: string, suffix: string, port: nat)
    requires Written(authority, host, suffix, port)
    ensures AllPrintable(authority) && '@' !in authority
    ensures forall i :: 0 <= i < |authority| ==> !EndsAuthority(authority[i])
  {
    hide Number;
    forall i | 0 <= i < |authority|
      ensures Printable(authority[i]) && authority[i] != '@' && !EndsAuthority(authority[i])
    {
      if i > |host| {
        assert authority[i] == suffix[1..][i - |host| - 1];
      }
    }
  }

  /** What may follow an authority. */
  predicate IsTail(tail: string) {
    (tail == "" || EndsAuthority(tail[0])) && forall i :: 0 <= i < |tail| ==> Printable(tail[i])
  }

  /** Every endpoint written so parses, to these parts. */
  lemma {:induction false} WrittenParses(authority: string, host: string, suffix: string, port: nat, tail: string)
    requires Written(authority, host, suffix, port) && IsTail(tail)
    ensures Parse(SCHEME + authority + tail) == Ok(Endpoint(SCHEME + authority, LowerAll(host), port, Target(tail)))
  {
    hide Parse, ParseAuthority, Written, Target, LowerAll, Printable;
    AuthorityExactly(authority, host, suffix, port);
    WrittenIsPlain(authority, host, suffix, port);
    SchemePrintable();
    assert AllPrintable(SCHEME + authority);
    ParseParts(authority, tail);
  }

  lemma {:induction false} SchemePrintable()
    ensures AllPrintable(SCHEME)
  {
  }

  /** An endpoint parses exactly when it is the scheme, a host with or without a port,
      and a tail of printable characters. */
  lemma {:induction false} ParsesExactly(endpoint: string)
    ensures Parse(endpoint).Ok? <==>
              exists authority, host, suffix, port, tail ::
                Written(authority, host, suffix, port) && IsTail(tail) && endpoint == SCHEME + authority + tail
  {
    if Parse(endpoint).Ok? {
      var authority, tail := SplitParsed(endpoint);
      var a := ParseAuthority(authority).value;
      AuthorityExactly(authority, a.host, a.suffix, a.port);
    }
    hide Parse, Written, IsTail;
    if authority, host, suffix, port, tail :|
      Written(authority, host, suffix, port) && IsTail(tail) && endpoint == SCHEME + authority + tail
    {
      WrittenParses(authority, host, suffix, port, tail);
    }
  }

  lemma {:induction false} SplitParsed(endpoint: string) returns (authority: string, tail: string)
    requires Parse(endpoint).Ok?
    ensures ParseAuthority(authority).Ok? && IsTail(tail) && endpoint == SCHEME + authority + tail
  {
    hide ParseAuthority, Target, LowerAll;
    var rest := endpoint[|SCHEME|..];
    var n := AuthorityLength(rest);
    authority, tail := rest[..n], rest[n..];
    assert endpoint == endpoint[..|SCHEME|] + rest && rest == authority + tail;
    assert SCHEME + (authority + tail) == SCHEME + authority + tail;
    assert tail == endpoint[|SCHEME| + n..];
  }

  // ---- which endpoints are the same ----------------------------------------

  /** Equal but for the case of ASCII letters. */
  predicate CaseOnly(a: string, b: string) {
    && |a| == |b|
    && forall i :: 0 <= i < |a| ==>
         || a[i] == b[i]
         || ('a' <= a[i] <= 'z' && a[i] as int == b[i] as int + 32)
         || ('a' <= b[i] <= 'z' && b[i] as int == a[i] as int + 32)
  }

  lemma {:induction false} FoldingIsCase(a: string, b: string)
    ensures LowerAll(a) == LowerAll(b) <==> CaseOnly(a, b)
  {
    if LowerAll(a) == LowerAll(b) {
      assert |LowerAll(a)| == |a| && |LowerAll(b)| == |b|;
      forall i | 0 <= i < |a| ensures Lower(a[i]) == Lower(b[i]) {
        assert LowerAll(a)[i] == LowerAll(b)[i];
      }
    }
  }

  /** Two endpoints are the same exactly when their hosts differ at most in case, the
      ports are equal numbers, a missing one being 80, and so are the targets. */
  lemma {:induction false} SameExactly(a: string, host: string, suffix: string, port: nat, tail: string,
                                       b: string, host': string, suffix': string, port': nat, tail': string)
    requires Written(a, host, suffix, port) && IsTail(tail) && Written(b, host', suffix', port') && IsTail(tail')
    ensures Same(SCHEME + a + tail, SCHEME + b + tail') <==>
              CaseOnly(host, host') && port == port' && Target(tail) == Target(tail')
  {
    hide Parse, Written, IsTail, Target, LowerAll, CaseOnly;
    WrittenParses(a, host, suffix, port, tail);
    WrittenParses(b, host', suffix', port', tail');
    FoldingIsCase(host, host');
  }

  /** The default port may be written out. */
  lemma {:induction false} DefaultPortIsEighty(host: string, tail: string)
    requires (NamedHost(host) || BracketHost(host)) && IsTail(tail)
    ensures Same("http://" + host + tail, "http://" + host + ":80" + tail)
  {
    hide Same, IsTail, NamedHost, BracketHost, Target;
    assert Number("80") == 80 by {
      assert "80"[..1] == "8" && "8"[..0] == "";
    }
    var suffix := ":80";
    assert suffix[1..] == "80" && host + "" == host;
    assert Written(host, host, "", 80) && Written(host + suffix, host, suffix, 80);
    FoldingIsCase(host, host);
    SameExactly(host, host, "", 80, tail, host + suffix, host, suffix, 80, tail);
    assert "http://" + host + ":80" + tail == SCHEME + (host + suffix) + tail;
  }

  /** A fragment and the slashes behind a path do not count; the query does. */
  lemma {:induction false} TargetExactly(path: string, slashes: string, query: string, fragment: string)
    requires Lacks(path, '#') && Lacks(path, '?') && (path == "" || path[|path| - 1] != '/')
    requires forall i :: 0 <= i < |slashes| ==> slashes[i] == '/'
    requires Lacks(query, '#') && (query == "" || query[0] == '?') && (fragment == "" || fragment[0] == '#')
    ensures Target(path + slashes + query + fragment) == Routed(path) + query
  {
    var sent, tail := path + slashes + query, path + slashes + query + fragment;
    assert Lacks(slashes, '#') && Lacks(slashes, '?');
    hide Lacks, Find, Routed;
    LacksAppend(path, slashes, '#');
    LacksAppend(path, slashes, '?');
    LacksAppend(path + slashes, query, '#');
    FindSplit(sent, fragment, '#');
    FindSplit(path + slashes, query, '?');
    assert tail[..|sent|] == sent && sent[..|path + slashes|] == path + slashes && sent[|path + slashes|..] == query;
    StrippedExactly(path, slashes);
  }

  lemma {:induction false} StrippedExactly(path: string, slashes: string)
    requires path == "" || path[|path| - 1] != '/'
    requires forall i :: 0 <= i < |slashes| ==> slashes[i] == '/'
    ensures Stripped(path + slashes) == path
  {
    var s := path + slashes;
    assert forall i :: |path| <= i < |s| ==> s[i] == '/';
    assert path != "" ==> s[|path| - 1] == path[|path| - 1];
    assert s[..|path|] == path;
  }
}
