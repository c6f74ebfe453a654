/** The key that pins a client: a cookie of its own choosing, or address and user agent. */
module Cookies {
  import opened Entities
  import opened Lists

  predicate Space(c: char) {
    c as int == 32 || 9 <= c as int <= 13
  }

  function TrimLeft(s: string): string {
    if s != [] && Space(s[0]) then TrimLeft(s[1..]) else s
  }

  function TrimRight(s: string): string {
    if s != [] && Space(s[|s| - 1]) then TrimRight(s[..|s| - 1]) else s
  }

  function Trim(s: string): string {
    TrimRight(TrimLeft(s))
  }

  function Split(s: string, separator: char): (parts: seq<string>)
    ensures parts != []
  {
    if separator !in s then [s]
    else
      var i := FirstIndex(s, separator);
      [s[..i]] + Split(s[i + 1..], separator)
  }

  function Joined(parts: seq<string>, separator: char): string {
    if parts == [] then ""
    else if |parts| == 1 then parts[0]
    else parts[0] + [separator] + Joined(parts[1..], separator)
  }

  /** The parts hold no separator and joined by it give the string back. */
  lemma {:induction false} SplitJoined(s: string, separator: char)
    ensures Joined(Split(s, separator), separator) == s
    ensures forall i :: 0 <= i < |Split(s, separator)| ==> separator !in Split(s, separator)[i]
  {
    if separator in s {
      var i := FirstIndex(s, separator);
      SplitJoined(s[i + 1..], separator);
      assert s == s[..i] + [separator] + s[i + 1..];
    }
  }

  /** The value in one ';'-part of the header, when the part carries exactly that name. */
  function ValueIn(part: string, name: string): Option<string> {
    var t := Trim(part);
    if '=' in t && t[..FirstIndex(t, '=')] == name then Some(t[FirstIndex(t, '=') + 1..]) else None
  }

  function FirstValue(parts: seq<string>, name: string): string {
    if parts == [] then ""
    else match ValueIn(parts[0], name)
      case Some(v) => v
      case None => FirstValue(parts[1..], name)
  }

  method ParseCookie(header: string, name: string) returns (value: string)
    ensures value == FirstValue(Split(header, ';'), name)
  {
    var parts := Split(header, ';');
    for i := 0 to |parts|
      invariant FirstValue(parts[i..], name) == FirstValue(parts, name)
    {
      var part := Trim(parts[i]);
      if '=' in part {
        var eq := FirstIndex(part, '=');
        if part[..eq] == name {
          return part[eq + 1..];
        }
      }
      assert parts[i..][1..] == parts[i + 1..];
    }
    value := "";
  }

  // ----- What a Cookie header means: RFC 6265, section 4.2.1 -----

  datatype Pair = Pair(name: string, value: string)

  /** Nothing in the pair can be mistaken for a separator or trimmed away. */
  predicate Clean(p: Pair) {
    && ';' !in p.name && '=' !in p.name && ';' !in p.value
    && (p.name != [] ==> !Space(p.name[0]))
    && (p.value != [] ==> !Space(p.value[|p.value| - 1]))
  }

  function Shown(p: Pair): string {
    p.name + "=" + p.value
  }

  function Render(pairs: seq<Pair>): string {
    if pairs == [] then ""
    else if |pairs| == 1 then Shown(pairs[0])
    else Shown(pairs[0]) + "; " + Render(pairs[1..])
  }

  function Lookup(pairs: seq<Pair>, name: string): string {
    if pairs == [] then ""
    else if pairs[0].name == name then pairs[0].value
    else Lookup(pairs[1..], name)
  }

  /** The value of the first pair of that name. */
  lemma {:induction false} LookupFirst(pairs: seq<Pair>, name: string, i: nat)
    requires i <= |pairs| && forall j :: 0 <= j < i ==> pairs[j].name != name
    ensures i == |pairs| ==> Lookup(pairs, name) == ""
    ensures i < |pairs| && pairs[i].name == name ==> Lookup(pairs, name) == pairs[i].value
  {
    if i > 0 { LookupFirst(pairs[1..], name, i - 1); }
  }

  lemma TrimSpares(body: string, lead: string)
    requires body != [] && !Space(body[0]) && !Space(body[|body| - 1])
    requires lead == "" || lead == " "
    ensures Trim(lead + body) == body
  {
    assert TrimLeft(body) == body;
    if lead == " " {
      assert (lead + body)[1..] == body;
    } else {
      assert lead + body == body;
    }
  }

  lemma CutAt(front: string, c: char, back: string)
    requires c !in front
    ensures c in front + [c] + back && FirstIndex(front + [c] + back, c) == |front|
    ensures (front + [c] + back)[..|front|] == front
    ensures (front + [c] + back)[|front| + 1..] == back
  {
    var s := front + [c] + back;
    assert s[|front|] == c;
    assert s[..|front|] == front;
    FirstIndexUnique(s, c, |front|);
  }

  lemma SplitFirst(part: string, rest: string)
    requires ';' !in part
    ensures Split(part + ";" + rest, ';') == [part] + Split(rest, ';')
  {
    CutAt(part, ';', rest);
  }

  lemma CleanPart(p: Pair, lead: string, name: string)
    requires Clean(p) && (lead == "" || lead == " ")
    ensures ValueIn(lead + Shown(p), name) == if p.name == name then Some(p.value) else None
  {
    var body := Shown(p);
    assert body[0] == if p.name == [] then '=' else p.name[0];
    assert body[|body| - 1] == if p.value == [] then '=' else p.value[|p.value| - 1];
    TrimSpares(body, lead);
    CutAt(p.name, '=', p.value);
  }

  lemma Regroup(lead: string, shown: string, rest: string)
    ensures lead + (shown + "; " + rest) == lead + shown + ";" + (" " + rest)
  {
    var a, b, tail := lead + (shown + "; " + rest), lead + shown + ";" + (" " + rest), "; " + rest;
    assert tail == ";" + (" " + rest);
    assert shown + "; " + rest == shown + tail;
    assert lead + (shown + tail) == lead + shown + tail;
    assert lead + shown + tail == lead + shown + ";" + (" " + rest);
  }

  lemma RenderFirst(pairs: seq<Pair>, lead: string)
    requires |pairs| > 1
    ensures lead + Render(pairs) == lead + Shown(pairs[0]) + ";" + (" " + Render(pairs[1..]))
  {
    Regroup(lead, Shown(pairs[0]), Render(pairs[1..]));
  }

  lemma FirstValueCons(part: string, rest: seq<string>, name: string)
    ensures FirstValue([part] + rest, name) ==
            match ValueIn(part, name) case Some(v) => v case None => FirstValue(rest, name)
  {
    assert ([part] + rest)[1..] == rest;
  }

  lemma {:induction false} RoundTripAfter(pairs: seq<Pair>, lead: string, name: string)
    requires pairs != [] && forall i :: 0 <= i < |pairs| ==> Clean(pairs[i])
    requires lead == "" || lead == " "
    ensures FirstValue(Split(lead + Render(pairs), ';'), name) == Lookup(pairs, name)
  {
    var part := lead + Shown(pairs[0]);
    CleanPart(pairs[0], lead, name);
    if |pairs| == 1 {
      assert ';' !in part && [part] + [] == [part];
      FirstValueCons(part, [], name);
      assert Lookup(pairs[1..], name) == "";
    } else {
      var rest := " " + Render(pairs[1..]);
      RenderFirst(pairs, lead);
      SplitFirst(part, rest);
      FirstValueCons(part, Split(rest, ';'), name);
      RoundTripAfter(pairs[1..], " ", name);
    }
  }

  /** Parsing a rendered header returns the value of the first pair of exactly that
      name, or the empty string; values may hold '=' and names may contain one another. */
  lemma CookieRoundTrip(pairs: seq<Pair>, name: string)
    requires forall i :: 0 <= i < |pairs| ==> Clean(pairs[i])
    ensures FirstValue(Split(Render(pairs), ';'), name) == Lookup(pairs, name)
  {
    if pairs != [] {
      RoundTripAfter(pairs, "", name);
      assert "" + Render(pairs) == Render(pairs);
    } else {
      assert Split("", ';') == [""];
      assert FirstValue([""][1..], name) == "";
    }
  }

  // ----- The selection key -----

  function EffectiveAddress(request: Request): string {
    var forwarded := match request.forwardedFor
      case Some(x) => Trim(if ',' in x then x[..FirstIndex(x, ',')] else x)
      case None => "";
    if forwarded == "" then request.clientIP else forwarded
  }

  function UserAgent(request: Request): string {
    match request.userAgent case Some(a) => a case None => ""
  }

  function CookieValue(cookieName: string, request: Request): string {
    if cookieName != "" && request.cookie.Some? then
      FirstValue(Split(request.cookie.value, ';'), cookieName)
    else ""
  }

  function ExtractKey(cookieName: string, request: Request): string {
    var value := CookieValue(cookieName, request);
    if value != "" then "c:" + value
    else "u:" + EffectiveAddress(request) + "|" + UserAgent(request)
  }

  /** The cookie wins if it is sent; else the effective address and the user agent. */
  method FindKey(cookieName: string, request: Request) returns (key: string)
    ensures key == ExtractKey(cookieName, request)
  {
    if cookieName != "" && request.cookie.Some? {
      var value := ParseCookie(request.cookie.value, cookieName);
      if value != "" {
        return "c:" + value;
      }
    }
    var ip := "";
    if request.forwardedFor.Some? {
      var forwarded := request.forwardedFor.value;
      ip := Trim(if ',' in forwarded then forwarded[..FirstIndex(forwarded, ',')] else forwarded);
    }
    if ip == "" {
      ip := request.clientIP;
    }
    var userAgent := "";
    if request.userAgent.Some? {
      userAgent := request.userAgent.value;
    }
    key := "u:" + ip + "|" + userAgent;
  }

  /** A client that sends the affinity cookie is known by its value alone, from any
      address and with any user agent, and is never confused with one that does not. */
  lemma CookieIdentity(cookieName: string, pairs: seq<Pair>, first: Request, second: Request)
    requires forall i :: 0 <= i < |pairs| ==> Clean(pairs[i])
    requires cookieName != "" && first.cookie == Some(Render(pairs)) && Lookup(pairs, cookieName) != ""
    ensures ExtractKey(cookieName, first) == ExtractKey(cookieName, second) <==>
            CookieValue(cookieName, second) == Lookup(pairs, cookieName)
  {
    CookieRoundTrip(pairs, cookieName);
    var a, b := ExtractKey(cookieName, first), ExtractKey(cookieName, second);
    assert a[0] == 'c' && a[2..] == Lookup(pairs, cookieName);
    if CookieValue(cookieName, second) == "" {
      assert b[0] == 'u';
    } else {
      assert b[2..] == CookieValue(cookieName, second);
    }
  }

  /** The address reads further into the agent than the other client's address does. */
  predicate ReadsOn(x: string, u: string, y: string, v: string) {
    x + "|" <= y && u == y[|x| + 1..] + "|" + v
  }

  lemma JoinedReadsOn(x: string, u: string, y: string, v: string)
    requires |x| < |y|
    ensures x + "|" + u == y + "|" + v <==> ReadsOn(x, u, y, v)
  {
    var a, b := x + "|" + u, y + "|" + v;
    if a == b {
      assert a[..|x| + 1] == x + "|" && b[..|y|] == y;
      assert y[..|x| + 1] == b[..|y|][..|x| + 1] == b[..|x| + 1];
      assert u == a[|x| + 1..] == b[|x| + 1..] == y[|x| + 1..] + "|" + v;
    }
    if ReadsOn(x, u, y, v) {
      var z := y[|x| + 1..];
      assert y == x + "|" + z;
      assert x + "|" + (z + "|" + v) == x + "|" + z + "|" + v;
    }
  }

  lemma JoinedAlike(x: string, u: string, y: string, v: string)
    requires |x| == |y|
    ensures x + "|" + u == y + "|" + v <==> x == y && u == v
  {
    var a, b := x + "|" + u, y + "|" + v;
    assert a[..|x|] == x && b[..|y|] == y && a[|x| + 1..] == u && b[|y| + 1..] == v;
  }

  lemma Prefixed(a: string, b: string)
    ensures "u:" + a == "u:" + b <==> a == b
  {
    assert ("u:" + a)[2..] == a && ("u:" + b)[2..] == b;
  }

  lemma BarWithin(x: string, y: string)
    requires x + "|" <= y
    ensures '|' in y
  {
    assert y[|x|] == (x + "|")[|x|] == '|';
  }

  /** Without the cookie, exactly: clients share a key when address and agent agree, or when one
      address goes on past a bar in just the way the other client's agent begins; which never
      happens while addresses hold no bar. */
  lemma FallbackIdentity(cookieName: string, first: Request, second: Request)
    requires CookieValue(cookieName, first) == "" == CookieValue(cookieName, second)
    ensures var x, y, u, v := EffectiveAddress(first), EffectiveAddress(second), UserAgent(first), UserAgent(second);
      && (ExtractKey(cookieName, first) == ExtractKey(cookieName, second) <==>
           (x == y && u == v) || ReadsOn(x, u, y, v) || ReadsOn(y, v, x, u))
      && ('|' !in x && '|' !in y ==>
           (ExtractKey(cookieName, first) == ExtractKey(cookieName, second) <==> x == y && u == v))
  {
    var x, y, u, v := EffectiveAddress(first), EffectiveAddress(second), UserAgent(first), UserAgent(second);
    var a, b := x + "|" + u, y + "|" + v;
    KeyOf(cookieName, first);
    KeyOf(cookieName, second);
    Prefixed(a, b);
    if |x| == |y| { JoinedAlike(x, u, y, v); }
    if |x| < |y| { JoinedReadsOn(x, u, y, v); }
    if |y| < |x| { JoinedReadsOn(y, v, x, u); }
    if x + "|" <= y { BarWithin(x, y); }
    if y + "|" <= x { BarWithin(y, x); }
  }

  lemma KeyOf(cookieName: string, request: Request)
    requires CookieValue(cookieName, request) == ""
    ensures ExtractKey(cookieName, request) == "u:" + (EffectiveAddress(request) + "|" + UserAgent(request))
  {
  }

  // ----- What an X-Forwarded-For header means -----

  /** The white space of the C locale. */
  lemma SpaceIs(c: char)
    ensures Space(c) <==> c in {' ', '\t', '\n', '\U{0b}', '\U{0c}', '\r'}
  {
  }

  predicate Blank(s: string) {
    forall i :: 0 <= i < |s| ==> Space(s[i])
  }

  /** Neither begins nor ends with white space. */
  predicate Tight(s: string) {
    s != "" ==> !Space(s[0]) && !Space(s[|s| - 1])
  }

  lemma {:induction false} TrimLeftBlank(lead: string, rest: string)
    requires Blank(lead) && (rest != "" ==> !Space(rest[0]))
    ensures TrimLeft(lead + rest) == rest
  {
    if lead == "" {
      assert lead + rest == rest;
    } else {
      assert (lead + rest)[1..] == lead[1..] + rest;
      TrimLeftBlank(lead[1..], rest);
    }
  }

  lemma {:induction false} TrimRightBlank(rest: string, trail: string)
    requires Blank(trail) && (rest != "" ==> !Space(rest[|rest| - 1]))
    ensures TrimRight(rest + trail) == rest
  {
    if trail == "" {
      assert rest + trail == rest;
    } else {
      var n := |trail| - 1;
      assert (rest + trail)[..|rest + trail| - 1] == rest + trail[..n];
      TrimRightBlank(rest, trail[..n]);
    }
  }

  /** Trimming takes exactly the white space around. */
  lemma TrimBetween(lead: string, body: string, trail: string)
    requires Blank(lead) && Tight(body) && Blank(trail)
    ensures Trim(lead + body + trail) == body
  {
    if body == "" {
      assert lead + body + trail == (lead + trail) + "";
      TrimLeftBlank(lead + trail, "");
    } else {
      assert lead + body + trail == lead + (body + trail);
      assert (body + trail)[0] == body[0];
      TrimLeftBlank(lead, body + trail);
      TrimRightBlank(body, trail);
    }
  }

  /** No value comes from a cookie that is not looked for or not sent. */
  lemma NoCookie(cookieName: string, request: Request)
    requires cookieName == "" || request.cookie == None
    ensures CookieValue(cookieName, request) == ""
  {
  }

  /** A client that sends the cookie is known by its value. */
  lemma CookieKey(cookieName: string, pairs: seq<Pair>, request: Request)
    requires forall i :: 0 <= i < |pairs| ==> Clean(pairs[i])
    requires cookieName != "" && request.cookie == Some(Render(pairs))
    ensures CookieValue(cookieName, request) == Lookup(pairs, cookieName)
    ensures Lookup(pairs, cookieName) != "" ==> ExtractKey(cookieName, request) == "c:" + Lookup(pairs, cookieName)
  {
    CookieRoundTrip(pairs, cookieName);
  }

  /** The key of a client known by its address, which is the text before the first comma of the
      header without the white space around it, or the peer's where there is none. */
  lemma ForwardedKey(cookieName: string, request: Request, lead: string, address: string, trail: string, rest: string)
    requires CookieValue(cookieName, request) == ""
    requires Blank(lead) && Tight(address) && Blank(trail) && ',' !in address
    requires rest == "" || rest[0] == ','
    requires request.forwardedFor == Some(lead + address + trail + rest)
    ensures ExtractKey(cookieName, request) ==
            "u:" + (if address == "" then request.clientIP else address) + "|" +
            (if request.userAgent.Some? then request.userAgent.value else "")
  {
    var first := lead + address + trail;
    assert ',' !in first by {
      forall i | 0 <= i < |first| ensures first[i] != ',' {
        if i < |lead| {
          assert first[i] == lead[i];
        } else if i < |lead| + |address| {
          assert first[i] == address[i - |lead|] && address[i - |lead|] in address;
        } else {
          assert first[i] == trail[i - |lead| - |address|];
        }
      }
    }
    if rest == "" {
      assert first + rest == first;
    } else {
      assert first + rest == first + [','] + rest[1..];
      CutAt(first, ',', rest[1..]);
    }
    TrimBetween(lead, address, trail);
  }

  lemma {:induction false} LeftApart(s: string) returns (lead: string)
    ensures Blank(lead) && s == lead + TrimLeft(s)
    ensures TrimLeft(s) != "" ==> !Space(TrimLeft(s)[0])
  {
    if s != "" && Space(s[0]) {
      lead := LeftApart(s[1..]);
      lead := [s[0]] + lead;
    } else {
      lead := "";
      assert s == lead + s;
    }
  }

  lemma {:induction false} RightApart(s: string) returns (trail: string)
    ensures Blank(trail) && s == TrimRight(s) + trail
    ensures TrimRight(s) != "" ==> !Space(TrimRight(s)[|TrimRight(s)| - 1])
  {
    if s != "" && Space(s[|s| - 1]) {
      trail := RightApart(s[..|s| - 1]);
      trail := trail + [s[|s| - 1]];
    } else {
      trail := "";
    }
  }

  /** Every header has that form, so ForwardedKey gives the key for any. */
  lemma EveryHeader(header: string) returns (lead: string, address: string, trail: string, rest: string)
    ensures Blank(lead) && Tight(address) && Blank(trail) && ',' !in address
    ensures rest == "" || rest[0] == ','
    ensures header == lead + address + trail + rest
  {
    var first;
    first, rest := BeforeComma(header);
    lead := LeftApart(first);
    var body := TrimLeft(first);
    trail := RightApart(body);
    address := TrimRight(body);
    if address != "" { assert address[0] == body[0]; }
    Within(lead, address, trail, first, ',');
  }

  lemma Within(lead: string, address: string, trail: string, first: string, c: char)
    requires first == lead + (address + trail)
    ensures first == lead + address + trail
    ensures c !in first ==> c !in address
  {
    assert forall i :: 0 <= i < |address| ==> first[|lead| + i] == address[i];
  }

  lemma BeforeComma(header: string) returns (first: string, rest: string)
    ensures header == first + rest && ',' !in first && (rest == "" || rest[0] == ',')
  {
    var n := if ',' in header then FirstIndex(header, ',') else |header|;
    first, rest := header[..n], header[n..];
  }

  lemma DirectKey(cookieName: string, request: Request)
    requires CookieValue(cookieName, request) == "" && request.forwardedFor == None
    ensures ExtractKey(cookieName, request) ==
            "u:" + request.clientIP + "|" + (if request.userAgent.Some? then request.userAgent.value else "")
  {
  }

  function RenderAddresses(addresses: seq<string>): string {
    if addresses == [] then ""
    else if |addresses| == 1 then addresses[0]
    else addresses[0] + ", " + RenderAddresses(addresses[1..])
  }

  /** Of a rendered list "a1, a2, ..." the first address counts, unless it is blank. */
  lemma ForwardedRoundTrip(cookieName: string, addresses: seq<string>, request: Request)
    requires CookieValue(cookieName, request) == "" && addresses != []
    requires forall i :: 0 <= i < |addresses| ==> Tight(addresses[i]) && ',' !in addresses[i]
    requires request.forwardedFor == Some(RenderAddresses(addresses))
    ensures ExtractKey(cookieName, request) ==
            "u:" + (if addresses[0] == "" then request.clientIP else addresses[0]) + "|" +
            (if request.userAgent.Some? then request.userAgent.value else "")
  {
    var first := addresses[0];
    var none, rest := "", if |addresses| == 1 then "" else ", " + RenderAddresses(addresses[1..]);
    FirstApart(first, RenderAddresses(addresses[1..]));
    NothingAround(first, none, rest);
    assert RenderAddresses(addresses) == first + rest;
    ForwardedKey(cookieName, request, none, first, none, rest);
  }

  lemma FirstApart(first: string, others: string)
    ensures first + ", " + others == first + (", " + others) && (", " + others)[0] == ','
    ensures first + "" == first
  {
  }

  lemma NothingAround(first: string, none: string, rest: string)
    requires none == ""
    ensures none + first + none + rest == first + rest
  {
    assert none + first + none == first;
  }
}
