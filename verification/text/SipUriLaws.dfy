/** What sanitising keeps of a dial target and what normalising adds to it,
    against targets as they are written. */
module SipUriLaws {
  import opened SipUri
  import opened SipUriTheorems
  import opened SipUriStability

  // -------------------------------------------------------------------------
  // Names of parameters
  // -------------------------------------------------------------------------

  predicate SameLetter(c: char, d: char) {
    c == d || ('A' <= c <= 'Z' && d as int == c as int + 32)
  }

  /** The name in lower case, written in any case. */
  predicate Spells(s: string, name: string) {
    |s| == |name| && forall i | 0 <= i < |s| :: SameLetter(s[i], name[i])
  }

  predicate LowerCase(name: string) {
    forall i | 0 <= i < |name| :: !('A' <= name[i] <= 'Z')
  }

  lemma LowerSpells(s: string, name: string)
    requires LowerCase(name)
    ensures Lower(s) == name <==> Spells(s, name)
  {
    LowerFacts(s);
    hide Lower;
    if Lower(s) == name {
      forall i | 0 <= i < |s| ensures SameLetter(s[i], name[i]) { assert Lower(s)[i] == name[i]; }
    }
    if Spells(s, name) {
      forall i | 0 <= i < |s| ensures Lower(s)[i] == name[i] { assert SameLetter(s[i], name[i]); }
    }
  }

  /** A parameter is kept exactly if its name is transport or user, in any case,
      with or without a value. */
  predicate Welcome(param: string) {
    exists n | 0 <= n <= |param| ::
      (n == |param| || param[n] == '=') && Without(param[..n], '=')
      && (Spells(param[..n], "transport") || Spells(param[..n], "user"))
  }

  lemma NameEnd(param: string, n: nat)
    requires n <= |param| && (n == |param| || param[n] == '=') && Without(param[..n], '=')
    ensures Upto(param, '=') == param[..n]
  {
    if n == |param| {
      assert param[..n] == param;
      FindFacts(param, '=');
    } else {
      FindJoin(param[..n], '=', param[n + 1..]);
      assert param == param[..n] + ['='] + param[n + 1..];
    }
  }

  lemma AllowedExact(param: string)
    ensures Allowed(param) <==> Welcome(param)
  {
    FindFacts(param, '=');
    var m := if Find(param, '=') < 0 then |param| else Find(param, '=');
    assert param[..|param|] == param;
    assert Upto(param, '=') == param[..m];
    hide Find, Lower;
    LowerSpells(param[..m], "transport");
    LowerSpells(param[..m], "user");
    if n :| 0 <= n <= |param| && (n == |param| || param[n] == '=') && Without(param[..n], '=')
            && (Spells(param[..n], "transport") || Spells(param[..n], "user")) {
      NameEnd(param, n);
    }
  }

  // -------------------------------------------------------------------------
  // Sanitising what was written
  // -------------------------------------------------------------------------

  function Written(params: seq<string>): string {
    if params == [] then "" else [';'] + params[0] + Written(params[1..])
  }

  ghost function WelcomeOnly(params: seq<string>): seq<string> {
    if params == [] then []
    else (if Welcome(params[0]) then [params[0]] else []) + WelcomeOnly(params[1..])
  }

  ghost predicate Plain(params: seq<string>) {
    forall i | 0 <= i < |params| :: Without(params[i], ';')
  }

  lemma NothingIsNotWelcome()
    ensures !Welcome("")
  {
  }

  lemma OneKept(param: string)
    ensures KeptParam(param) == if Welcome(param) then [';'] + param else ""
  {
    AllowedExact(param);
    NothingIsNotWelcome();
    hide Allowed, Welcome;
  }

  /** Of the parameters as written, those that are welcome stay, in order. */
  lemma {:induction false} ParamsKept(first: string, rest: seq<string>)
    requires Without(first, ';') && Plain(rest)
    ensures KeptParams(first + Written(rest)) == Written(WelcomeOnly([first] + rest))
    decreases |rest|
  {
    OneKept(first);
    assert ([first] + rest)[1..] == rest;
    hide Welcome, KeptParam, Find;
    if rest == [] {
      NoSemicolon(first);
      assert first + Written(rest) == first;
      OnlyOne(first);
    } else {
      ParamsKept(rest[0], rest[1..]);
      assert [rest[0]] + rest[1..] == rest;
      var tail := rest[0] + Written(rest[1..]);
      SemicolonFirst(rest);
      FirstParam(first, tail);
      WrittenJoin(first, rest);
    }
  }

  lemma NoSemicolon(s: string)
    requires Without(s, ';')
    ensures Find(s, ';') < 0
  {
    FindFacts(s, ';');
  }

  lemma SemicolonFirst(rest: seq<string>)
    requires rest != []
    ensures Written(rest) == [';'] + (rest[0] + Written(rest[1..]))
  {
  }

  lemma FirstParam(first: string, tail: string)
    requires Without(first, ';')
    ensures KeptParams(first + ([';'] + tail)) == KeptParam(first) + KeptParams(tail)
  {
    var s := first + ([';'] + tail);
    assert s == first + [';'] + tail;
    FindJoin(first, ';', tail);
    hide Find, KeptParam;
    assert s[..|first|] == first && s[|first| + 1..] == tail;
  }

  lemma OnlyOne(first: string)
    ensures Written(WelcomeOnly([first] + [])) == if Welcome(first) then [';'] + first else ""
  {
    hide Welcome;
    assert ([first] + [])[1..] == [];
    if Welcome(first) {
      assert WelcomeOnly([first] + []) == [first] && [first][1..] == [];
      assert [';'] + first + "" == [';'] + first;
    }
  }

  lemma WrittenJoin(first: string, rest: seq<string>)
    ensures Written(WelcomeOnly([first] + rest)) == (if Welcome(first) then [';'] + first else "") + Written(WelcomeOnly(rest))
  {
    hide Welcome;
    assert ([first] + rest)[1..] == rest;
    if Welcome(first) {
      assert ([first] + WelcomeOnly(rest))[1..] == WelcomeOnly(rest);
    } else {
      assert [] + WelcomeOnly(rest) == WelcomeOnly(rest);
      assert "" + Written(WelcomeOnly(rest)) == Written(WelcomeOnly(rest));
    }
  }

  /** Nothing, or a question mark and anything. */
  predicate IsHeaders(s: string) {
    s == "" || s[0] == '?'
  }

  lemma {:induction false} WrittenSafe(params: seq<string>)
    requires forall i | 0 <= i < |params| :: Safe(params[i])
    ensures Safe(Written(params))
  {
    if params != [] {
      WrittenSafe(params[1..]);
      SafeAppendExact([';'], params[0]);
      SafeAppendExact([';'] + params[0], Written(params[1..]));
    }
  }

  /** Any address, any parameters, any headers: the address stays as it is, the
      welcome parameters stay in order, and everything else goes. */
  lemma SanitizeKeepsExactly(address: string, params: seq<string>, headers: string)
    requires Safe(address) && Without(address, ';') && Plain(params) && IsHeaders(headers)
    requires forall i | 0 <= i < |params| :: Safe(params[i])
    ensures SanitizedWritten(address, params, headers) == address + Written(WelcomeOnly(params))
  {
    hide Safe, Sanitized, Written, WelcomeOnly, KeptFrom, Without;
    WrittenSafe(params);
    SafeAppendExact(address, Written(params));
    HeadersGo(address + Written(params), headers);
    if params == [] {
      AddressAlone(address);
    } else {
      SomeKept(address, params);
    }
  }

  lemma SomeKept(address: string, params: seq<string>)
    requires Without(address, ';') && Plain(params) && params != []
    ensures KeptFrom(address + Written(params)) == address + Written(WelcomeOnly(params))
  {
    hide KeptFrom, Written, WelcomeOnly, KeptParams;
    ParamsKept(params[0], params[1..]);
    assert [params[0]] + params[1..] == params;
    SemicolonFirst(params);
    AddressFirst(address, params[0] + Written(params[1..]));
  }

  function SanitizedWritten(address: string, params: seq<string>, headers: string): string {
    Sanitized(address + Written(params) + headers)
  }

  lemma HeadersGo(t: string, headers: string)
    requires Safe(t) && IsHeaders(headers)
    ensures Sanitized(t + headers) == KeptFrom(t)
  {
    UptoVisible(t + headers, '?');
    ControlsGone(t);
    FindFacts(t, '?');
    hide WithoutControls, KeptFrom, Find;
    if headers == "" {
      assert t + headers == t;
    } else {
      FindJoin(t, '?', headers[1..]);
      assert t + headers == t + ['?'] + headers[1..];
      assert (t + headers)[..|t|] == t;
    }
  }

  lemma AddressAlone(address: string)
    requires Without(address, ';')
    ensures KeptFrom(address + Written([])) == address + Written(WelcomeOnly([]))
  {
    NoSemicolon(address);
    assert address + "" == address;
  }

  lemma AddressFirst(address: string, tail: string)
    requires Without(address, ';')
    ensures KeptFrom(address + ([';'] + tail)) == address + KeptParams(tail)
  {
    var s := address + ([';'] + tail);
    assert s == address + [';'] + tail;
    FindJoin(address, ';', tail);
    hide Find, KeptParams;
    assert s[..|address|] == address && s[|address| + 1..] == tail;
  }

  /** A control character anywhere makes no difference. */
  lemma ControlsDoNotCount(a: string, c: char, b: string)
    requires c < ' ' || c == 0x7F as char
    ensures Sanitized(a + [c] + b) == Sanitized(a + b)
  {
    VisibleAppend(a + [c], b);
    VisibleAppend(a, [c]);
    VisibleAppend(a, b);
    assert WithoutControls([c]) == "" by { assert [c][1..] == ""; }
    hide WithoutControls, Upto, KeptFrom;
    assert WithoutControls(a) + "" == WithoutControls(a);
  }

  // -------------------------------------------------------------------------
  // Normalising what was written
  // -------------------------------------------------------------------------

  predicate OnlyBlanks(s: string) {
    forall i | 0 <= i < |s| :: s[i] == ' '
  }

  lemma {:induction false} BlanksLeft(blanks: string, s: string)
    requires OnlyBlanks(blanks)
    ensures TrimLeft(blanks + s) == TrimLeft(s)
  {
    if blanks == "" {
      assert blanks + s == s;
    } else {
      assert (blanks + s)[1..] == blanks[1..] + s;
      BlanksLeft(blanks[1..], s);
    }
  }

  lemma {:induction false} BlanksRight(s: string, blanks: string)
    requires OnlyBlanks(blanks)
    ensures TrimRight(s + blanks) == TrimRight(s)
    decreases |blanks|
  {
    if blanks == "" {
      assert s + blanks == s;
    } else {
      var n := |blanks| - 1;
      assert (s + blanks)[..|s| + n] == s + blanks[..n];
      BlanksRight(s, blanks[..n]);
    }
  }

  /** Blanks around a target do not count. */
  lemma BlanksAround(before: string, t: string, after: string, domain: string, transport: Transport)
    requires OnlyBlanks(before) && OnlyBlanks(after) && t != "" && !IsSpace(t[0])
    ensures Normalized(before + t + after, domain, transport) == Normalized(t, domain, transport)
  {
    assert before + t + after == before + (t + after);
    BlanksLeft(before, t + after);
    assert TrimLeft(t + after) == t + after && TrimLeft(t) == t;
    BlanksRight(t, after);
    hide Sanitized, StartsWithScheme, TrimLeft, TrimRight, Find;
  }

  lemma TargetFits(t: string)
    requires Safe(t) && BlankFree(t) && Without(t, ';') && t != ""
    ensures Trim(t) == t && Sanitized(t) == t
  {
    TrimKept(t);
    FindFacts(t, ';');
    WellFormedFixed(t);
  }

  /** A number or a name alone gets the scheme of the transport and the domain; an
      address gets the scheme only; what carries a scheme is left as it is. */
  lemma WhatIsAdded(t: string, domain: string, transport: Transport)
    requires Safe(t) && BlankFree(t) && Without(t, ';') && t != ""
    ensures Normalized(t, domain, transport)
            == if StartsWithScheme(t) then t
               else (if transport.Tls? then "sips:" else "sip:") + t
                    + if Without(t, '@') && domain != "" then ['@'] + domain else ""
  {
    TargetFits(t);
    FindFacts(t, '@');
    hide Trim, Sanitized, StartsWithScheme, Find;
  }

  /** A scheme is sip or sips with its colon, in any case, at the start. */
  lemma SchemeExact(t: string)
    ensures StartsWithScheme(t) <==> (|t| >= 4 && Spells(t[..4], "sip:")) || (|t| >= 5 && Spells(t[..5], "sips:"))
  {
    if |t| >= 4 { LowerSpells(t[..4], "sip:"); }
    if |t| >= 5 { LowerSpells(t[..5], "sips:"); }
    hide Lower;
  }
}
