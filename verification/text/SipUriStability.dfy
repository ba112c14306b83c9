/** Exactly when normalising a dial target twice is more than normalising it
    once, read off the target and the domain. */
module SipUriStability {
  import opened SipUri
  import opened SipUriTheorems

  // -------------------------------------------------------------------------
  // What of a target is kept
  // -------------------------------------------------------------------------

  /** The text before the headers; later text is dropped. */
  function Body(t: string): string {
    Upto(t, '?')
  }

  function Address(t: string): string {
    Upto(Body(t), ';')
  }

  predicate HasParams(t: string) {
    Find(Body(t), ';') >= 0
  }

  function Params(t: string): string
    requires HasParams(t)
  {
    Body(t)[Find(Body(t), ';') + 1..]
  }

  /** A parameter that survives, control characters aside. */
  predicate Survives(param: string) {
    WithoutControls(param) != "" && Allowed(WithoutControls(param))
  }

  /** The last parameter that survives, if any. */
  function LastSurvivor(params: string): seq<string>
    decreases |params|
  {
    var end := Find(params, ';');
    var own := Upto(params, ';');
    var later := if end < 0 then [] else LastSurvivor(params[end + 1..]);
    if later != [] then later else if Survives(own) then [own] else []
  }

  predicate SomeSurvivorHas(params: string, c: char)
    decreases |params|
  {
    var end := Find(params, ';');
    var own := Upto(params, ';');
    (Survives(own) && Find(own, c) >= 0) || (end >= 0 && SomeSurvivorHas(params[end + 1..], c))
  }

  /** The last character that is no control character is a blank. */
  predicate BlankLast(s: string) {
    s != "" && if IsControl(s[|s| - 1]) then BlankLast(s[..|s| - 1]) else s[|s| - 1] == ' '
  }

  /** A blank stands at the end of what is kept: of the last parameter that
      survives, or of the address if none does. */
  predicate BlankBeforeDropped(t: string) {
    if HasParams(t) && LastSurvivor(Params(t)) != [] then BlankLast(LastSurvivor(Params(t))[0])
    else BlankLast(Address(t))
  }

  /** The last parameter that survives has no value. */
  predicate BareParamLast(t: string) {
    HasParams(t) && LastSurvivor(Params(t)) != [] && Find(LastSurvivor(Params(t))[0], '=') < 0
  }

  predicate NamesHost(t: string) {
    Find(Address(t), '@') >= 0 || (HasParams(t) && SomeSurvivorHas(Params(t), '@'))
  }

  predicate CarriesScheme(t: string) {
    StartsWithScheme(WithoutControls(Address(t)))
  }

  predicate KeepsNothing(t: string) {
    WithoutControls(Address(t)) == "" && (HasParams(t) ==> LastSurvivor(Params(t)) == [])
  }

  /** The account's domain is appended to the target. */
  predicate TakesDomain(t: string, domain: string) {
    !CarriesScheme(t) && !NamesHost(t) && domain != ""
  }

  /** Where a domain is appended, the trouble is a parameter without a value
      that swallows it, or a domain that is not clean itself; elsewhere it is a
      blank that the first reading leaves at the end. */
  predicate Unstable(target: string, domain: string) {
    var t := Trim(target);
    !KeepsNothing(t)
    && if TakesDomain(t, domain) then BareParamLast(t) || !WellFormed(domain) || EndsInBlank(domain)
       else BlankBeforeDropped(t)
  }

  // -------------------------------------------------------------------------
  // Control characters do not move anything
  // -------------------------------------------------------------------------

  lemma {:induction false} VisibleAppend(a: string, b: string)
    ensures WithoutControls(a + b) == WithoutControls(a) + WithoutControls(b)
  {
    if a == "" {
      assert a + b == b;
    } else {
      assert (a + b)[1..] == a[1..] + b;
      VisibleAppend(a[1..], b);
    }
  }

  lemma {:induction false} VisibleWithout(s: string, c: char)
    requires Without(s, c)
    ensures Without(WithoutControls(s), c)
  {
    if s != "" {
      assert forall i | 0 <= i < |s[1..]| :: s[1..][i] == s[i + 1];
      VisibleWithout(s[1..], c);
    }
  }

  lemma FindVisible(s: string, c: char)
    requires !IsControl(c)
    ensures Find(WithoutControls(s), c) < 0 <==> Find(s, c) < 0
    ensures Find(s, c) >= 0 ==>
              var v := WithoutControls(s);
              && v[..Find(v, c)] == WithoutControls(s[..Find(s, c)])
              && v[Find(v, c) + 1..] == WithoutControls(s[Find(s, c) + 1..])
  {
    FindFacts(s, c);
    if Find(s, c) < 0 {
      VisibleWithout(s, c);
      FindFacts(WithoutControls(s), c);
    } else {
      var k := Find(s, c);
      CutAt(s, c);
      VisibleCut(s[..k], c, s[k + 1..]);
    }
  }

  lemma VisibleCut(a: string, c: char, b: string)
    requires !IsControl(c) && Without(a, c)
    ensures var v := WithoutControls(a + [c] + b);
            Find(v, c) == |WithoutControls(a)| && v[..Find(v, c)] == WithoutControls(a)
            && v[Find(v, c) + 1..] == WithoutControls(b)
  {
    VisibleAppend(a + [c], b);
    VisibleAppend(a, [c]);
    assert WithoutControls([c]) == [c] by { assert [c][1..] == ""; }
    VisibleWithout(a, c);
    var x, y := WithoutControls(a), WithoutControls(b);
    FindJoin(x, c, y);
    hide WithoutControls, Find;
    assert (x + [c] + y)[..|x|] == x && (x + [c] + y)[|x| + 1..] == y;
  }

  lemma UptoVisible(s: string, c: char)
    requires !IsControl(c)
    ensures Upto(WithoutControls(s), c) == WithoutControls(Upto(s, c))
  {
    FindVisible(s, c);
  }

  lemma {:induction false} BlankLastVisible(s: string)
    ensures BlankLast(s) <==> EndsInBlank(WithoutControls(s))
  {
    if s != "" {
      var init, last := s[..|s| - 1], s[|s| - 1];
      assert s == init + [last];
      VisibleAppend(init, [last]);
      assert [last][1..] == "";
      if IsControl(last) {
        BlankLastVisible(init);
        assert WithoutControls(s) == WithoutControls(init) + "";
      } else {
        assert WithoutControls(s) == WithoutControls(init) + [last];
      }
    }
  }

  // -------------------------------------------------------------------------
  // The clean target, in terms of the target
  // -------------------------------------------------------------------------

  /** The parameters of the clean target. */
  function Kept(t: string): string {
    if HasParams(t) then KeptParams(WithoutControls(Params(t))) else ""
  }

  lemma CleanParts(t: string)
    ensures Sanitized(t) == WithoutControls(Address(t)) + Kept(t)
  {
    UptoVisible(t, '?');
    FindVisible(Body(t), ';');
    hide WithoutControls, Find, KeptParams;
    assert WithoutControls(Body(t)) + "" == WithoutControls(Body(t));
  }

  /** The last of a list of kept parameters that starts with a semicolon. */
  function LastOf(kept: string): string
    requires kept != ""
  {
    LastParam(kept[1..])
  }

  function LastParam(params: string): string
    decreases |params|
  {
    var end := Find(params, ';');
    if end < 0 then params else LastParam(params[end + 1..])
  }

  lemma KeptUnfolds(params: string)
    ensures var v, end := WithoutControls(params), Find(params, ';');
            && (end < 0 ==> KeptParams(v) == KeptParam(v) && Without(v, ';'))
            && (end >= 0 ==>
                  KeptParams(v) == KeptParam(WithoutControls(params[..end])) + KeptParams(WithoutControls(params[end + 1..]))
                  && Without(WithoutControls(params[..end]), ';'))
  {
    var v := WithoutControls(params);
    FindVisible(params, ';');
    FindFacts(v, ';');
    hide WithoutControls, Find, KeptParam;
  }

  /** What the last surviving parameter means for the kept ones. */
  ghost predicate Mirrors(kept: string, last: seq<string>) {
    && (kept == "" <==> last == [])
    && (last != [] ==>
          && kept[0] == ';'
          && LastOf(kept) == WithoutControls(last[0])
          && (EndsInBlank(kept) <==> BlankLast(last[0])))
  }

  lemma MirrorOne(param: string)
    requires Without(WithoutControls(param), ';')
    ensures Mirrors(KeptParam(WithoutControls(param)), if Survives(param) then [param] else [])
  {
    var v := WithoutControls(param);
    BlankLastVisible(param);
    FindFacts(v, ';');
    hide WithoutControls, Find, Allowed, BlankLast;
    if Survives(param) {
      assert KeptParam(v)[1..] == v;
    }
  }

  /** A later parameter decides. */
  lemma MirrorLater(first: string, kept: string, last: seq<string>)
    requires Mirrors(kept, last) && last != [] && (first == "" || (first[0] == ';' && Without(first[1..], ';')))
    ensures Mirrors(first + kept, last)
  {
    hide WithoutControls, Allowed, BlankLast, Find;
    var k := first + kept;
    assert k[|k| - 1] == kept[|kept| - 1];
    if first == "" {
      assert k == kept;
    } else {
      assert kept == [';'] + kept[1..];
      assert k[1..] == first[1..] + [';'] + kept[1..];
      FindJoin(first[1..], ';', kept[1..]);
      assert k[1..][|first| - 1 + 1..] == kept[1..];
    }
  }

  lemma {:induction false} KeptMirrors(params: string)
    ensures Mirrors(KeptParams(WithoutControls(params)), LastSurvivor(params))
    decreases |params|
  {
    hide WithoutControls, Allowed, BlankLast, Find, Mirrors, KeptParams;
    KeptUnfolds(params);
    var end := Find(params, ';');
    if end < 0 {
      MirrorOne(params);
    } else {
      var own, rest := params[..end], params[end + 1..];
      KeptMirrors(rest);
      MirrorOne(own);
      var first, kept := KeptParam(WithoutControls(own)), KeptParams(WithoutControls(rest));
      FirstShape(WithoutControls(own));
      if LastSurvivor(rest) != [] {
        MirrorLater(first, kept, LastSurvivor(rest));
      } else {
        EmptyMirror(kept);
        assert first + kept == first;
      }
    }
  }

  lemma FirstShape(v: string)
    requires Without(v, ';')
    ensures var first := KeptParam(v); first == "" || (first[0] == ';' && Without(first[1..], ';'))
  {
    hide Allowed;
    assert ([';'] + v)[1..] == v;
  }

  lemma EmptyMirror(kept: string)
    ensures Mirrors(kept, []) ==> kept == ""
  {
  }

  lemma {:induction false} KeptHas(params: string, c: char)
    requires !IsControl(c) && c != ';'
    ensures Find(KeptParams(WithoutControls(params)), c) >= 0 <==> SomeSurvivorHas(params, c)
    decreases |params|
  {
    hide WithoutControls, Allowed, Find, KeptParams;
    KeptUnfolds(params);
    var end := Find(params, ';');
    if end < 0 {
      OneHas(params, c);
    } else {
      var own, rest := params[..end], params[end + 1..];
      OneHas(own, c);
      KeptHas(rest, c);
      FindAppend(KeptParam(WithoutControls(own)), KeptParams(WithoutControls(rest)), c);
    }
  }

  lemma OneHas(param: string, c: char)
    requires !IsControl(c) && c != ';'
    ensures Find(KeptParam(WithoutControls(param)), c) >= 0 <==> Survives(param) && Find(param, c) >= 0
  {
    FindVisible(param, c);
    var v := WithoutControls(param);
    FindAppend([';'], v, c);
    FindFacts([';'], c);
    hide WithoutControls, Allowed;
  }

  /** The parameters are nothing or start with a semicolon; the address has none. */
  lemma CleanCut(address: string, kept: string)
    requires Without(address, ';') && (kept == "" || kept[0] == ';')
    ensures Find(address + kept, ';') == if kept == "" then -1 else |address|
    ensures kept != "" ==> (address + kept)[|address| + 1..] == kept[1..]
  {
    hide Find;
    FindFacts(address, ';');
    if kept == "" {
      assert address + kept == address;
    } else {
      assert kept == [';'] + kept[1..];
      assert address + kept == address + [';'] + kept[1..];
      FindJoin(address, ';', kept[1..]);
    }
  }

  /** The parameters the clean target keeps mirror those of the target. */
  lemma KeptFacts(t: string)
    ensures Mirrors(Kept(t), if HasParams(t) then LastSurvivor(Params(t)) else [])
    ensures Find(Kept(t), '@') >= 0 <==> HasParams(t) && SomeSurvivorHas(Params(t), '@')
  {
    NoSuchFind('@');
    hide Find, Mirrors, LastSurvivor, SomeSurvivorHas, KeptParams, WithoutControls;
    if HasParams(t) {
      KeptMirrors(Params(t));
      KeptHas(Params(t), '@');
    } else {
      NoneMirror();
    }
  }

  lemma NoneMirror()
    ensures Mirrors("", [])
  {
  }

  lemma CleanEnds(address: string, kept: string, last: seq<string>)
    requires Mirrors(kept, last) && Without(address, ';')
    ensures address + kept == "" <==> address == "" && last == []
    ensures EndsInBlank(address + kept) <==> if last != [] then BlankLast(last[0]) else EndsInBlank(address)
    ensures EndsInBareParam(address + kept) <==> last != [] && Find(last[0], '=') < 0
  {
    if last != [] { FindVisible(last[0], '='); }
    CleanCut(address, kept);
    hide WithoutControls, BlankLast, Find, LastParam;
    if kept == "" {
      assert address + kept == address;
    } else {
      assert (address + kept)[|address + kept| - 1] == kept[|kept| - 1];
    }
  }

  /** The clean target says of itself what the target says of it. */
  lemma CleanMeans(t: string)
    ensures var clean := Sanitized(t);
            && (clean == "" <==> KeepsNothing(t))
            && (EndsInBlank(clean) <==> BlankBeforeDropped(t))
            && (EndsInBareParam(clean) <==> BareParamLast(t))
            && (Find(clean, '@') >= 0 <==> NamesHost(t))
            && (StartsWithScheme(clean) <==> CarriesScheme(t))
  {
    var address, kept := WithoutControls(Address(t)), Kept(t);
    CleanParts(t);
    AddressFacts(t);
    BlankLastVisible(Address(t));
    KeptFacts(t);
    var last := if HasParams(t) then LastSurvivor(Params(t)) else [];
    CleanEnds(address, kept, last);
    FindAppend(address, kept, '@');
    MirrorStart(kept, last);
    SchemeOfAddress(address, kept);
    hide Sanitized, WithoutControls, LastSurvivor, BlankLast, SomeSurvivorHas, StartsWithScheme, Find, EndsInBareParam,
         EndsInBlank, Mirrors, HasParams, Params, Address, Kept;
  }

  lemma MirrorStart(kept: string, last: seq<string>)
    requires Mirrors(kept, last)
    ensures kept == "" || kept[0] == ';'
  {
    hide LastOf, BlankLast, WithoutControls;
  }

  lemma NoSuchFind(c: char)
    ensures Find("", c) < 0
  {
  }

  /** The visible address has no semicolon, and an at sign exactly if the
      address has one. */
  lemma AddressFacts(t: string)
    ensures Without(WithoutControls(Address(t)), ';')
    ensures Find(WithoutControls(Address(t)), ';') < 0
    ensures Find(WithoutControls(Address(t)), '@') >= 0 <==> Find(Address(t), '@') >= 0
  {
    var a := Body(t);
    FindFacts(a, ';');
    FindFacts(Address(t), ';');
    FindVisible(Address(t), ';');
    FindVisible(Address(t), '@');
    FindFacts(WithoutControls(Address(t)), ';');
  }

  lemma SchemeOfAddress(address: string, kept: string)
    requires kept == "" || kept[0] == ';'
    ensures StartsWithScheme(address + kept) <==> StartsWithScheme(address)
  {
    var s := address + kept;
    if StartsWithScheme(s) {
      SchemeChars(s);
      var n := SchemeLength(s);
      assert |address| < |s| ==> s[|address|] == ';';
      assert n <= |address|;
      assert s[..n] == address[..n];
      SameScheme(s, address);
    }
    if StartsWithScheme(address) {
      assert s[..SchemeLength(address)] == address[..SchemeLength(address)];
      SameScheme(address, s);
    }
  }

  // -------------------------------------------------------------------------
  // The completed target
  // -------------------------------------------------------------------------

  /** The clean target ends with a parameter that has no value. */
  predicate EndsInBareParam(clean: string) {
    var semi := Find(clean, ';');
    semi >= 0 && Find(LastParam(clean[semi + 1..]), '=') < 0
  }

  /** No allowed name contains an at sign. */
  lemma AtInName(name: string, i: nat)
    requires i < |name| && name[i] == '@'
    ensures Lower(name) != "transport" && Lower(name) != "user"
  {
    LowerFacts(name);
    assert Lower(name)[i] == '@';
    NoAt();
  }

  lemma NoAt()
    ensures Without("transport", '@') && Without("user", '@')
  {
  }

  lemma NoEquals()
    ensures Find(['@'], '=') < 0
  {
    FindFacts(['@'], '=');
  }

  lemma NameWithDomain(param: string, domain: string)
    requires param != "" && Allowed(param)
    ensures Allowed(param + (['@'] + domain)) <==> Find(param, '=') >= 0
  {
    var tail := ['@'] + domain;
    FindAppend(param, tail, '=');
    if Find(param, '=') >= 0 {
      assert Upto(param + tail, '=') == Upto(param, '=');
    } else {
      hide Lower, Find;
      FindAppend(['@'], domain, '=');
      NoEquals();
      var name := Upto(param + tail, '=');
      assert |param| < |name| && name[|param|] == '@';
      AtInName(name, |param|);
    }
  }

  /** The parameters a domain brings along are allowed. */
  predicate DomainParamsAllowed(domain: string) {
    Find(domain, ';') >= 0 ==> AllAllowed(domain[Find(domain, ';') + 1..])
  }

  lemma {:induction false} ParamsWithDomain(params: string, domain: string)
    requires AllAllowed(params)
    ensures AllAllowed(params + (['@'] + domain)) <==> Find(LastParam(params), '=') >= 0 && DomainParamsAllowed(domain)
    decreases |params|
  {
    hide Allowed, Find;
    var tail := ['@'] + domain;
    var end := Find(params, ';');
    FindAppend(params, tail, ';');
    AtFirst(domain);
    if end < 0 {
      LastParamWithDomain(params, domain);
    } else {
      assert (params + tail)[..end] == params[..end];
      assert (params + tail)[end + 1..] == params[end + 1..] + tail;
      ParamsWithDomain(params[end + 1..], domain);
    }
  }

  lemma AtFirst(domain: string)
    ensures Find(['@'] + domain, ';') == if Find(domain, ';') < 0 then -1 else Find(domain, ';') + 1
  {
    assert (['@'] + domain)[1..] == domain;
  }

  lemma LastParamWithDomain(param: string, domain: string)
    requires AllAllowed(param) && Find(param, ';') < 0
    ensures AllAllowed(param + (['@'] + domain)) <==> Find(param, '=') >= 0 && DomainParamsAllowed(domain)
  {
    hide Allowed, Find;
    FindAppend(param, ['@'] + domain, ';');
    AtFirst(domain);
    var k := Find(domain, ';');
    NameWithDomain(param, Upto(domain, ';'));
    if k >= 0 {
      CutDomain(param, domain, k);
    }
  }

  lemma CutDomain(param: string, domain: string, k: nat)
    requires k < |domain|
    ensures var s := param + (['@'] + domain);
            && s[..|param| + k + 1] == param + (['@'] + domain[..k])
            && s[|param| + k + 2..] == domain[k + 1..]
  {
  }

  lemma SafeAppendExact(a: string, b: string)
    ensures Safe(a + b) <==> Safe(a) && Safe(b)
  {
    assert forall i | 0 <= i < |a| :: (a + b)[i] == a[i];
    assert forall i | 0 <= i < |b| :: (a + b)[|a| + i] == b[i];
  }

  lemma SchemeSafe(scheme: string)
    requires scheme == "sip:" || scheme == "sips:"
    ensures Safe(scheme) && Find(scheme, ';') < 0
  {
    FindFacts(scheme, ';');
  }

  lemma WithScheme(scheme: string, clean: string)
    requires scheme == "sip:" || scheme == "sips:"
    ensures WellFormed(scheme + clean) <==> WellFormed(clean)
    ensures Find(scheme + clean, ';') == if Find(clean, ';') < 0 then -1 else |scheme| + Find(clean, ';')
  {
    hide AllAllowed, Find, Safe;
    SchemeSafe(scheme);
    SafeAppendExact(scheme, clean);
    FindAppend(scheme, clean, ';');
    var semi := Find(clean, ';');
    if semi >= 0 { assert (scheme + clean)[|scheme| + semi + 1..] == clean[semi + 1..]; }
  }

  /** Appending a domain keeps a clean target well-formed exactly if the domain
      is, and the target does not end in a parameter without a value. */
  lemma WithDomain(clean: string, domain: string)
    requires WellFormed(clean)
    ensures WellFormed(clean + (['@'] + domain)) <==> WellFormed(domain) && !EndsInBareParam(clean)
  {
    hide AllAllowed, Find, Safe;
    var tail := ['@'] + domain;
    AtSafe();
    SafeAppendExact(['@'], domain);
    SafeAppendExact(clean, tail);
    AtFirst(domain);
    FindAppend(clean, tail, ';');
    var semi := Find(clean, ';');
    if semi >= 0 {
      assert (clean + tail)[semi + 1..] == clean[semi + 1..] + tail;
      ParamsWithDomain(clean[semi + 1..], domain);
    } else if Find(domain, ';') >= 0 {
      assert (clean + tail)[|clean| + Find(domain, ';') + 2..] == domain[Find(domain, ';') + 1..];
    }
  }

  lemma AtSafe()
    ensures Safe(['@'])
  {
  }

  lemma SchemeFirst(scheme: string, rest: string)
    requires scheme == "sip:" || scheme == "sips:"
    ensures StartsWithScheme(scheme + rest)
  {
    var u := scheme + rest;
    LowerFacts(scheme);
    assert u[..|scheme|] == scheme;
    assert Lower(scheme) == scheme;
  }

  // -------------------------------------------------------------------------
  // Main results
  // -------------------------------------------------------------------------

  /** For every target and every domain: normalising twice is normalising once
      exactly if the two are not unstable together. */
  lemma NormalizeExact(target: string, domain: string, transport: Transport)
    ensures var u := Normalized(target, domain, transport);
            Normalized(u, domain, transport) == u <==> !Unstable(target, domain)
  {
    var t := Trim(target);
    var clean := Sanitized(t);
    CleanMeans(t);
    SanitizedIsWellFormed(t);
    hide Sanitized, StartsWithScheme, WellFormed, EndsInBareParam, KeepsNothing, BlankBeforeDropped, BareParamLast,
         NamesHost, CarriesScheme, Find, Trim;
    if clean == "" {
      EmptyTarget();
    } else if StartsWithScheme(clean) {
      SecondReading(clean, domain, transport);
    } else {
      CompletedReading(clean, domain, transport);
    }
  }

  lemma CompletedReading(clean: string, domain: string, transport: Transport)
    requires WellFormed(clean) && clean != ""
    ensures var takes := Find(clean, '@') < 0 && domain != "";
            var u := SchemeFor(transport) + clean + if takes then ['@'] + domain else "";
            Normalized(u, domain, transport) == u
            <==> if takes then WellFormed(domain) && !EndsInBareParam(clean) && !EndsInBlank(domain) else !EndsInBlank(clean)
  {
    hide WellFormed, Normalized, EndsInBareParam, Find;
    var scheme := SchemeFor(transport);
    if Find(clean, '@') < 0 && domain != "" {
      var tail := ['@'] + domain;
      assert scheme + clean + tail == scheme + (clean + tail);
      WithScheme(scheme, clean + tail);
      WithDomain(clean, domain);
      SchemeFirst(scheme, clean + tail);
      SecondReading(scheme + (clean + tail), domain, transport);
    } else {
      assert scheme + clean + "" == scheme + clean;
      WithScheme(scheme, clean);
      SchemeFirst(scheme, clean);
      SecondReading(scheme + clean, domain, transport);
    }
  }

  lemma EmptyTarget()
    ensures forall domain, transport :: Normalized("", domain, transport) == ""
  {
    assert Trim("") == "";
    assert WithoutControls("") == "" && Upto("", '?') == "" && KeptFrom("") == "";
  }

  /** A target that carries a scheme: exactly if no blank stands at the end of
      what is kept of it. */
  lemma NormalizeSchemeExact(target: string, domain: string, transport: Transport)
    requires CarriesScheme(Trim(target))
    ensures var u := Normalized(target, domain, transport);
            Normalized(u, domain, transport) == u <==> !BlankBeforeDropped(Trim(target))
  {
    NormalizeExact(target, domain, transport);
    CleanMeans(Trim(target));
  }

  // -------------------------------------------------------------------------
  // Two unstable targets
  // -------------------------------------------------------------------------

  lemma AddressOnly(address: string, headers: string)
    requires Safe(address) && Without(address, ';')
    ensures Sanitized(address) == address
    ensures Sanitized(address + ['?'] + headers) == address
  {
    FindFacts(address, ';');
    WellFormedFixed(address);
    var t := address + ['?'] + headers;
    FindFacts(address, '?');
    FindJoin(address, '?', headers);
    UptoVisible(t, '?');
    assert t[..|address|] == address;
    ControlsGone(address);
    hide Find, WithoutControls;
  }

  /** A blank before the headers: it is kept the first time and trimmed the
      second time. */
  lemma BlankBeforeHeaders(domain: string, transport: Transport)
    ensures Normalized("sip:a ?x", domain, transport) == "sip:a "
    ensures Normalized("sip:a ", domain, transport) == "sip:a"
  {
    Spelled();
    TrimKept("sip:a ?x");
    SchemeFirst("sip:", "a ");
    SchemeFirst("sip:", "a");
    AddressOnly("sip:a ", "x");
    AddressOnly("sip:a", "");
    hide Sanitized, Trim, StartsWithScheme;
  }

  lemma Spelled()
    ensures "sip:a " + ['?'] + "x" == "sip:a ?x" && "sip:" + "a " == "sip:a " && "sip:" + "a" == "sip:a"
    ensures Safe("sip:a ") && Without("sip:a ", ';') && Safe("sip:a") && Without("sip:a", ';')
    ensures Trim("sip:a ") == "sip:a"
  {
    assert TrimLeft("sip:a ") == "sip:a ";
    assert TrimRight("sip:a") == "sip:a";
    assert "sip:a "[..5] == "sip:a";
  }

  /** A plain word: nothing that sanitising or trimming would touch. */
  predicate IsWord(s: string) {
    s != "" && Safe(s) && BlankFree(s) && Without(s, ';') && Without(s, '@') && Without(s, '=')
  }

  lemma WordsJoin(a: string, c: char, b: string)
    requires IsWord(a) && IsWord(b) && !IsControl(c) && !IsSpace(c) && c != '?'
    ensures var s := a + [c] + b; Safe(s) && BlankFree(s) && !EndsInBlank(s) && s != "" && !IsSpace(s[0])
  {
    var s := a + [c] + b;
    assert forall i | |a| < i < |s| :: s[i] == b[i - |a| - 1];
    assert s[0] == a[0] && s[|s| - 1] == b[|b| - 1];
  }

  lemma ParamKept(address: string, param: string)
    requires IsWord(address) && IsWord(param) && Allowed(param)
    ensures Sanitized(address + [';'] + param) == address + [';'] + param
    ensures Find(address + [';'] + param, '@') < 0
  {
    var t := address + [';'] + param;
    WordsJoin(address, ';', param);
    FindJoin(address, ';', param);
    FindFacts(param, ';');
    FindFacts(t, '@');
    assert Without(t, '@') by { assert forall i | |address| < i < |t| :: t[i] == param[i - |address| - 1]; }
    hide Allowed, Find, Sanitized;
    assert t[|address| + 1..] == param;
    WellFormedFixed(t);
  }

  lemma ParamDropped(address: string, param: string)
    requires Safe(address) && Without(address, ';') && Safe(param) && Without(param, ';') && !Allowed(param)
    ensures Sanitized(address + [';'] + param) == address
  {
    var t := address + [';'] + param;
    SafeAppendExact(address + [';'], param);
    SafeAppendExact(address, [';']);
    ControlsGone(t);
    UptoSafe(t);
    FindJoin(address, ';', param);
    FindFacts(param, ';');
    hide Allowed, WithoutControls, Find;
    assert t[..|address|] == address && t[|address| + 1..] == param;
    assert KeptParams(param) == "" && address + "" == address;
  }

  /** A parameter without a value: the domain is appended to its name, and the
      second reading drops the parameter together with the domain. */
  lemma DomainSwallowed(address: string, param: string, domain: string)
    requires IsWord(address) && IsWord(param) && IsWord(domain) && Allowed(param)
    requires !StartsWithScheme(address + [';'] + param)
    ensures var target := address + [';'] + param;
            var u := "sip:" + target + (['@'] + domain);
            Normalized(target, domain, Udp) == u && Normalized(u, domain, Udp) == "sip:" + address
  {
    var target := address + [';'] + param;
    WordsJoin(address, ';', param);
    TrimKept(target);
    ParamKept(address, param);
    SwallowedAgain(address, param, domain);
    hide Sanitized, Trim, StartsWithScheme, Find, Allowed, IsWord;
  }

  lemma SwallowedAgain(address: string, param: string, domain: string)
    requires IsWord(address) && IsWord(param) && IsWord(domain) && Allowed(param)
    ensures Normalized("sip:" + (address + [';'] + param) + (['@'] + domain), domain, Udp) == "sip:" + address
  {
    var front, named := "sip:" + address, param + (['@'] + domain);
    var u := front + [';'] + named;
    assert "sip:" + (address + [';'] + param) + (['@'] + domain) == u;
    FindFacts(param, '=');
    NameWithDomain(param, domain);
    SchemeSafe("sip:");
    FindFacts("sip:", ';');
    SafeAppendExact("sip:", address);
    SafeAppendExact(['@'], domain);
    AtSafe();
    SafeAppendExact(param, ['@'] + domain);
    assert Without(front, ';') && Without(named, ';');
    ParamDropped(front, named);
    SchemeFirst("sip:", address);
    assert u[|u| - 1] == domain[|domain| - 1] && u[0] == 's';
    TrimKept(u);
    hide Sanitized, Trim, StartsWithScheme, Find, Allowed, IsWord;
  }

  lemma DomainInParameterName()
    ensures Normalized("a;user", "d", Udp) == "sip:a;user@d"
    ensures Normalized("sip:a;user@d", "d", Udp) == "sip:a"
  {
    UserFacts();
    hide Normalized, Allowed, StartsWithScheme, IsWord;
    assert "a" + [';'] + "user" == "a;user" && "sip:" + "a;user" + (['@'] + "d") == "sip:a;user@d" && "sip:" + "a" == "sip:a";
    DomainSwallowed("a", "user", "d");
  }

  lemma UserFacts()
    ensures IsWord("a") && IsWord("user") && IsWord("d") && Allowed("user") && !StartsWithScheme("a;user")
  {
    UserAllowed();
    if StartsWithScheme("a;user") { SchemeChars("a;user"); }
    hide Allowed, StartsWithScheme;
  }

  lemma UserAllowed()
    ensures Allowed("user")
  {
    FindFacts("user", '=');
    LowerFacts("user");
    hide Find, Lower;
    assert Lower("user") == "user";
  }
}
