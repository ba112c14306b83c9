/** Sanitising is a projection onto the well-formed targets, and normalising is
    idempotent on blank-free targets that carry a scheme. */
module SipUriTheorems {
  import opened SipUri

  /** Every parameter is non-empty and allowed. */
  predicate AllAllowed(params: string)
    decreases |params|
  {
    var end := Find(params, ';');
    if end < 0 then params != "" && Allowed(params)
    else end > 0 && Allowed(params[..end]) && AllAllowed(params[end + 1..])
  }

  predicate Safe(s: string) {
    forall i | 0 <= i < |s| :: !IsControl(s[i]) && s[i] != '?'
  }

  /** No control characters, no headers, and only transport and user parameters. */
  predicate WellFormed(s: string) {
    Safe(s) && (Find(s, ';') >= 0 ==> AllAllowed(s[Find(s, ';') + 1..]))
  }

  // -------------------------------------------------------------------------
  // Searching and cutting
  // -------------------------------------------------------------------------

  predicate Without(s: string, c: char) {
    forall i | 0 <= i < |s| :: s[i] != c
  }

  lemma {:induction false} FindFacts(s: string, c: char)
    ensures Find(s, c) < 0 <==> Without(s, c)
    ensures Find(s, c) >= 0 ==> s[Find(s, c)] == c && Without(s[..Find(s, c)], c)
  {
    if s != "" && s[0] != c {
      FindFacts(s[1..], c);
      assert forall i | 0 < i < |s| :: s[i] == s[1..][i - 1];
      var k := Find(s[1..], c);
      if k >= 0 {
        assert forall i | 0 < i < k + 1 :: s[i] == s[1..][..k][i - 1];
      } else {
        assert Without(s[1..], c);
      }
    }
  }

  lemma {:induction false} FindJoin(a: string, c: char, b: string)
    requires Without(a, c)
    ensures Find(a + [c] + b, c) == |a|
  {
    if a != "" {
      assert (a + [c] + b)[1..] == a[1..] + [c] + b;
      FindJoin(a[1..], c, b);
    }
  }

  lemma {:induction false} FindAppend(a: string, b: string, c: char)
    ensures Find(a, c) >= 0 ==> Find(a + b, c) == Find(a, c)
    ensures Find(a, c) < 0 && Find(b, c) >= 0 ==> Find(a + b, c) == |a| + Find(b, c)
    ensures Find(a, c) < 0 && Find(b, c) < 0 ==> Find(a + b, c) < 0
  {
    if a == "" {
      assert a + b == b;
    } else {
      assert (a + b)[1..] == a[1..] + b;
      FindAppend(a[1..], b, c);
    }
  }

  // -------------------------------------------------------------------------
  // Sanitising
  // -------------------------------------------------------------------------

  lemma {:induction false} ControlsGone(s: string)
    ensures var t := WithoutControls(s);
            && |t| <= |s| && (forall i | 0 <= i < |t| :: !IsControl(t[i]))
            && ((forall i | 0 <= i < |s| :: !IsControl(s[i])) ==> t == s)
  {
    if s != "" {
      ControlsGone(s[1..]);
      if forall i | 0 <= i < |s| :: !IsControl(s[i]) {
        assert forall i | 0 <= i < |s[1..]| :: s[1..][i] == s[i + 1];
        assert s == [s[0]] + s[1..];
      }
    }
  }

  lemma UptoSafe(s: string)
    requires forall i | 0 <= i < |s| :: !IsControl(s[i])
    ensures Safe(Upto(s, '?')) && (Safe(s) ==> Upto(s, '?') == s)
  {
    FindFacts(s, '?');
    var q := Find(s, '?');
    if q >= 0 { assert forall i | 0 <= i < q :: s[..q][i] == s[i]; }
  }

  /** The kept parameters are nothing, or a semicolon and a list of allowed ones. */
  predicate KeptList(k: string) {
    k == "" || (k[0] == ';' && AllAllowed(k[1..]))
  }

  lemma {:induction false} KeptShape(params: string)
    ensures KeptList(KeptParams(params))
    ensures |KeptParams(params)| <= |params| + 1
    ensures Safe(params) ==> Safe(KeptParams(params))
    decreases |params|
  {
    FindFacts(params, ';');
    hide Safe, KeptList, KeptParam, Without, Find;
    var end := Find(params, ';');
    if end < 0 {
      KeptOneShape(params, "");
      KeptOneSafe(params, "");
      assert KeptParam(params) + "" == KeptParam(params);
    } else {
      if Safe(params) { SafeParts(params, end); }
      KeptShape(params[end + 1..]);
      KeptOneShape(params[..end], KeptParams(params[end + 1..]));
      KeptOneSafe(params[..end], KeptParams(params[end + 1..]));
    }
  }

  lemma SafeParts(s: string, k: nat)
    requires Safe(s) && k < |s|
    ensures Safe(s[..k]) && Safe(s[k + 1..])
  {
    assert forall i | k < i < |s| :: s[k + 1..][i - k - 1] == s[i];
  }

  lemma KeptOneSafe(param: string, rest: string)
    ensures |KeptParam(param) + rest| <= |param| + 1 + |rest|
    ensures Safe("")
    ensures Safe(param) && Safe(rest) ==> Safe(KeptParam(param) + rest)
  {
    hide Allowed;
  }

  lemma KeptOneShape(param: string, rest: string)
    requires Without(param, ';')
    ensures KeptList("")
    ensures KeptList(rest) ==> KeptList(KeptParam(param) + rest)
  {
    hide Allowed;
    var k := KeptParam(param) + rest;
    if KeptParam(param) == "" {
      assert k == rest;
    } else if rest == "" {
      assert k[1..] == param;
      FindFacts(param, ';');
    } else if KeptList(rest) {
      assert rest == [';'] + rest[1..];
      assert k[1..] == param + [';'] + rest[1..];
      FindJoin(param, ';', rest[1..]);
      assert k[1..][..|param|] == param && k[1..][|param| + 1..] == rest[1..];
    }
  }

  lemma {:induction false} AllKept(params: string)
    requires AllAllowed(params)
    ensures KeptParams(params) == [';'] + params
    decreases |params|
  {
    hide Allowed;
    var end := Find(params, ';');
    if end >= 0 {
      AllKept(params[end + 1..]);
      CutAt(params, ';');
      Regroup(params[..end], params[end + 1..]);
    }
  }

  lemma Regroup(a: string, b: string)
    ensures ([';'] + a) + ([';'] + b) == [';'] + (a + [';'] + b)
  {
  }

  lemma CutAt(s: string, c: char)
    requires Find(s, c) >= 0
    ensures s == s[..Find(s, c)] + [c] + s[Find(s, c) + 1..]
  {
    FindFacts(s, c);
  }

  lemma KeptFromWellFormed(s: string)
    requires Safe(s)
    ensures WellFormed(KeptFrom(s)) && |KeptFrom(s)| <= |s|
  {
    FindFacts(s, ';');
    var semi := Find(s, ';');
    if semi >= 0 {
      KeptShape(s[semi + 1..]);
      JoinWellFormed(s[..semi], KeptParams(s[semi + 1..]));
    }
  }

  lemma JoinWellFormed(address: string, kept: string)
    requires Safe(address) && Safe(kept) && Without(address, ';') && KeptList(kept)
    ensures WellFormed(address + kept)
  {
    hide AllAllowed;
    var t := address + kept;
    if kept == "" {
      FindFacts(address, ';');
      assert t == address;
    } else {
      assert t == address + [';'] + kept[1..];
      FindJoin(address, ';', kept[1..]);
      assert t[|address| + 1..] == kept[1..];
    }
  }

  lemma WellFormedFixed(s: string)
    requires WellFormed(s)
    ensures Sanitized(s) == s
  {
    ControlsGone(s);
    UptoSafe(s);
    WellFormedKept(s);
  }

  lemma WellFormedKept(s: string)
    requires WellFormed(s)
    ensures KeptFrom(s) == s
  {
    hide Find, AllAllowed, Safe, KeptParams;
    var semi := Find(s, ';');
    if semi >= 0 {
      AllKept(s[semi + 1..]);
      CutAt(s, ';');
      Associative(s[..semi], [';'], s[semi + 1..]);
    }
  }

  /** Whatever comes in, what comes out is well-formed. */
  lemma SanitizedIsWellFormed(s: string)
    ensures WellFormed(Sanitized(s)) && |Sanitized(s)| <= |s|
  {
    ControlsGone(s);
    UptoSafe(WithoutControls(s));
    KeptFromWellFormed(Upto(WithoutControls(s), '?'));
  }

  /** Exactly the well-formed targets are left alone. */
  lemma SanitizeFixpoints(s: string)
    ensures Sanitized(s) == s <==> WellFormed(s)
  {
    SanitizedIsWellFormed(s);
    if WellFormed(s) { WellFormedFixed(s); }
  }

  lemma SanitizeIsIdempotent(s: string)
    ensures Sanitized(Sanitized(s)) == Sanitized(s)
  {
    SanitizedIsWellFormed(s);
    WellFormedFixed(Sanitized(s));
  }

  // -------------------------------------------------------------------------
  // Normalising
  // -------------------------------------------------------------------------

  predicate EndsInBlank(s: string) {
    s != "" && IsSpace(s[|s| - 1])
  }

  lemma TrimKept(s: string)
    requires s != "" && !IsSpace(s[0])
    ensures !EndsInBlank(s) ==> Trim(s) == s
    ensures EndsInBlank(s) ==> |Trim(s)| < |s|
    ensures Trim(s) <= s
  {
    assert TrimLeft(s) == s;
    if EndsInBlank(s) { assert |TrimRight(s)| < |s| by { assert TrimRight(s) <= s; } }
  }

  /** The characters a scheme is made of: nothing sanitising would touch. */
  predicate SchemeChar(c: char) {
    c == ':' || 'a' <= c <= 'z' || 'A' <= c <= 'Z'
  }

  /** The scheme at the start of `s`. */
  function SchemeLength(s: string): (n: nat)
    requires StartsWithScheme(s)
    ensures 4 <= n <= |s| && n <= 5
  {
    if Lower(s[..4]) == "sip:" then 4 else 5
  }

  lemma {:induction false} LowerFacts(s: string)
    ensures |Lower(s)| == |s|
    ensures forall i | 0 <= i < |s| :: Lower(s)[i] == if 'A' <= s[i] <= 'Z' then s[i] + 32 as char else s[i]
  {
    if s != "" {
      LowerFacts(s[1..]);
      assert forall i | 0 < i < |s| :: s[i] == s[1..][i - 1];
    }
  }

  lemma SchemeChars(s: string)
    requires StartsWithScheme(s)
    ensures forall i | 0 <= i < SchemeLength(s) :: SchemeChar(s[i])
    ensures 'a' <= s[0] <= 'z' || 'A' <= s[0] <= 'Z'
  {
    var n := SchemeLength(s);
    LowerFacts(s[..n]);
    forall i | 0 <= i < n ensures SchemeChar(s[i]) {
      assert s[..n][i] == s[i];
      assert Lower(s[..n])[i] in "sips:";
    }
    assert s[..n][0] == s[0] && Lower(s[..n])[0] == 's';
  }

  lemma SameScheme(s: string, t: string)
    requires StartsWithScheme(s) && SchemeLength(s) <= |t| && t[..SchemeLength(s)] == s[..SchemeLength(s)]
    ensures StartsWithScheme(t)
  {
  }

  lemma {:induction false} ControlsKeep(s: string, n: nat)
    requires n <= |s| && forall i | 0 <= i < n :: !IsControl(s[i])
    ensures n <= |WithoutControls(s)| && WithoutControls(s)[..n] == s[..n]
  {
    if n > 0 {
      ControlsKeep(s[1..], n - 1);
      assert s[..n] == [s[0]] + s[1..][..n - 1];
      assert WithoutControls(s) == [s[0]] + WithoutControls(s[1..]);
    }
  }

  lemma {:induction false} FindBeyond(s: string, c: char, n: nat)
    requires n <= |s| && Without(s[..n], c)
    ensures Find(s, c) < 0 || Find(s, c) >= n
  {
    if n > 0 {
      assert s[..n][0] == s[0];
      assert s[1..][..n - 1] == s[..n][1..];
      FindBeyond(s[1..], c, n - 1);
    }
  }

  lemma UptoKeeps(s: string, c: char, n: nat)
    requires n <= |s| && Without(s[..n], c)
    ensures n <= |Upto(s, c)| && Upto(s, c)[..n] == s[..n]
  {
    FindBeyond(s, c, n);
  }

  lemma KeptFromKeeps(s: string, n: nat)
    requires n <= |s| && Without(s[..n], ';')
    ensures n <= |KeptFrom(s)| && KeptFrom(s)[..n] == s[..n]
  {
    FindBeyond(s, ';', n);
  }

  /** Sanitising never touches a scheme. */
  lemma SchemeStays(s: string)
    requires StartsWithScheme(s)
    ensures StartsWithScheme(Sanitized(s))
  {
    var n := SchemeLength(s);
    SchemeChars(s);
    ControlsKeep(s, n);
    var a := WithoutControls(s);
    assert forall i | 0 <= i < n :: a[..n][i] == s[i];
    UptoKeeps(a, '?', n);
    var b := Upto(a, '?');
    assert forall i | 0 <= i < n :: b[..n][i] == s[i];
    KeptFromKeeps(b, n);
    SameScheme(s, Sanitized(s));
  }

  lemma TrimmedScheme(s: string)
    requires StartsWithScheme(s)
    ensures StartsWithScheme(Trim(s))
  {
    SchemeChars(s);
    TrimKept(s);
    var n := SchemeLength(s);
    assert TrimLeft(s) == s;
    TrimRightKeeps(s, n);
    SameScheme(s, Trim(s));
  }

  lemma {:induction false} TrimRightKeeps(s: string, n: nat)
    requires 0 < n <= |s| && !IsSpace(s[n - 1])
    ensures n <= |TrimRight(s)| && TrimRight(s)[..n] == s[..n]
  {
    if IsSpace(s[|s| - 1]) {
      TrimRightKeeps(s[..|s| - 1], n);
      assert s[..|s| - 1][..n] == s[..n];
    }
  }

  /** Reading a target that carries a scheme once more changes nothing exactly
      if it is well-formed and does not end in a blank. */
  lemma SecondReading(u: string, domain: string, transport: Transport)
    requires StartsWithScheme(u)
    ensures Normalized(u, domain, transport) == u <==> WellFormed(u) && !EndsInBlank(u)
  {
    SchemeChars(u);
    TrimKept(u);
    TrimmedScheme(u);
    SchemeStays(Trim(u));
    SanitizedIsWellFormed(Trim(u));
    SanitizeFixpoints(Trim(u));
  }

  predicate BlankFree(s: string) {
    forall i | 0 <= i < |s| :: !IsSpace(s[i])
  }

  /** Blank-free targets that carry a scheme normalise once and for all. */
  lemma NormalizeIsIdempotent(target: string, domain: string, transport: Transport)
    requires BlankFree(target) && StartsWithScheme(target)
    ensures var u := Normalized(target, domain, transport);
            Normalized(u, domain, transport) == u
  {
    SchemeChars(target);
    TrimKept(target);
    SchemeStays(target);
    SanitizedBlankFree(target);
    SanitizedIsWellFormed(target);
    SecondReading(Sanitized(target), domain, transport);
  }

  lemma SanitizedBlankFree(s: string)
    requires BlankFree(s)
    ensures BlankFree(Sanitized(s))
  {
    ControlsBlankFree(s);
    hide WithoutControls, Find, KeptParams;
    var a := WithoutControls(s);
    var b := Upto(a, '?');
    assert BlankFree(b) by { assert forall i | 0 <= i < |b| :: b[i] == a[i]; }
    var semi := Find(b, ';');
    if semi >= 0 {
      BlankFreeParts(b, semi);
      KeptBlankFree(b[semi + 1..]);
    }
  }

  lemma {:induction false} ControlsBlankFree(s: string)
    requires BlankFree(s)
    ensures BlankFree(WithoutControls(s))
  {
    if s != "" {
      assert forall i | 0 <= i < |s[1..]| :: s[1..][i] == s[i + 1];
      ControlsBlankFree(s[1..]);
    }
  }

  lemma {:induction false} KeptBlankFree(params: string)
    requires BlankFree(params)
    ensures BlankFree(KeptParams(params))
    decreases |params|
  {
    hide KeptParam, BlankFree, Find;
    var end := Find(params, ';');
    if end >= 0 {
      BlankFreeParts(params, end);
      KeptBlankFree(params[end + 1..]);
      KeptOneBlankFree(params[..end], KeptParams(params[end + 1..]));
    } else {
      KeptOneBlankFree(params, "");
      assert KeptParam(params) + "" == KeptParam(params);
    }
  }

  lemma BlankFreeParts(s: string, k: nat)
    requires BlankFree(s) && k < |s|
    ensures BlankFree(s[..k]) && BlankFree(s[k + 1..])
  {
    assert forall i | k < i < |s| :: s[k + 1..][i - k - 1] == s[i];
  }

  lemma KeptOneBlankFree(param: string, rest: string)
    ensures BlankFree("")
    ensures BlankFree(param) && BlankFree(rest) ==> BlankFree(KeptParam(param) + rest)
  {
    hide Allowed;
  }
}
