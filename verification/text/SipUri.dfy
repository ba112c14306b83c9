/** Cleaning and completing a dial target. */
module SipUri {
  datatype Transport = Udp | Tcp | Tls

  // -------------------------------------------------------------------------
  // The code's own steps
  // -------------------------------------------------------------------------

  /** isspace in the C locale. */
  predicate IsSpace(c: char) {
    c == ' ' || '\t' <= c <= '\r'
  }

  function TrimLeft(s: string): (t: string)
    ensures |t| <= |s| && (t == s || |t| < |s|)
    ensures t == "" || !IsSpace(t[0])
  {
    if s != "" && IsSpace(s[0]) then TrimLeft(s[1..]) else s
  }

  function TrimRight(s: string): (t: string)
    ensures t <= s
    ensures t == "" || !IsSpace(t[|t| - 1])
  {
    if s != "" && IsSpace(s[|s| - 1]) then TrimRight(s[..|s| - 1]) else s
  }

  function Trim(s: string): string {
    TrimRight(TrimLeft(s))
  }

  predicate IsControl(c: char) {
    c < ' ' || c == 0x7F as char
  }

  function WithoutControls(s: string): string {
    if s == "" then ""
    else (if IsControl(s[0]) then "" else [s[0]]) + WithoutControls(s[1..])
  }

  function Find(s: string, c: char): (i: int)
    ensures -1 <= i < |s|
  {
    if s == "" then -1
    else if s[0] == c then 0
    else if Find(s[1..], c) < 0 then -1
    else Find(s[1..], c) + 1
  }

  /** The text before the first `c`. */
  function Upto(s: string, c: char): string {
    if Find(s, c) < 0 then s else s[..Find(s, c)]
  }

  function Lower(s: string): string {
    if s == "" then ""
    else [if 'A' <= s[0] <= 'Z' then s[0] + 32 as char else s[0]] + Lower(s[1..])
  }

  predicate Allowed(param: string) {
    Lower(Upto(param, '=')) == "transport" || Lower(Upto(param, '=')) == "user"
  }

  function KeptParam(param: string): string {
    if param != "" && Allowed(param) then [';'] + param else ""
  }

  /** The allowed parameters of a parameter list, each with its semicolon. */
  function KeptParams(params: string): string
    decreases |params|
  {
    var end := Find(params, ';');
    if end < 0 then KeptParam(params) else KeptParam(params[..end]) + KeptParams(params[end + 1..])
  }

  function KeptFrom(s: string): string {
    var semi := Find(s, ';');
    if semi < 0 then s else s[..semi] + KeptParams(s[semi + 1..])
  }

  function Sanitized(s: string): string {
    KeptFrom(Upto(WithoutControls(s), '?'))
  }

  predicate StartsWithScheme(s: string) {
    (|s| >= 4 && Lower(s[..4]) == "sip:") || (|s| >= 5 && Lower(s[..5]) == "sips:")
  }

  function SchemeFor(transport: Transport): string {
    if transport == Tls then "sips:" else "sip:"
  }

  function Normalized(target: string, domain: string, transport: Transport): string {
    var clean := Sanitized(Trim(target));
    if clean == "" then ""
    else if StartsWithScheme(clean) then clean
    else SchemeFor(transport) + clean + if Find(clean, '@') < 0 && domain != "" then ['@'] + domain else ""
  }

  // -------------------------------------------------------------------------
  // As loops
  // -------------------------------------------------------------------------

  method SanitizeTarget(target: string) returns (out: string)
    ensures out == Sanitized(target)
  {
    hide WithoutControls, Find, KeptParams;
    var s := RemoveControls(target);
    var q := Find(s, '?');
    if q >= 0 { s := s[..q]; }
    var semi := Find(s, ';');
    if semi < 0 { return s; }
    out := KeepAllowed(s[..semi], s[semi + 1..]);
  }

  lemma Associative(a: string, b: string, c: string)
    ensures (a + b) + c == a + (b + c)
  {
  }

  /** Appends the allowed parameters to the address. */
  method KeepAllowed(address: string, params: string) returns (out: string)
    ensures out == address + KeptParams(params)
  {
    hide Find, KeptParam;
    out := address;
    var start := 0;
    assert params[0..] == params;
    while true
      invariant 0 <= start <= |params|
      invariant out + KeptParams(params[start..]) == address + KeptParams(params)
      decreases |params| - start
    {
      var rest := params[start..];
      var end := Find(rest, ';');
      var kept := KeepOne(if end < 0 then rest else rest[..end]);
      ghost var before := out;
      out := out + kept;
      if end < 0 { return; }
      assert rest[end + 1..] == params[start + end + 1..];
      Associative(before, kept, KeptParams(rest[end + 1..]));
      start := start + end + 1;
    }
  }

  method KeepOne(param: string) returns (kept: string)
    ensures kept == KeptParam(param)
  {
    kept := "";
    if param != "" {
      var eq := Find(param, '=');
      var name := Lower(if eq < 0 then param else param[..eq]);
      if name == "transport" || name == "user" {
        kept := [';'] + param;
      }
    }
  }

  method RemoveControls(s: string) returns (t: string)
    ensures t == WithoutControls(s)
  {
    t := "";
    var i := 0;
    assert s[0..] == s;
    while i < |s|
      invariant 0 <= i <= |s|
      invariant t + WithoutControls(s[i..]) == WithoutControls(s)
    {
      assert s[i..][1..] == s[i + 1..];
      if !IsControl(s[i]) { t := t + [s[i]]; }
      i := i + 1;
    }
  }

  method NormalizeSipTarget(target: string, domain: string, transport: Transport) returns (uri: string)
    ensures uri == Normalized(target, domain, transport)
  {
    var cleanTarget := SanitizeTarget(Trim(target));
    if cleanTarget == "" { return ""; }
    if StartsWithScheme(cleanTarget) { return cleanTarget; }
    uri := SchemeFor(transport);
    uri := uri + cleanTarget;
    if Find(cleanTarget, '@') < 0 && domain != "" {
      uri := uri + ['@'];
      uri := uri + domain;
    }
  }
}
