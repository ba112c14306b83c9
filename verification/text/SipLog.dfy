/** Scrubbing digest secrets from a log line, in place in a growing buffer. */
module SipLog {
  const QUOTE: char := '"'
  const MASK := "<redacted>"
  const RESPONSE := "response="
  const CNONCE := "cnonce="

  /** The keys, without the quote that ends them in the text. */
  predicate IsKey(key: string) {
    key == RESPONSE || key == CNONCE
  }

  /** The first `c` in `s`, -1 if there is none. */
  function Find(s: string, c: char): (i: int)
    ensures -1 <= i < |s|
  {
    if s == "" then -1
    else if s[0] == c then 0
    else if Find(s[1..], c) < 0 then -1
    else Find(s[1..], c) + 1
  }

  predicate EndsWith(s: string, suffix: string) {
    |suffix| <= |s| && s[|s| - |suffix|..] == suffix
  }

  // -------------------------------------------------------------------------
  // The reference: quote by quote
  // -------------------------------------------------------------------------

  /** The text between a quote that ends `key="` and the next quote is masked;
      nothing else changes. */
  function Pass(s: string, key: string): string
    decreases |s|
  {
    var q := Find(s, QUOTE);
    if q < 0 then s
    else
      var rest := s[q + 1..];
      var v := Find(rest, QUOTE);
      if EndsWith(s[..q], key) && v >= 0
      then s[..q + 1] + (MASK + [QUOTE] + Pass(rest[v + 1..], key))
      else s[..q + 1] + Pass(rest, key)
  }

  function Redacted(s: string): string {
    Pass(Pass(s, RESPONSE), CNONCE)
  }

  // -------------------------------------------------------------------------
  // Searching
  // -------------------------------------------------------------------------

  predicate NoQuotes(s: string, from: nat, to: nat) {
    forall k | from <= k < to && k < |s| :: s[k] != QUOTE
  }

  lemma {:induction false} FindFacts(s: string)
    ensures Find(s, QUOTE) >= 0 ==> s[Find(s, QUOTE)] == QUOTE && NoQuotes(s, 0, Find(s, QUOTE))
    ensures Find(s, QUOTE) < 0 ==> NoQuotes(s, 0, |s|)
  {
    if s != "" && s[0] != QUOTE {
      FindFacts(s[1..]);
      assert forall k | 0 < k < |s| :: s[k] == s[1..][k - 1];
    }
  }

  lemma {:induction false} FindIs(s: string, i: nat)
    requires i < |s| && s[i] == QUOTE && NoQuotes(s, 0, i)
    ensures Find(s, QUOTE) == i
  {
    if i > 0 { FindIs(s[1..], i - 1); }
  }

  lemma {:induction false} FindNone(s: string)
    requires NoQuotes(s, 0, |s|)
    ensures Find(s, QUOTE) == -1
  {
    if s != "" { FindNone(s[1..]); }
  }

  /** The next quote at or behind `from`, |s| if there is none. */
  function NextQuote(s: string, from: nat): (q: nat)
    requires from <= |s|
    ensures from <= q <= |s| && NoQuotes(s, from, q) && (q < |s| ==> s[q] == QUOTE)
    decreases |s| - from
  {
    if from == |s| || s[from] == QUOTE then from else NextQuote(s, from + 1)
  }

  predicate Occurs(s: string, key: string, p: int) {
    0 <= p && p + |key| < |s| && s[p..p + |key|] == key && s[p + |key|] == QUOTE
  }

  /** The first `key="` at or behind `from`, -1 if there is none. */
  method FindKey(s: string, key: string, from: nat) returns (p: int)
    requires from <= |s|
    ensures p == -1 || (from <= p && Occurs(s, key, p))
    ensures forall k | from <= k && (p == -1 || k < p) :: !Occurs(s, key, k)
  {
    p := from;
    while p < |s|
      invariant from <= p <= |s|
      invariant forall k | from <= k < p :: !Occurs(s, key, k)
    {
      if p + |key| < |s| && s[p..p + |key|] == key && s[p + |key|] == QUOTE { return; }
      p := p + 1;
    }
    p := -1;
  }

  lemma KeysAreQuoteFree(key: string)
    requires IsKey(key)
    ensures NoQuotes(key, 0, |key|) && NoQuotes(MASK, 0, |MASK|) && !EndsWith(MASK, key)
  {
    assert MASK[|MASK| - 1] == '>';
    assert key[|key| - 1] == '=';
  }

  lemma OccurrenceFacts(s: string, key: string, p: int)
    requires IsKey(key) && Occurs(s, key, p)
    ensures 0 <= p && p + |key| < |s| && s[p + |key|] == QUOTE && NoQuotes(s, p, p + |key|)
  {
    KeysAreQuoteFree(key);
    forall k | p <= k < p + |key| ensures s[k] != QUOTE {
      assert s[k] == s[p..p + |key|][k - p];
    }
  }

  /** A segment of text ends with the key exactly if the key occurs there. */
  lemma SegmentEnds(s: string, key: string, from: nat, q: nat)
    requires from <= q < |s| && s[q] == QUOTE
    ensures EndsWith(s[from..q], key) <==> from <= q - |key| && Occurs(s, key, q - |key|)
  {
    if from <= q - |key| { assert s[from..q][q - from - |key|..] == s[q - |key|..q]; }
  }

  // -------------------------------------------------------------------------
  // What the buffer will become
  // -------------------------------------------------------------------------

  /** The final text if everything before `pos` stays. */
  function Outcome(s: string, pos: nat, key: string): string
    requires pos <= |s|
  {
    s[..pos] + Pass(s[pos..], key)
  }

  lemma Regroup(s: string, from: nat, to: nat, tail: string)
    requires from <= to <= |s|
    ensures s[..from] + (s[from..][..to - from] + tail) == s[..to] + tail
    ensures s[from..][to - from..] == s[to..]
  {
    assert s[..from] + s[from..][..to - from] == s[..to];
  }

  /** A segment that does not end with the key is passed over. */
  lemma SkipQuote(s: string, pos: nat, q: nat, key: string)
    requires pos <= q < |s| && s[q] == QUOTE && NoQuotes(s, pos, q) && !EndsWith(s[pos..q], key)
    ensures Outcome(s, pos, key) == Outcome(s, q + 1, key)
  {
    var t := s[pos..];
    FindIs(t, q - pos);
    assert t[..q - pos] == s[pos..q];
    Regroup(s, pos, q + 1, Pass(s[q + 1..], key));
  }

  /** Without a quote, or behind a key whose value never ends, nothing changes. */
  lemma NoMoreQuotes(s: string, pos: nat, key: string)
    requires pos <= |s| && NoQuotes(s, pos, |s|)
    ensures Outcome(s, pos, key) == s
  {
    FindNone(s[pos..]);
  }

  lemma Unclosed(s: string, pos: nat, q: nat, key: string)
    requires pos <= q < |s| && s[q] == QUOTE && NoQuotes(s, pos, q) && NoQuotes(s, q + 1, |s|)
    ensures Outcome(s, pos, key) == s
  {
    var t := s[pos..];
    FindIs(t, q - pos);
    FindNone(t[q - pos + 1..]);
    assert Pass(t[q - pos + 1..], key) == t[q - pos + 1..];
    Regroup(s, pos, q + 1, s[q + 1..]);
    assert s[..q + 1] + s[q + 1..] == s;
  }

  lemma PassKeepsHead(head: string, tail: string, key: string)
    requires NoQuotes(head, 0, |head|) && !EndsWith(head, key)
    ensures Pass(head + [QUOTE] + tail, key) == head + [QUOTE] + Pass(tail, key)
  {
    var s := head + [QUOTE] + tail;
    FindIs(s, |head|);
    assert s[..|head|] == head && s[..|head| + 1] == head + [QUOTE] && s[|head| + 1..] == tail;
  }

  /** The buffer after one replacement. */
  function Replaced(s: string, valStart: nat, valEnd: nat): string
    requires valStart <= valEnd <= |s|
  {
    s[..valStart] + MASK + s[valEnd..]
  }

  lemma ReplacedParts(s: string, valStart: nat, valEnd: nat)
    requires valStart <= valEnd < |s| && s[valEnd] == QUOTE
    ensures var n := Replaced(s, valStart, valEnd);
            n[..valStart] == s[..valStart] && n[valStart..] == MASK + [QUOTE] + s[valEnd + 1..]
  {
    assert s[valEnd..] == [QUOTE] + s[valEnd + 1..];
  }

  /** The value behind a key is masked, and the search goes on right there. */
  lemma MaskValue(s: string, pos: nat, q: nat, v: nat, key: string)
    requires IsKey(key) && pos <= q < v < |s| && s[q] == QUOTE && s[v] == QUOTE
    requires NoQuotes(s, pos, q) && EndsWith(s[pos..q], key) && NoQuotes(s, q + 1, v)
    ensures Outcome(s, pos, key) == Outcome(Replaced(s, q + 1, v), q + 1, key)
  {
    hide Pass, EndsWith, IsKey, Replaced, NoQuotes;
    KeysAreQuoteFree(key);
    ReplacedParts(s, q + 1, v);
    PassKeepsHead(MASK, s[v + 1..], key);
    PassMasks(s, pos, q, v, key);
    var masked := MASK + [QUOTE] + Pass(s[v + 1..], key);
    Regroup(s, pos, q + 1, masked);
    assert Outcome(s, pos, key) == s[..q + 1] + masked;
  }

  lemma PassOfSegments(head: string, value: string, tail: string, key: string)
    requires NoQuotes(head, 0, |head|) && NoQuotes(value, 0, |value|) && EndsWith(head, key)
    ensures Pass(head + [QUOTE] + (value + [QUOTE] + tail), key) == head + [QUOTE] + (MASK + [QUOTE] + Pass(tail, key))
  {
    var rest := value + [QUOTE] + tail;
    var t := head + [QUOTE] + rest;
    FindIs(t, |head|);
    FindIs(rest, |value|);
    assert t[..|head|] == head && t[..|head| + 1] == head + [QUOTE] && t[|head| + 1..] == rest;
    assert rest[|value| + 1..] == tail;
    hide Find, EndsWith, NoQuotes;
  }

  lemma Segments(s: string, pos: nat, q: nat, v: nat)
    requires pos <= q < v < |s| && s[q] == QUOTE && s[v] == QUOTE
    requires NoQuotes(s, pos, q) && NoQuotes(s, q + 1, v)
    ensures s[pos..] == s[pos..q] + [QUOTE] + (s[q + 1..v] + [QUOTE] + s[v + 1..])
    ensures NoQuotes(s[pos..q], 0, q - pos) && NoQuotes(s[q + 1..v], 0, v - q - 1)
    ensures s[pos..][..q + 1 - pos] == s[pos..q] + [QUOTE]
  {
  }

  lemma PassMasks(s: string, pos: nat, q: nat, v: nat, key: string)
    requires pos <= q < v < |s| && s[q] == QUOTE && s[v] == QUOTE
    requires NoQuotes(s, pos, q) && EndsWith(s[pos..q], key) && NoQuotes(s, q + 1, v)
    ensures Pass(s[pos..], key) == s[pos..][..q + 1 - pos] + (MASK + [QUOTE] + Pass(s[v + 1..], key))
  {
    hide Find, EndsWith, NoQuotes, Pass;
    Segments(s, pos, q, v);
    PassOfSegments(s[pos..q], s[q + 1..v], s[v + 1..], key);
  }

  /** All segments before the first occurrence are passed over. */
  lemma {:induction false} SkipTo(s: string, pos: nat, p: nat, key: string) returns (from: nat)
    requires IsKey(key) && pos <= p && Occurs(s, key, p) && forall k | pos <= k < p :: !Occurs(s, key, k)
    ensures pos <= from <= p && NoQuotes(s, from, p + |key|)
    ensures Outcome(s, pos, key) == Outcome(s, from, key)
    decreases |s| - pos
  {
    OccurrenceFacts(s, key, p);
    hide Outcome, Occurs, EndsWith, IsKey;
    var q := NextQuote(s, pos);
    if q >= p {
      from := pos;
    } else {
      SegmentEnds(s, key, pos, q);
      SkipQuote(s, pos, q, key);
      from := SkipTo(s, q + 1, p, key);
    }
  }

  lemma {:induction false} NoneLeft(s: string, pos: nat, key: string)
    requires pos <= |s| && forall k | pos <= k :: !Occurs(s, key, k)
    ensures Outcome(s, pos, key) == s
    decreases |s| - pos
  {
    hide Outcome, Occurs, EndsWith;
    var q := NextQuote(s, pos);
    if q == |s| {
      NoMoreQuotes(s, pos, key);
    } else {
      SegmentEnds(s, key, pos, q);
      SkipQuote(s, pos, q, key);
      NoneLeft(s, q + 1, key);
    }
  }

  // -------------------------------------------------------------------------
  // The loop
  // -------------------------------------------------------------------------

  function Quotes(s: string, from: nat): nat
    requires from <= |s|
    decreases |s| - from
  {
    if from == |s| then 0 else Quotes(s, from + 1) + if s[from] == QUOTE then 1 else 0
  }

  lemma {:induction false} FewerQuotes(s: string, from: nat, quote: nat, to: nat)
    requires from <= quote < to <= |s| && s[quote] == QUOTE
    ensures Quotes(s, to) < Quotes(s, from)
    decreases |s| - from
  {
    if from < quote {
      FewerQuotes(s, from + 1, quote, to);
    } else {
      QuotesGrow(s, from + 1, to);
    }
  }

  lemma {:induction false} QuotesGrow(s: string, from: nat, to: nat)
    requires from <= to <= |s|
    ensures Quotes(s, to) <= Quotes(s, from)
    decreases |s| - from
  {
    if from < to { QuotesGrow(s, from + 1, to); }
  }

  /** The replacement brings in no quote. */
  lemma ReplacedQuotes(s: string, valStart: nat, valEnd: nat)
    requires valStart <= valEnd <= |s|
    ensures Quotes(Replaced(s, valStart, valEnd), valStart) == Quotes(s, valEnd)
  {
    var n := Replaced(s, valStart, valEnd);
    KeysAreQuoteFree(RESPONSE);
    forall k | valStart <= k < valStart + |MASK| ensures n[k] != QUOTE {
      assert n[k] == MASK[k - valStart];
    }
    MaskQuotes(n, valStart, valStart + |MASK|);
    SameQuotes(n, valStart + |MASK|, s, valEnd);
  }

  lemma {:induction false} MaskQuotes(n: string, from: nat, to: nat)
    requires from <= to <= |n| && NoQuotes(n, from, to)
    ensures Quotes(n, from) == Quotes(n, to)
    decreases |n| - from
  {
    if from < to { MaskQuotes(n, from + 1, to); }
  }

  lemma {:induction false} SameQuotes(a: string, i: nat, b: string, j: nat)
    requires i <= |a| && j <= |b| && a[i..] == b[j..]
    ensures Quotes(a, i) == Quotes(b, j)
    decreases |a| - i
  {
    assert |a| - i == |a[i..]| == |b[j..]| == |b| - j;
    if i < |a| {
      assert a[i] == a[i..][0] == b[j..][0] == b[j];
      assert a[i + 1..] == a[i..][1..] == b[j..][1..] == b[j + 1..];
      SameQuotes(a, i + 1, b, j + 1);
    }
  }

  /** What is still to be done, seen from the first key found. */
  lemma FoundAt(s: string, pos: nat, p: nat, key: string)
    requires IsKey(key) && pos <= p && Occurs(s, key, p) && forall k | pos <= k < p :: !Occurs(s, key, k)
    ensures var valStart := p + |key| + 1;
            && valStart <= |s|
            && var v := NextQuote(s, valStart);
            && (v == |s| ==> Outcome(s, pos, key) == s)
            && (v < |s| ==>
                  Outcome(s, pos, key) == Outcome(Replaced(s, valStart, v), valStart, key)
                  && Quotes(Replaced(s, valStart, v), valStart) < Quotes(s, pos))
  {
    OccurrenceFacts(s, key, p);
    hide Outcome, Occurs, EndsWith, IsKey, Quotes, Replaced;
    var q := p + |key|;
    var v := NextQuote(s, q + 1);
    var from := SkipTo(s, pos, p, key);
    SegmentEnds(s, key, from, q);
    if v == |s| {
      Unclosed(s, from, q, key);
    } else {
      MaskValue(s, from, q, v, key);
      ReplacedQuotes(s, q + 1, v);
      FewerQuotes(s, pos, q, v);
    }
  }

  /** One pass over the buffer. A replacement may lengthen the buffer, but uses
      up a quote. */
  method RedactKey(line: string, key: string) returns (s: string)
    requires IsKey(key)
    ensures s == Pass(line, key)
  {
    s := line;
    var pos := 0;
    assert s[..0] == "" && s[0..] == s;
    assert Outcome(s, 0, key) == Pass(line, key);
    hide Pass, Outcome, Quotes, Occurs, IsKey;
    while true
      invariant 0 <= pos <= |s|
      invariant Outcome(s, pos, key) == Pass(line, key)
      decreases Quotes(s, pos)
    {
      var p := FindKey(s, key, pos);
      if p == -1 {
        NoneLeft(s, pos, key);
        return;
      }
      FoundAt(s, pos, p, key);
      var valStart := p + |key| + 1;
      var valEnd := NextQuote(s, valStart);
      if valEnd == |s| { return; }
      s := s[..valStart] + MASK + s[valEnd..];
      pos := valStart;
    }
  }

  method RedactCredentials(line: string) returns (s: string)
    ensures s == Redacted(line)
  {
    s := RedactKey(line, RESPONSE);
    s := RedactKey(s, CNONCE);
  }
}
