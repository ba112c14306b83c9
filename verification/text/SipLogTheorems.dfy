/** What redaction achieves: every closed value is masked, and a second run
    changes nothing. */
module SipLogTheorems {
  import opened SipLog

  predicate Masked(t: string) {
    |MASK| < |t| && t[..|MASK|] == MASK && t[|MASK|] == QUOTE
  }

  /** `key="` at `p` is followed by the mask, or by no quote at all. */
  predicate Followed(s: string, key: string, p: nat) {
    var from := p + |key| + 1;
    NoQuotes(s, from, |s|) || (from <= |s| && Masked(s[from..]))
  }

  ghost predicate Complete(s: string, key: string) {
    forall p: nat | Occurs(s, key, p) :: Followed(s, key, p)
  }

  // -------------------------------------------------------------------------
  // Segment by segment
  // -------------------------------------------------------------------------

  /** Completeness, read off quote by quote. */
  predicate Closed(s: string, key: string)
    decreases |s|
  {
    var q := Find(s, QUOTE);
    q >= 0 ==> (EndsWith(s[..q], key) && Find(s[q + 1..], QUOTE) >= 0 ==> Masked(s[q + 1..])) && Closed(s[q + 1..], key)
  }

  function Join(head: string, tail: string): string {
    head + [QUOTE] + tail
  }

  lemma JoinFacts(head: string, tail: string)
    requires NoQuotes(head, 0, |head|)
    ensures var s := Join(head, tail);
            Find(s, QUOTE) == |head| && s[..|head|] == head && s[|head| + 1..] == tail
            && s[..|head| + 1] == head + [QUOTE]
  {
    FindIs(Join(head, tail), |head|);
  }

  /** Every text with a quote is a segment, the quote and a rest. */
  lemma Cut(s: string) returns (head: string, tail: string)
    requires Find(s, QUOTE) >= 0
    ensures s == Join(head, tail) && NoQuotes(head, 0, |head|) && |tail| < |s|
    ensures head == s[..Find(s, QUOTE)] && tail == s[Find(s, QUOTE) + 1..]
  {
    FindFacts(s);
    var q := Find(s, QUOTE);
    head, tail := s[..q], s[q + 1..];
  }

  lemma ClosedJoin(head: string, tail: string, key: string)
    requires NoQuotes(head, 0, |head|)
    ensures Closed(Join(head, tail), key)
            <==> (EndsWith(head, key) && Find(tail, QUOTE) >= 0 ==> Masked(tail)) && Closed(tail, key)
  {
    JoinFacts(head, tail);
  }

  lemma PassJoin(head: string, tail: string, key: string)
    requires NoQuotes(head, 0, |head|)
    ensures !(EndsWith(head, key) && Find(tail, QUOTE) >= 0) ==> Pass(Join(head, tail), key) == Join(head, Pass(tail, key))
  {
    JoinFacts(head, tail);
    hide Find, EndsWith, NoQuotes;
  }

  lemma PassJoinMasked(head: string, value: string, tail: string, key: string)
    requires NoQuotes(head, 0, |head|) && NoQuotes(value, 0, |value|) && EndsWith(head, key)
    ensures Pass(Join(head, Join(value, tail)), key) == Join(head, Join(MASK, Pass(tail, key)))
  {
    JoinFacts(head, Join(value, tail));
    JoinFacts(value, tail);
    hide Find, EndsWith, NoQuotes;
  }

  lemma MaskJoin(tail: string)
    ensures Masked(Join(MASK, tail)) && NoQuotes(MASK, 0, |MASK|)
  {
    KeysAreQuoteFree(RESPONSE);
  }

  /** A masked text is the mask, a quote and a rest. */
  lemma CutMask(t: string) returns (tail: string)
    requires Masked(t)
    ensures t == Join(MASK, tail) && |tail| < |t|
  {
    tail := t[|MASK| + 1..];
  }

  // -------------------------------------------------------------------------
  // Passes and closedness
  // -------------------------------------------------------------------------

  lemma PassQuote(t: string, key: string)
    ensures Find(Pass(t, key), QUOTE) >= 0 <==> Find(t, QUOTE) >= 0
  {
    if Find(t, QUOTE) >= 0 {
      var head, tail := Cut(t);
      if EndsWith(head, key) && Find(tail, QUOTE) >= 0 {
        var value, rest := Cut(tail);
        PassJoinMasked(head, value, rest, key);
        JoinFacts(head, Join(MASK, Pass(rest, key)));
      } else {
        PassJoin(head, tail, key);
        JoinFacts(head, Pass(tail, key));
      }
    }
  }

  lemma PassKeepsMask(t: string, key: string)
    requires IsKey(key) && Masked(t)
    ensures Masked(Pass(t, key))
  {
    var tail := CutMask(t);
    KeysAreQuoteFree(key);
    PassJoin(MASK, tail, key);
    MaskJoin(Pass(tail, key));
  }

  lemma {:induction false} PassCloses(s: string, key: string)
    requires IsKey(key)
    ensures Closed(Pass(s, key), key)
    decreases |s|
  {
    hide Find, EndsWith, NoQuotes, Masked, Join;
    if Find(s, QUOTE) >= 0 {
      var head, tail := Cut(s);
      if EndsWith(head, key) && Find(tail, QUOTE) >= 0 {
        var value, rest := Cut(tail);
        PassJoinMasked(head, value, rest, key);
        PassCloses(rest, key);
        ClosedMask(head, Pass(rest, key), key);
      } else {
        PassJoin(head, tail, key);
        PassCloses(tail, key);
        PassQuote(tail, key);
        ClosedJoin(head, Pass(tail, key), key);
      }
    }
  }

  lemma ClosedMask(head: string, tail: string, key: string)
    requires IsKey(key) && NoQuotes(head, 0, |head|) && Closed(tail, key)
    ensures Closed(Join(head, Join(MASK, tail)), key)
  {
    hide Closed, Join;
    KeysAreQuoteFree(key);
    MaskJoin(tail);
    ClosedJoin(MASK, tail, key);
    ClosedJoin(head, Join(MASK, tail), key);
  }

  /** The pass for one key does not undo the pass for the other, even where the
      text of one key lies in the value of the other. */
  lemma {:induction false} PassKeepsClosed(s: string, key: string, other: string)
    requires IsKey(key) && IsKey(other) && Closed(s, other)
    ensures Closed(Pass(s, key), other)
    decreases |s|
  {
    hide Find, EndsWith, NoQuotes, Masked, Join, Closed, Pass;
    if Find(s, QUOTE) >= 0 {
      var head, tail := Cut(s);
      ClosedJoin(head, tail, other);
      if EndsWith(head, key) && Find(tail, QUOTE) >= 0 {
        var value, rest := Cut(tail);
        ClosedJoin(value, rest, other);
        PassJoinMasked(head, value, rest, key);
        PassKeepsClosed(rest, key, other);
        ClosedMask(head, Pass(rest, key), other);
      } else {
        PassJoin(head, tail, key);
        PassKeepsClosed(tail, key, other);
        PassQuote(tail, key);
        if Masked(tail) { PassKeepsMask(tail, key); }
        ClosedJoin(head, Pass(tail, key), other);
      }
    } else {
      NoPass(s, key);
    }
  }

  lemma NoPass(s: string, key: string)
    requires Find(s, QUOTE) < 0
    ensures Pass(s, key) == s
  {
  }

  lemma {:induction false} ClosedIsFixed(s: string, key: string)
    requires IsKey(key) && Closed(s, key)
    ensures Pass(s, key) == s
    decreases |s|
  {
    hide Find, EndsWith, NoQuotes, Masked, Join, Closed, Pass;
    if Find(s, QUOTE) >= 0 {
      var head, tail := Cut(s);
      ClosedJoin(head, tail, key);
      if EndsWith(head, key) && Find(tail, QUOTE) >= 0 {
        var rest := CutMask(tail);
        MaskJoin(rest);
        ClosedJoin(MASK, rest, key);
        PassJoinMasked(head, MASK, rest, key);
        ClosedIsFixed(rest, key);
      } else {
        PassJoin(head, tail, key);
        ClosedIsFixed(tail, key);
      }
    } else {
      NoPass(s, key);
    }
  }

  // -------------------------------------------------------------------------
  // Main results
  // -------------------------------------------------------------------------

  lemma OccursShift(s: string, key: string, from: nat, p: nat)
    requires from <= p && Occurs(s, key, p)
    ensures from <= |s| && Occurs(s[from..], key, p - from)
  {
    assert s[from..][p - from..p - from + |key|] == s[p..p + |key|];
  }

  lemma NoQuotesShift(s: string, from: nat, k: nat)
    requires from <= |s|
    ensures NoQuotes(s[from..], k, |s| - from) <==> NoQuotes(s, from + k, |s|)
  {
    assert forall i | from <= i < |s| :: s[i] == s[from..][i - from];
  }

  lemma FollowedShift(s: string, key: string, from: nat, p: nat)
    requires from <= p && from <= |s| && Followed(s[from..], key, p - from)
    ensures Followed(s, key, p)
  {
    hide NoQuotes, Masked;
    NoQuotesShift(s, from, p - from + |key| + 1);
    var at := p + |key| + 1;
    if at <= |s| { assert s[from..][at - from..] == s[at..]; }
  }

  /** The occurrence that ends at the first quote. */
  lemma FirstFollowed(s: string, key: string, q: nat)
    requires q == Find(s, QUOTE) && |key| <= q && EndsWith(s[..q], key) && Closed(s, key)
    ensures Followed(s, key, q - |key|)
  {
    hide NoQuotes, Masked, Find, EndsWith;
    FindFacts(s[q + 1..]);
    NoQuotesShift(s, q + 1, 0);
    assert q - |key| + |key| + 1 == q + 1;
  }

  lemma ClosedRest(s: string, key: string)
    requires Closed(s, key) && Find(s, QUOTE) >= 0
    ensures Closed(s[Find(s, QUOTE) + 1..], key)
  {
    hide Find, EndsWith, Masked;
  }

  lemma {:induction false} ClosedIsComplete(s: string, key: string, p: nat)
    requires IsKey(key) && Closed(s, key) && Occurs(s, key, p)
    ensures Followed(s, key, p)
    decreases |s|
  {
    hide IsKey, Closed, Occurs, Followed, Find, EndsWith, NoQuotes, Masked;
    var q := FirstOrBehind(s, key, p);
    if q == p + |key| {
      FirstFollowed(s, key, q);
    } else {
      ClosedRest(s, key);
      OccursShift(s, key, q + 1, p);
      ClosedIsComplete(s[q + 1..], key, p - q - 1);
      FollowedShift(s, key, q + 1, p);
    }
  }

  lemma FirstOrBehind(s: string, key: string, p: nat) returns (q: nat)
    requires IsKey(key) && Occurs(s, key, p)
    ensures q == Find(s, QUOTE) && q < |s|
    ensures (q == p + |key| && EndsWith(s[..q], key)) || q < p
  {
    OccurrenceFacts(s, key, p);
    hide Occurs, EndsWith, IsKey;
    FindFacts(s);
    assert Find(s, QUOTE) >= 0 && Find(s, QUOTE) <= p + |key|;
    q := Find(s, QUOTE);
    SegmentEnds(s, key, 0, q);
    assert s[0..q] == s[..q];
  }

  /** In the redacted line every `response="` and every `cnonce="` with a later
      quote is followed by the mask and a quote. */
  lemma RedactionIsComplete(line: string, key: string)
    requires IsKey(key)
    ensures Complete(Redacted(line), key)
  {
    RedactedIsClosed(line, key);
    forall p: nat | Occurs(Redacted(line), key, p) ensures Followed(Redacted(line), key, p) {
      ClosedIsComplete(Redacted(line), key, p);
    }
  }

  lemma RedactedIsClosed(line: string, key: string)
    requires IsKey(key)
    ensures Closed(Redacted(line), key)
  {
    hide Closed, Pass;
    PassCloses(line, RESPONSE);
    PassKeepsClosed(Pass(line, RESPONSE), CNONCE, RESPONSE);
    PassCloses(Pass(line, RESPONSE), CNONCE);
  }

  lemma RedactionIsIdempotent(line: string)
    ensures Redacted(Redacted(line)) == Redacted(line)
  {
    hide Closed, Pass;
    RedactedIsClosed(line, RESPONSE);
    RedactedIsClosed(line, CNONCE);
    ClosedIsFixed(Redacted(line), RESPONSE);
    ClosedIsFixed(Redacted(line), CNONCE);
  }

  /** A line in which neither key occurs is left alone. */
  lemma HarmlessLinesUnchanged(line: string)
    requires forall k :: !Occurs(line, RESPONSE, k) && !Occurs(line, CNONCE, k)
    ensures Redacted(line) == line
  {
    NoneLeft(line, 0, RESPONSE);
    NoneLeft(line, 0, CNONCE);
    assert line[0..] == line && line[..0] == "";
  }
}
