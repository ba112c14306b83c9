/** Exactly when a digest secret shows in the redacted line: for both keys, both
    passes and any surroundings. */
module SipLogSecrets {
  import opened SipLog
  import opened SipLogTheorems

  /** A line with `name="value"` somewhere in it. */
  function Line(head: string, name: string, value: string, tail: string): string {
    head + (name + [QUOTE] + Join(value, tail))
  }

  /** `head` stops inside the value of a key. */
  predicate Inside(head: string, key: string)
    decreases |head|
  {
    var q := Find(head, QUOTE);
    if q < 0 then false
    else
      var rest := head[q + 1..];
      var v := Find(rest, QUOTE);
      if !EndsWith(head[..q], key) then Inside(rest, key)
      else if v < 0 then true
      else Inside(rest[v + 1..], key)
  }

  /** What the pass makes of a head that stops inside a value, once that value
      has ended. */
  function Shown(head: string, key: string): string
    requires Inside(head, key)
    decreases |head|
  {
    var q := Find(head, QUOTE);
    var rest := head[q + 1..];
    var v := Find(rest, QUOTE);
    if !EndsWith(head[..q], key) then Join(head[..q], Shown(rest, key))
    else if v < 0 then Join(head[..q], Join(MASK, ""))
    else Join(head[..q], Join(MASK, Shown(rest[v + 1..], key)))
  }

  /** What the pass makes of `tail` behind the segment `v`. */
  function After(v: string, tail: string, key: string): string {
    if EndsWith(v, key) && Find(tail, QUOTE) >= 0 then Join(MASK, Pass(tail[Find(tail, QUOTE) + 1..], key))
    else Pass(tail, key)
  }

  // -------------------------------------------------------------------------
  // Lines and segments
  // -------------------------------------------------------------------------

  lemma LineOfJoin(h: string, rest: string, name: string, value: string, tail: string)
    ensures Line(Join(h, rest), name, value, tail) == Join(h, Line(rest, name, value, tail))
  {
  }

  lemma LineOfSegment(h: string, name: string, value: string, tail: string)
    requires IsKey(name) && NoQuotes(h, 0, |h|)
    ensures Line(h, name, value, tail) == Join(h + name, Join(value, tail))
    ensures NoQuotes(h + name, 0, |h + name|) && EndsWith(h + name, name)
  {
    KeysAreQuoteFree(name);
  }

  lemma OtherKey(h: string, name: string, key: string)
    requires IsKey(name) && IsKey(key) && name != key
    ensures !EndsWith(h + name, key)
  {
    var s := h + name;
    assert s[|s| - 7] == name[|name| - 7];
    assert key[|key| - 7] != name[|name| - 7];
    if |key| <= |s| { assert s[|s| - |key|..][|key| - 7] == s[|s| - 7]; }
  }

  lemma MaskEnds(p: string, key: string)
    requires IsKey(key) && NoQuotes(p, 0, |p|)
    ensures NoQuotes(p + MASK, 0, |p + MASK|) && !EndsWith(p + MASK, key)
  {
    KeysAreQuoteFree(key);
    var s := p + MASK;
    assert s[|s| - 1] == '>' && key[|key| - 1] == '=';
    if |key| <= |s| { assert s[|s| - |key|..][|key| - 1] == s[|s| - 1]; }
  }

  lemma InsideJoin(h: string, rest: string, key: string)
    requires NoQuotes(h, 0, |h|)
    ensures !EndsWith(h, key) ==> Inside(Join(h, rest), key) == Inside(rest, key)
    ensures EndsWith(h, key) && Find(rest, QUOTE) < 0 ==> Inside(Join(h, rest), key)
    ensures EndsWith(h, key) && Find(rest, QUOTE) >= 0 ==>
              Inside(Join(h, rest), key) == Inside(rest[Find(rest, QUOTE) + 1..], key)
  {
    hide Find, EndsWith, NoQuotes, Join, Inside;
    var s := Join(h, rest);
    JoinFacts(h, rest);
    InsideUnfolds(s, key);
  }

  lemma InsideUnfolds(s: string, key: string)
    requires Find(s, QUOTE) >= 0
    ensures var q := Find(s, QUOTE);
            var rest := s[q + 1..];
            && (!EndsWith(s[..q], key) ==> Inside(s, key) == Inside(rest, key))
            && (EndsWith(s[..q], key) && Find(rest, QUOTE) < 0 ==> Inside(s, key))
            && (EndsWith(s[..q], key) && Find(rest, QUOTE) >= 0 ==>
                  Inside(s, key) == Inside(rest[Find(rest, QUOTE) + 1..], key))
  {
    hide Find, EndsWith;
  }

  lemma ShownJoin(h: string, rest: string, key: string)
    requires NoQuotes(h, 0, |h|) && Inside(Join(h, rest), key)
    ensures !EndsWith(h, key) ==> Inside(rest, key) && Shown(Join(h, rest), key) == Join(h, Shown(rest, key))
    ensures EndsWith(h, key) && Find(rest, QUOTE) < 0 ==> Shown(Join(h, rest), key) == Join(h, Join(MASK, ""))
    ensures EndsWith(h, key) && Find(rest, QUOTE) >= 0 ==>
              var rest2 := rest[Find(rest, QUOTE) + 1..];
              Inside(rest2, key) && Shown(Join(h, rest), key) == Join(h, Join(MASK, Shown(rest2, key)))
  {
    hide Find, EndsWith, NoQuotes, Join, Inside, Shown;
    InsideJoin(h, rest, key);
    JoinFacts(h, rest);
    ShownUnfolds(Join(h, rest), key);
  }

  lemma ShownUnfolds(s: string, key: string)
    requires Find(s, QUOTE) >= 0 && Inside(s, key)
    ensures var q := Find(s, QUOTE);
            var rest := s[q + 1..];
            && (!EndsWith(s[..q], key) ==> Inside(rest, key) && Shown(s, key) == Join(s[..q], Shown(rest, key)))
            && (EndsWith(s[..q], key) && Find(rest, QUOTE) < 0 ==> Shown(s, key) == Join(s[..q], Join(MASK, "")))
            && (EndsWith(s[..q], key) && Find(rest, QUOTE) >= 0 ==>
                  var rest2 := rest[Find(rest, QUOTE) + 1..];
                  Inside(rest2, key) && Shown(s, key) == Join(s[..q], Join(MASK, Shown(rest2, key))))
  {
    hide Find, EndsWith, Join;
  }

  lemma PassValue(v: string, tail: string, key: string)
    requires NoQuotes(v, 0, |v|)
    ensures Pass(Join(v, tail), key) == Join(v, After(v, tail, key))
  {
    hide Find, EndsWith, NoQuotes, Pass;
    if EndsWith(v, key) && Find(tail, QUOTE) >= 0 {
      var m, rest := Cut(tail);
      PassJoinMasked(v, m, rest, key);
    } else {
      PassJoin(v, tail, key);
    }
  }

  // -------------------------------------------------------------------------
  // One pass
  // -------------------------------------------------------------------------

  /** Outside values the pass masks the value of its own key. */
  lemma {:induction false} PassOwnKey(head: string, key: string, v: string, tail: string)
    requires IsKey(key) && NoQuotes(v, 0, |v|) && !Inside(head, key)
    ensures Pass(Line(head, key, v, tail), key) == Line(Pass(head, key), key, MASK, Pass(tail, key))
    decreases |head|
  {
    hide Find, EndsWith, NoQuotes, Join, Line, Inside, Pass, IsKey;
    if Find(head, QUOTE) < 0 {
      FindFacts(head);
      NoPass(head, key);
      LineOfSegment(head, key, v, tail);
      PassJoinMasked(head + key, v, tail, key);
      LineOfSegment(head, key, MASK, Pass(tail, key));
    } else {
      var h, rest := Cut(head);
      InsideJoin(h, rest, key);
      LineOfJoin(h, rest, key, v, tail);
      if !EndsWith(h, key) {
        PassJoin(h, Line(rest, key, v, tail), key);
        PassJoin(h, rest, key);
        PassOwnKey(rest, key, v, tail);
        LineOfJoin(h, Pass(rest, key), key, MASK, Pass(tail, key));
      } else {
        var m, rest2 := Cut(rest);
        LineOfJoin(m, rest2, key, v, tail);
        PassJoinMasked(h, m, Line(rest2, key, v, tail), key);
        PassJoinMasked(h, m, rest2, key);
        PassOwnKey(rest2, key, v, tail);
        LineOfJoin(MASK, Pass(rest2, key), key, MASK, Pass(tail, key));
        LineOfJoin(h, Join(MASK, Pass(rest2, key)), key, MASK, Pass(tail, key));
      }
    }
  }

  /** Outside values the pass keeps the other key and its value. */
  lemma {:induction false} PassOtherKey(head: string, key: string, name: string, v: string, tail: string)
    requires IsKey(key) && IsKey(name) && name != key && NoQuotes(v, 0, |v|) && !Inside(head, key)
    ensures Pass(Line(head, name, v, tail), key) == Line(Pass(head, key), name, v, After(v, tail, key))
    decreases |head|
  {
    OtherKey(head, name, key);
    hide Find, EndsWith, NoQuotes, Join, Line, Inside, Pass, IsKey, After;
    if Find(head, QUOTE) < 0 {
      FindFacts(head);
      NoPass(head, key);
      LineOfSegment(head, name, v, tail);
      PassJoin(head + name, Join(v, tail), key);
      PassValue(v, tail, key);
      LineOfSegment(head, name, v, After(v, tail, key));
    } else {
      var h, rest := Cut(head);
      InsideJoin(h, rest, key);
      LineOfJoin(h, rest, name, v, tail);
      if !EndsWith(h, key) {
        PassJoin(h, Line(rest, name, v, tail), key);
        PassJoin(h, rest, key);
        PassOtherKey(rest, key, name, v, tail);
        LineOfJoin(h, Pass(rest, key), name, v, After(v, tail, key));
      } else {
        var m, rest2 := Cut(rest);
        LineOfJoin(m, rest2, name, v, tail);
        PassJoinMasked(h, m, Line(rest2, name, v, tail), key);
        PassJoinMasked(h, m, rest2, key);
        PassOtherKey(rest2, key, name, v, tail);
        LineOfJoin(MASK, Pass(rest2, key), name, v, After(v, tail, key));
        LineOfJoin(h, Join(MASK, Pass(rest2, key)), name, v, After(v, tail, key));
      }
    }
  }

  /** Inside a value the pass takes either key for part of that value and keeps
      what follows it word for word. */
  lemma {:induction false} PassInside(head: string, key: string, name: string, v: string, tail: string)
    requires IsKey(key) && IsKey(name) && NoQuotes(v, 0, |v|) && Inside(head, key)
    ensures Pass(Line(head, name, v, tail), key) == Shown(head, key) + Join(v, After(v, tail, key))
    decreases |head|
  {
    hide Find, EndsWith, NoQuotes, Line, Pass, IsKey, After, Shown;
    if Find(head, QUOTE) >= 0 {
      var h, rest := Cut(head);
      ShownJoin(h, rest, key);
      LineOfJoin(h, rest, name, v, tail);
      var end := Join(v, After(v, tail, key));
      if !EndsWith(h, key) {
        PassJoin(h, Line(rest, name, v, tail), key);
        PassInside(rest, key, name, v, tail);
        JoinPlus(h, Shown(rest, key), end);
      } else if Find(rest, QUOTE) < 0 {
        FindFacts(rest);
        LineOfSegment(rest, name, v, tail);
        PassJoinMasked(h, rest + name, Join(v, tail), key);
        PassValue(v, tail, key);
        JoinPlus(h, Join(MASK, ""), end);
        JoinPlus(MASK, "", end);
        assert "" + end == end;
      } else {
        var m, rest2 := Cut(rest);
        LineOfJoin(m, rest2, name, v, tail);
        PassJoinMasked(h, m, Line(rest2, name, v, tail), key);
        PassInside(rest2, key, name, v, tail);
        JoinPlus(h, Join(MASK, Shown(rest2, key)), end);
        JoinPlus(MASK, Shown(rest2, key), end);
      }
    }
  }

  lemma JoinPlus(h: string, t: string, more: string)
    ensures Join(h, t) + more == Join(h, t + more)
  {
  }

  /** Behind a mask the pass starts afresh. */
  lemma {:induction false} PassBehindMask(p: string, t: string, key: string)
    requires IsKey(key)
    ensures Pass(p + Join(MASK, t), key) == Pass(p + Join(MASK, ""), key) + Pass(t, key)
    decreases |p|
  {
    hide Find, EndsWith, NoQuotes, Pass, IsKey;
    NoPassEmpty(key);
    if Find(p, QUOTE) < 0 {
      FindFacts(p);
      MaskEnds(p, key);
      PassJoin(p + MASK, t, key);
      PassJoin(p + MASK, "", key);
      assert p + Join(MASK, t) == Join(p + MASK, t) && p + Join(MASK, "") == Join(p + MASK, "");
      JoinPlus(p + MASK, "", Pass(t, key));
      assert "" + Pass(t, key) == Pass(t, key);
    } else {
      var h, rest := Cut(p);
      JoinPlus(h, rest, Join(MASK, t));
      JoinPlus(h, rest, Join(MASK, ""));
      if !EndsWith(h, key) {
        PassJoin(h, rest + Join(MASK, t), key);
        PassJoin(h, rest + Join(MASK, ""), key);
        PassBehindMask(rest, t, key);
        JoinPlus(h, Pass(rest + Join(MASK, ""), key), Pass(t, key));
      } else {
        PassBehindMaskInValue(h, rest, t, key);
        if Find(rest, QUOTE) >= 0 { PassBehindMask(rest[Find(rest, QUOTE) + 1..], t, key); }
      }
    }
  }

  lemma NoPassEmpty(key: string)
    ensures Pass("", key) == ""
  {
  }

  /** The case that a value begins with `rest`. */
  lemma PassBehindMaskInValue(h: string, rest: string, t: string, key: string)
    requires IsKey(key) && NoQuotes(h, 0, |h|) && EndsWith(h, key)
    ensures Find(rest, QUOTE) < 0 ==>
              Pass(Join(h, rest + Join(MASK, t)), key) == Pass(Join(h, rest + Join(MASK, "")), key) + Pass(t, key)
    ensures Find(rest, QUOTE) >= 0 ==>
              var p := rest[Find(rest, QUOTE) + 1..];
              Pass(p + Join(MASK, t), key) == Pass(p + Join(MASK, ""), key) + Pass(t, key) ==>
              Pass(Join(h, rest + Join(MASK, t)), key) == Pass(Join(h, rest + Join(MASK, "")), key) + Pass(t, key)
  {
    hide Find, EndsWith, NoQuotes, Pass, IsKey;
    var more := Pass(t, key);
    NoPassEmpty(key);
    if Find(rest, QUOTE) < 0 {
      FindFacts(rest);
      MaskEnds(rest, key);
      PassJoinMasked(h, rest + MASK, t, key);
      PassJoinMasked(h, rest + MASK, "", key);
      assert rest + Join(MASK, t) == Join(rest + MASK, t) && rest + Join(MASK, "") == Join(rest + MASK, "");
      JoinPlus(h, Join(MASK, ""), more);
      JoinPlus(MASK, "", more);
      assert "" + more == more;
    } else {
      var m, p := Cut(rest);
      JoinPlus(m, p, Join(MASK, t));
      JoinPlus(m, p, Join(MASK, ""));
      PassJoinMasked(h, m, p + Join(MASK, t), key);
      PassJoinMasked(h, m, p + Join(MASK, ""), key);
      JoinPlus(h, Join(MASK, Pass(p + Join(MASK, ""), key)), more);
      JoinPlus(MASK, Pass(p + Join(MASK, ""), key), more);
    }
  }

  lemma {:induction false} ShownEndsInMask(head: string, key: string) returns (p: string)
    requires Inside(head, key)
    ensures Shown(head, key) == p + Join(MASK, "")
    decreases |head|
  {
    hide Find, EndsWith, NoQuotes, Shown;
    if Find(head, QUOTE) >= 0 {
      var h, rest := Cut(head);
      ShownJoin(h, rest, key);
      if !EndsWith(h, key) {
        var p1 := ShownEndsInMask(rest, key);
        p := Join(h, p1);
        JoinPlus(h, p1, Join(MASK, ""));
      } else if Find(rest, QUOTE) < 0 {
        p := Join(h, "");
        JoinPlus(h, "", Join(MASK, ""));
        assert "" + Join(MASK, "") == Join(MASK, "");
      } else {
        var p1 := ShownEndsInMask(rest[Find(rest, QUOTE) + 1..], key);
        p := Join(h, Join(MASK, p1));
        JoinPlus(h, Join(MASK, p1), Join(MASK, ""));
        JoinPlus(MASK, p1, Join(MASK, ""));
      }
    }
  }

  // -------------------------------------------------------------------------
  // Both passes
  // -------------------------------------------------------------------------

  /** The head stops inside a response value, or, for a cnonce, inside a cnonce
      value of the line as the first pass leaves it. */
  predicate Exposed(head: string, key: string) {
    Inside(head, RESPONSE) || (key == CNONCE && Inside(Pass(head, RESPONSE), CNONCE))
  }

  /** The redacted text in front of an exposed value. */
  function Front(head: string, key: string): string
    requires Exposed(head, key)
  {
    if Inside(head, RESPONSE) then Pass(Shown(head, RESPONSE), CNONCE)
    else Shown(Pass(head, RESPONSE), CNONCE)
  }

  /** An exposed value comes through word for word. */
  lemma ExposedValueShows(head: string, key: string, v: string, tail: string) returns (rest: string)
    requires IsKey(key) && NoQuotes(v, 0, |v|) && Exposed(head, key)
    ensures Redacted(Line(head, key, v, tail)) == Front(head, key) + Join(v, rest)
  {
    var b := After(v, tail, RESPONSE);
    rest := After(v, b, CNONCE);
    hide After, Pass, Shown, Line, NoQuotes;
    if Inside(head, RESPONSE) {
      PassInside(head, RESPONSE, key, v, tail);
      var p := ShownEndsInMask(head, RESPONSE);
      AppendBehind(p, Join(v, b));
      PassBehindMask(p, Join(v, b), CNONCE);
      PassValue(v, b, CNONCE);
    } else {
      PassOtherKey(head, RESPONSE, CNONCE, v, tail);
      PassInside(Pass(head, RESPONSE), CNONCE, CNONCE, v, b);
    }
  }

  lemma AppendBehind(p: string, t: string)
    ensures p + Join(MASK, "") + t == p + Join(MASK, t)
  {
  }

  /** Any other value is gone; of a cnonce the only trace is what it made of the
      text behind it, should it end like the other key. */
  lemma HiddenValueGone(head: string, key: string, v: string, tail: string)
    requires IsKey(key) && NoQuotes(v, 0, |v|) && !Exposed(head, key)
    ensures key == RESPONSE ==>
              Redacted(Line(head, key, v, tail)) == Pass(Line(Pass(head, key), key, MASK, Pass(tail, key)), CNONCE)
    ensures key == CNONCE ==>
              Redacted(Line(head, key, v, tail))
              == Line(Redacted(head), key, MASK, Pass(After(v, tail, RESPONSE), CNONCE))
  {
    hide After, Pass, Shown, Line, NoQuotes, Inside;
    if key == RESPONSE {
      PassOwnKey(head, RESPONSE, v, tail);
    } else {
      PassOtherKey(head, RESPONSE, CNONCE, v, tail);
      PassOwnKey(Pass(head, RESPONSE), CNONCE, v, After(v, tail, RESPONSE));
    }
  }

  /** A text in front of two values decides which of them it was. */
  lemma SameValue(front: string, v: string, a: string, w: string, b: string)
    requires NoQuotes(v, 0, |v|) && NoQuotes(w, 0, |w|) && front + Join(v, a) == front + Join(w, b)
    ensures v == w && a == b
  {
    assert (front + Join(v, a))[|front|..] == Join(v, a) && (front + Join(w, b))[|front|..] == Join(w, b);
    JoinFacts(v, a);
    JoinFacts(w, b);
  }

  lemma ExposedTellsApart(head: string, key: string, v: string, w: string, tail: string)
    requires IsKey(key) && NoQuotes(v, 0, |v|) && NoQuotes(w, 0, |w|) && v != w && Exposed(head, key)
    ensures Redacted(Line(head, key, v, tail)) != Redacted(Line(head, key, w, tail))
  {
    hide Exposed, Redacted, Line, Front, NoQuotes;
    var a := ExposedValueShows(head, key, v, tail);
    var b := ExposedValueShows(head, key, w, tail);
    if Front(head, key) + Join(v, a) == Front(head, key) + Join(w, b) { SameValue(Front(head, key), v, a, w, b); }
  }

  /** Two different responses are redacted to the same text exactly if the head
      does not stop inside a response value. */
  lemma ResponseExact(head: string, v: string, w: string, tail: string)
    requires NoQuotes(v, 0, |v|) && NoQuotes(w, 0, |w|) && v != w
    ensures Redacted(Line(head, RESPONSE, v, tail)) == Redacted(Line(head, RESPONSE, w, tail))
            <==> !Inside(head, RESPONSE)
  {
    hide Redacted, Line, Inside, NoQuotes;
    if Exposed(head, RESPONSE) {
      ExposedTellsApart(head, RESPONSE, v, w, tail);
    } else {
      HiddenValueGone(head, RESPONSE, v, tail);
      HiddenValueGone(head, RESPONSE, w, tail);
    }
  }

  /** Both values end like a response key or neither does, or that makes no
      difference to the text behind. */
  predicate SameEffect(v: string, w: string, tail: string) {
    (EndsWith(v, RESPONSE) <==> EndsWith(w, RESPONSE)) || Find(tail, QUOTE) < 0 || Masked(tail)
  }

  /** Two different cnonces are redacted to the same text exactly if the value is
      not exposed and both have the same effect on the text behind. */
  lemma CnonceExact(head: string, v: string, w: string, tail: string)
    requires NoQuotes(v, 0, |v|) && NoQuotes(w, 0, |w|) && v != w
    ensures Redacted(Line(head, CNONCE, v, tail)) == Redacted(Line(head, CNONCE, w, tail))
            <==> !Exposed(head, CNONCE) && SameEffect(v, w, tail)
  {
    hide Redacted, Line, Exposed, NoQuotes, SameEffect;
    if Exposed(head, CNONCE) {
      ExposedTellsApart(head, CNONCE, v, w, tail);
    } else {
      HiddenValueGone(head, CNONCE, v, tail);
      HiddenValueGone(head, CNONCE, w, tail);
      SameEffectExact(v, w, tail);
      LineTail(Redacted(head), CNONCE, Pass(After(v, tail, RESPONSE), CNONCE), Pass(After(w, tail, RESPONSE), CNONCE));
    }
  }

  lemma LineTail(head: string, name: string, a: string, b: string)
    ensures Line(head, name, MASK, a) == Line(head, name, MASK, b) <==> a == b
  {
    var front := head + (name + [QUOTE] + (MASK + [QUOTE]));
    assert Line(head, name, MASK, a) == front + a && Line(head, name, MASK, b) == front + b;
    assert (front + a)[|front|..] == a && (front + b)[|front|..] == b;
  }

  /** The first segment of a text is never changed. */
  lemma FirstSegmentStays(t: string, key: string)
    requires Find(t, QUOTE) >= 0
    ensures Find(Pass(t, key), QUOTE) == Find(t, QUOTE) && Pass(t, key)[..Find(t, QUOTE)] == t[..Find(t, QUOTE)]
  {
    hide Find, EndsWith, NoQuotes, Pass;
    var head, tail := Cut(t);
    PassValue(head, tail, key);
    JoinFacts(head, After(head, tail, key));
    JoinFacts(head, tail);
  }

  lemma SameEffectExact(v: string, w: string, tail: string)
    ensures Pass(After(v, tail, RESPONSE), CNONCE) == Pass(After(w, tail, RESPONSE), CNONCE) <==> SameEffect(v, w, tail)
  {
    hide EndsWith, Pass, Find;
    if (EndsWith(v, RESPONSE) <==> EndsWith(w, RESPONSE)) || Find(tail, QUOTE) < 0 {
    } else {
      MaskedOrNot(tail);
    }
  }

  /** Masking the first segment of the tail shows, unless it is the mask. */
  lemma MaskedOrNot(tail: string)
    requires Find(tail, QUOTE) >= 0
    ensures Pass(Join(MASK, Pass(tail[Find(tail, QUOTE) + 1..], RESPONSE)), CNONCE) == Pass(Pass(tail, RESPONSE), CNONCE)
            <==> Masked(tail)
  {
    hide EndsWith, NoQuotes, Pass, Find, Masked;
    var t0, rest := Cut(tail);
    var masked := Join(MASK, Pass(rest, RESPONSE));
    KeysAreQuoteFree(RESPONSE);
    if Masked(tail) {
      var cut := CutMask(tail);
      SameValue("", t0, rest, MASK, cut);
      PassJoin(MASK, rest, RESPONSE);
    } else {
      PassQuote(tail, RESPONSE);
      FirstSegmentStays(tail, RESPONSE);
      FirstSegmentStays(Pass(tail, RESPONSE), CNONCE);
      MaskJoin(Pass(rest, RESPONSE));
      JoinFacts(MASK, Pass(rest, RESPONSE));
      FirstSegmentStays(masked, CNONCE);
      NotTheMask(tail, t0, rest);
    }
  }

  lemma NotTheMask(tail: string, t0: string, rest: string)
    requires tail == Join(t0, rest) && !Masked(tail)
    ensures t0 != MASK
  {
  }

  /** For values that do not themselves end like a key, as digests never do: two
      different values of either key are redacted to the same text exactly if
      the value is not exposed. */
  lemma SecretExact(head: string, key: string, v: string, w: string, tail: string)
    requires IsKey(key) && NoQuotes(v, 0, |v|) && NoQuotes(w, 0, |w|) && v != w
    requires !EndsWith(v, RESPONSE) && !EndsWith(w, RESPONSE)
    ensures Redacted(Line(head, key, v, tail)) == Redacted(Line(head, key, w, tail)) <==> !Exposed(head, key)
  {
    hide Redacted, Line, NoQuotes, EndsWith;
    if key == RESPONSE { ResponseExact(head, v, w, tail); } else { CnonceExact(head, v, w, tail); }
  }

  // -------------------------------------------------------------------------
  // Two exposed values
  // -------------------------------------------------------------------------

  lemma NotAKey(v: string, key: string)
    requires IsKey(key) && |v| < 7
    ensures !EndsWith(v, key)
  {
  }

  /** A nested value behind either key: what the two passes leave. */
  lemma NestedShows(name: string, v: string)
    requires IsKey(name) && NoQuotes(v, 0, |v|) && |v| < 7
    ensures Redacted(Join(RESPONSE, Join(name, Join(v, "")))) == Join(RESPONSE, Join(MASK, Join(v, "")))
  {
    KeysAreQuoteFree(RESPONSE);
    KeysAreQuoteFree(CNONCE);
    NotAKey(v, RESPONSE);
    NotAKey(v, CNONCE);
    OtherKey("", RESPONSE, CNONCE);
    assert "" + RESPONSE == RESPONSE;
    assert EndsWith(RESPONSE, RESPONSE);
    var end := Join(v, "");
    Unchanged(v, RESPONSE);
    Unchanged(v, CNONCE);
    hide Find, EndsWith, NoQuotes, Pass, Join;
    PassJoinMasked(RESPONSE, name, end, RESPONSE);
    PassJoin(RESPONSE, Join(MASK, end), CNONCE);
    PassJoin(MASK, end, CNONCE);
  }

  lemma Unchanged(v: string, key: string)
    requires NoQuotes(v, 0, |v|) && !EndsWith(v, key)
    ensures Pass(Join(v, ""), key) == Join(v, "")
  {
    NoPassEmpty(key);
    PassJoin(v, "", key);
  }

  /** A cnonce inside a response: outside every cnonce value, and yet it shows. */
  lemma CnonceInResponse()
    ensures Line("response=\"", CNONCE, "abc", "") == "response=\"cnonce=\"abc\""
    ensures Redacted("response=\"cnonce=\"abc\"") == "response=\"<redacted>\"abc\""
    ensures !Inside("response=\"", CNONCE) && Exposed("response=\"", CNONCE)
  {
    Spelled();
    HeadOnly();
    hide Redacted, Join, Line, Inside;
    NestedShows(CNONCE, "abc");
  }

  /** A response inside a response. */
  lemma ResponseInResponse()
    ensures Line("response=\"", RESPONSE, "abc", "") == "response=\"response=\"abc\""
    ensures Redacted("response=\"response=\"abc\"") == "response=\"<redacted>\"abc\""
    ensures Inside("response=\"", RESPONSE)
  {
    Spelled();
    HeadOnly();
    hide Redacted, Join, Line, Inside;
    NestedShows(RESPONSE, "abc");
  }

  lemma Spelled()
    ensures Join(RESPONSE, Join(CNONCE, Join("abc", ""))) == "response=\"cnonce=\"abc\""
    ensures Join(RESPONSE, Join(RESPONSE, Join("abc", ""))) == "response=\"response=\"abc\""
    ensures Join(RESPONSE, Join(MASK, Join("abc", ""))) == "response=\"<redacted>\"abc\""
    ensures Line("response=\"", CNONCE, "abc", "") == "response=\"cnonce=\"abc\""
    ensures Line("response=\"", RESPONSE, "abc", "") == "response=\"response=\"abc\""
    ensures Join(RESPONSE, "") == "response=\""
    ensures NoQuotes("abc", 0, 3)
  {
  }

  lemma HeadOnly()
    ensures Inside("response=\"", RESPONSE) && !Inside("response=\"", CNONCE)
  {
    Spelled();
    KeysAreQuoteFree(RESPONSE);
    OtherKey("", RESPONSE, CNONCE);
    assert "" + RESPONSE == RESPONSE;
    assert EndsWith(RESPONSE, RESPONSE);
    EmptyOutside();
    hide Inside, Join, Find, EndsWith;
    InsideJoin(RESPONSE, "", CNONCE);
    InsideJoin(RESPONSE, "", RESPONSE);
  }

  lemma EmptyOutside()
    ensures Find("", QUOTE) < 0 && !Inside("", CNONCE)
  {
  }
}
