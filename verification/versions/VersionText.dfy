/** Versions as people write them: numbers in decimal, joined by dots, with a
    pre-release behind a dash and build metadata behind a plus. What is read is
    what was written, and the order is that of the numbers. */
module VersionText {
  import opened VersionOrder
  import opened UpdateChecking

  // -------------------------------------------------------------------------
  // Writing
  // -------------------------------------------------------------------------

  function Digit(d: nat): char
    requires d < 10
  {
    "0123456789"[d]
  }

  function Digits(n: nat): string {
    if n < 10 then [Digit(n)] else Digits(n / 10) + [Digit(n % 10)]
  }

  function Render(numbers: seq<nat>): string
    requires numbers != []
  {
    if |numbers| == 1 then Digits(numbers[0]) else Digits(numbers[0]) + ['.'] + Render(numbers[1..])
  }

  /** Nothing, or a dash and the pre-release. */
  function Dashed(prerelease: string): string {
    if prerelease == "" then "" else ['-'] + prerelease
  }

  /** Nothing, or a plus and anything. */
  predicate IsBuild(build: string) {
    build == "" || build[0] == '+'
  }

  // -------------------------------------------------------------------------
  // Reading numbers
  // -------------------------------------------------------------------------

  lemma DigitFacts(d: nat)
    requires d < 10
    ensures IsDigit(Digit(d)) && Digit(d) as int - '0' as int == d
  {
  }

  lemma {:induction false} DigitsRead(n: nat)
    ensures Digits(n) != "" && AllDigits(Digits(n)) && Decimal(Digits(n)) == n
  {
    if n < 10 {
      DigitFacts(n);
      assert Digits(n)[..0] == "";
    } else {
      DigitsRead(n / 10);
      DigitFacts(n % 10);
      var s := Digits(n);
      assert s[..|s| - 1] == Digits(n / 10);
    }
  }

  lemma TrimDigits(s: string)
    requires AllDigits(s)
    ensures TrimRight(TrimLeft(s)) == s
  {
  }

  /** What a release number reads as: itself, or 0 if it does not fit. */
  function Fitting(n: nat): nat {
    if n <= 0x7FFF_FFFF then n else 0
  }

  function AllFitting(numbers: seq<nat>): (f: seq<nat>)
    ensures |f| == |numbers| && forall i | 0 <= i < |f| :: f[i] == Fitting(numbers[i])
  {
    seq(|numbers|, i requires 0 <= i < |numbers| => Fitting(numbers[i]))
  }

  lemma NumberRead(n: nat)
    ensures ReleaseNumber(Digits(n)) == Fitting(n)
  {
    DigitsRead(n);
    TrimDigits(Digits(n));
    hide TrimLeft, TrimRight;
  }

  // -------------------------------------------------------------------------
  // Splitting
  // -------------------------------------------------------------------------

  lemma {:induction false} IndexAt(a: string, c: char, b: string)
    requires c !in a
    ensures IndexOf(a + [c] + b, c) == |a|
  {
    if a != "" {
      assert (a + [c] + b)[1..] == a[1..] + [c] + b;
      assert a[0] in a;
      IndexAt(a[1..], c, b);
    }
  }

  lemma SplitOne(a: string, c: char, b: string)
    requires c !in a
    ensures Split(a + [c] + b, c) == [a] + Split(b, c)
  {
    IndexAt(a, c, b);
    hide IndexOf;
    assert (a + [c] + b)[..|a|] == a && (a + [c] + b)[|a| + 1..] == b;
  }

  lemma CutAt(a: string, c: char, b: string)
    requires c !in a
    ensures Before(a + [c] + b, c) == a && Behind(a + [c] + b, c) == b
  {
    IndexAt(a, c, b);
    hide IndexOf;
    assert (a + [c] + b)[..|a|] == a && (a + [c] + b)[|a| + 1..] == b;
  }

  lemma {:induction false} RenderedChars(numbers: seq<nat>, c: char)
    requires numbers != [] && !IsDigit(c) && c != '.'
    ensures c !in Render(numbers)
  {
    DigitsRead(numbers[0]);
    NoDigit(Digits(numbers[0]), c);
    if |numbers| > 1 { RenderedChars(numbers[1..], c); }
  }

  lemma NoDigit(s: string, c: char)
    requires AllDigits(s) && !IsDigit(c)
    ensures c !in s
  {
  }

  lemma {:induction false} RenderedNumbers(numbers: seq<nat>)
    requires numbers != []
    ensures Numbers(Split(Render(numbers), '.')) == AllFitting(numbers)
  {
    var first := Digits(numbers[0]);
    DigitsRead(numbers[0]);
    NoDigit(first, '.');
    NumberRead(numbers[0]);
    hide Digits, ReleaseNumber;
    if |numbers| == 1 {
      NotFound(first, '.');
      assert Split(first, '.') == [first] && [first][1..] == [];
    } else {
      SplitOne(first, '.', Render(numbers[1..]));
      RenderedNumbers(numbers[1..]);
      var parts := Split(Render(numbers[1..]), '.');
      assert ([first] + parts)[1..] == parts;
    }
  }

  lemma NotFound(s: string, c: char)
    requires c !in s
    ensures IndexOf(s, c) == -1
  {
  }

  lemma WholeBefore(s: string, c: char)
    requires c !in s
    ensures Before(s, c) == s && Behind(s, c) == ""
  {
    NotFound(s, c);
  }

  lemma CutBuild(s: string, build: string)
    requires '+' !in s && IsBuild(build)
    ensures Before(s + build, '+') == s
  {
    if build == "" {
      WholeBefore(s, '+');
      assert s + build == s;
    } else {
      CutAt(s, '+', build[1..]);
      assert s + build == s + ['+'] + build[1..];
    }
    hide Before;
  }

  lemma CutDash(r: string, prerelease: string)
    requires '-' !in r
    ensures Before(r + Dashed(prerelease), '-') == r && Behind(r + Dashed(prerelease), '-') == prerelease
  {
    hide Before, Behind;
    if prerelease == "" {
      WholeBefore(r, '-');
      assert r + Dashed(prerelease) == r;
    } else {
      CutAt(r, '-', prerelease);
      Regrouped(r, ['-'], prerelease);
    }
  }

  lemma Regrouped(a: string, b: string, c: string)
    ensures a + (b + c) == a + b + c
  {
  }

  lemma NoPlus(a: string, b: string)
    requires '+' !in a && '+' !in b
    ensures '+' !in a + b
  {
  }

  /** Any release numbers, any pre-release without a plus, any build metadata:
      the numbers that fit an int are read back, and so is the pre-release. */
  lemma VersionRoundTrip(numbers: seq<nat>, prerelease: string, build: string)
    requires numbers != [] && '+' !in prerelease && IsBuild(build)
    ensures Parse(Render(numbers) + Dashed(prerelease) + build) == ParsedVersion(AllFitting(numbers), prerelease)
  {
    RenderedChars(numbers, '-');
    RenderedChars(numbers, '+');
    RenderedNumbers(numbers);
    var r := Render(numbers);
    NoPlus(r, Dashed(prerelease));
    CutBuild(r + Dashed(prerelease), build);
    CutDash(r, prerelease);
    hide Render, Split, Numbers, Before, Behind, AllFitting, IsBuild, Dashed;
  }

  /** As long as they fit, nothing at all is lost. */
  lemma FittingIsExact(numbers: seq<nat>)
    ensures AllFitting(numbers) == numbers <==> forall n | n in numbers :: n <= 2147483647
  {
    if AllFitting(numbers) == numbers {
      forall n | n in numbers ensures n <= 2147483647 {
        var i :| 0 <= i < |numbers| && numbers[i] == n;
        assert AllFitting(numbers)[i] == n;
      }
    } else {
      var i :| 0 <= i < |numbers| && AllFitting(numbers)[i] != numbers[i];
      assert numbers[i] in numbers;
    }
  }

  // -------------------------------------------------------------------------
  // The order of written versions
  // -------------------------------------------------------------------------

  /** Neither number list has a number that does not fit. */
  predicate Fit(a: seq<nat>) {
    forall n | n in a :: n <= 2147483647
  }

  /** The first release number in which two versions differ decides, with 0 for
      one that is missing, whatever stands behind the dash or the plus. */
  lemma NumbersDecide(a: seq<nat>, b: seq<nat>, i: nat, p: string, q: string, x: string, y: string)
    requires a != [] && b != [] && Fit(a) && Fit(b) && FirstDifference(a, b, i)
    requires '+' !in p && '+' !in q && IsBuild(x) && IsBuild(y)
    ensures Order(Render(a) + Dashed(p) + x, Render(b) + Dashed(q) + y) == Sign(Padded(a, i), Padded(b, i))
  {
    VersionRoundTrip(a, p, x);
    VersionRoundTrip(b, q, y);
    FittingIsExact(a);
    FittingIsExact(b);
    DifferenceDecides(a, b, i);
    hide Render, Parse, Lex, SuffixKey, DropZeros, AllFitting;
  }

  /** With the same numbers, a pre-release comes before its release. */
  lemma PrereleaseComesFirst(a: seq<nat>, p: string, x: string, y: string)
    requires a != [] && p != "" && '+' !in p && IsBuild(x) && IsBuild(y)
    ensures Order(Render(a) + Dashed(p) + x, Render(a) + Dashed("") + y) == -1
  {
    VersionRoundTrip(a, p, x);
    VersionRoundTrip(a, "", y);
    LexFlip(DropZeros(AllFitting(a)), DropZeros(AllFitting(a)));
    SuffixOrder(p, "");
    hide Render, Parse, Lex, SuffixKey, DropZeros, AllFitting;
  }

  /** With the same numbers, two pre-releases compare by their keys. */
  lemma SameNumbers(a: seq<nat>, p: string, q: string, x: string, y: string)
    requires a != [] && p != "" && q != "" && '+' !in p && '+' !in q && IsBuild(x) && IsBuild(y)
    ensures Order(Render(a) + Dashed(p) + x, Render(a) + Dashed(q) + y) == Lex(Keys(p, 0), Keys(q, 0))
  {
    VersionRoundTrip(a, p, x);
    VersionRoundTrip(a, q, y);
    LexFlip(DropZeros(AllFitting(a)), DropZeros(AllFitting(a)));
    SuffixOrder(p, q);
    hide Render, Parse, Lex, SuffixKey, DropZeros, AllFitting, Keys;
  }

  // -------------------------------------------------------------------------
  // Inside a pre-release
  // -------------------------------------------------------------------------

  lemma {:induction false} RunEndShift(s: string, i: nat, t: string)
    requires i <= |s| && t == s[i..]
    ensures RunEnd(s, i) == i + RunEnd(t, 0)
    decreases |s| - i
  {
    if i < |s| && IsDigit(s[i]) {
      RunEndShift(s, i + 1, s[i + 1..]);
      RunEndShift(t, 1, t[1..]);
      assert t[1..] == s[i + 1..];
    }
  }

  /** The keys from a position on are those of the rest. */
  lemma {:induction false} KeysShift(s: string, i: nat, t: string)
    requires i <= |s| && t == s[i..]
    ensures Keys(s, i) == Keys(t, 0)
    decreases |s| - i
  {
    if i < |s| {
      if IsDigit(s[i]) {
        RunEndShift(s, i, t);
        var e := RunEnd(s, i);
        assert t[0..e - i] == s[i..e] && t[e - i..] == s[e..];
        KeysShift(s, e, s[e..]);
        KeysShift(t, e - i, t[e - i..]);
      } else {
        assert t[1..] == s[i + 1..];
        KeysShift(s, i + 1, s[i + 1..]);
        KeysShift(t, 1, t[1..]);
      }
    }
  }

  lemma {:induction false} RunEndsAt(u: string, b: string, i: nat)
    requires AllDigits(u) && i <= |u| && (b == "" || !IsDigit(b[0]))
    ensures RunEnd(u + b, i) == |u|
    decreases |u| - i
  {
    if i < |u| { RunEndsAt(u, b, i + 1); }
  }

  /** A digit run is one key. */
  lemma RunKey(u: string, b: string)
    requires u != "" && AllDigits(u) && (b == "" || !IsDigit(b[0]))
    ensures Keys(u + b, 0) == [NumberKey(RunValue(u))] + Keys(b, 0)
  {
    RunEndsAt(u, b, 0);
    var s := u + b;
    assert s[0..|u|] == u && s[|u|..] == b;
    KeysShift(s, |u|, b);
    hide RunEnd, RunValue;
  }

  lemma CharKeys(c: char, b: string)
    requires !IsDigit(c)
    ensures Keys([c] + b, 0) == [CharKey(c)] + Keys(b, 0)
  {
    assert ([c] + b)[1..] == b;
    KeysShift([c] + b, 1, b);
  }

  /** The digit run at the start of a text, and what follows it. */
  lemma FirstRun(a: string, b: string)
    requires a != "" && IsDigit(a[0]) && (!IsDigit(a[|a| - 1]) || b == "" || !IsDigit(b[0]))
    ensures var e := RunEnd(a, 0);
            e > 0 && RunEnd(a + b, 0) == e && (a + b)[0..e] == a[0..e] && (a + b)[e..] == a[e..] + b
  {
    var e := RunEnd(a, 0);
    hide RunEnd;
    Sliced(a, b, e);
    NotDigitNext(a, b, e);
    RunEndsAt(a[0..e], a[e..] + b, 0);
  }

  lemma Sliced(a: string, b: string, e: nat)
    requires e <= |a|
    ensures (a + b)[0..e] == a[0..e] && (a + b)[e..] == a[e..] + b && a + b == a[0..e] + (a[e..] + b)
  {
  }

  lemma NotDigitNext(a: string, b: string, e: nat)
    requires e <= |a| && (e < |a| ==> !IsDigit(a[e])) && (e == |a| ==> b == "" || !IsDigit(b[0]))
    ensures a[e..] + b == "" || !IsDigit((a[e..] + b)[0])
  {
  }

  /** Two texts that do not meet in a digit run have their keys side by side. */
  lemma {:induction false} KeysJoin(a: string, b: string)
    requires a == "" || b == "" || !IsDigit(a[|a| - 1]) || !IsDigit(b[0])
    ensures Keys(a + b, 0) == Keys(a, 0) + Keys(b, 0)
    decreases |a|
  {
    if a == "" {
      assert a + b == b;
    } else if IsDigit(a[0]) {
      FirstRun(a, b);
      var e := RunEnd(a, 0);
      KeysShift(a, e, a[e..]);
      KeysShift(a + b, e, a[e..] + b);
      KeysJoin(a[e..], b);
      KeyFirst(NumberKey(RunValue(a[0..e])), Keys(a[e..], 0), Keys(b, 0));
    } else {
      assert a + b == [a[0]] + (a[1..] + b) && a == [a[0]] + a[1..];
      CharKeys(a[0], a[1..] + b);
      CharKeys(a[0], a[1..]);
      KeysJoin(a[1..], b);
      KeyFirst(CharKey(a[0]), Keys(a[1..], 0), Keys(b, 0));
    }
  }

  lemma KeyFirst(k: nat, a: seq<nat>, b: seq<nat>)
    ensures ([k] + a) + b == [k] + (a + b)
  {
  }

  lemma {:induction false} LexCommon(p: seq<nat>, a: seq<nat>, b: seq<nat>)
    ensures Lex(p + a, p + b) == Lex(a, b)
    decreases |p|
  {
    if p == [] {
      assert p + a == a && p + b == b;
    } else {
      assert (p + a)[1..] == p[1..] + a && (p + b)[1..] == p[1..] + b;
      LexCommon(p[1..], a, b);
    }
  }

  function Zeros(n: nat): string {
    if n == 0 then "" else "0" + Zeros(n - 1)
  }

  lemma {:induction false} LeadingZeros(n: nat, s: string)
    requires AllDigits(s)
    ensures AllDigits(Zeros(n) + s) && Decimal(Zeros(n) + s) == Decimal(s)
    decreases n, |s|
  {
    var t := Zeros(n) + s;
    if n == 0 {
      assert t == s;
    } else {
      LeadingZeros(n - 1, s);
      var u := Zeros(n - 1) + s;
      assert t == "0" + u;
      ZeroFirst(u);
    }
  }

  lemma {:induction false} ZeroFirst(s: string)
    requires AllDigits(s)
    ensures AllDigits("0" + s) && Decimal("0" + s) == Decimal(s)
    decreases |s|
  {
    var t := "0" + s;
    if s == "" {
      assert t[..0] == "";
    } else {
      ZeroFirst(s[..|s| - 1]);
      assert t[..|t| - 1] == "0" + s[..|s| - 1];
    }
  }

  lemma RunsOrder(a: string, u: string, v: string, b: string)
    requires u != "" && AllDigits(u) && v != "" && AllDigits(v)
    requires (a == "" || !IsDigit(a[|a| - 1])) && (b == "" || !IsDigit(b[0]))
    ensures Lex(Keys(a + u + b, 0), Keys(a + v + b, 0)) == Sign(RunValue(u), RunValue(v))
  {
    hide Keys, Lex, AllDigits, RunValue, IsDigit;
    RunBetween(a, u, b);
    RunBetween(a, v, b);
    OneKeyDecides(Keys(a, 0), NumberKey(RunValue(u)), NumberKey(RunValue(v)), Keys(b, 0));
  }

  lemma OneKeyDecides(p: seq<nat>, j: nat, k: nat, rest: seq<nat>)
    ensures Lex(p + ([j] + rest), p + ([k] + rest)) == Sign(j, k)
  {
    LexCommon(p, [j] + rest, [k] + rest);
    FirstKeyDecides(j, k, rest);
    hide Lex;
  }

  /** Two pre-releases that differ in one digit run only, leading zeros or not,
      come in the order of its values. */
  lemma RunsDecide(numbers: seq<nat>, a: string, m: nat, k: nat, n: nat, l: nat, b: string, x: string, y: string)
    requires numbers != [] && m < 18446744073709551616 && n < 18446744073709551616
    requires (a == "" || !IsDigit(a[|a| - 1])) && (b == "" || !IsDigit(b[0]))
    requires '+' !in a && '+' !in b && IsBuild(x) && IsBuild(y)
    ensures var p, q := a + (Zeros(k) + Digits(m)) + b, a + (Zeros(l) + Digits(n)) + b;
            Order(Render(numbers) + Dashed(p) + x, Render(numbers) + Dashed(q) + y) == Sign(m, n)
  {
    RunRead(k, m);
    RunRead(l, n);
    hide Order, Render, Digits, Zeros, Dashed, IsBuild, AllDigits, RunValue, Keys, Lex;
    var u, v := Zeros(k) + Digits(m), Zeros(l) + Digits(n);
    NoPlusAroundRun(a, u, b);
    NoPlusAroundRun(a, v, b);
    RunsOrder(a, u, v, b);
    SameNumbers(numbers, a + u + b, a + v + b, x, y);
  }

  lemma NoPlusAroundRun(a: string, u: string, b: string)
    requires '+' !in a && '+' !in b && u != "" && AllDigits(u)
    ensures '+' !in a + u + b && a + u + b != ""
  {
    NoDigit(u, '+');
  }

  lemma RunRead(k: nat, m: nat)
    requires m < 18446744073709551616
    ensures var u := Zeros(k) + Digits(m); u != "" && AllDigits(u) && RunValue(u) == m
  {
    DigitsRead(m);
    LeadingZeros(k, Digits(m));
  }

  lemma RunBetween(a: string, u: string, b: string)
    requires u != "" && AllDigits(u) && (a == "" || !IsDigit(a[|a| - 1])) && (b == "" || !IsDigit(b[0]))
    ensures Keys(a + u + b, 0) == Keys(a, 0) + ([NumberKey(RunValue(u))] + Keys(b, 0))
  {
    assert a + u + b == a + (u + b);
    RunKey(u, b);
    KeysJoin(a, u + b);
    hide Keys, RunValue;
  }

  lemma FirstKeyDecides(j: nat, k: nat, rest: seq<nat>)
    ensures Lex([j] + rest, [k] + rest) == Sign(j, k)
  {
    assert ([j] + rest)[1..] == rest && ([k] + rest)[1..] == rest;
    LexFlip(rest, rest);
  }

  lemma NoPlusAround(a: string, c: char, b: string)
    requires '+' !in a && '+' !in b && c != '+'
    ensures '+' !in a + [c] + b && a + [c] + b != ""
  {
  }

  lemma CharBetween(a: string, c: char, b: string)
    requires !IsDigit(c)
    ensures Keys(a + [c] + b, 0) == Keys(a, 0) + ([CharKey(c)] + Keys(b, 0))
  {
    assert a + [c] + b == a + ([c] + b);
    KeysJoin(a, [c] + b);
    CharKeys(c, b);
    hide Keys;
  }

  /** Two pre-releases that differ in one other character come in the order of
      that character. */
  lemma CharsDecide(numbers: seq<nat>, a: string, c: char, d: char, b: string, x: string, y: string)
    requires numbers != [] && !IsDigit(c) && !IsDigit(d) && c != '+' && d != '+'
    requires '+' !in a && '+' !in b && IsBuild(x) && IsBuild(y)
    ensures Order(Render(numbers) + Dashed(a + [c] + b) + x, Render(numbers) + Dashed(a + [d] + b) + y) == Sign(c as int, d as int)
  {
    hide Order, Render, Keys, Lex, Dashed, IsBuild;
    NoPlusAround(a, c, b);
    NoPlusAround(a, d, b);
    SameNumbers(numbers, a + [c] + b, a + [d] + b, x, y);
    CharsOrder(a, c, d, b);
  }

  lemma CharsOrder(a: string, c: char, d: char, b: string)
    requires !IsDigit(c) && !IsDigit(d)
    ensures Lex(Keys(a + [c] + b, 0), Keys(a + [d] + b, 0)) == Sign(c as int, d as int)
  {
    hide Keys, Lex;
    CharBetween(a, c, b);
    CharBetween(a, d, b);
    OneKeyDecides(Keys(a, 0), CharKey(c), CharKey(d), Keys(b, 0));
  }

  /** A pre-release comes before any that continues it, unless the continuation
      lengthens its last digit run. */
  lemma LongerComesLater(numbers: seq<nat>, a: string, b: string, x: string, y: string)
    requires numbers != [] && a != "" && b != "" && (!IsDigit(a[|a| - 1]) || !IsDigit(b[0]))
    requires '+' !in a && '+' !in b && IsBuild(x) && IsBuild(y)
    ensures Order(Render(numbers) + Dashed(a) + x, Render(numbers) + Dashed(a + b) + y) == -1
  {
    SameNumbers(numbers, a, a + b, x, y);
    KeysJoin(a, b);
    var k, l := Keys(a, 0), Keys(b, 0);
    assert l != [];
    hide Order, Render, Keys;
    LexCommon(k, [], l);
    assert k + [] == k;
  }

  /** A feed with an accepted entry of a later release brings an announcement,
      however many digits its numbers have. */
  lemma LaterReleaseIsNews(entries: seq<Enclosure>, e: Enclosure, a: seq<nat>, b: seq<nat>, i: nat)
    requires a != [] && b != [] && Fit(a) && Fit(b) && FirstDifference(a, b, i) && Padded(a, i) < Padded(b, i)
    requires e in entries && Accepted(e) && VersionOf(e) == Render(b)
    ensures Newer(entries, Render(a))
  {
    NumbersDecide(a, b, i, "", "", "", "");
    hide Order, Render;
    assert Render(a) + Dashed("") + "" == Render(a) && Render(b) + Dashed("") + "" == Render(b);
  }

  // -------------------------------------------------------------------------
  // Other texts
  // -------------------------------------------------------------------------

  predicate Blanks(s: string) {
    forall i | 0 <= i < |s| :: s[i] == ' ' || s[i] == '\t' || s[i] == '\n' || s[i] == '\r' || 0x0B as char <= s[i] <= 0x0C as char
  }

  lemma {:induction false} BlanksBefore(blanks: string, s: string)
    requires Blanks(blanks)
    ensures TrimLeft(blanks + s) == TrimLeft(s)
  {
    if blanks == "" {
      assert blanks + s == s;
    } else {
      assert (blanks + s)[1..] == blanks[1..] + s;
      BlanksBefore(blanks[1..], s);
    }
  }

  lemma {:induction false} BlanksAfter(s: string, blanks: string)
    requires Blanks(blanks)
    ensures TrimRight(s + blanks) == TrimRight(s)
    decreases |blanks|
  {
    if blanks == "" {
      assert s + blanks == s;
    } else {
      var n := |blanks| - 1;
      assert (s + blanks)[..|s| + n] == s + blanks[..n];
      BlanksAfter(s, blanks[..n]);
    }
  }

  /** Blanks around a release number do not count. */
  lemma BlanksDoNotCount(before: string, n: nat, after: string)
    requires Blanks(before) && Blanks(after)
    ensures ReleaseNumber(before + Digits(n) + after) == Fitting(n)
  {
    var d := Digits(n);
    DigitsRead(n);
    NumberRead(n);
    TrimDigits(d);
    assert before + d + after == before + (d + after);
    BlanksBefore(before, d + after);
    assert TrimLeft(d + after) == d + after;
    BlanksAfter(d, after);
    hide Digits;
  }

  lemma {:induction false} TrimKeeps(s: string, i: nat)
    requires i < |s| && !IsSpace(s[i])
    ensures exists j :: 0 <= j < |TrimLeft(s)| && TrimLeft(s)[j] == s[i]
  {
    if IsSpace(s[0]) {
      TrimKeeps(s[1..], i - 1);
      assert TrimLeft(s) == TrimLeft(s[1..]) && s[1..][i - 1] == s[i];
    } else {
      assert TrimLeft(s)[i] == s[i];
    }
  }

  lemma {:induction false} TrimRightKeeps(s: string, i: nat)
    requires i < |s| && !IsSpace(s[i])
    ensures i < |TrimRight(s)| && TrimRight(s)[i] == s[i]
  {
    if IsSpace(s[|s| - 1]) { TrimRightKeeps(s[..|s| - 1], i); }
  }

  /** A release number with any other character counts as 0. */
  lemma OtherTextIsZero(part: string, i: nat)
    requires i < |part| && !IsDigit(part[i]) && !IsSpace(part[i])
    ensures ReleaseNumber(part) == 0
  {
    TrimKeeps(part, i);
    var j :| 0 <= j < |TrimLeft(part)| && TrimLeft(part)[j] == part[i];
    TrimRightKeeps(TrimLeft(part), j);
    assert !AllDigits(TrimRight(TrimLeft(part)));
  }

  /** What is announced stands in the feed: a trusted entry with this address,
      whose short version it is, or its long one where there is no short one. */
  lemma NewestIsTrusted(entries: seq<Enclosure>, i: int, best: Feed)
    requires IsNewest(entries, |entries|, i, best)
    ensures exists e :: e in entries && e.trusted && e.url == best.url && best.version != ""
                        && (e.shortVersion == best.version || (e.shortVersion == "" && e.longVersion == best.version))
  {
    assert entries[i] in entries;
  }

  /** A trusted entry that carries a version is not passed over. */
  lemma NothingIsNewer(entries: seq<Enclosure>, i: int, best: Feed, e: Enclosure)
    requires IsNewest(entries, |entries|, i, best) && e in entries && e.trusted
    ensures e.shortVersion != "" ==> Order(e.shortVersion, best.version) <= 0
    ensures e.shortVersion == "" && e.longVersion != "" ==> Order(e.longVersion, best.version) <= 0
  {
    hide Order;
    var k :| 0 <= k < |entries| && entries[k] == e;
    if VersionOf(e) != "" { assert Accepted(entries[k]); }
  }
}
