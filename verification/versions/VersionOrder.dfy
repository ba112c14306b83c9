/** The order of version strings: digit runs count as numbers, missing release
    numbers as zero, and a pre-release comes before its release. */
module VersionOrder {
  const TWO_64: nat := 0x1_0000_0000_0000_0000
  const INT_MAX: nat := 0x7FFF_FFFF

  predicate IsDigit(c: char) {
    '0' <= c <= '9'
  }

  predicate AllDigits(s: string) {
    forall i | 0 <= i < |s| :: IsDigit(s[i])
  }

  function Decimal(s: string): nat
    requires AllDigits(s)
  {
    if s == "" then 0 else 10 * Decimal(s[..|s| - 1]) + (s[|s| - 1] as int - '0' as int)
  }

  /** What toULongLong answers for a run of digits. */
  function RunValue(s: string): nat
    requires AllDigits(s)
  {
    if Decimal(s) < TWO_64 then Decimal(s) else 0
  }

  /** The end of the digit run that starts at `i`. */
  function RunEnd(s: string, i: nat): (e: nat)
    requires i <= |s|
    ensures i <= e <= |s| && AllDigits(s[i..e]) && (e < |s| ==> !IsDigit(s[e]))
    ensures i < |s| && IsDigit(s[i]) ==> i < e
    decreases |s| - i
  {
    if i < |s| && IsDigit(s[i]) then
      var e := RunEnd(s, i + 1);
      assert forall k | i < k < e :: s[k] == s[i + 1..e][k - i - 1];
      e
    else i
  }

  /** Where a character that is no digit stands: below all numbers or above. */
  function CharKey(c: char): nat {
    if c < '0' then c as int else '0' as int + TWO_64 + c as int
  }

  function NumberKey(value: nat): nat {
    '0' as int + value
  }

  /** A suffix as a list of keys, one for each digit run and each other
      character. */
  function Keys(s: string, i: nat): (k: seq<nat>)
    requires i <= |s|
    ensures k == [] <==> i == |s|
    decreases |s| - i
  {
    if i == |s| then []
    else if IsDigit(s[i]) then [NumberKey(RunValue(s[i..RunEnd(s, i)]))] + Keys(s, RunEnd(s, i))
    else [CharKey(s[i])] + Keys(s, i + 1)
  }

  function Sign(x: int, y: int): int {
    if x < y then -1 else if x > y then 1 else 0
  }

  /** Lexicographic comparison; a proper prefix comes first. */
  function Lex(a: seq<nat>, b: seq<nat>): int {
    if a == [] && b == [] then 0
    else if a == [] then -1
    else if b == [] then 1
    else if a[0] != b[0] then Sign(a[0], b[0])
    else Lex(a[1..], b[1..])
  }

  // -------------------------------------------------------------------------
  // Parsing
  // -------------------------------------------------------------------------

  function IndexOf(s: string, c: char): (i: int)
    ensures -1 <= i < |s|
    ensures i >= 0 ==> s[i] == c && c !in s[..i]
    ensures i < 0 <==> c !in s
  {
    if s == "" then -1
    else if s[0] == c then 0
    else
      var i := IndexOf(s[1..], c);
      if i < 0 then -1
      else
        assert s[..i + 1] == [s[0]] + s[1..][..i];
        i + 1
  }

  function Before(s: string, c: char): string {
    var i := IndexOf(s, c);
    if i < 0 then s else s[..i]
  }

  function Behind(s: string, c: char): string {
    var i := IndexOf(s, c);
    if i < 0 then "" else s[i + 1..]
  }

  function Split(s: string, c: char): (parts: seq<string>)
    ensures parts != []
    decreases |s|
  {
    var i := IndexOf(s, c);
    if i < 0 then [s] else [s[..i]] + Split(s[i + 1..], c)
  }

  predicate IsSpace(c: char) {
    c == ' ' || '\t' <= c <= '\r'
  }

  function TrimLeft(s: string): string {
    if s != "" && IsSpace(s[0]) then TrimLeft(s[1..]) else s
  }

  function TrimRight(s: string): string {
    if s != "" && IsSpace(s[|s| - 1]) then TrimRight(s[..|s| - 1]) else s
  }

  /** A release number as toInt reads it; what is no number counts as zero. */
  function ReleaseNumber(part: string): nat {
    var t := TrimRight(TrimLeft(part));
    if t != "" && AllDigits(t) && Decimal(t) <= INT_MAX then Decimal(t) else 0
  }

  function Numbers(parts: seq<string>): seq<nat> {
    if parts == [] then [] else [ReleaseNumber(parts[0])] + Numbers(parts[1..])
  }

  datatype ParsedVersion = ParsedVersion(release: seq<nat>, prerelease: string)

  function Parse(v: string): ParsedVersion {
    var s := Before(v, '+');
    ParsedVersion(Numbers(Split(Before(s, '-'), '.')), Behind(s, '-'))
  }

  // -------------------------------------------------------------------------
  // The reference order
  // -------------------------------------------------------------------------

  function DropZeros(r: seq<nat>): (t: seq<nat>)
    ensures |t| <= |r| && t == r[..|t|]
    ensures t != [] ==> t[|t| - 1] != 0
    ensures forall i | |t| <= i < |r| :: r[i] == 0
  {
    if r != [] && r[|r| - 1] == 0 then DropZeros(r[..|r| - 1]) else r
  }

  /** The key of a version: its release numbers without trailing zeros, then the
      pre-release keys after a 0, or a 1 for a full release. */
  datatype Key = Key(release: seq<nat>, suffix: seq<nat>)

  function SuffixKey(prerelease: string): seq<nat> {
    if prerelease == "" then [1] else [0] + Keys(prerelease, 0)
  }

  function KeyOf(v: string): Key {
    var p := Parse(v);
    Key(DropZeros(p.release), SuffixKey(p.prerelease))
  }

  function CompareKeys(a: Key, b: Key): int {
    if Lex(a.release, b.release) != 0 then Lex(a.release, b.release) else Lex(a.suffix, b.suffix)
  }

  function Order(a: string, b: string): int {
    CompareKeys(KeyOf(a), KeyOf(b))
  }

  // -------------------------------------------------------------------------
  // It is a total preorder
  // -------------------------------------------------------------------------

  lemma {:induction false} LexFlip(a: seq<nat>, b: seq<nat>)
    ensures Lex(a, b) == -Lex(b, a)
    ensures Lex(a, b) == 0 <==> a == b
    ensures Lex(a, b) in {-1, 0, 1}
  {
    if a != [] && b != [] && a[0] == b[0] {
      LexFlip(a[1..], b[1..]);
      assert a == [a[0]] + a[1..] && b == [b[0]] + b[1..];
    }
  }

  lemma {:induction false} LexTransitive(a: seq<nat>, b: seq<nat>, c: seq<nat>)
    requires Lex(a, b) <= 0 && Lex(b, c) <= 0
    ensures Lex(a, c) <= 0
    ensures Lex(a, b) < 0 || Lex(b, c) < 0 ==> Lex(a, c) < 0
  {
    if a != [] && b != [] && c != [] && a[0] == b[0] == c[0] { LexTransitive(a[1..], b[1..], c[1..]); }
  }

  /** Swapping the versions flips the sign, and versions compare equal exactly
      if they have the same key. */
  lemma OrderFlips(a: string, b: string)
    ensures Order(a, b) == -Order(b, a)
    ensures Order(a, b) == 0 <==> KeyOf(a) == KeyOf(b)
    ensures Order(a, b) in {-1, 0, 1}
  {
    LexFlip(KeyOf(a).release, KeyOf(b).release);
    LexFlip(KeyOf(a).suffix, KeyOf(b).suffix);
  }

  lemma OrderTransitive(a: string, b: string, c: string)
    requires Order(a, b) <= 0 && Order(b, c) <= 0
    ensures Order(a, c) <= 0
    ensures Order(a, b) < 0 || Order(b, c) < 0 ==> Order(a, c) < 0
  {
    var x, y, z := KeyOf(a), KeyOf(b), KeyOf(c);
    LexFlip(x.release, y.release);
    LexFlip(y.release, z.release);
    LexFlip(x.release, z.release);
    LexTransitive(x.release, y.release, z.release);
    if x.release == y.release == z.release { LexTransitive(x.suffix, y.suffix, z.suffix); }
  }

  /** Zero padding: comparing number by number, with zero for what is missing,
      is comparing without the trailing zeros. */
  function Padded(r: seq<nat>, i: nat): nat {
    if i < |r| then r[i] else 0
  }

  /** The versions first differ at release number `i`. */
  ghost predicate FirstDifference(a: seq<nat>, b: seq<nat>, i: nat) {
    Padded(a, i) != Padded(b, i) && forall k | 0 <= k < i :: Padded(a, k) == Padded(b, k)
  }

  lemma {:induction false} LexAt(a: seq<nat>, b: seq<nat>, i: nat)
    requires i <= |a| && i <= |b| && a[..i] == b[..i]
    ensures Lex(a, b) == Lex(a[i..], b[i..])
  {
    if i > 0 {
      assert a[0] == a[..i][0] == b[..i][0] == b[0];
      assert a[1..][..i - 1] == a[..i][1..] == b[..i][1..] == b[1..][..i - 1];
      LexAt(a[1..], b[1..], i - 1);
      assert a[1..][i - 1..] == a[i..] && b[1..][i - 1..] == b[i..];
    }
  }

  lemma PaddedDrop(a: seq<nat>, i: nat)
    ensures Padded(DropZeros(a), i) == Padded(a, i)
  {
  }

  lemma DifferenceDecides(a: seq<nat>, b: seq<nat>, i: nat)
    requires FirstDifference(a, b, i)
    ensures Lex(DropZeros(a), DropZeros(b)) == Sign(Padded(a, i), Padded(b, i))
  {
    var x, y := DropZeros(a), DropZeros(b);
    forall k ensures k >= 0 ==> Padded(x, k) == Padded(a, k) && Padded(y, k) == Padded(b, k) {
      if k >= 0 { PaddedDrop(a, k); PaddedDrop(b, k); }
    }
    if |x| <= i {
      // the last number of x is not zero, so x is no longer than y up to i
      assert y[i] == Padded(b, i);
      forall k | 0 <= k < |x| ensures x[k] == y[k] { assert Padded(x, k) == Padded(y, k); }
      LexAt(x, y, |x|);
    } else if |y| <= i {
      forall k | 0 <= k < |y| ensures x[k] == y[k] { assert Padded(x, k) == Padded(y, k); }
      LexAt(x, y, |y|);
    } else {
      forall k | 0 <= k < i ensures x[k] == y[k] { assert Padded(x, k) == Padded(y, k); }
      LexAt(x, y, i);
    }
  }

  lemma NoLonger(a: seq<nat>, b: seq<nat>)
    requires forall k: nat :: Padded(a, k) == Padded(b, k)
    ensures |DropZeros(a)| <= |DropZeros(b)|
  {
    var n := |DropZeros(a)|;
    if n > 0 {
      PaddedDrop(a, n - 1);
      assert Padded(b, n - 1) != 0;
    }
  }

  lemma NoDifferenceMeansEqual(a: seq<nat>, b: seq<nat>)
    requires forall k: nat :: Padded(a, k) == Padded(b, k)
    ensures DropZeros(a) == DropZeros(b)
  {
    var x, y := DropZeros(a), DropZeros(b);
    NoLonger(a, b);
    NoLonger(b, a);
    forall k | 0 <= k < |x| ensures x[k] == y[k] {
      PaddedDrop(a, k);
      PaddedDrop(b, k);
    }
  }
}
