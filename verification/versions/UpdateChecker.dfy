/** The update checker: comparing versions with index loops, picking the newest
    entry of a feed, and deciding whether it is news. */
module UpdateChecking {
  import opened VersionOrder

  lemma CharsAgainstKeys(c: char, d: char, value: nat)
    requires !IsDigit(c) && IsDigit(d) && value < TWO_64
    ensures c != d && CharKey(c) != NumberKey(value)
    ensures c < d <==> CharKey(c) < NumberKey(value)
  {
  }

  method NaturalCompare(a: string, b: string) returns (r: int)
    ensures r == Lex(Keys(a, 0), Keys(b, 0))
  {
    var i, j := 0, 0;
    while i < |a| && j < |b|
      invariant i <= |a| && j <= |b|
      invariant Lex(Keys(a, 0), Keys(b, 0)) == Lex(Keys(a, i), Keys(b, j))
      decreases |a| - i
    {
      if IsDigit(a[i]) && IsDigit(b[j]) {
        var i2 := SkipDigits(a, i);
        var j2 := SkipDigits(b, j);
        var x, y := RunValue(a[i..i2]), RunValue(b[j..j2]);
        if x != y { return if x < y then -1 else 1; }
        i, j := i2, j2;
      } else {
        if IsDigit(a[i]) { CharsAgainstKeys(b[j], a[i], RunValue(a[i..RunEnd(a, i)])); }
        if IsDigit(b[j]) { CharsAgainstKeys(a[i], b[j], RunValue(b[j..RunEnd(b, j)])); }
        if a[i] != b[j] { return if a[i] < b[j] then -1 else 1; }
        i, j := i + 1, j + 1;
      }
    }
    if i < |a| { return 1; }
    if j < |b| { return -1; }
    return 0;
  }

  method SkipDigits(s: string, i: nat) returns (e: nat)
    requires i <= |s|
    ensures e == RunEnd(s, i)
  {
    e := i;
    while e < |s| && IsDigit(s[e])
      invariant i <= e <= |s|
      invariant RunEnd(s, e) == RunEnd(s, i)
    {
      e := e + 1;
    }
  }

  lemma {:induction false} NumbersAppend(a: seq<string>, p: string)
    ensures Numbers(a + [p]) == Numbers(a) + [ReleaseNumber(p)]
  {
    if a == [] {
      assert [p][1..] == [];
    } else {
      assert (a + [p])[1..] == a[1..] + [p];
      NumbersAppend(a[1..], p);
    }
  }

  method ReadNumbers(parts: seq<string>) returns (release: seq<nat>)
    ensures release == Numbers(parts)
  {
    release := [];
    var k := 0;
    while k < |parts|
      invariant 0 <= k <= |parts| && release == Numbers(parts[..k])
    {
      assert parts[..k + 1] == parts[..k] + [parts[k]];
      NumbersAppend(parts[..k], parts[k]);
      release := release + [ReleaseNumber(parts[k])];
      k := k + 1;
    }
    assert parts[..|parts|] == parts;
  }

  method ParseVersion(v: string) returns (out: ParsedVersion)
    ensures out == Parse(v)
  {
    hide IndexOf, Split, Numbers;
    var s := v;
    var plus := IndexOf(s, '+');
    if plus >= 0 { s := s[..plus]; }
    var prerelease := "";
    var dash := IndexOf(s, '-');
    if dash >= 0 {
      prerelease := s[dash + 1..];
      s := s[..dash];
    }
    var release := ReadNumbers(Split(s, '.'));
    out := ParsedVersion(release, prerelease);
  }

  /** Number by number, with zero for what is missing. */
  method CompareReleases(a: seq<nat>, b: seq<nat>) returns (r: int)
    ensures r == Lex(DropZeros(a), DropZeros(b))
  {
    hide Lex, DropZeros;
    var n := if |a| > |b| then |a| else |b|;
    var i := 0;
    while i < n
      invariant 0 <= i <= n
      invariant forall k | 0 <= k < i :: Padded(a, k) == Padded(b, k)
    {
      var x := if i < |a| then a[i] else 0;
      var y := if i < |b| then b[i] else 0;
      if x != y {
        assert FirstDifference(a, b, i);
        DifferenceDecides(a, b, i);
        return if x < y then -1 else 1;
      }
      i := i + 1;
    }
    assert forall k: nat :: Padded(a, k) == Padded(b, k);
    NoDifferenceMeansEqual(a, b);
    LexFlip(DropZeros(a), DropZeros(b));
    return 0;
  }

  /** The release numbers, then the pre-releases: exactly the reference order. */
  method CompareVersions(a: string, b: string) returns (r: int)
    ensures r == Order(a, b)
  {
    hide Lex, DropZeros, Parse, Keys, SuffixKey;
    var av := ParseVersion(a);
    var bv := ParseVersion(b);
    r := CompareReleases(av.release, bv.release);
    if r != 0 { return; }
    SuffixOrder(av.prerelease, bv.prerelease);
    if (av.prerelease == "") != (bv.prerelease == "") {
      return if av.prerelease == "" then 1 else -1;
    }
    r := NaturalCompare(av.prerelease, bv.prerelease);
  }

  lemma SuffixOrder(p: string, q: string)
    ensures (p == "") != (q == "") ==> Lex(SuffixKey(p), SuffixKey(q)) == if p == "" then 1 else -1
    ensures (p == "") == (q == "") ==> Lex(SuffixKey(p), SuffixKey(q)) == Lex(Keys(p, 0), Keys(q, 0))
  {
    assert ([0] + Keys(p, 0))[1..] == Keys(p, 0) && ([0] + Keys(q, 0))[1..] == Keys(q, 0);
    assert [1][1..] == [];
  }

  // -------------------------------------------------------------------------
  // The feed
  // -------------------------------------------------------------------------

  /** One enclosure; `trusted` is whether its address is https on a trusted host. */
  datatype Enclosure = Enclosure(shortVersion: string, longVersion: string, url: string, trusted: bool)

  function VersionOf(e: Enclosure): string {
    if e.shortVersion != "" then e.shortVersion else e.longVersion
  }

  predicate Accepted(e: Enclosure) {
    VersionOf(e) != "" && e.trusted
  }

  datatype Feed = Feed(version: string, url: string)

  /** The entry at `i` is the first of the newest among the first `n`. */
  ghost predicate IsNewest(entries: seq<Enclosure>, n: int, i: int, best: Feed) {
    0 <= i < n <= |entries| && Accepted(entries[i]) && best == Feed(VersionOf(entries[i]), entries[i].url)
    && (forall k | 0 <= k < n && Accepted(entries[k]) :: Order(VersionOf(entries[k]), best.version) <= 0)
    && (forall k | 0 <= k < i && Accepted(entries[k]) :: Order(VersionOf(entries[k]), best.version) < 0)
  }

  /** The newest accepted entry, the first of them if several are equally new;
      an empty version if no entry is accepted. */
  method ParseAppcast(entries: seq<Enclosure>) returns (best: Feed)
    ensures best.version == "" ==> forall e | e in entries :: !Accepted(e)
    ensures best.version != "" ==> exists i :: IsNewest(entries, |entries|, i, best)
  {
    hide Order;
    best := Feed("", "");
    ghost var at := -1;
    var n := 0;
    while n < |entries|
      invariant 0 <= n <= |entries|
      invariant best.version == "" ==> forall k | 0 <= k < n :: !Accepted(entries[k])
      invariant best.version != "" ==> IsNewest(entries, n, at, best)
    {
      var e := entries[n];
      if Accepted(e) {
        var take := best.version == "";
        if !take {
          var c := CompareVersions(best.version, VersionOf(e));
          take := c < 0;
        }
        if take {
          Overtaken(entries, n, at, best);
          best := Feed(VersionOf(e), e.url);
          at := n;
        } else {
          NotOvertaken(entries, n, at, best);
        }
      }
      n := n + 1;
    }
  }

  lemma NotOvertaken(entries: seq<Enclosure>, n: nat, at: int, best: Feed)
    requires n < |entries| && IsNewest(entries, n, at, best)
    requires Order(best.version, VersionOf(entries[n])) >= 0
    ensures IsNewest(entries, n + 1, at, best)
  {
    hide Order;
    OrderFlips(best.version, VersionOf(entries[n]));
  }

  /** What the old best was not behind, a newer entry leaves behind. */
  lemma Overtaken(entries: seq<Enclosure>, n: nat, at: int, best: Feed)
    requires n < |entries| && (best.version != "" ==> IsNewest(entries, n, at, best))
    requires best.version == "" ==> forall k | 0 <= k < n :: !Accepted(entries[k])
    requires best.version != "" ==> Order(best.version, VersionOf(entries[n])) < 0
    requires Accepted(entries[n])
    ensures IsNewest(entries, n + 1, n, Feed(VersionOf(entries[n]), entries[n].url))
  {
    hide Order;
    OrderFlips(VersionOf(entries[n]), VersionOf(entries[n]));
    forall k | 0 <= k < n && Accepted(entries[k]) ensures Order(VersionOf(entries[k]), VersionOf(entries[n])) < 0 {
      OrderTransitive(VersionOf(entries[k]), best.version, VersionOf(entries[n]));
    }
  }

  datatype Verdict = CheckFailed | UpToDate | UpdateAvailable(version: string, url: string)

  datatype Reply = Failed | Appcast(entries: seq<Enclosure>)

  ghost predicate Newer(entries: seq<Enclosure>, current: string) {
    exists e :: e in entries && Accepted(e) && Order(current, VersionOf(e)) < 0
  }

  lemma NewerThanBest(entries: seq<Enclosure>, best: Feed, i: int, current: string)
    requires IsNewest(entries, |entries|, i, best)
    ensures Newer(entries, current) <==> Order(current, best.version) < 0
  {
    if Newer(entries, current) {
      var e :| e in entries && Accepted(e) && Order(current, VersionOf(e)) < 0;
      var k :| 0 <= k < |entries| && entries[k] == e;
      OrderTransitive(current, VersionOf(e), best.version);
    }
    if Order(current, best.version) < 0 { assert entries[i] in entries; }
  }

  class UpdateChecker {
    const currentVersion: string
    var latestVersion: string
    var latestUrl: string
    var verdicts: seq<Verdict>

    constructor (current: string)
      ensures currentVersion == current && verdicts == [] && latestVersion == ""
    {
      currentVersion := current;
      latestVersion, latestUrl, verdicts := "", "", [];
    }

    /** An update is announced exactly if some accepted entry is newer than the
        running version, and then it is a newest one. */
    method OnReplyFinished(reply: Reply)
      modifies this
      ensures |verdicts| == |old(verdicts)| + 1 && old(verdicts) <= verdicts
      ensures var verdict := verdicts[|verdicts| - 1];
              match reply
              case Failed => verdict == CheckFailed && unchanged(`latestVersion, `latestUrl)
              case Appcast(entries) =>
                && (verdict == CheckFailed <==> forall e | e in entries :: !Accepted(e))
                && (verdict.UpdateAvailable? <==> Newer(entries, currentVersion))
                && (verdict.UpdateAvailable? ==>
                      verdict == UpdateAvailable(latestVersion, latestUrl)
                      && exists i :: IsNewest(entries, |entries|, i, Feed(latestVersion, latestUrl)))
                && (!verdict.UpdateAvailable? ==> unchanged(`latestVersion, `latestUrl))
    {
      if reply.Failed? {
        verdicts := verdicts + [CheckFailed];
        return;
      }
      var feed := ParseAppcast(reply.entries);
      if feed.version == "" {
        verdicts := verdicts + [CheckFailed];
        return;
      }
      ghost var i :| IsNewest(reply.entries, |reply.entries|, i, feed);
      assert reply.entries[i] in reply.entries;
      NewerThanBest(reply.entries, feed, i, currentVersion);
      var c := CompareVersions(currentVersion, feed.version);
      if c >= 0 {
        verdicts := verdicts + [UpToDate];
        return;
      }
      latestVersion, latestUrl := feed.version, feed.url;
      verdicts := verdicts + [UpdateAvailable(feed.version, feed.url)];
    }
  }
}
