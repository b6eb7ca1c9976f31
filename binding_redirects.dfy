/** The assembly binding redirects done in code: when the runtime cannot resolve an assembly, its
    display name is rewritten to the log4net, HtmlAgilityPack or AutoMapper build that ships, and
    that name is loaded instead. The decision is a pure function of the name; Assembly.Load itself
    is left to the caller, so the result is the name to load, or None for the handler's null.

    Both regular expressions have the shape prefix([\d\.]+?)suffix with literal prefix and suffix;
    they are modelled by a matcher that does what the regex engine does for that shape: try each
    start position from the left, and at a start take the fewest version characters after which
    the suffix follows. */
module BindingRedirects {
  import opened Text

  /** A pattern prefix([\d\.]+?)suffix, by its two literal parts. */
  datatype VersionPattern = VersionPattern(prefix: string, suffix: string)

  /** A character of the class [\d\.]. */
  predicate IsVersionChar(c: char)
  {
    '0' <= c <= '9' || c == '.'
  }

  predicate AllVersionChars(v: string)
  {
    forall j :: 0 <= j < |v| ==> IsVersionChar(v[j])
  }

  /** s holds a match of p at position q whose version run has k characters. */
  ghost predicate MatchesAt(s: string, p: VersionPattern, q: nat, k: nat)
  {
    && 1 <= k
    && q + |p.prefix| + k + |p.suffix| <= |s|
    && s[q..q + |p.prefix|] == p.prefix
    && (forall j :: q + |p.prefix| <= j < q + |p.prefix| + k ==> IsVersionChar(s[j]))
    && s[q + |p.prefix| + k..q + |p.prefix| + k + |p.suffix|] == p.suffix
  }

  /** The lazy quantifier at work: the prefix and k - 1 version characters are matched at q; take
      a k-th version character and try the suffix after it, or else take one more. The result is
      the length of the run. */
  function LazyRun(s: string, p: VersionPattern, q: nat, k: nat): (r: Option<nat>)
    requires 1 <= k && q + |p.prefix| + k - 1 <= |s|
    requires s[q..q + |p.prefix|] == p.prefix
    requires forall j :: q + |p.prefix| <= j < q + |p.prefix| + k - 1 ==> IsVersionChar(s[j])
    ensures r.Some? ==> k <= r.value && MatchesAt(s, p, q, r.value)
    ensures forall k' :: k <= k' && (r.None? || k' < r.value) ==> !MatchesAt(s, p, q, k')
    decreases |s| - k
  {
    var n := q + |p.prefix| + k;
    if n > |s| then None
    else if !IsVersionChar(s[n - 1]) then
      RunBroken(s, p, q, k);
      None
    else if n + |p.suffix| <= |s| && s[n..n + |p.suffix|] == p.suffix then Some(k)
    else
      assert !MatchesAt(s, p, q, k);
      LazyRun(s, p, q, k + 1)
  }

  /** Every run of k or more characters at q would contain the character that ends the first k. */
  lemma RunBroken(s: string, p: VersionPattern, q: nat, k: nat)
    requires 1 <= k && q + |p.prefix| + k <= |s| && !IsVersionChar(s[q + |p.prefix| + k - 1])
    ensures forall k' :: k <= k' ==> !MatchesAt(s, p, q, k')
  {
  }

  /** The attempt of the regex engine at start position q: the run length of the match there. */
  function MatchAt(s: string, p: VersionPattern, q: nat): (r: Option<nat>)
    ensures r.Some? ==> MatchesAt(s, p, q, r.value)
    ensures r.Some? ==> forall k: nat :: k < r.value ==> !MatchesAt(s, p, q, k)
    ensures r.None? ==> forall k :: !MatchesAt(s, p, q, k)
  {
    if q + |p.prefix| <= |s| && s[q..q + |p.prefix|] == p.prefix then LazyRun(s, p, q, 1) else None
  }

  /** The leftmost match at or after from, as its start and its run length. */
  function FirstMatch(s: string, p: VersionPattern, from: nat): (r: Option<(nat, nat)>)
    ensures r.Some? ==> from <= r.value.0 && MatchesAt(s, p, r.value.0, r.value.1)
    ensures r.Some? ==> forall q, k :: from <= q < r.value.0 ==> !MatchesAt(s, p, q, k)
    ensures r.Some? ==> forall k: nat :: k < r.value.1 ==> !MatchesAt(s, p, r.value.0, k)
    ensures r.None? ==> forall q, k :: from <= q ==> !MatchesAt(s, p, q, k)
    decreases |s| - from
  {
    if from >= |s| then None
    else match MatchAt(s, p, from)
      case Some(k) => Some((from, k))
      case None => FirstMatch(s, p, from + 1)
  }

  /** Regex.IsMatch: a match starts somewhere in s. */
  function IsMatch(s: string, p: VersionPattern): (r: bool)
    ensures r <==> exists q: nat, k: nat :: MatchesAt(s, p, q, k)
  {
    FirstMatch(s, p, 0).Some?
  }

  /** Regex.Replace with a replacement that holds no substitution: every match, leftmost first and
      the search resuming after it, is replaced: the text before the leftmost match is kept and
      the replacement follows it, and a string too short to hold a match comes back as it is. */
  function Replace(s: string, p: VersionPattern, replacement: string): (r: string)
    ensures |s| < |p.prefix| + 1 + |p.suffix| ==> r == s
    decreases |s|, 1
  {
    ReplaceMatch(s, p, replacement, FirstMatch(s, p, 0))
  }

  /** Replace, given the leftmost match of s (its start and its run length) or None. */
  function ReplaceMatch(s: string, p: VersionPattern, replacement: string, first: Option<(nat, nat)>): (r: string)
    requires first.Some? ==> 1 <= first.value.1 && first.value.0 + |p.prefix| + first.value.1 + |p.suffix| <= |s|
    ensures first.Some? ==> StartsWith(r, s[..first.value.0] + replacement)
    decreases |s|, 0
  {
    match first
    case None => s
    case Some((i, k)) => s[..i] + replacement + Replace(s[i + |p.prefix| + k + |p.suffix|..], p, replacement)
  }

  // The names are built from short parts, which keeps the proofs about them small.

  const CULTURE_NEUTRAL := ", Culture=neutral, "
  const TOKEN_KEY := "PublicKeyToken="

  /** The log4net pattern: any version of the unsigned build. */
  const LOG4NET := VersionPattern("log4net, Version=", CULTURE_NEUTRAL + TOKEN_KEY + "null")
  /** The log4net name that ships: version 1.2.15.0 of the signed build. */
  const LOG4NET_REPLACEMENT := LOG4NET.prefix + "1.2.15.0" + CULTURE_NEUTRAL + TOKEN_KEY + "669e0ddf0bb1aa2a"

  /** The HtmlAgilityPack pattern: any version of the signed build. */
  const HTML_AGILITY := VersionPattern("HtmlAgilityPack, Version=", CULTURE_NEUTRAL + TOKEN_KEY + "bd319b19eaf3b43a")
  /** The HtmlAgilityPack name that ships: version 1.4.9.5 of the same build. */
  const HTML_AGILITY_REPLACEMENT := HTML_AGILITY.prefix + "1.4.9.5" + HTML_AGILITY.suffix

  const AUTOMAPPER := "AutoMapper"
  const NULL_PUBLIC_KEY_TOKEN := TOKEN_KEY + "null"
  const AUTOMAPPER_NULL_TOKEN := ", " + NULL_PUBLIC_KEY_TOKEN
  const AUTOMAPPER_SIGNED_TOKEN := ", " + TOKEN_KEY + "be96cd2c38ef1005"

  /** The AssemblyResolve handler: the name it passes to Assembly.Load, or None when it returns null.
      The branches are tried in this order and the first that applies decides. */
  function AssemblyResolve(name: string): (loadName: Option<string>)
    // only names of the three assemblies are redirected
    ensures loadName.Some? ==>
      || IsMatch(name, LOG4NET) || IsMatch(name, HTML_AGILITY)
      || (StartsWith(name, AUTOMAPPER) && EndsWith(name, NULL_PUBLIC_KEY_TOKEN))
    // every name of the unsigned log4net build is redirected, to a name that is not one
    ensures IsMatch(name, LOG4NET) ==> loadName.Some? && !IsMatch(loadName.value, LOG4NET)
  {
    Log4NetReplacementDoesNotMatch();
    if IsMatch(name, LOG4NET) && name != LOG4NET_REPLACEMENT then
      Log4NetRedirectHasNoMatch(name);
      Some(Replace(name, LOG4NET, LOG4NET_REPLACEMENT))
    else if IsMatch(name, HTML_AGILITY) && name != HTML_AGILITY_REPLACEMENT then
      Some(Replace(name, HTML_AGILITY, HTML_AGILITY_REPLACEMENT))
    else if StartsWith(name, AUTOMAPPER) && EndsWith(name, NULL_PUBLIC_KEY_TOKEN) then
      Some(ReplaceOrdinal(name, AUTOMAPPER_NULL_TOKEN, AUTOMAPPER_SIGNED_TOKEN))
    else None
  }

  // Generic facts about the matcher

  /** Whether a match starts at q depends only on the characters it would cover. */
  lemma MatchLocal(s: string, t: string, p: VersionPattern, q: nat, k: nat)
    requires q + |p.prefix| + k + |p.suffix| <= |s| && q + |p.prefix| + k + |p.suffix| <= |t|
    requires forall j :: q <= j < q + |p.prefix| + k + |p.suffix| ==> s[j] == t[j]
    ensures MatchesAt(s, p, q, k) <==> MatchesAt(t, p, q, k)
  {
    var m, n := q + |p.prefix|, q + |p.prefix| + k;
    assert s[q..m] == t[q..m];
    assert s[n..n + |p.suffix|] == t[n..n + |p.suffix|];
  }

  /** A match in b is a match in a + b, shifted by |a|, and conversely. */
  lemma MatchShift(a: string, b: string, p: VersionPattern, q: nat, k: nat)
    ensures MatchesAt(a + b, p, |a| + q, k) <==> MatchesAt(b, p, q, k)
  {
    if q + |p.prefix| + k + |p.suffix| <= |b| {
      var m, n := q + |p.prefix|, q + |p.prefix| + k;
      assert (a + b)[|a| + q..|a| + m] == b[q..m];
      assert (a + b)[|a| + n..|a| + n + |p.suffix|] == b[n..n + |p.suffix|];
      assert forall j :: m <= j < n ==> (a + b)[|a| + j] == b[j];
    }
  }

  /** When the suffix cannot begin with a version character, a match at q has one run length only. */
  lemma MatchRunIsUnique(s: string, p: VersionPattern, q: nat, k1: nat, k2: nat)
    requires |p.suffix| >= 1 && !IsVersionChar(p.suffix[0])
    ensures MatchesAt(s, p, q, k1) && k1 < k2 ==> !MatchesAt(s, p, q, k2)
  {
    var n := q + |p.prefix| + k1;
    if MatchesAt(s, p, q, k1) && n < |s| {
      assert s[n] == p.suffix[0] by { assert s[n..n + |p.suffix|][0] == s[n]; }
    }
  }

  /** A name made of the prefix, a version and the suffix is a match of the pattern at its start. */
  lemma WholeNameMatches(p: VersionPattern, version: string)
    requires |version| >= 1 && AllVersionChars(version)
    ensures MatchesAt(p.prefix + version + p.suffix, p, 0, |version|)
  {
    var name := p.prefix + version + p.suffix;
    var n := |p.prefix| + |version|;
    assert name[0..|p.prefix|] == p.prefix;
    assert name[n..n + |p.suffix|] == p.suffix;
    assert forall j :: |p.prefix| <= j < n ==> name[j] == version[j - |p.prefix|];
  }

  /** The leftmost match of a string that starts with a match is that one. */
  lemma FirstMatchAtStart(s: string, p: VersionPattern, k: nat)
    requires |p.suffix| >= 1 && !IsVersionChar(p.suffix[0])
    requires MatchesAt(s, p, 0, k)
    ensures FirstMatch(s, p, 0) == Some((0, k))
  {
    var first := FirstMatch(s, p, 0);
    assert first.Some? && first.value.0 == 0;
    MatchRunIsUnique(s, p, 0, first.value.1, k);
    MatchRunIsUnique(s, p, 0, k, first.value.1);
  }

  /** The leftmost match lies within the string. */
  lemma FirstMatchFits(s: string, p: VersionPattern, i: nat, k: nat)
    requires FirstMatch(s, p, 0) == Some((i, k))
    ensures 1 <= k && i + |p.prefix| + k + |p.suffix| <= |s|
  {
  }

  /** Replace, one step: the leftmost match is replaced and the search resumes after it. */
  lemma ReplaceFirst(s: string, p: VersionPattern, i: nat, k: nat, replacement: string)
    requires FirstMatch(s, p, 0) == Some((i, k))
    ensures i + |p.prefix| + k + |p.suffix| <= |s|
    ensures Replace(s, p, replacement)
         == s[..i] + replacement + Replace(s[i + |p.prefix| + k + |p.suffix|..], p, replacement)
  {
    FirstMatchFits(s, p, i, k);
  }

  /** Replace leaves a string without a match as it is. */
  lemma ReplaceWithoutMatch(s: string, p: VersionPattern, replacement: string)
    requires !IsMatch(s, p)
    ensures Replace(s, p, replacement) == s
  {
  }

  /** Replace on such a name followed by a tail: the whole match is replaced and the tail searched. */
  lemma ReplaceWholeName(p: VersionPattern, version: string, tail: string, replacement: string)
    requires |version| >= 1 && AllVersionChars(version)
    requires |p.suffix| >= 1 && !IsVersionChar(p.suffix[0])
    ensures Replace(p.prefix + version + p.suffix + tail, p, replacement)
         == replacement + Replace(tail, p, replacement)
  {
    var whole := p.prefix + version + p.suffix;
    var name := whole + tail;
    WholeNameMatches(p, version);
    MatchLocal(whole, name, p, 0, |version|);
    FirstMatchAtStart(name, p, |version|);
    ReplaceFirst(name, p, 0, |version|, replacement);
    assert name[..0] + replacement == replacement;
    assert name[|whole|..] == tail;
  }

  /** The whole name alone is replaced by the replacement alone. */
  lemma WholeNameRedirect(p: VersionPattern, version: string, replacement: string)
    requires |version| >= 1 && AllVersionChars(version)
    requires |p.suffix| >= 1 && !IsVersionChar(p.suffix[0])
    ensures Replace(p.prefix + version + p.suffix, p, replacement) == replacement
  {
    ReplaceWholeName(p, version, [], replacement);
    assert p.prefix + version + p.suffix + [] == p.prefix + version + p.suffix;
    assert Replace([], p, replacement) == [];
  }

  /** A string where the first two prefix characters never stand side by side holds no match. */
  lemma NoPairNoMatch(s: string, p: VersionPattern)
    requires |p.prefix| >= 2 && NoPair(s, p.prefix[0], p.prefix[1])
    ensures !IsMatch(s, p)
  {
    forall q: nat, k: nat ensures !MatchesAt(s, p, q, k) {
      if q + |p.prefix| <= |s| {
        assert s[q..q + |p.prefix|][0] == s[q] && s[q..q + |p.prefix|][1] == s[q + 1];
      }
    }
  }

  /** NoPair of a concatenation, from its parts and their seam. */
  lemma NoPairConcat(a: string, b: string, x: char, y: char)
    requires NoPair(a, x, y) && NoPair(b, x, y)
    requires |a| > 0 && |b| > 0 ==> !(a[|a| - 1] == x && b[0] == y)
    ensures NoPair(a + b, x, y)
  {
    forall j | 0 <= j < |a + b| - 1 ensures !((a + b)[j] == x && (a + b)[j + 1] == y) {
      if j + 1 < |a| {
        assert (a + b)[j] == a[j] && (a + b)[j + 1] == a[j + 1];
      } else if j >= |a| {
        assert (a + b)[j] == b[j - |a|] && (a + b)[j + 1] == b[j + 1 - |a|];
      }
    }
  }

  /** A version string holds no letter, so no pair of letters. */
  lemma VersionHasNoLetterPair(version: string, x: char, y: char)
    requires AllVersionChars(version) && !IsVersionChar(x)
    ensures NoPair(version, x, y)
  {
  }

  /** NoPair of a name built from a prefix, a version, a suffix and a tail. */
  lemma NameHasNoPair(prefix: string, version: string, suffix: string, tail: string, x: char, y: char)
    requires NoPair(prefix, x, y) && NoPair(suffix, x, y) && NoPair(tail, x, y)
    requires AllVersionChars(version) && !IsVersionChar(x)
    requires |prefix| > 0 ==> prefix[|prefix| - 1] != x
    requires |suffix| > 0 ==> suffix[|suffix| - 1] != x
    ensures NoPair(prefix + version + suffix + tail, x, y)
  {
    VersionHasNoLetterPair(version, x, y);
    NoPairConcat(prefix, version, x, y);
    NoPairConcat(prefix + version, suffix, x, y);
    NoPairConcat(prefix + version + suffix, tail, x, y);
  }

  /** Two names that differ in their middle part only are different names. */
  lemma MiddleDecides(a: string, v: string, w: string, b: string)
    requires v != w
    ensures a + v + b != a + w + b
  {
    if |v| == |w| {
      assert (a + v + b)[|a|..|a| + |v|] == v;
      assert (a + w + b)[|a|..|a| + |w|] == w;
    }
  }

  // Rewrites that cannot be rewritten again

  /** In a match of p, the first two characters of the prefix stand side by side only at its start:
      the first prefix character occurs nowhere else in the prefix, is not a version character, and
      is never followed by the second one in the suffix. */
  ghost predicate PairOnlyAtStart(p: VersionPattern)
  {
    && |p.prefix| >= 2 && !IsVersionChar(p.prefix[0])
    && (forall j :: 1 <= j < |p.prefix| ==> p.prefix[j] != p.prefix[0])
    && NoPair(p.suffix, p.prefix[0], p.prefix[1])
  }

  /** r begins as a match of p would, with a run of m version characters and then the suffix's first
      character, but departs from the suffix at its e-th character; further on, the first two prefix
      characters never stand side by side in r. */
  ghost predicate NearMiss(p: VersionPattern, r: string, m: nat, e: nat)
  {
    && |p.prefix| >= 2 && e < |p.suffix| && |p.prefix| + m + e < |r|
    && r[..|p.prefix|] == p.prefix
    && (forall j :: |p.prefix| <= j < |p.prefix| + m ==> IsVersionChar(r[j]))
    && r[|p.prefix| + m] == p.suffix[0] && !IsVersionChar(p.suffix[0])
    && r[|p.prefix| + m + e] != p.suffix[e]
    && (forall j :: 1 <= j < |r| && r[j] == p.prefix[0] ==> j + 1 < |r| && r[j + 1] != p.prefix[1])
  }

  /** The prefix, a run of version characters, and a rest that starts as the suffix does but departs
      from it, with no pair of the first two prefix characters: a near miss. */
  lemma NearMissFromParts(p: VersionPattern, v: string, w: string, e: nat)
    requires PairOnlyAtStart(p) && AllVersionChars(v)
    requires e < |p.suffix| && e < |w| && w[0] == p.suffix[0] && !IsVersionChar(p.suffix[0]) && w[e] != p.suffix[e]
    requires NoPair(w, p.prefix[0], p.prefix[1]) && w[|w| - 1] != p.prefix[0]
    ensures NearMiss(p, p.prefix + v + w, |v|, e)
  {
    var r := p.prefix + v + w;
    var pre, m := |p.prefix|, |v|;
    assert r[..pre] == p.prefix;
    assert forall j :: pre <= j < pre + m ==> r[j] == v[j - pre];
    assert forall j :: pre + m <= j < |r| ==> r[j] == w[j - pre - m];
  }

  lemma MatchHasNoInnerPair(s: string, p: VersionPattern, q: nat, k: nat, d: nat)
    requires PairOnlyAtStart(p)
    ensures MatchesAt(s, p, q, k) && 1 <= d && d + 1 < |p.prefix| + k + |p.suffix| ==>
      !(s[q + d] == p.prefix[0] && s[q + d + 1] == p.prefix[1])
  {
    if MatchesAt(s, p, q, k) && 1 <= d && d + 1 < |p.prefix| + k + |p.suffix| {
      var m, n := q + |p.prefix|, q + |p.prefix| + k;
      if d < |p.prefix| {
        assert s[q + d] == s[q..m][d] == p.prefix[d] != p.prefix[0];
      } else if d < |p.prefix| + k {
        assert IsVersionChar(s[q + d]);
      } else {
        var e := d - |p.prefix| - k;
        assert 0 <= e < |p.suffix| - 1;
        assert s[q + d] == s[n..n + |p.suffix|][e] == p.suffix[e];
        assert s[q + d + 1] == s[n..n + |p.suffix|][e + 1] == p.suffix[e + 1];
      }
    }
  }

  /** No match of p starts where a copy of a near miss r starts. */
  lemma NoMatchAtNearMiss(o: string, i: nat, p: VersionPattern, r: string, m: nat, e: nat, k: nat)
    requires NearMiss(p, r, m, e)
    requires i + |r| <= |o| && o[i..i + |r|] == r
    ensures !MatchesAt(o, p, i, k)
  {
    var pre := |p.prefix|;
    if 1 <= k && i + pre + k + |p.suffix| <= |o| {
      var n := i + pre + k;
      if k < m {
        assert o[i..i + |r|][pre + k] == o[n] && o[n..n + |p.suffix|][0] == o[n];
      } else if k > m {
        assert o[i..i + |r|][pre + m] == o[i + pre + m];
      } else {
        assert o[i..i + |r|][pre + m + e] == o[n + e] && o[n..n + |p.suffix|][e] == o[n + e];
      }
    }
  }

  /** No match of p starts strictly inside a copy of a near miss r. */
  lemma NoMatchInsideNearMiss(o: string, i: nat, p: VersionPattern, r: string, m: nat, e: nat, q: nat, k: nat)
    requires NearMiss(p, r, m, e)
    requires i + |r| <= |o| && o[i..i + |r|] == r
    requires i < q < i + |r|
    ensures !MatchesAt(o, p, q, k)
  {
    var pre := |p.prefix|;
    if 1 <= k && q + pre + k + |p.suffix| <= |o| {
      assert o[q..q + pre][0] == o[q] && o[q..q + pre][1] == o[q + 1];
      assert r[..pre][0] == r[0];
      assert o[i..i + |r|][q - i] == o[q];
      if q + 1 < i + |r| {
        assert o[i..i + |r|][q + 1 - i] == o[q + 1];
      }
    }
  }

  /** No match of p starts inside a copy of a near miss r, whatever surrounds it. */
  lemma NoMatchStartsInNearMiss(o: string, i: nat, p: VersionPattern, r: string, m: nat, e: nat, q: nat, k: nat)
    requires NearMiss(p, r, m, e)
    requires i + |r| <= |o| && o[i..i + |r|] == r
    requires i <= q < i + |r|
    ensures !MatchesAt(o, p, q, k)
  {
    if q == i {
      NoMatchAtNearMiss(o, i, p, r, m, e, k);
    } else {
      NoMatchInsideNearMiss(o, i, p, r, m, e, q, k);
    }
  }

  /** A near miss of p is no match of p. */
  lemma NearMissDoesNotMatch(p: VersionPattern, r: string, m: nat, e: nat)
    requires NearMiss(p, r, m, e)
    ensures !IsMatch(r, p)
  {
    assert r[0..|r|] == r;
    forall q: nat, k: nat ensures !MatchesAt(r, p, q, k) {
      if q < |r| {
        NoMatchStartsInNearMiss(r, 0, p, r, m, e, q, k);
      }
    }
  }

  /** A match in s[..i] + r + t that starts before r, where p's prefix starts at i in s with no match
      of p before it and r starts with that prefix: it would have been a match in s, or it would
      hold r's first two characters inside it. */
  lemma NoMatchBeforeNearMiss(s: string, i: nat, r: string, t: string, p: VersionPattern, q: nat, k: nat)
    requires PairOnlyAtStart(p) && |p.prefix| <= |r| && r[..|p.prefix|] == p.prefix
    requires i + |p.prefix| <= |s| && s[i..i + |p.prefix|] == p.prefix
    requires forall q': nat, k': nat :: q' < i ==> !MatchesAt(s, p, q', k')
    requires q < i
    ensures !MatchesAt(s[..i] + r + t, p, q, k)
  {
    var pre := |p.prefix|;
    var o := s[..i] + r + t;
    if q + pre + k + |p.suffix| <= i + pre {
      forall j | q <= j < q + pre + k + |p.suffix| ensures o[j] == s[j] {
        if j >= i {
          assert s[i..i + pre][j - i] == s[j] && r[..pre][j - i] == r[j - i];
        }
      }
      MatchLocal(s, o, p, q, k);
    } else {
      assert o[i] == p.prefix[0] && o[i + 1] == p.prefix[1] by {
        assert r[..pre][0] == r[0] && r[..pre][1] == r[1];
      }
      MatchHasNoInnerPair(o, p, q, k, i - q);
    }
  }

  /** No match in s[..i] + r + t, where p's prefix starts at i in s with no match of p before it, r is
      a near miss and t holds no match: none starts before r, none inside it, and none in t. */
  lemma NoMatchAroundNearMiss(s: string, i: nat, r: string, t: string, p: VersionPattern, m: nat, e: nat, q: nat, k: nat)
    requires PairOnlyAtStart(p) && NearMiss(p, r, m, e)
    requires i + |p.prefix| <= |s| && s[i..i + |p.prefix|] == p.prefix
    requires forall q': nat, k': nat :: q' < i ==> !MatchesAt(s, p, q', k')
    requires forall q': nat, k': nat :: !MatchesAt(t, p, q', k')
    ensures !MatchesAt(s[..i] + r + t, p, q, k)
  {
    var head := s[..i] + r;
    if q < i {
      NoMatchBeforeNearMiss(s, i, r, t, p, q, k);
    } else if q < i + |r| {
      assert (head + t)[i..i + |r|] == r;
      NoMatchStartsInNearMiss(head + t, i, p, r, m, e, q, k);
    } else {
      MatchShift(head, t, p, q - (i + |r|), k);
    }
  }

  /** Replacing every match of p by a near miss leaves no match of p, by induction on the matches. */
  lemma {:induction false} RedirectHasNoMatch(s: string, p: VersionPattern, r: string, m: nat, e: nat)
    requires PairOnlyAtStart(p) && NearMiss(p, r, m, e)
    ensures !IsMatch(Replace(s, p, r), p)
    decreases |s|
  {
    var first := FirstMatch(s, p, 0);
    if first.Some? {
      var i, k0 := first.value.0, first.value.1;
      var rest := s[i + |p.prefix| + k0 + |p.suffix|..];
      RedirectHasNoMatch(rest, p, r, m, e);
      var t := Replace(rest, p, r);
      ReplaceFirst(s, p, i, k0, r);
      forall q: nat, k: nat ensures !MatchesAt(s[..i] + r + t, p, q, k) {
        NoMatchAroundNearMiss(s, i, r, t, p, m, e, q, k);
      }
    }
  }

  // log4net

  /** A suffix ", Culture=neutral, PublicKeyToken=" + token has no "lo" when the token has none. */
  lemma TokenSuffixHasNoLo(token: string)
    requires NoPair(token, 'l', 'o')
    ensures NoPair(CULTURE_NEUTRAL + TOKEN_KEY + token, 'l', 'o')
  {
    NoPairConcat(CULTURE_NEUTRAL, TOKEN_KEY, 'l', 'o');
    NoPairConcat(CULTURE_NEUTRAL + TOKEN_KEY, token, 'l', 'o');
  }

  /** The log4net pattern has its "lo" only at the start of a match. */
  lemma Log4NetPatternFacts()
    ensures PairOnlyAtStart(LOG4NET)
    ensures LOG4NET.prefix[0] == 'l' && LOG4NET.prefix[1] == 'o'
    ensures |LOG4NET.suffix| >= 1 && !IsVersionChar(LOG4NET.suffix[0])
  {
    TokenSuffixHasNoLo("null");
  }

  lemma Log4NetTokenFacts()
    ensures var w := CULTURE_NEUTRAL + TOKEN_KEY + "669e0ddf0bb1aa2a";
      && w[0] == LOG4NET.suffix[0] && w[34] != LOG4NET.suffix[34] && |LOG4NET.suffix| > 34
      && NoPair(w, 'l', 'o') && w[|w| - 1] != 'l'
  {
    TokenSuffixHasNoLo("669e0ddf0bb1aa2a");
  }

  /** The canonical log4net name is a near miss of the log4net pattern: its token is not null. */
  lemma Log4NetReplacementFacts()
    ensures NearMiss(LOG4NET, LOG4NET_REPLACEMENT, 8, 34)
  {
    var w := CULTURE_NEUTRAL + TOKEN_KEY + "669e0ddf0bb1aa2a";
    Log4NetPatternFacts();
    Log4NetTokenFacts();
    NearMissFromParts(LOG4NET, "1.2.15.0", w, 34);
    assert LOG4NET.prefix + "1.2.15.0" + w == LOG4NET_REPLACEMENT;
  }

  /** The log4net rewrite of any name holds no log4net match. */
  lemma Log4NetRedirectHasNoMatch(s: string)
    ensures !IsMatch(Replace(s, LOG4NET, LOG4NET_REPLACEMENT), LOG4NET)
  {
    Log4NetPatternFacts();
    Log4NetReplacementFacts();
    RedirectHasNoMatch(s, LOG4NET, LOG4NET_REPLACEMENT, 8, 34);
  }

  /** The canonical log4net name is not a log4net match, so the guard against it never decides. */
  lemma Log4NetReplacementDoesNotMatch()
    ensures !IsMatch(LOG4NET_REPLACEMENT, LOG4NET)
  {
    Log4NetReplacementFacts();
    NearMissDoesNotMatch(LOG4NET, LOG4NET_REPLACEMENT, 8, 34);
  }

  /** A name with a log4net match is always redirected by the first branch, to a name that branch
      does not redirect again and that differs from the name. */
  lemma Log4NetBranchWins(name: string)
    requires IsMatch(name, LOG4NET)
    ensures AssemblyResolve(name) == Some(Replace(name, LOG4NET, LOG4NET_REPLACEMENT))
    ensures !IsMatch(AssemblyResolve(name).value, LOG4NET) && AssemblyResolve(name).value != name
  {
    Log4NetReplacementDoesNotMatch();
    Log4NetRedirectHasNoMatch(name);
  }

  /** The whole log4net name of any version is redirected to the canonical one. */
  lemma Log4NetWholeNameRedirect(version: string)
    requires |version| >= 1 && AllVersionChars(version)
    ensures AssemblyResolve(LOG4NET.prefix + version + LOG4NET.suffix) == Some(LOG4NET_REPLACEMENT)
  {
    var name := LOG4NET.prefix + version + LOG4NET.suffix;
    Log4NetPatternFacts();
    WholeNameMatches(LOG4NET, version);
    assert IsMatch(name, LOG4NET);
    Log4NetBranchWins(name);
    WholeNameRedirect(LOG4NET, version, LOG4NET_REPLACEMENT);
  }

  // HtmlAgilityPack

  lemma HtmlAgilityPatternFacts()
    ensures AllVersionChars("1.4.9.5")
    ensures HTML_AGILITY.prefix[0] == 'H' && HTML_AGILITY.prefix[1] == 't'
    ensures |HTML_AGILITY.prefix| >= 2 && HTML_AGILITY.prefix[|HTML_AGILITY.prefix| - 1] != 'l'
    ensures |HTML_AGILITY.suffix| >= 1 && !IsVersionChar(HTML_AGILITY.suffix[0])
    ensures HTML_AGILITY.suffix[|HTML_AGILITY.suffix| - 1] != 'l'
    ensures NoPair(HTML_AGILITY.prefix, 'l', 'o') && NoPair(HTML_AGILITY.suffix, 'l', 'o')
  {
    TokenSuffixHasNoLo("bd319b19eaf3b43a");
  }

  /** An HtmlAgilityPack name holds no log4net match: 'l' is never followed by 'o' in it. */
  lemma HtmlAgilityNameHasNoLog4NetMatch(version: string, tail: string)
    requires AllVersionChars(version) && NoPair(tail, 'l', 'o')
    ensures !IsMatch(HTML_AGILITY.prefix + version + HTML_AGILITY.suffix + tail, LOG4NET)
  {
    HtmlAgilityPatternFacts();
    Log4NetPatternFacts();
    NameHasNoPair(HTML_AGILITY.prefix, version, HTML_AGILITY.suffix, tail, 'l', 'o');
    NoPairNoMatch(HTML_AGILITY.prefix + version + HTML_AGILITY.suffix + tail, LOG4NET);
  }

  /** The whole HtmlAgilityPack name of any other version is redirected to version 1.4.9.5. */
  lemma HtmlAgilityWholeNameRedirect(version: string)
    requires |version| >= 1 && AllVersionChars(version) && version != "1.4.9.5"
    ensures AssemblyResolve(HTML_AGILITY.prefix + version + HTML_AGILITY.suffix) == Some(HTML_AGILITY_REPLACEMENT)
  {
    var name := HTML_AGILITY.prefix + version + HTML_AGILITY.suffix;
    HtmlAgilityPatternFacts();
    assert name + [] == name;
    HtmlAgilityNameHasNoLog4NetMatch(version, []);
    WholeNameMatches(HTML_AGILITY, version);
    assert IsMatch(name, HTML_AGILITY);
    MiddleDecides(HTML_AGILITY.prefix, version, "1.4.9.5", HTML_AGILITY.suffix);
    WholeNameRedirect(HTML_AGILITY, version, HTML_AGILITY_REPLACEMENT);
  }

  /** The canonical HtmlAgilityPack name falls through every branch: the handler returns null. */
  lemma HtmlAgilityCanonicalFallsThrough()
    ensures AssemblyResolve(HTML_AGILITY_REPLACEMENT) == None
  {
    HtmlAgilityNameHasNoLog4NetMatch("1.4.9.5", []);
    assert HTML_AGILITY.prefix + "1.4.9.5" + HTML_AGILITY.suffix + [] == HTML_AGILITY_REPLACEMENT;
    assert HTML_AGILITY_REPLACEMENT[0] != AUTOMAPPER[0];
  }

  // AutoMapper

  lemma AutoMapperFacts()
    ensures |AUTOMAPPER_NULL_TOKEN| == 21 && AUTOMAPPER_NULL_TOKEN[2..] == NULL_PUBLIC_KEY_TOKEN
    ensures forall j :: 0 < j < |AUTOMAPPER_NULL_TOKEN| ==> AUTOMAPPER_NULL_TOKEN[j] != AUTOMAPPER_NULL_TOKEN[0]
    ensures AUTOMAPPER_NULL_TOKEN[0] == ',' && AUTOMAPPER_NULL_TOKEN[1] == ' '
    ensures |NULL_PUBLIC_KEY_TOKEN| == 19 && NULL_PUBLIC_KEY_TOKEN[18] == 'l'
    ensures |AUTOMAPPER_SIGNED_TOKEN| == 33 && AUTOMAPPER_SIGNED_TOKEN[32] == '5'
  {
  }

  /** A name that neither pattern matches, starting with AutoMapper and ending with ", PublicKeyToken=null",
      is redirected to a name ending with the signed token, which the AutoMapper branch no longer takes. */
  lemma AutoMapperRedirect(name: string)
    requires !IsMatch(name, LOG4NET) && !IsMatch(name, HTML_AGILITY)
    requires StartsWith(name, AUTOMAPPER) && EndsWith(name, AUTOMAPPER_NULL_TOKEN)
    ensures AssemblyResolve(name).Some?
    ensures EndsWith(AssemblyResolve(name).value, AUTOMAPPER_SIGNED_TOKEN)
    ensures !EndsWith(AssemblyResolve(name).value, NULL_PUBLIC_KEY_TOKEN)
  {
    AutoMapperFacts();
    var n := |name|;
    assert name[n - 19..] == name[n - 21..][2..];
    ReplaceOrdinalReplacesTrailingOccurrence(name, AUTOMAPPER_NULL_TOKEN, AUTOMAPPER_SIGNED_TOKEN);
    var r := ReplaceOrdinal(name, AUTOMAPPER_NULL_TOKEN, AUTOMAPPER_SIGNED_TOKEN);
    var m := |r|;
    assert r[m - 1] == r[m - 33..][32];
    assert m < 19 || r[m - 19..][18] == r[m - 1];
  }

  /** A name that no branch applies to is not redirected. */
  lemma NoBranchYieldsNull(name: string)
    requires !IsMatch(name, LOG4NET) && !IsMatch(name, HTML_AGILITY)
    requires !StartsWith(name, AUTOMAPPER) || !EndsWith(name, NULL_PUBLIC_KEY_TOKEN)
    ensures AssemblyResolve(name) == None
  {
  }

  // Redirects to the same name

  const PROCESSOR_ARCHITECTURE := ", processorArchitecture=MSIL"

  lemma ProcessorArchitectureFacts()
    ensures NoPair(PROCESSOR_ARCHITECTURE, 'l', 'o') && NoPair(PROCESSOR_ARCHITECTURE, 'H', 't')
  {
  }

  /** The HtmlAgilityPack guard compares the name with the canonical name only; the canonical name
      with a processor architecture appended matches the pattern and rewrites to itself. */
  lemma HtmlAgilitySelfRedirect()
    ensures var name := HTML_AGILITY_REPLACEMENT + PROCESSOR_ARCHITECTURE;
      AssemblyResolve(name) == Some(name)
  {
    var tail := PROCESSOR_ARCHITECTURE;
    var whole := HTML_AGILITY.prefix + "1.4.9.5" + HTML_AGILITY.suffix;
    var name := whole + tail;
    HtmlAgilityPatternFacts();
    ProcessorArchitectureFacts();
    HtmlAgilityNameHasNoLog4NetMatch("1.4.9.5", tail);
    WholeNameMatches(HTML_AGILITY, "1.4.9.5");
    MatchLocal(whole, name, HTML_AGILITY, 0, 7);
    assert IsMatch(name, HTML_AGILITY);
    ReplaceWholeName(HTML_AGILITY, "1.4.9.5", tail, HTML_AGILITY_REPLACEMENT);
    NoPairNoMatch(tail, HTML_AGILITY);
    ReplaceWithoutMatch(tail, HTML_AGILITY, HTML_AGILITY_REPLACEMENT);
    assert |name| > |HTML_AGILITY_REPLACEMENT|;
  }

  const AUTOMAPPER_WITHOUT_SPACE := AUTOMAPPER + "," + NULL_PUBLIC_KEY_TOKEN

  lemma AutoMapperWithoutSpaceHasNoPair(x: char, y: char)
    requires (x, y) in {('l', 'o'), ('H', 't'), (',', ' ')}
    ensures NoPair(AUTOMAPPER_WITHOUT_SPACE, x, y)
  {
    NoPairConcat(TOKEN_KEY, "null", x, y);
    NoPairConcat(AUTOMAPPER, ",", x, y);
    NoPairConcat(AUTOMAPPER + ",", NULL_PUBLIC_KEY_TOKEN, x, y);
  }

  lemma AutoMapperWithoutSpaceFacts()
    ensures NoPair(AUTOMAPPER_WITHOUT_SPACE, 'l', 'o') && NoPair(AUTOMAPPER_WITHOUT_SPACE, 'H', 't')
    ensures NoPair(AUTOMAPPER_WITHOUT_SPACE, ',', ' ')
    ensures StartsWith(AUTOMAPPER_WITHOUT_SPACE, AUTOMAPPER) && EndsWith(AUTOMAPPER_WITHOUT_SPACE, NULL_PUBLIC_KEY_TOKEN)
  {
    AutoMapperWithoutSpaceHasNoPair('l', 'o');
    AutoMapperWithoutSpaceHasNoPair('H', 't');
    AutoMapperWithoutSpaceHasNoPair(',', ' ');
    assert AUTOMAPPER_WITHOUT_SPACE[..|AUTOMAPPER|] == AUTOMAPPER;
    assert AUTOMAPPER_WITHOUT_SPACE[|AUTOMAPPER| + 1..] == NULL_PUBLIC_KEY_TOKEN;
  }

  /** The AutoMapper guard tests for "PublicKeyToken=null" at the end while the rewrite looks for
      ", PublicKeyToken=null": without the space the rewrite leaves the name as it is. */
  lemma AutoMapperSelfRedirect()
    ensures AssemblyResolve(AUTOMAPPER_WITHOUT_SPACE) == Some(AUTOMAPPER_WITHOUT_SPACE)
  {
    var name := AUTOMAPPER_WITHOUT_SPACE;
    AutoMapperFacts();
    Log4NetPatternFacts();
    HtmlAgilityPatternFacts();
    AutoMapperWithoutSpaceFacts();
    NoPairNoMatch(name, LOG4NET);
    NoPairNoMatch(name, HTML_AGILITY);
    NoPairNoOccurrence(name, AUTOMAPPER_NULL_TOKEN);
    ReplaceOrdinalWithoutOccurrence(name, AUTOMAPPER_NULL_TOKEN, AUTOMAPPER_SIGNED_TOKEN);
  }

  /** The handler with each guard comparing the rewritten name with the name, so that it never asks
      to load the name that could not be resolved. */
  function AssemblyResolveGuarded(name: string): (loadName: Option<string>)
    ensures loadName != Some(name)
  {
    if IsMatch(name, LOG4NET) && Replace(name, LOG4NET, LOG4NET_REPLACEMENT) != name then
      Some(Replace(name, LOG4NET, LOG4NET_REPLACEMENT))
    else if IsMatch(name, HTML_AGILITY) && Replace(name, HTML_AGILITY, HTML_AGILITY_REPLACEMENT) != name then
      Some(Replace(name, HTML_AGILITY, HTML_AGILITY_REPLACEMENT))
    else if StartsWith(name, AUTOMAPPER) && EndsWith(name, NULL_PUBLIC_KEY_TOKEN)
         && ReplaceOrdinal(name, AUTOMAPPER_NULL_TOKEN, AUTOMAPPER_SIGNED_TOKEN) != name then
      Some(ReplaceOrdinal(name, AUTOMAPPER_NULL_TOKEN, AUTOMAPPER_SIGNED_TOKEN))
    else None
  }

  /** The guarded handler decides as the handler does on every name except those the handler
      redirects to themselves. */
  lemma GuardedAgreesExceptOnSelfRedirects(name: string)
    ensures AssemblyResolveGuarded(name) == AssemblyResolve(name) <==> AssemblyResolve(name) != Some(name)
  {
    if IsMatch(name, LOG4NET) {
      Log4NetBranchWins(name);
    } else if name == HTML_AGILITY_REPLACEMENT {
      HtmlAgilityPatternFacts();
      HtmlAgilityCanonicalFallsThrough();
      WholeNameRedirect(HTML_AGILITY, "1.4.9.5", HTML_AGILITY_REPLACEMENT);
    }
  }
}
