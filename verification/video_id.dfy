/** `YouTubeService.extractVideoId`: a leftmost `Matcher.find` of the
    pattern `(?<=M1|...|M12)[^#&?\n]*`, where the lookbehind alternatives
    Mi are fixed URL markers. Since the run after the lookbehind may be
    empty, `find` succeeds at the first position where some marker ends,
    and the greedy run then extends as far as it can. */
module VideoIdExtraction {
  import opened Wrappers

  predicate IsLineTerminator(c: char) {
    c == '\n' || c == '\r' || c == '\U{0085}' || c == '\U{2028}' || c == '\U{2029}'
  }

  /** A lookbehind alternative is written as in the source pattern with
      its escapes removed; the only metacharacter left in any of them is
      the unescaped `.`, which in Java matches anything but a line
      terminator. */
  predicate Admits(pc: char, c: char) {
    if pc == '.' then !IsLineTerminator(c) else c == pc
  }

  /** The twelve lookbehind alternatives, in the order written. The two
      `youtu.be` forms keep their unescaped dot, and the `embed%` form
      keeps the two zero-width characters U+200C U+200B that the source
      pattern contains. */
  const Markers: seq<string> := [
    "watch?v=",
    "/videos/",
    "embed/",
    "youtu.be/",
    "/v/",
    "/e/",
    "watch?v%3D",
    "watch?feature=player_embedded&v=",
    "%2Fvideos%2F",
    "embed%\U{200C}\U{200B}2F",
    "youtu.be%2F",
    "%2Fv%2F"
  ]

  /** `p` matches `s` character by character from offset `off`. */
  predicate MatchesAt(s: string, off: nat, p: string)
    requires off + |p| <= |s|
    decreases |p|
  {
    |p| == 0 || (Admits(p[0], s[off]) && MatchesAt(s, off + 1, p[1..]))
  }

  /** The lookbehind alternative `p` holds at position `i` of `s`: it
      matches the |p| characters that end just before `i`. */
  predicate EndsAt(s: string, i: int, p: string) {
    |p| <= i <= |s| && MatchesAt(s, i - |p|, p)
  }

  predicate SomeEndsAt(s: string, i: int, ps: seq<string>) {
    |ps| > 0 && (EndsAt(s, i, ps[0]) || SomeEndsAt(s, i, ps[1..]))
  }

  /** The whole lookbehind succeeds at position `i`. */
  predicate MarkerEndsAt(s: string, i: int) {
    SomeEndsAt(s, i, Markers)
  }

  /** The character class `[^#&?\n]` excludes these. */
  predicate IsStop(c: char) {
    c == '#' || c == '&' || c == '?' || c == '\n'
  }

  /** Character-wise reading of `MatchesAt`. */
  lemma {:induction false} MatchesAtIff(s: string, off: nat, p: string)
    requires off + |p| <= |s|
    ensures MatchesAt(s, off, p) <==> forall j :: 0 <= j < |p| ==> Admits(p[j], s[off + j])
    decreases |p|
  {
    if |p| > 0 {
      MatchesAtIff(s, off + 1, p[1..]);
      assert forall j :: 1 <= j < |p| ==> p[j] == p[1..][j - 1];
    }
  }

  /** Index-wise reading of the lookbehind: some alternative ends at `i`. */
  lemma {:induction false} SomeEndsAtIff(s: string, i: int, ps: seq<string>)
    ensures SomeEndsAt(s, i, ps) <==> exists k :: 0 <= k < |ps| && EndsAt(s, i, ps[k])
  {
    if |ps| > 0 {
      SomeEndsAtIff(s, i, ps[1..]);
      if SomeEndsAt(s, i, ps[1..]) {
        var k :| 0 <= k < |ps[1..]| && EndsAt(s, i, ps[1..][k]);
        assert EndsAt(s, i, ps[k + 1]);
      }
      if k :| 0 < k < |ps| && EndsAt(s, i, ps[k]) {
        assert EndsAt(s, i, ps[1..][k - 1]);
      }
    }
  }

  /** The position `Matcher.find` stops at for the lookbehind
      alternatives `ps`: the least `i >= from` where one of them ends, or
      `None` when there is none. */
  function FirstEnd(s: string, from: nat, ps: seq<string>): (r: Option<nat>)
    ensures r.Some? ==> from <= r.value <= |s| && SomeEndsAt(s, r.value, ps)
    ensures r.Some? ==> forall i :: from <= i < r.value ==> !SomeEndsAt(s, i, ps)
    ensures r.None? ==> forall i :: from <= i <= |s| ==> !SomeEndsAt(s, i, ps)
    decreases |s| + 1 - from
  {
    if from > |s| then None
    else if SomeEndsAt(s, from, ps) then Some(from)
    else FirstEnd(s, from + 1, ps)
  }

  /** End of the greedy `[^#&?\n]*` run that starts at `i`. */
  function RunEnd(s: string, i: nat): (j: nat)
    requires i <= |s|
    ensures i <= j <= |s|
    ensures forall k :: i <= k < j ==> !IsStop(s[k])
    ensures j == |s| || IsStop(s[j])
    decreases |s| - i
  {
    if i < |s| && !IsStop(s[i]) then RunEnd(s, i + 1) else i
  }

  /** `extractVideoId`: `None` stands for the IllegalArgumentException
      thrown when `find` fails. */
  function ExtractVideoId(url: string): (r: Option<string>)
    ensures r.None? <==> forall i :: 0 <= i <= |url| ==> !MarkerEndsAt(url, i)
    ensures r.Some? ==> exists i :: IsMatchAt(url, i, r.value)
  {
    match FirstEnd(url, 0, Markers)
    case None => None
    case Some(i) =>
      var id := url[i..RunEnd(url, i)];
      assert IsMatchAt(url, i, id);
      Some(id)
  }

  /** `id` is what `find` reports when it stops at `i`: the lookbehind
      holds at `i` and at no earlier position, and `id` is the maximal
      stop-free run starting there (possibly empty). */
  predicate IsMatchAt(url: string, i: int, id: string) {
    && 0 <= i && i + |id| <= |url|
    && MarkerEndsAt(url, i)
    && (forall k :: 0 <= k < i ==> !MarkerEndsAt(url, k))
    && url[i..i + |id|] == id
    && (forall k :: 0 <= k < |id| ==> !IsStop(id[k]))
    && (i + |id| == |url| || IsStop(url[i + |id|]))
  }

  /** Every alternative ends in one of these two-character tails. */
  predicate IsMarkerTail(a: char, b: char) {
    || (a == 'v' && b == '=')
    || (b == '/' && (a == 's' || a == 'd' || a == 'e' || a == 'v'))
    || (a == '3' && b == 'D')
    || (a == '2' && b == 'F')
  }

  lemma MarkerTails(p: string)
    requires p in Markers
    ensures |p| >= 3 && IsMarkerTail(p[|p| - 2], p[|p| - 1])
  {
  }

  /** An alternative whose last two characters are literal shows them in
      the text it matches. */
  lemma EndsAtShowsTail(s: string, k: int, p: string)
    requires EndsAt(s, k, p) && |p| >= 2 && p[|p| - 2] != '.' && p[|p| - 1] != '.'
    ensures 2 <= k <= |s| && s[k - 2] == p[|p| - 2] && s[k - 1] == p[|p| - 1]
  {
    MatchesAtIff(s, k - |p|, p);
    assert Admits(p[|p| - 2], s[k - |p| + (|p| - 2)]);
    assert Admits(p[|p| - 1], s[k - |p| + (|p| - 1)]);
  }

  lemma MarkerEndsWithTail(s: string, k: int)
    requires MarkerEndsAt(s, k)
    ensures 2 <= k <= |s| && IsMarkerTail(s[k - 2], s[k - 1])
  {
    SomeEndsAtIff(s, k, Markers);
    var m :| 0 <= m < |Markers| && EndsAt(s, k, Markers[m]);
    MarkerTails(Markers[m]);
    EndsAtShowsTail(s, k, Markers[m]);
  }

  /** No two-character marker tail ends at any position up to `k`; a
      check that evaluates on concrete strings. */
  predicate NoTailUpTo(s: string, k: nat)
    requires k <= |s|
  {
    k < 2 || (!IsMarkerTail(s[k - 2], s[k - 1]) && NoTailUpTo(s, k - 1))
  }

  lemma {:induction false} NoTailNoMarker(s: string, k: nat)
    requires k <= |s| && NoTailUpTo(s, k)
    ensures forall j :: 0 <= j <= k ==> !MarkerEndsAt(s, j)
  {
    if k >= 2 {
      NoTailNoMarker(s, k - 1);
    }
    forall j | 0 <= j <= k && MarkerEndsAt(s, j)
      ensures false
    {
      MarkerEndsWithTail(s, j);
    }
  }

  /** Position-wise reading of `NoTailUpTo`. */
  lemma {:induction false} NoTailIff(s: string, k: nat)
    requires k <= |s|
    ensures NoTailUpTo(s, k) <==> forall j :: 0 <= j < k - 1 ==> !IsMarkerTail(s[j], s[j + 1])
  {
    if k >= 2 {
      NoTailIff(s, k - 1);
    }
  }

  /** The check splits at a seam that is not itself a tail. */
  lemma NoTailAppend(s: string, t: string)
    requires |s| >= 1 && |t| >= 1
    requires NoTailUpTo(s, |s|) && NoTailUpTo(t, |t|)
    requires !IsMarkerTail(s[|s| - 1], t[0])
    ensures NoTailUpTo(s + t, |s + t|)
  {
    NoTailIff(s, |s|);
    NoTailIff(t, |t|);
    NoTailIff(s + t, |s + t|);
    forall j | 0 <= j < |s + t| - 1
      ensures !IsMarkerTail((s + t)[j], (s + t)[j + 1])
    {
      if j + 1 < |s| {
        assert (s + t)[j] == s[j] && (s + t)[j + 1] == s[j + 1];
      } else if j + 1 == |s| {
        assert (s + t)[j] == s[|s| - 1] && (s + t)[j + 1] == t[0];
      } else {
        assert (s + t)[j] == t[j - |s|] && (s + t)[j + 1] == t[j - |s| + 1];
      }
    }
  }

  /** A match found anywhere is the one `extractVideoId` returns. */
  lemma ExtractFindsMatch(url: string, i: int, id: string)
    requires IsMatchAt(url, i, id)
    ensures ExtractVideoId(url) == Some(id)
  {
    forall k | 0 <= k < i
      ensures !SomeEndsAt(url, k, Markers)
    {
      assert !MarkerEndsAt(url, k);
    }
    FirstEndIs(url, 0, Markers, i);
    forall k | i <= k < i + |id|
      ensures !IsStop(url[k])
    {
      assert url[k] == url[i..i + |id|][k - i];
    }
    RunEndIs(url, i, i + |id|);
  }

  /** The search stops exactly at the first position where an
      alternative ends. */
  lemma {:induction false} FirstEndIs(s: string, from: nat, ps: seq<string>, i: int)
    requires from <= i <= |s| && SomeEndsAt(s, i, ps)
    requires forall k :: from <= k < i ==> !SomeEndsAt(s, k, ps)
    ensures FirstEnd(s, from, ps) == Some(i)
    decreases i - from
  {
    if from < i {
      FirstEndIs(s, from + 1, ps, i);
    }
  }

  /** The greedy run is determined by where the first stop character is. */
  lemma {:induction false} RunEndIs(s: string, i: nat, j: nat)
    requires i <= j <= |s|
    requires forall k :: i <= k < j ==> !IsStop(s[k])
    requires j == |s| || IsStop(s[j])
    ensures RunEnd(s, i) == j
    decreases j - i
  {
    if i < j {
      RunEndIs(s, i + 1, j);
    }
  }

  /** The check above only reads the first `k` characters. */
  lemma {:induction false} NoTailUpToPrefix(s: string, t: string, k: nat)
    requires k <= |s| <= |t| && s == t[..|s|]
    ensures NoTailUpTo(s, k) == NoTailUpTo(t, k)
  {
    if k >= 2 {
      NoTailUpToPrefix(s, t, k - 1);
    }
  }

  lemma {:induction false} MatchesAtPrefix(s: string, t: string, off: nat, p: string)
    requires off + |p| <= |s| <= |t| && s == t[..|s|]
    ensures MatchesAt(s, off, p) == MatchesAt(t, off, p)
    decreases |p|
  {
    if |p| > 0 {
      assert s[off] == t[off];
      MatchesAtPrefix(s, t, off + 1, p[1..]);
    }
  }

  /** Whatever follows a URL prefix that ends in a marker, with no marker
      tail before it, `extractVideoId` returns the stop-free run that
      follows the prefix. */
  lemma ExtractAfterPrefix(prefix: string, m: nat, id: string, rest: string)
    requires 1 <= |prefix| && m < |Markers| && EndsAt(prefix, |prefix|, Markers[m])
    requires NoTailUpTo(prefix, |prefix| - 1)
    requires forall k :: 0 <= k < |id| ==> !IsStop(id[k])
    requires rest == [] || IsStop(rest[0])
    ensures ExtractVideoId(prefix + id + rest) == Some(id)
  {
    var u := prefix + id + rest;
    var i := |prefix|;
    assert u[..i] == prefix;
    PrefixHasNoEarlierMarker(prefix, u);
    PrefixEndsInMarker(prefix, u, m);
    RunAfterPrefix(prefix, id, rest);
    ExtractFindsMatch(u, i, id);
  }

  lemma PrefixHasNoEarlierMarker(prefix: string, u: string)
    requires 1 <= |prefix| <= |u| && u[..|prefix|] == prefix
    requires NoTailUpTo(prefix, |prefix| - 1)
    ensures forall k :: 0 <= k < |prefix| ==> !MarkerEndsAt(u, k)
  {
    NoTailUpToPrefix(prefix, u, |prefix| - 1);
    NoTailNoMarker(u, |prefix| - 1);
  }

  lemma PrefixEndsInMarker(prefix: string, u: string, m: nat)
    requires |prefix| <= |u| && u[..|prefix|] == prefix
    requires m < |Markers| && EndsAt(prefix, |prefix|, Markers[m])
    ensures MarkerEndsAt(u, |prefix|)
  {
    MatchesAtPrefix(prefix, u, |prefix| - |Markers[m]|, Markers[m]);
    SomeEndsAtIff(u, |prefix|, Markers);
  }

  lemma RunAfterPrefix(prefix: string, id: string, rest: string)
    requires rest == [] || IsStop(rest[0])
    ensures var u := prefix + id + rest;
      && (prefix + id + rest)[|prefix|..|prefix| + |id|] == id
      && (|prefix| + |id| == |u| || IsStop(u[|prefix| + |id|]))
  {
    var u := prefix + id + rest;
    assert u[|prefix|..|prefix| + |id|] == id;
    if rest != [] {
      assert u[|prefix| + |id|] == rest[0];
    }
  }

  lemma ShortLinkPrefixHasNoEarlierTail()
    ensures NoTailUpTo("https://youtu.be/", 16)
  {
    assert NoTailUpTo("https://", 8) && NoTailUpTo("youtu.be", 8);
    NoTailAppend("https://", "youtu.be");
    assert "https://" + "youtu.be" == "https://youtu.be/"[..16];
    NoTailUpToPrefix("https://youtu.be/"[..16], "https://youtu.be/", 16);
  }

  lemma ShortLinkPrefixEndsInMarker()
    ensures EndsAt("https://youtu.be/", 17, "youtu.be/")
  {
  }

  lemma WatchPrefixHasNoEarlierTail()
    ensures NoTailUpTo("https://www.youtube.com/watch?v=", 31)
  {
    WatchHostHasNoTail();
    assert NoTailUpTo("watch?v", 7);
    NoTailAppend("https://www.youtube.com/", "watch?v");
    assert "https://www.youtube.com/" + "watch?v" == "https://www.youtube.com/watch?v="[..31];
    NoTailUpToPrefix("https://www.youtube.com/watch?v="[..31], "https://www.youtube.com/watch?v=", 31);
  }

  lemma WatchHostHasNoTail()
    ensures NoTailUpTo("https://www.youtube.com/", 24)
  {
    assert NoTailUpTo("https://", 8) && NoTailUpTo("www.yout", 8);
    NoTailAppend("https://", "www.yout");
    assert "https://" + "www.yout" == "https://www.yout";
    assert NoTailUpTo("ube.com/", 8);
    NoTailAppend("https://www.yout", "ube.com/");
    assert "https://www.yout" + "ube.com/" == "https://www.youtube.com/";
  }

  lemma WatchPrefixEndsInMarker()
    ensures EndsAt("https://www.youtube.com/watch?v=", 32, "watch?v=")
  {
  }

  /** `https://youtu.be/<id>` yields `<id>` for every stop-free `<id>`. */
  lemma ExtractShortLink(id: string, rest: string)
    requires forall k :: 0 <= k < |id| ==> !IsStop(id[k])
    requires rest == [] || IsStop(rest[0])
    ensures ExtractVideoId("https://youtu.be/" + id + rest) == Some(id)
  {
    ShortLinkPrefixHasNoEarlierTail();
    ShortLinkPrefixEndsInMarker();
    assert Markers[3] == "youtu.be/";
    ExtractAfterPrefix("https://youtu.be/", 3, id, rest);
  }

  /** `https://www.youtube.com/watch?v=<id>` yields `<id>` for every
      stop-free `<id>`, and a following `&`, `#` or `?` ends it. */
  lemma ExtractWatchLink(id: string, rest: string)
    requires forall k :: 0 <= k < |id| ==> !IsStop(id[k])
    requires rest == [] || IsStop(rest[0])
    ensures ExtractVideoId("https://www.youtube.com/watch?v=" + id + rest) == Some(id)
  {
    WatchPrefixHasNoEarlierTail();
    WatchPrefixEndsInMarker();
    assert Markers[0] == "watch?v=";
    ExtractAfterPrefix("https://www.youtube.com/watch?v=", 0, id, rest);
  }

  /** The short-link and watch forms of one video agree. */
  lemma ExtractVideoIdExamples()
    ensures ExtractVideoId("https://youtu.be/abc123") == Some("abc123")
    ensures ExtractVideoId("https://www.youtube.com/watch?v=abc123") == Some("abc123")
  {
    ExtractShortExample();
    ExtractWatchExample();
  }

  lemma ExtractShortExample()
    ensures ExtractVideoId("https://youtu.be/abc123") == Some("abc123")
  {
    assert "https://youtu.be/" + "abc123" + "" == "https://youtu.be/abc123";
    ExtractShortLink("abc123", "");
  }

  lemma ExtractWatchExample()
    ensures ExtractVideoId("https://www.youtube.com/watch?v=abc123") == Some("abc123")
  {
    assert "https://www.youtube.com/watch?v=" + "abc123" + "" == "https://www.youtube.com/watch?v=abc123";
    ExtractWatchLink("abc123", "");
  }

  /** A trailing `&` parameter is cut off. */
  lemma ExtractDropsParameter()
    ensures ExtractVideoId("https://www.youtube.com/watch?v=abc123&t=5") == Some("abc123")
  {
    assert "https://www.youtube.com/watch?v=" + "abc123" + "&t=5" == "https://www.youtube.com/watch?v=abc123&t=5";
    ExtractWatchLink("abc123", "&t=5");
  }

  /** A bare short link gives the empty id, not an error. */
  lemma ExtractEmptyId()
    ensures ExtractVideoId("https://youtu.be/") == Some("")
  {
    assert "https://youtu.be/" + "" + "" == "https://youtu.be/";
    ExtractShortLink("", "");
  }

  /** A URL without any marker is rejected. */
  lemma ExtractRejectsForeignUrl()
    ensures ExtractVideoId("https://example.com/watch") == None
  {
    assert NoTailUpTo("https://", 8) && NoTailUpTo("example.", 8);
    NoTailAppend("https://", "example.");
    assert "https://" + "example." == "https://example.";
    assert NoTailUpTo("com/watc", 8);
    NoTailAppend("https://example.", "com/watc");
    assert "https://example." + "com/watc" == "https://example.com/watc";
    assert NoTailUpTo("h", 1);
    NoTailAppend("https://example.com/watc", "h");
    assert "https://example.com/watc" + "h" == "https://example.com/watch";
    NoTailNoMarker("https://example.com/watch", 25);
  }
}
