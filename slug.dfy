/**
 * Extraction of a project slug from what the user typed in the project
 * search bar: first a project URL, then any slug-shaped word.
 *
 * Both patterns end in the group `\w+-[\w-]+`, where `\w` is Java's default
 * ASCII class `[A-Za-z0-9_]`. `Matcher.find` tries start positions from left
 * to right and, at a start, returns the first match of its backtracking
 * search; for this pattern that is the longest slug-shaped text from that
 * start (lemmas `MatchAtSound` and `MatchAtLongest`).
 */
module Slug {
  import opened Optional

  /** The literal that precedes the slug in a project URL */
  const UrlPrefix: string := "https://tree.taiga.io/project/"

  /** The length of `UrlPrefix` */
  const UrlLength: nat := 30

  /** Java's `\w` */
  predicate IsWordChar(c: char) {
    'a' <= c <= 'z' || 'A' <= c <= 'Z' || '0' <= c <= '9' || c == '_'
  }

  /** The class `[\w-]` */
  predicate IsSlugChar(c: char) {
    IsWordChar(c) || c == '-'
  }

  /** `s[i..j]` is made of word characters */
  predicate WordRun(s: string, i: nat, j: nat) {
    j <= |s| && forall x :: i <= x < j ==> IsWordChar(s[x])
  }

  /** `s[i..j]` is made of slug characters */
  predicate SlugRun(s: string, i: nat, j: nat) {
    j <= |s| && forall x :: i <= x < j ==> IsSlugChar(s[x])
  }

  /**
   * `s[i..k]` matches `\w+-[\w-]+` in full: word characters, a hyphen at
   * some position `m`, then slug characters
   */
  predicate SlugAt(s: string, i: nat, k: nat) {
    k <= |s| && exists m :: i < m < k - 1 && WordRun(s, i, m) && s[m] == '-' && SlugRun(s, m + 1, k)
  }

  /** `t` matches `\w+-[\w-]+` in full */
  predicate IsSlug(t: string) {
    SlugAt(t, 0, |t|)
  }

  /** The project URL literal occurs at position `i` of `s` */
  predicate UrlAt(s: string, i: nat) {
    i + UrlLength <= |s| && UrlFrom(s, i, 0)
  }

  /** The literal's characters from its position `j` on occur at `i + j` onwards in `s` */
  predicate UrlFrom(s: string, i: nat, j: nat)
    requires i + UrlLength <= |s| && j <= UrlLength
    decreases UrlLength - j
  {
    j == UrlLength || (s[i + j] == UrlPrefix[j] && UrlFrom(s, i, j + 1))
  }

  /** Each character of an occurrence of the literal is the literal's own. */
  lemma {:induction false} UrlFromChar(s: string, i: nat, j: nat, x: nat)
    requires i + UrlLength <= |s| && j <= x < UrlLength && UrlFrom(s, i, j)
    ensures s[i + x] == UrlPrefix[x]
    decreases x - j
  {
    if j < x {
      UrlFromChar(s, i, j + 1, x);
    }
  }

  /** Characters that agree with the literal from its position `j` on make an occurrence from `j` on. */
  lemma {:induction false} UrlFromOfChars(s: string, i: nat, j: nat)
    requires i + UrlLength <= |s| && j <= UrlLength
    requires forall x :: j <= x < UrlLength ==> s[i + x] == UrlPrefix[x]
    ensures UrlFrom(s, i, j)
    decreases UrlLength - j
  {
    if j < UrlLength {
      UrlFromOfChars(s, i, j + 1);
    }
  }

  /** `UrlAt` says exactly that the literal is the text at `i`. */
  lemma UrlAtIff(s: string, i: nat)
    requires i + UrlLength <= |s|
    ensures UrlAt(s, i) <==> s[i..i + UrlLength] == UrlPrefix
  {
    var t := s[i..i + UrlLength];
    if UrlAt(s, i) {
      forall x | 0 <= x < UrlLength ensures t[x] == UrlPrefix[x] {
        UrlFromChar(s, i, 0, x);
      }
    }
    if t == UrlPrefix {
      forall x | 0 <= x < UrlLength ensures s[i + x] == UrlPrefix[x] {
        assert t[x] == s[i + x];
      }
      UrlFromOfChars(s, i, 0);
    }
  }

  /** The URL literal at `a` is directly followed by the slug-shaped text ending at `k` */
  predicate UrlSlugAt(s: string, a: nat, k: nat) {
    UrlAt(s, a) && SlugAt(s, a + UrlLength, k)
  }

  /** `t` occurs contiguously in `s` */
  predicate IsSubstring(t: string, s: string) {
    exists i, k :: 0 <= i <= k <= |s| && s[i..k] == t
  }

  /** The two character classes a greedy run can consume */
  datatype CharClass = Word | WordOrHyphen

  predicate InClass(c: char, cls: CharClass) {
    match cls
    case Word => IsWordChar(c)
    case WordOrHyphen => IsSlugChar(c)
  }

  /** Where a greedy `cls+` run that starts at `i` stops: the first position outside the class */
  function RunEnd(s: string, i: nat, cls: CharClass): (j: nat)
    requires i <= |s|
    ensures i <= j <= |s|
    ensures j == |s| || !InClass(s[j], cls)
    decreases |s| - i
  {
    if i == |s| || !InClass(s[i], cls) then i else RunEnd(s, i + 1, cls)
  }

  /**
   * The end of the match of `\w+-[\w-]+` that the matcher finds when it starts
   * at `i`, or `None`. Backtracking never helps `\w+`: any shorter run is
   * followed by a word character, not by the hyphen.
   */
  function MatchAt(s: string, i: nat): (r: Option<nat>)
    requires i <= |s|
    ensures r.Some? ==> i + 3 <= r.value <= |s|
  {
    var j := RunEnd(s, i, Word);
    if i < j && j + 1 < |s| && s[j] == '-' && IsSlugChar(s[j + 1])
    then Some(RunEnd(s, j + 1, WordOrHyphen))
    else None
  }

  /** A span `[start, end)` of the input */
  datatype Span = Span(start: nat, end: nat)

  /** `slugMatcher.find()` from position `i`: the match at the first start that has one */
  function FindSlugFrom(s: string, i: nat): (r: Option<Span>)
    requires i <= |s|
    ensures r.Some? ==> i <= r.value.start < r.value.end <= |s|
    ensures r.Some? ==> MatchAt(s, r.value.start) == Some(r.value.end)
    decreases |s| - i
  {
    if i == |s| then None
    else match MatchAt(s, i)
      case Some(k) => Some(Span(i, k))
      case None => FindSlugFrom(s, i + 1)
  }

  /** `urlMatcher.find()` from position `i`: the slug after the first URL literal that is followed by one */
  function FindUrlFrom(s: string, i: nat): (r: Option<Span>)
    requires i <= |s|
    ensures r.Some? ==> i + UrlLength <= r.value.start < r.value.end <= |s|
    decreases |s| - i
  {
    if i + UrlLength > |s| then None
    else if UrlAt(s, i) && MatchAt(s, i + UrlLength).Some?
    then Some(Span(i + UrlLength, MatchAt(s, i + UrlLength).value))
    else FindUrlFrom(s, i + 1)
  }

  /** Where in the input `ExtractSlug` takes its result from */
  function ExtractSlugSpan(s: string): (r: Option<Span>)
    ensures r.Some? ==> r.value.start < r.value.end <= |s|
  {
    var url := FindUrlFrom(s, 0);
    if url.Some? then url else FindSlugFrom(s, 0)
  }

  /** `extractSlug`: the URL's slug, else the first bare slug, else null (`None`) */
  function ExtractSlug(s: string): (r: Option<string>)
    ensures r.Some? ==> 3 <= |r.value| <= |s|
  {
    match ExtractSlugSpan(s)
    case Some(sp) =>
      SpanMatches(s);
      MatchAtSound(s, sp.start);
      Some(s[sp.start..sp.end])
    case None => None
  }

  // ---------------------------------------------------------------------------
  // The searches

  /** No start from `i` up to a start with a match is passed over. */
  lemma {:induction false} FindSlugFromLeftmost(s: string, i: nat, a: nat)
    requires i <= a <= |s| && MatchAt(s, a).Some?
    ensures FindSlugFrom(s, i).Some? && FindSlugFrom(s, i).value.start <= a
    decreases |s| - i
  {
    if i < a && MatchAt(s, i).None? {
      FindSlugFromLeftmost(s, i + 1, a);
    }
  }

  /** What the URL search returns is the match right after an occurrence of the literal. */
  lemma {:induction false} FindUrlFromFound(s: string, i: nat)
    requires i <= |s| && FindUrlFrom(s, i).Some?
    ensures var sp := FindUrlFrom(s, i).value;
      UrlAt(s, sp.start - UrlLength) && MatchAt(s, sp.start) == Some(sp.end)
    decreases |s| - i
  {
    if i + UrlLength <= |s| && !(UrlAt(s, i) && MatchAt(s, i + UrlLength).Some?) {
      FindUrlFromFound(s, i + 1);
    }
  }

  /** A match right after the literal makes a URL literal directly followed by a slug. */
  lemma UrlMatchSound(s: string, a: nat, k: nat)
    requires UrlAt(s, a) && MatchAt(s, a + UrlLength) == Some(k)
    ensures UrlSlugAt(s, a, k)
  {
    MatchAtSound(s, a + UrlLength);
  }

  /** What the URL search returns is a URL literal directly followed by a slug. */
  lemma UrlFindSound(s: string)
    requires FindUrlFrom(s, 0).Some?
    ensures var sp := FindUrlFrom(s, 0).value; UrlSlugAt(s, sp.start - UrlLength, sp.end)
  {
    var sp := FindUrlFrom(s, 0).value;
    FindUrlFromFound(s, 0);
    UrlMatchSound(s, sp.start - UrlLength, sp.end);
  }

  /** No occurrence of the literal followed by a match is passed over. */
  lemma {:induction false} FindUrlFromLeftmost(s: string, i: nat, a: nat)
    requires i <= a && UrlAt(s, a) && MatchAt(s, a + UrlLength).Some?
    ensures FindUrlFrom(s, i).Some? && FindUrlFrom(s, i).value.start <= a + UrlLength
    decreases |s| - i
  {
    if i < a && !(UrlAt(s, i) && MatchAt(s, i + UrlLength).Some?) {
      FindUrlFromLeftmost(s, i + 1, a);
    }
  }

  /** A slug-shaped substring is found by the bare-slug search, or one that starts before it is. */
  lemma SlugFound(s: string, i: nat, k: nat)
    requires SlugAt(s, i, k)
    ensures FindSlugFrom(s, 0).Some? && FindSlugFrom(s, 0).value.start <= i
  {
    MatchAtLongest(s, i, k);
    FindSlugFromLeftmost(s, 0, i);
  }

  /** A URL literal followed by a slug is found by the URL search, or one before it is. */
  lemma UrlSlugFound(s: string, a: nat, k: nat)
    requires UrlSlugAt(s, a, k)
    ensures FindUrlFrom(s, 0).Some? && FindUrlFrom(s, 0).value.start <= a + UrlLength
  {
    MatchAtLongest(s, a + UrlLength, k);
    FindUrlFromLeftmost(s, 0, a);
  }

  /** The span the extraction uses is a match of the pattern. */
  lemma SpanMatches(s: string)
    requires ExtractSlugSpan(s).Some?
    ensures MatchAt(s, ExtractSlugSpan(s).value.start) == Some(ExtractSlugSpan(s).value.end)
  {
    if FindUrlFrom(s, 0).Some? {
      FindUrlFromFound(s, 0);
    }
  }

  // ---------------------------------------------------------------------------
  // The matcher against the meaning of the pattern

  /** A run that is all in the class ends no earlier than that prefix, and no later if the next character is outside. */
  lemma {:induction false} RunEndAt(s: string, i: nat, m: nat, cls: CharClass)
    requires i <= m <= |s|
    requires forall k :: i <= k < m ==> InClass(s[k], cls)
    ensures m <= RunEnd(s, i, cls)
    ensures m < |s| && !InClass(s[m], cls) ==> RunEnd(s, i, cls) == m
    decreases m - i
  {
    if i < m {
      RunEndAt(s, i + 1, m, cls);
    }
  }

  /** Everything a run consumes is in its class. */
  lemma {:induction false} RunEndInClass(s: string, i: nat, cls: CharClass, k: nat)
    requires i <= k < |s| && k < RunEnd(s, i, cls)
    ensures InClass(s[k], cls)
    decreases k - i
  {
    if i < k {
      RunEndInClass(s, i + 1, cls, k);
    }
  }

  /** A match found at `i` is slug-shaped and stops before a slug character. */
  lemma MatchAtSound(s: string, i: nat)
    requires i <= |s| && MatchAt(s, i).Some?
    ensures SlugAt(s, i, MatchAt(s, i).value)
    ensures var k := MatchAt(s, i).value; i + 3 <= k && (k == |s| || !IsSlugChar(s[k]))
  {
    var j := RunEnd(s, i, Word);
    var k := MatchAt(s, i).value;
    forall x | i <= x < j ensures IsWordChar(s[x]) {
      RunEndInClass(s, i, Word, x);
    }
    forall x | j + 1 <= x < k ensures IsSlugChar(s[x]) {
      RunEndInClass(s, j + 1, WordOrHyphen, x);
    }
    assert WordRun(s, i, j) && s[j] == '-' && SlugRun(s, j + 1, k);
  }

  /** Every slug-shaped substring starting at `i` is found by the matcher there, and is no longer than its match. */
  lemma MatchAtLongest(s: string, i: nat, k: nat)
    requires SlugAt(s, i, k)
    ensures MatchAt(s, i).Some? && k <= MatchAt(s, i).value
  {
    var m :| i < m < k - 1 && WordRun(s, i, m) && s[m] == '-' && SlugRun(s, m + 1, k);
    forall x | i <= x < m ensures InClass(s[x], Word) {
      assert IsWordChar(s[x]);
    }
    RunEndAt(s, i, m, Word);
    forall x | m + 1 <= x < k ensures InClass(s[x], WordOrHyphen) {
      assert IsSlugChar(s[x]);
    }
    RunEndAt(s, m + 1, k, WordOrHyphen);
  }

  /** The matcher finds nothing at `i` exactly when no slug-shaped substring starts at `i`. */
  lemma MatchAtNone(s: string, i: nat)
    requires i <= |s|
    ensures MatchAt(s, i).None? <==> forall k: nat :: !SlugAt(s, i, k)
  {
    if MatchAt(s, i).Some? {
      MatchAtSound(s, i);
    } else {
      forall k: nat ensures !SlugAt(s, i, k) {
        if SlugAt(s, i, k) {
          MatchAtLongest(s, i, k);
        }
      }
    }
  }

  /** A match cannot start just after a word character: the matcher would have started one earlier. */
  lemma MatchExtendsLeft(s: string, i: nat)
    requires 0 < i <= |s| && IsWordChar(s[i - 1]) && MatchAt(s, i).Some?
    ensures MatchAt(s, i - 1).Some?
  {
  }

  /** The sixth character of the URL literal is ':' */
  lemma UrlHasColon(s: string, a: nat)
    requires UrlAt(s, a)
    ensures s[a + 5] == ':'
  {
    UrlFromChar(s, a, 0, 5);
    assert UrlPrefix[5] == ':';
  }

  /** No slug character is ':', so the URL literal never occurs in slug characters. */
  lemma NoUrlInSlugChars(t: string, a: nat)
    requires SlugRun(t, 0, |t|)
    ensures !UrlAt(t, a)
  {
    if UrlAt(t, a) {
      UrlHasColon(t, a);
      assert false;
    }
  }

  /** A slug is made of slug characters and begins with a word character. */
  lemma SlugChars(t: string)
    requires IsSlug(t)
    ensures SlugRun(t, 0, |t|) && IsWordChar(t[0])
  {
    var m :| 0 < m < |t| - 1 && WordRun(t, 0, m) && t[m] == '-' && SlugRun(t, m + 1, |t|);
    forall x | 0 <= x < |t| ensures IsSlugChar(t[x]) {
      if x < m {
        assert IsWordChar(t[x]);
      }
    }
  }

  /** A slug-shaped stretch of the input, cut out, is a slug. */
  lemma SlugAtSlice(s: string, a: nat, b: nat)
    requires SlugAt(s, a, b)
    ensures IsSlug(s[a..b])
  {
    var t := s[a..b];
    var m :| a < m < b - 1 && WordRun(s, a, m) && s[m] == '-' && SlugRun(s, m + 1, b);
    var n := m - a;
    forall x | 0 <= x < n ensures IsWordChar(t[x]) {
      assert t[x] == s[a + x];
    }
    forall x | n + 1 <= x < |t| ensures IsSlugChar(t[x]) {
      assert t[x] == s[a + x];
    }
    assert t[n] == '-';
    assert WordRun(t, 0, n) && SlugRun(t, n + 1, |t|);
  }

  // ---------------------------------------------------------------------------
  // Properties of extractSlug

  /** The span is inside the input and the result is exactly its text. */
  lemma ExtractSlugSpanInside(s: string)
    requires ExtractSlugSpan(s).Some?
    ensures var sp := ExtractSlugSpan(s).value;
      sp.start < sp.end <= |s| && ExtractSlug(s) == Some(s[sp.start..sp.end]) && SlugAt(s, sp.start, sp.end)
  {
    SpanMatches(s);
    MatchAtSound(s, ExtractSlugSpan(s).value.start);
  }

  /** A result is slug-shaped in full and occurs contiguously in the input. */
  lemma ExtractSlugShape(s: string)
    requires ExtractSlug(s).Some?
    ensures IsSlug(ExtractSlug(s).value)
    ensures IsSubstring(ExtractSlug(s).value, s)
  {
    ExtractSlugSpanInside(s);
    var sp := ExtractSlugSpan(s).value;
    SlugAtSlice(s, sp.start, sp.end);
    assert s[sp.start..sp.end] == ExtractSlug(s).value;
  }

  /** The result is null exactly when no substring of the input is slug-shaped. */
  lemma ExtractSlugNoneIff(s: string)
    ensures ExtractSlug(s).None? <==> forall i: nat, k: nat :: !SlugAt(s, i, k)
  {
    if ExtractSlug(s).Some? {
      ExtractSlugSpanInside(s);
    } else {
      forall i: nat, k: nat ensures !SlugAt(s, i, k) {
        if SlugAt(s, i, k) {
          SlugFound(s, i, k);
        }
      }
    }
  }

  /** No URL literal before the one the URL search settles on is directly followed by a slug. */
  lemma UrlLeftmost(s: string)
    requires FindUrlFrom(s, 0).Some?
    ensures forall a': nat, k': nat :: a' < FindUrlFrom(s, 0).value.start - UrlLength ==> !UrlSlugAt(s, a', k')
  {
    forall a': nat, k': nat | a' < FindUrlFrom(s, 0).value.start - UrlLength ensures !UrlSlugAt(s, a', k') {
      if UrlSlugAt(s, a', k') {
        UrlSlugFound(s, a', k');
      }
    }
  }

  /** The URL search settles on a slug right after an occurrence of the URL literal. */
  lemma UrlResultAt(s: string)
    requires FindUrlFrom(s, 0).Some?
    ensures var sp := FindUrlFrom(s, 0).value;
      UrlLength <= sp.start && UrlAt(s, sp.start - UrlLength)
  {
    FindUrlFromFound(s, 0);
  }

  /** The slug the URL search settles on is the longest one starting there. */
  lemma UrlResultSlug(s: string)
    requires FindUrlFrom(s, 0).Some?
    ensures var sp := FindUrlFrom(s, 0).value;
      SlugAt(s, sp.start, sp.end) && (sp.end == |s| || !IsSlugChar(s[sp.end]))
  {
    FindUrlFromFound(s, 0);
    MatchAtSound(s, FindUrlFrom(s, 0).value.start);
  }

  /**
   * When some occurrence of the URL literal is directly followed by a slug,
   * the result is the longest slug right after the leftmost such occurrence.
   */
  lemma ExtractSlugPrefersUrl(s: string, a0: nat, k0: nat)
    requires UrlSlugAt(s, a0, k0)
    ensures ExtractSlugSpan(s).Some?
    ensures var sp := ExtractSlugSpan(s).value;
      UrlLength <= sp.start <= a0 + UrlLength && UrlAt(s, sp.start - UrlLength)
    ensures var sp := ExtractSlugSpan(s).value;
      SlugAt(s, sp.start, sp.end) && (sp.end == |s| || !IsSlugChar(s[sp.end]))
    ensures var sp := ExtractSlugSpan(s).value;
      forall a': nat, k': nat :: a' < sp.start - UrlLength ==> !UrlSlugAt(s, a', k')
  {
    UrlSlugFound(s, a0, k0);
    var sp := FindUrlFrom(s, 0).value;
    assert ExtractSlugSpan(s).value == sp;
    UrlResultAt(s);
    UrlResultSlug(s);
    UrlLeftmost(s);
  }

  /**
   * Without a URL followed by a slug, the result starts at the leftmost
   * position where any slug-shaped substring starts, and is the longest one
   * from there.
   */
  lemma ExtractSlugLeftmostFallback(s: string)
    requires forall a: nat, k: nat :: !UrlSlugAt(s, a, k)
    requires ExtractSlugSpan(s).Some?
    ensures var sp := ExtractSlugSpan(s).value;
      SlugAt(s, sp.start, sp.end) &&
      (forall k: nat :: SlugAt(s, sp.start, k) ==> k <= sp.end) &&
      (forall i: nat, k: nat :: i < sp.start ==> !SlugAt(s, i, k))
  {
    if FindUrlFrom(s, 0).Some? {
      UrlFindSound(s);
      assert false;
    }
    var sp := FindSlugFrom(s, 0).value;
    MatchAtSound(s, sp.start);
    forall k: nat | SlugAt(s, sp.start, k) ensures k <= sp.end {
      MatchAtLongest(s, sp.start, k);
    }
    forall i: nat, k: nat | i < sp.start ensures !SlugAt(s, i, k) {
      if SlugAt(s, i, k) {
        SlugFound(s, i, k);
      }
    }
  }

  /**
   * The result is maximal: the character after it is not in `[\w-]` and the
   * character before it is not in `\w`.
   */
  lemma ExtractSlugMaximal(s: string)
    requires ExtractSlugSpan(s).Some?
    ensures var sp := ExtractSlugSpan(s).value;
      (sp.end == |s| || !IsSlugChar(s[sp.end])) &&
      (sp.start == 0 || !IsWordChar(s[sp.start - 1]))
  {
    var sp := ExtractSlugSpan(s).value;
    SpanMatches(s);
    MatchAtSound(s, sp.start);
    if FindUrlFrom(s, 0).Some? {
      FindUrlFromFound(s, 0);
      var a := sp.start - UrlLength;
      UrlFromChar(s, a, 0, UrlLength - 1);
      assert UrlPrefix[UrlLength - 1] == '/';
    } else if sp.start > 0 && IsWordChar(s[sp.start - 1]) {
      MatchExtendsLeft(s, sp.start);
      FindSlugFromLeftmost(s, 0, sp.start - 1);
    }
  }

  /** Text made of slug characters holds no project URL. */
  lemma {:induction false} NoUrlMatchInSlugChars(t: string, i: nat)
    requires SlugRun(t, 0, |t|) && i <= |t|
    ensures FindUrlFrom(t, i).None?
    decreases |t| - i
  {
    if i + UrlLength <= |t| {
      NoUrlInSlugChars(t, i);
      NoUrlMatchInSlugChars(t, i + 1);
    }
  }

  /** A slug on its own extracts to itself. */
  lemma SlugExtractsToItself(t: string)
    requires IsSlug(t)
    ensures ExtractSlug(t) == Some(t)
  {
    SlugChars(t);
    NoUrlMatchInSlugChars(t, 0);
    MatchAtLongest(t, 0, |t|);
    assert FindSlugFrom(t, 0) == Some(Span(0, |t|));
    assert t[0..|t|] == t;
  }

  /** A slug extracted once extracts to itself. */
  lemma ExtractSlugIdempotent(s: string)
    requires ExtractSlug(s).Some?
    ensures ExtractSlug(ExtractSlug(s).value) == ExtractSlug(s)
  {
    ExtractSlugShape(s);
    SlugExtractsToItself(ExtractSlug(s).value);
  }
}
