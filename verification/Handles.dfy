/** URL handles: making one from a title, judging one, and finding one that is free. */
module Handles {
  import opened Common
  import opened Numerals
  import opened Text

  const MAX_LENGTH := 100

  const RESERVED: set<string> := {
    "account", "admin", "all", "api", "cart", "checkout", "collections", "edit", "login", "logout",
    "new", "orders", "pages", "password", "products", "search", "sitemap", "storevia"
  }

  datatype HandleProblem = Empty | TooLong | Format | IsReserved

  function ProblemOf(handle: string): Option<HandleProblem> {
    if |handle| == 0 then Some(Empty)
    else if |handle| > MAX_LENGTH then Some(TooLong)
    else if !IsSlug(handle) then Some(Format)
    else if handle in RESERVED then Some(IsReserved)
    else None
  }

  lemma ReservedPlain(handle: string)
    requires handle in RESERVED
    ensures '-' !in handle && |handle| <= 11
  {
  }

  /** The problems, in the order they are reported: a handle has none exactly when it may be used. */
  lemma ProblemsExactly(handle: string)
    ensures ProblemOf(handle) == Some(Empty) <==> handle == ""
    ensures ProblemOf(handle) == Some(TooLong) <==> 100 < |handle|
    ensures ProblemOf(handle) == Some(Format) <==> 1 <= |handle| <= 100 && !IsSlug(handle)
    ensures ProblemOf(handle) == Some(IsReserved) <==> IsSlug(handle) && handle in RESERVED
    ensures ProblemOf(handle) == None <==> 1 <= |handle| <= 100 && IsSlug(handle) && handle !in RESERVED
  {
    if handle in RESERVED {
      ReservedPlain(handle);
    }
  }

  // --- slugs --------------------------------------------------------------------------

  /** Every run of other characters becomes one hyphen; `open` means a run is under way. */
  function ReplaceRuns(s: string, open: bool): string {
    if s == "" then ""
    else if IsWordChar(s[0]) then [s[0]] + ReplaceRuns(s[1..], false)
    else (if open then "" else "-") + ReplaceRuns(s[1..], true)
  }

  function StripStart(s: string): string {
    if s != "" && s[0] == '-' then StripStart(s[1..]) else s
  }

  function StripEnd(s: string): (r: string)
    ensures r <= s && (r == "" || r[|r| - 1] != '-')
  {
    if s != "" && s[|s| - 1] == '-' then StripEnd(s[..|s| - 1]) else s
  }

  function Hyphenated(folded: string): string {
    StripEnd(StripStart(ReplaceRuns(folded, false)))
  }

  /** Where a hyphen last occurs. */
  function LastHyphen(s: string): (r: int)
    ensures -1 <= r < |s|
  {
    if s == "" then -1 else if s[|s| - 1] == '-' then |s| - 1 else LastHyphen(s[..|s| - 1])
  }

  /** A handle from folded lower-case text; may be empty. */
  function Slugify(folded: string): string {
    var hyphenated := Hyphenated(folded);
    if |hyphenated| <= MAX_LENGTH then hyphenated
    else
      var cut := hyphenated[..MAX_LENGTH - 4];
      var boundary := LastHyphen(cut);
      StripEnd(if boundary > 40 then cut[..boundary] else cut)
  }

  /** The words of a text: its maximal runs of letters and digits. */
  function Words(s: string): (words: seq<string>)
    ensures forall w | w in words :: IsWord(w)
    decreases |s|
  {
    if s == "" then []
    else if !IsWordChar(s[0]) then Words(s[1..])
    else
      var n := WordLength(s);
      [s[..n]] + Words(s[n..])
  }

  function WordLength(s: string): (n: nat)
    ensures n <= |s| && forall i | 0 <= i < n :: IsWordChar(s[i])
    ensures n < |s| ==> !IsWordChar(s[n])
    ensures s != "" && IsWordChar(s[0]) ==> 0 < n
  {
    if s == "" || !IsWordChar(s[0]) then 0 else 1 + WordLength(s[1..])
  }

  lemma {:induction false} ReplaceWord(s: string, n: nat, open: bool)
    requires n <= |s| && forall i | 0 <= i < n :: IsWordChar(s[i])
    ensures ReplaceRuns(s, open) == s[..n] + ReplaceRuns(s[n..], if n == 0 then open else false)
    decreases n
  {
    if n == 0 {
      assert s[0..] == s;
    } else {
      assert ReplaceRuns(s, open) == [s[0]] + ReplaceRuns(s[1..], false);
      hide ReplaceRuns;
      ReplaceWord(s[1..], n - 1, false);
      assert s[..n] == [s[0]] + s[1..][..n - 1] && s[n..] == s[1..][n - 1..];
    }
  }

  /** What follows a run: the words, each after a hyphen, and perhaps a hyphen at the end. */
  function Tail(words: seq<string>): string {
    if words == [] then "" else "-" + Join(words, "-")
  }

  /** After stripping, the runs that were replaced are exactly the joints between words. */
  lemma {:induction false} RunsJoinWords(s: string, open: bool)
    ensures s != "" && !IsWordChar(s[0]) && !open ==>
      (if Words(s) == [] then ReplaceRuns(s, open) == "-"
       else ReplaceRuns(s, open) == Tail(Words(s)) || ReplaceRuns(s, open) == Tail(Words(s)) + "-")
    ensures (s != "" && IsWordChar(s[0])) || open ==>
      (if Words(s) == [] then ReplaceRuns(s, open) == ""
       else ReplaceRuns(s, open) == Join(Words(s), "-") || ReplaceRuns(s, open) == Join(Words(s), "-") + "-")
    decreases |s|
  {
    if s != "" {
      if IsWordChar(s[0]) {
        var n := WordLength(s);
        var rest := s[n..];
        var words := [s[..n]] + Words(rest);
        assert Words(s) == words && words[1..] == Words(rest);
        assert rest == "" ==> Words(rest) == [] && ReplaceRuns(rest, false) == "";
        assert rest == "" || !IsWordChar(rest[0]);
        assert Join(words, "-") == s[..n] + Tail(Words(rest));
        hide ReplaceRuns, Words, Join, Tail;
        ReplaceWord(s, n, open);
        RunsJoinWords(rest, false);
        assert Tail([]) == "";
      } else {
        assert Words(s) == Words(s[1..]);
        assert ReplaceRuns(s, open) == (if open then "" else "-") + ReplaceRuns(s[1..], true);
        assert Words(s) != [] ==> Tail(Words(s)) == "-" + Join(Words(s), "-");
        hide ReplaceRuns, Words, Join, Tail;
        RunsJoinWords(s[1..], true);
      }
    }
  }

  lemma SlugStripsToItself(s: string)
    requires s == "" || IsSlug(s)
    ensures StripStart(s) == s && StripEnd(s) == s && StripEnd(s + "-") == s
    ensures s != "" ==> StripStart("-" + s) == s && StripStart("-" + s + "-") == s + "-" && StripStart(s + "-") == s + "-"
  {
    assert (s + "-")[..|s|] == s;
    assert ("-" + s)[1..] == s && ("-" + s + "-")[1..] == s + "-";
  }

  /** The slug before any cut is the text's words joined by hyphens. */
  lemma HyphenatedJoinsWords(folded: string)
    ensures Hyphenated(folded) == Join(Words(folded), "-")
    ensures Hyphenated(folded) == "" || IsSlug(Hyphenated(folded))
  {
    RunsJoinWords(folded, false);
    var joined := Join(Words(folded), "-");
    if Words(folded) != [] {
      JoinedWordsAreSlug(Words(folded));
    }
    SlugStripsToItself(joined);
    assert "-"[1..] == "";
    assert Tail(Words(folded)) == (if Words(folded) == [] then "" else "-" + joined);
  }

  lemma {:induction false} StrippedPrefixIsSlug(s: string, k: nat)
    requires IsSlug(s) && 0 < k <= |s|
    ensures IsSlug(StripEnd(s[..k])) && StripEnd(s[..k]) <= s
    ensures |StripEnd(s[..k])| == if s[k - 1] == '-' then k - 1 else k
    decreases k
  {
    if s[k - 1] == '-' {
      assert s[..k][..k - 1] == s[..k - 1];
      assert s[k - 2] != '-';
      StrippedPrefixIsSlug(s, k - 1);
    } else {
      assert IsSlug(s[..k]);
    }
  }

  lemma {:induction false} LastHyphenFound(s: string)
    ensures LastHyphen(s) != -1 ==> s[LastHyphen(s)] == '-'
    ensures forall i | LastHyphen(s) < i < |s| :: s[i] != '-'
  {
    if s != "" && s[|s| - 1] != '-' {
      LastHyphenFound(s[..|s| - 1]);
    }
  }

  /**
   * A slug is empty exactly when the text has no words; otherwise it is well formed,
   * of at most 100 characters, and begins the joined words. A cut one leaves room for
   * a suffix, and stops between words if that keeps more than 40 characters.
   */
  lemma SlugifyFits(folded: string)
    ensures Slugify(folded) == "" <==> Words(folded) == []
    ensures Slugify(folded) != "" ==> IsSlug(Slugify(folded)) && |Slugify(folded)| <= MAX_LENGTH
    ensures Slugify(folded) <= Join(Words(folded), "-")
    ensures var full, slug := Join(Words(folded), "-"), Slugify(folded);
      && (slug == full <==> |full| <= 100)
      && (slug != full ==>
          && |slug| <= MAX_LENGTH - 4 < |full|
          && (if exists i | 40 < i < MAX_LENGTH - 4 :: full[i] == '-'
              then 40 < |slug| && full[|slug|] == '-' && forall i | |slug| < i < MAX_LENGTH - 4 :: full[i] != '-'
              else |slug| == MAX_LENGTH - 4))
  {
    HyphenatedJoinsWords(folded);
    var h := Hyphenated(folded);
    if Words(folded) != [] {
      JoinedWordsAreSlug(Words(folded));
    }
    if |h| > MAX_LENGTH {
      var cut := h[..MAX_LENGTH - 4];
      var boundary := LastHyphen(cut);
      var k := if boundary > 40 then boundary else MAX_LENGTH - 4;
      assert (if boundary > 40 then cut[..boundary] else cut) == h[..k];
      LastHyphenFound(cut);
      assert forall i | 0 <= i < MAX_LENGTH - 4 :: cut[i] == h[i];
      StrippedPrefixIsSlug(h, k);
    }
  }

  // --- candidates ---------------------------------------------------------------------

  function Suffix(n: nat): string {
    "-" + Digits(n)
  }

  /** The base, shortened if the suffix would overflow, and the suffix. */
  function Candidate(base: string, n: nat): string
    requires |Suffix(n)| <= MAX_LENGTH
  {
    var room := MAX_LENGTH - |Suffix(n)|;
    StripEnd(if |base| <= room then base else base[..room]) + Suffix(n)
  }

  lemma DigitsAreWordChars(n: nat)
    ensures forall i | 0 <= i < |Digits(n)| :: IsWordChar(Digits(n)[i])
    ensures '-' !in Digits(n)
  {
    assert forall i | 0 <= i < |Digits(n)| :: IsDigit(Digits(n)[i]);
  }

  lemma NoLaterHyphen(a: string, n: nat)
    ensures var text := a + Suffix(n);
      text[|a|] == '-' && text[|a| + 1..] == Digits(n) && forall i | |a| < i < |text| :: text[i] != '-'
  {
    DigitsAreWordChars(n);
    var text := a + Suffix(n);
    assert forall i | |a| < i < |text| :: text[i] == Digits(n)[i - |a| - 1];
  }

  lemma SameSuffix(a: string, b: string, m: nat, n: nat)
    requires a + Suffix(m) == b + Suffix(n)
    ensures m == n
  {
    NoLaterHyphen(a, m);
    NoLaterHyphen(b, n);
    assert |a| == |b|;
    DigitsInjective(m, n);
  }

  /** No two candidates are the same. */
  lemma CandidatesDiffer(base: string, m: nat, n: nat)
    requires |Suffix(m)| <= MAX_LENGTH && |Suffix(n)| <= MAX_LENGTH && Candidate(base, m) == Candidate(base, n)
    ensures m == n
  {
    var roomM, roomN := MAX_LENGTH - |Suffix(m)|, MAX_LENGTH - |Suffix(n)|;
    SameSuffix(StripEnd(if |base| <= roomM then base else base[..roomM]),
               StripEnd(if |base| <= roomN then base else base[..roomN]), m, n);
  }

  lemma SlugWithSuffix(stem: string, n: nat)
    requires IsSlug(stem)
    ensures IsSlug(stem + Suffix(n)) && '-' in stem + Suffix(n)
  {
    DigitsAreWordChars(n);
    var s := stem + Suffix(n);
    assert s[|stem|] == '-';
    forall i | 0 <= i < |s|
      ensures IsWordChar(s[i]) || s[i] == '-'
      ensures i < |s| - 1 ==> !(s[i] == '-' && s[i + 1] == '-')
    {
      if |stem| <= i < |s| - 1 {
        assert s[i + 1] == Digits(n)[i - |stem|];
      }
    }
    assert s[|s| - 1] == Digits(n)[|Digits(n)| - 1];
  }

  /** Candidates of a slug are acceptable handles, while the suffix leaves room for a stem. */
  lemma CandidateAcceptable(base: string, n: nat)
    requires IsSlug(base) && |Suffix(n)| < MAX_LENGTH
    ensures ProblemOf(Candidate(base, n)) == None
  {
    var room := MAX_LENGTH - |Suffix(n)|;
    var k := if |base| <= room then |base| else room;
    assert (if |base| <= room then base else base[..room]) == base[..k];
    StrippedPrefixIsSlug(base, k);
    SlugWithSuffix(StripEnd(base[..k]), n);
    if Candidate(base, n) in RESERVED {
      ReservedPlain(Candidate(base, n));
    }
  }

  /** While base and suffix fit, a candidate extends its base. */
  lemma {:induction false} StripEndIsLongest(s: string)
    ensures forall k | |StripEnd(s)| <= k < |s| :: s[k] == '-'
    decreases |s|
  {
    if s != "" && s[|s| - 1] == '-' {
      StripEndIsLongest(s[..|s| - 1]);
    }
  }

  /**
   * Candidate `n` is the longest beginning of the base that leaves room for the suffix and
   * does not end in a hyphen, and then the suffix: every longer beginning overflows or ends in one.
   */
  lemma CandidateIsLongestFitting(base: string, n: nat) returns (stem: string)
    requires |Suffix(n)| <= MAX_LENGTH
    ensures Candidate(base, n) == stem + "-" + Digits(n)
    ensures stem <= base && |Candidate(base, n)| <= 100
    ensures stem != "" ==> stem[|stem| - 1] != '-'
    ensures forall k | |stem| <= k < |base| :: 100 < k + 2 + |Digits(n)| || base[k] == '-'
  {
    var room := MAX_LENGTH - |Suffix(n)|;
    var cut := if |base| <= room then base else base[..room];
    stem := StripEnd(cut);
    StripEndIsLongest(cut);
    assert stem + ("-" + Digits(n)) == stem + "-" + Digits(n);
  }

  lemma CandidateExtends(base: string, n: nat)
    requires IsSlug(base) && |base| + |Suffix(n)| <= MAX_LENGTH
    ensures Candidate(base, n) == base + Suffix(n)
  {
    SlugStripsToItself(base);
  }

  // --- finding a free handle ------------------------------------------------------------

  lemma {:induction false} DigitsMonotone(m: nat, n: nat)
    requires m <= n
    ensures |Digits(m)| <= |Digits(n)|
    decreases n
  {
    if 10 <= m {
      DigitsMonotone(m / 10, n / 10);
    }
  }

  /** Suffixes up to `n` leave room for a stem. */
  predicate Roomy(n: nat) {
    |Suffix(n)| < MAX_LENGTH
  }

  /** The base if it is free, or else the first free candidate. */
  ghost predicate IsFirstFree(base: string, taken: set<string>, handle: string) {
    if base !in taken then handle == base
    else exists n: nat :: IsFirstCandidate(base, taken, handle, n)
  }

  ghost predicate IsFirstCandidate(base: string, taken: set<string>, handle: string, n: nat) {
    && 2 <= n && Roomy(n) && handle == Candidate(base, n) && handle !in taken
    && forall m: nat | 2 <= m < n && Roomy(m) :: Candidate(base, m) in taken
  }

  /** The base handle of a title: its slug, or the fallback, or a reserved word made distinct. */
  function BaseOf(folded: string, fallback: string): string {
    var base := Slugify(folded);
    if base == "" then fallback else if base in RESERVED then base + "-1" else base
  }

  /** The base of a title: its words joined by hyphens while they fit, a reserved word numbered, else the fallback. */
  lemma BaseOfTitle(folded: string, fallback: string)
    ensures Words(folded) == [] ==> BaseOf(folded, fallback) == fallback
    ensures Words(folded) != [] ==>
      var slug := Join(Words(folded), "-");
      && (|slug| <= 100 && slug !in RESERVED ==> BaseOf(folded, fallback) == slug)
      && (|slug| <= 100 && slug in RESERVED ==> BaseOf(folded, fallback) == slug + "-1")
      && (100 < |slug| && Slugify(folded) !in RESERVED ==> BaseOf(folded, fallback) == Slugify(folded))
  {
    SlugifyFits(folded);
    hide Slugify, Join, Words, RESERVED;
  }

  /** An acceptable fallback makes every base acceptable. */
  lemma BaseAcceptable(folded: string, fallback: string)
    requires ProblemOf(fallback) == None
    ensures ProblemOf(BaseOf(folded, fallback)) == None
  {
    SlugifyFits(folded);
    var base := Slugify(folded);
    hide Slugify, Join, Words;
    if base in RESERVED {
      ReservedPlain(base);
      assert Digits(1) == "1";
      SlugWithSuffix(base, 1);
      if base + "-1" in RESERVED {
        ReservedPlain(base + "-1");
      }
    }
  }

  /** The result is determined, free, and acceptable. */
  lemma FirstFreeUnique(base: string, taken: set<string>, a: string, b: string)
    requires IsFirstFree(base, taken, a) && IsFirstFree(base, taken, b)
    ensures a == b
  {
    if base in taken {
      var m: nat :| IsFirstCandidate(base, taken, a, m);
      var n: nat :| IsFirstCandidate(base, taken, b, n);
      assert m == n;
    }
  }

  lemma FirstFreeAcceptable(base: string, taken: set<string>, handle: string)
    requires ProblemOf(base) == None && IsFirstFree(base, taken, handle)
    ensures handle !in taken && ProblemOf(handle) == None
  {
    if base in taken {
      var n: nat :| IsFirstCandidate(base, taken, handle, n);
      CandidateAcceptable(base, n);
    }
  }

  lemma SubsetSmaller(a: set<string>, b: set<string>)
    requires a <= b
    ensures |a| <= |b|
  {
    assert b == a + (b - a);
  }

  /** The candidates before `n` are taken, and there are n - 2 of them. */
  ghost predicate AllTaken(base: string, taken: set<string>, tried: set<string>, n: nat) {
    && 2 <= n && tried <= taken && |tried| == n - 2
    && (forall h | h in tried :: TriedBefore(base, h, n))
    && (forall m: nat | 2 <= m < n && Roomy(m) :: Candidate(base, m) in taken)
  }

  ghost predicate TriedBefore(base: string, handle: string, n: nat) {
    exists m: nat :: 2 <= m < n && Roomy(m) && handle == Candidate(base, m)
  }

  lemma TakenToo(base: string, taken: set<string>, tried: set<string>, n: nat)
    requires AllTaken(base, taken, tried, n) && Roomy(n) && Candidate(base, n) in taken
    ensures AllTaken(base, taken, tried + {Candidate(base, n)}, n + 1) && n - 1 <= |taken|
  {
    var candidate := Candidate(base, n);
    assert candidate !in tried by {
      if TriedBefore(base, candidate, n) {
        var m: nat :| 2 <= m < n && Roomy(m) && candidate == Candidate(base, m);
        CandidatesDiffer(base, m, n);
      }
    }
    var more := tried + {candidate};
    SubsetSmaller(more, taken);
    forall h | h in more
      ensures TriedBefore(base, h, n + 1)
    {
      if h in tried {
        assert TriedBefore(base, h, n);
        var m: nat :| 2 <= m < n && Roomy(m) && h == Candidate(base, m);
      }
    }
  }

  /** All candidates before `n` taken: that many handles are taken. */
  lemma {:induction false} ManyTaken(base: string, taken: set<string>, n: nat) returns (tried: set<string>)
    requires 2 <= n && Roomy(n)
    requires forall m: nat | 2 <= m < n && Roomy(m) :: Candidate(base, m) in taken
    ensures AllTaken(base, taken, tried, n) && n - 2 <= |taken|
    decreases n
  {
    if n == 2 {
      tried := {};
    } else {
      DigitsMonotone(n - 1, n);
      var before := ManyTaken(base, taken, n - 1);
      TakenToo(base, taken, before, n - 1);
      tried := before + {Candidate(base, n - 1)};
    }
  }

  /** The next number is small enough too: so many candidates cannot all be taken. */
  lemma NextIsRoomy(base: string, taken: set<string>, n: nat)
    requires 2 <= n <= |taken| + 2 && Roomy(n) && Roomy(|taken| + 2) && Candidate(base, n) in taken
    requires forall m: nat | 2 <= m < n && Roomy(m) :: Candidate(base, m) in taken
    ensures n + 1 <= |taken| + 2 && Roomy(n + 1)
  {
    hide Candidate, Digits, TriedBefore;
    var tried := ManyTaken(base, taken, n);
    TakenToo(base, taken, tried, n);
    DigitsMonotone(n + 1, |taken| + 2);
  }

  /** Some candidate is free: they are all different, so they cannot all be taken. */
  lemma FirstFreeExists(base: string, taken: set<string>) returns (handle: string)
    requires Roomy(|taken| + 2)
    ensures IsFirstFree(base, taken, handle)
  {
    handle := base;
    if base in taken {
      var n := 2;
      DigitsMonotone(2, |taken| + 2);
      hide Candidate, Suffix, Digits;
      while Candidate(base, n) in taken
        invariant 2 <= n <= |taken| + 2 && Roomy(n)
        invariant forall m: nat | 2 <= m < n && Roomy(m) :: Candidate(base, m) in taken
        decreases |taken| + 2 - n
      {
        NextIsRoomy(base, taken, n);
        n := n + 1;
      }
      handle := Candidate(base, n);
      assert IsFirstCandidate(base, taken, handle, n);
    }
  }

  /** The search beyond the base. */
  method FirstCandidate(base: string, taken: set<string>) returns (handle: string)
    requires base in taken && Roomy(|taken| + 2)
    ensures IsFirstFree(base, taken, handle)
  {
    var n := 2;
    DigitsMonotone(2, |taken| + 2);
    hide Candidate, Suffix, Digits;
    while Candidate(base, n) in taken
      invariant 2 <= n <= |taken| + 2 && Roomy(n)
      invariant forall m: nat | 2 <= m < n && Roomy(m) :: Candidate(base, m) in taken
      decreases |taken| + 2 - n
    {
      NextIsRoomy(base, taken, n);
      n := n + 1;
    }
    handle := Candidate(base, n);
    assert IsFirstCandidate(base, taken, handle, n);
  }

  /**
   * Searching ends: the candidates are all different, so at most |taken| of them are
   * taken. All that is asked is that numbers of that size leave room for a stem.
   */
  method UniqueHandle(folded: string, taken: set<string>, fallback: string) returns (handle: string)
    requires Roomy(|taken| + 2)
    ensures IsFirstFree(BaseOf(folded, fallback), taken, handle)
  {
    var base := BaseOf(folded, fallback);
    if base !in taken {
      return base;
    }
    handle := FirstCandidate(base, taken);
  }

  // --- which handles are looked at ------------------------------------------------------

  /** Handles in use that begin with `base`: the query with `LIKE 'base%'`. */
  function TakenHandles(handles: set<string>, base: string): set<string> {
    set h | h in handles && base <= h
  }

  /** The prefix the query is given for a title. */
  function QueryBase(folded: string, fallback: string): string {
    if Slugify(folded) == "" then fallback else Slugify(folded)
  }

  datatype HandleError = Invalid(problem: HandleProblem) | Conflict

  method ResolveHandle(handles: set<string>, chosen: Option<string>, folded: string, fallback: string)
    returns (r: Result<string, HandleError>)
    requires chosen.None? || chosen.value == "" ==> Roomy(|handles| + 2)
    ensures chosen.Some? && chosen.value != "" ==>
      r == if ProblemOf(chosen.value).Some? then Err(Invalid(ProblemOf(chosen.value).value))
           else if chosen.value in handles then Err(Conflict)
           else Ok(chosen.value)
    ensures !(chosen.Some? && chosen.value != "") ==>
      r.Ok? && IsFirstFree(BaseOf(folded, fallback), TakenHandles(handles, QueryBase(folded, fallback)), r.value)
  {
    if chosen.Some? && chosen.value != "" {
      var problem := ProblemOf(chosen.value);
      if problem.Some? {
        return Err(Invalid(problem.value));
      }
      if chosen.value in TakenHandles(handles, chosen.value) {
        return Err(Conflict);
      }
      return Ok(chosen.value);
    }
    var taken := TakenHandles(handles, QueryBase(folded, fallback));
    SubsetSmaller(taken, handles);
    DigitsMonotone(|taken| + 2, |handles| + 2);
    var handle := UniqueHandle(folded, taken, fallback);
    r := Ok(handle);
  }

  lemma BaseExtendsQuery(folded: string, fallback: string)
    ensures QueryBase(folded, fallback) <= BaseOf(folded, fallback)
  {
  }

  /** Handles the prefix query does not return. */
  predicate Unseen(others: set<string>, query: string) {
    forall h | h in others :: !(query <= h)
  }

  /** Candidate `n` is free, and it and every candidate tried before it begin with the query's prefix. */
  ghost predicate SeenFree(handles: set<string>, base: string, query: string, n: nat) {
    && 2 <= n && Roomy(n) && Candidate(base, n) !in handles
    && forall m: nat | 2 <= m <= n && Roomy(m) :: query <= Candidate(base, m)
  }

  /** What can be checked beforehand: the base is free, or the prefix covers the search up to a free candidate. */
  ghost predicate SureToBeFree(handles: set<string>, base: string, query: string) {
    base !in handles || exists n: nat :: SeenFree(handles, base, query, n)
  }

  /** No handle chosen beside `handles` and any others the query cannot see is ever one in use. */
  ghost predicate NeverClashes(handles: set<string>, base: string, query: string) {
    forall others, handle |
      Unseen(others, query) && IsFirstFree(base, TakenHandles(handles + others, query), handle) ::
      handle !in handles + others
  }

  lemma UnseenChangeNothing(handles: set<string>, others: set<string>, query: string)
    requires Unseen(others, query)
    ensures TakenHandles(handles + others, query) == TakenHandles(handles, query)
  {
  }

  lemma SureHandleIsFree(handles: set<string>, base: string, query: string, others: set<string>, handle: string)
    requires query <= base && SureToBeFree(handles, base, query) && Unseen(others, query)
    requires IsFirstFree(base, TakenHandles(handles + others, query), handle)
    ensures handle !in handles + others
  {
    UnseenChangeNothing(handles, others, query);
    var taken := TakenHandles(handles, query);
    if base in taken {
      var k: nat :| IsFirstCandidate(base, taken, handle, k);
      var n: nat :| SeenFree(handles, base, query, n);
      assert Candidate(base, n) !in taken;
      assert k <= n;
    }
  }

  lemma UnsureHandleClashes(handles: set<string>, base: string, query: string, handle: string)
    requires query <= base && !SureToBeFree(handles, base, query)
    requires IsFirstFree(base, TakenHandles(handles, query), handle)
    ensures !(query <= handle)
    ensures IsFirstFree(base, TakenHandles(handles + {handle}, query), handle)
  {
    var taken := TakenHandles(handles, query);
    assert base in taken;
    var k: nat :| IsFirstCandidate(base, taken, handle, k);
    if query <= handle {
      forall m: nat | 2 <= m <= k && Roomy(m)
        ensures query <= Candidate(base, m)
      {
        assert m < k ==> Candidate(base, m) in taken;
      }
      assert SeenFree(handles, base, query, k);
    } else {
      UnseenChangeNothing(handles, {handle}, query);
    }
  }

  /**
   * Exactly when a generated handle is sure not to be in use, told from the handles, the
   * base and the prefix alone: the base is free, or every candidate up to a free one
   * begins with the prefix. Otherwise some product's handle makes the choice clash.
   */
  lemma GeneratedHandleFree(handles: set<string>, folded: string, fallback: string)
    requires Roomy(|handles| + 2)
    ensures var base, query := BaseOf(folded, fallback), QueryBase(folded, fallback);
      NeverClashes(handles, base, query) <==> SureToBeFree(handles, base, query)
  {
    var base, query := BaseOf(folded, fallback), QueryBase(folded, fallback);
    BaseExtendsQuery(folded, fallback);
    if SureToBeFree(handles, base, query) {
      forall others, handle |
        Unseen(others, query) && IsFirstFree(base, TakenHandles(handles + others, query), handle)
        ensures handle !in handles + others
      {
        SureHandleIsFree(handles, base, query, others, handle);
      }
    } else {
      var taken := TakenHandles(handles, query);
      SubsetSmaller(taken, handles);
      DigitsMonotone(|taken| + 2, |handles| + 2);
      var handle := FirstFreeExists(base, taken);
      UnsureHandleClashes(handles, base, query, handle);
      assert Unseen({handle}, query) && handle in handles + {handle};
    }
  }

  /**
   * In particular nothing clashes while the base leaves room for the suffixes that so
   * many handles can need.
   */
  lemma FittingHandleIsFree(handles: set<string>, folded: string, fallback: string)
    requires ProblemOf(fallback) == None
    requires |BaseOf(folded, fallback)| + |Suffix(|handles| + 2)| <= MAX_LENGTH
    ensures NeverClashes(handles, BaseOf(folded, fallback), QueryBase(folded, fallback))
  {
    var base, query := BaseOf(folded, fallback), QueryBase(folded, fallback);
    BaseAcceptable(folded, fallback);
    BaseExtendsQuery(folded, fallback);
    var free := FirstFreeExists(base, handles);
    if base in handles {
      var n: nat :| IsFirstCandidate(base, handles, free, n);
      var _ := ManyTaken(base, handles, n);
      forall m: nat | 2 <= m <= n && Roomy(m)
        ensures query <= Candidate(base, m)
      {
        DigitsMonotone(m, |handles| + 2);
        CandidateExtends(base, m);
      }
      assert SeenFree(handles, base, query, n);
    }
    GeneratedHandleFree(handles, folded, fallback);
  }

  /**
   * And it does happen: a slug of 99 or 100 letters already in use is shortened at once,
   * and the handle generated for it may be one in use.
   */
  lemma ShortenedHandleClashes(title: string)
    requires IsWord(title) && 99 <= |title| <= 100
    ensures !SureToBeFree({title}, BaseOf(title, "product"), QueryBase(title, "product"))
    ensures var clash := title[..98] + "-2";
      IsFirstFree(BaseOf(title, "product"), TakenHandles({title, clash}, QueryBase(title, "product")), clash)
  {
    WordSlug(title);
    LongWordNotReserved(title);
    ShortenedCandidate(title);
    hide Candidate, Slugify, RESERVED, StripEnd, IsWord, Suffix;
    var clash := title[..98] + "-2";
    assert !(title <= clash) && title != clash;
    var taken := TakenHandles({title, clash}, title);
    assert title in taken && clash !in taken;
    assert IsFirstCandidate(title, taken, clash, 2);
  }

  lemma LongWordNotReserved(title: string)
    requires 99 <= |title|
    ensures title !in RESERVED
  {
    if title in RESERVED {
      ReservedPlain(title);
    }
  }

  lemma ShortenedCandidate(title: string)
    requires IsWord(title) && 99 <= |title|
    ensures Roomy(2) && Candidate(title, 2) == title[..98] + "-2"
    ensures !(title <= Candidate(title, 2))
  {
    assert Digits(2) == "2" && Suffix(2) == "-2";
    assert title[..98][97] == title[97] && StripEnd(title[..98]) == title[..98];
    var clash := title[..98] + "-2";
    assert clash[98] == '-' && title[98] != '-';
  }

  lemma WordSlug(word: string)
    requires IsWord(word) && |word| <= MAX_LENGTH
    ensures Slugify(word) == word
  {
    HyphenatedJoinsWords(word);
    assert WordLength(word) == |word| && word[..|word|] == word && word[|word|..] == "";
    assert Words(word) == [word];
  }
}
