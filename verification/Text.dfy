/** Text as JavaScript sees it: white space, trimming, lengths, and joining with a separator. */
module Text {
  /** What the pattern \s matches, which is also what trimming removes. */
  predicate IsSpace(c: char) {
    || '\t' <= c <= '\r' || c == ' ' || c == '\U{00a0}' || c == '\U{1680}' || '\U{2000}' <= c <= '\U{200a}'
    || c == '\U{2028}' || c == '\U{2029}' || c == '\U{202f}' || c == '\U{205f}' || c == '\U{3000}' || c == '\U{feff}'
  }

  function TrimStart(s: string): (r: string)
    ensures r == "" || !IsSpace(r[0])
  {
    if s != "" && IsSpace(s[0]) then TrimStart(s[1..]) else s
  }

  function TrimEnd(s: string): (r: string)
    ensures r <= s
    ensures r == "" || !IsSpace(r[|r| - 1])
  {
    if s != "" && IsSpace(s[|s| - 1]) then TrimEnd(s[..|s| - 1]) else s
  }

  function Trim(s: string): string {
    TrimEnd(TrimStart(s))
  }

  /** `length`: characters outside the basic plane count twice. */
  function Utf16Length(s: string): (n: nat)
    ensures |s| <= n
  {
    if s == "" then 0 else (if s[0] as int < 0x1_0000 then 1 else 2) + Utf16Length(s[1..])
  }

  // --- slugs --------------------------------------------------------------------------

  predicate IsWordChar(c: char) {
    'a' <= c <= 'z' || '0' <= c <= '9'
  }

  /** Lower-case words joined by single hyphens: `^[a-z0-9]+(?:-[a-z0-9]+)*$`. */
  predicate IsSlug(s: string) {
    && s != "" && s[0] != '-' && s[|s| - 1] != '-'
    && (forall i | 0 <= i < |s| :: IsWordChar(s[i]) || s[i] == '-')
    && (forall i | 0 <= i < |s| - 1 :: !(s[i] == '-' && s[i + 1] == '-'))
  }

  predicate IsWord(w: string) {
    w != "" && forall i | 0 <= i < |w| :: IsWordChar(w[i])
  }

  function Join(parts: seq<string>, separator: string): string {
    if parts == [] then ""
    else if |parts| == 1 then parts[0]
    else parts[0] + separator + Join(parts[1..], separator)
  }

  lemma {:induction false} JoinedWordsAreSlug(words: seq<string>)
    requires words != [] && forall w | w in words :: IsWord(w)
    ensures IsSlug(Join(words, "-"))
  {
    assert IsWord(words[0]);
    if |words| > 1 {
      assert forall w | w in words[1..] :: w in words;
      JoinedWordsAreSlug(words[1..]);
    }
  }

  lemma {:induction false} SlugHasWords(s: string) returns (words: seq<string>)
    requires IsSlug(s)
    ensures words != [] && (forall w | w in words :: IsWord(w)) && Join(words, "-") == s
    decreases |s|
  {
    if '-' in s {
      var k := 0;
      while s[k] != '-'
        invariant 0 <= k < |s| && forall i | 0 <= i < k :: s[i] != '-'
        invariant exists i | k <= i < |s| :: s[i] == '-'
        decreases |s| - k
      {
        k := k + 1;
      }
      var rest := s[k + 1..];
      assert rest[0] == s[k + 1];
      var others := SlugHasWords(rest);
      words := [s[..k]] + others;
      assert words[1..] == others;
      assert s == s[..k] + "-" + rest;
      assert IsWord(s[..k]);
    } else {
      words := [s];
      assert IsWord(s);
    }
  }

  /** The pattern accepts exactly the hyphen-joined words. */
  lemma SlugIsJoinedWords(s: string)
    ensures IsSlug(s) <==> exists words: seq<string> ::
      words != [] && (forall w | w in words :: IsWord(w)) && Join(words, "-") == s
  {
    if IsSlug(s) {
      var words := SlugHasWords(s);
    }
    forall words: seq<string> | words != [] && (forall w | w in words :: IsWord(w)) && Join(words, "-") == s
      ensures IsSlug(s)
    {
      JoinedWordsAreSlug(words);
    }
  }
}
