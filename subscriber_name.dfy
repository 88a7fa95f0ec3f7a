/** `SubscriberName::parse` (src/domain/subscriber_name.rs): a display name is
    accepted unless it is blank, longer than 256 grapheme clusters, or contains
    one of ten forbidden characters; an accepted name is stored unchanged. */
module Domain {
  import opened Wrappers

  // ---------------------------------------------------------------------------
  // `str::trim`
  // ---------------------------------------------------------------------------

  /** Rust's `char::is_whitespace`: the characters with the Unicode
      White_Space property, which is what `str::trim` strips. */
  predicate IsWhitespace(c: char) {
    || ('\U{0009}' <= c <= '\U{000D}')
    || c == ' '
    || c == '\U{0085}'
    || c == '\U{00A0}'
    || c == '\U{1680}'
    || ('\U{2000}' <= c <= '\U{200A}')
    || c == '\U{2028}'
    || c == '\U{2029}'
    || c == '\U{202F}'
    || c == '\U{205F}'
    || c == '\U{3000}'
  }

  /** `trim_start`: drops the leading whitespace, and only that. */
  function TrimStart(s: string): (r: string)
    ensures |r| <= |s| && r == s[|s| - |r|..]
    ensures forall i :: 0 <= i < |s| - |r| ==> IsWhitespace(s[i])
    ensures r != [] ==> !IsWhitespace(r[0])
  {
    if s != [] && IsWhitespace(s[0]) then TrimStart(s[1..]) else s
  }

  /** `trim_end`: drops the trailing whitespace, and only that. */
  function TrimEnd(s: string): (r: string)
    ensures |r| <= |s| && r == s[..|r|]
    ensures forall i :: |r| <= i < |s| ==> IsWhitespace(s[i])
    ensures r != [] ==> !IsWhitespace(r[|r| - 1])
  {
    if s != [] && IsWhitespace(s[|s| - 1]) then TrimEnd(s[..|s| - 1]) else s
  }

  /** `str::trim`: the trimmed string is empty exactly when every character
      of `s` is whitespace. */
  function Trim(s: string): (r: string)
    ensures r == [] <==> forall i :: 0 <= i < |s| ==> IsWhitespace(s[i])
  {
    var t := TrimStart(s);
    assert t != [] ==> t[0] == s[|s| - |t|];
    TrimEnd(t)
  }

  // ---------------------------------------------------------------------------
  // `str::graphemes(true)`
  // ---------------------------------------------------------------------------

  function Concat(clusters: seq<string>): string {
    if clusters == [] then [] else clusters[0] + Concat(clusters[1..])
  }

  /** The printable ASCII characters, U+0020 to U+007E. */
  predicate IsPrintableAscii(c: char) {
    ' ' <= c <= '~'
  }

  /** What the model assumes of the extended grapheme clusters that
      `graphemes(true)` yields for `s` (Unicode Standard Annex #29): they are
      non-empty and concatenate to `s`, and no cluster holds two adjacent
      printable ASCII characters, since rule GB999 breaks between any two of
      them and no earlier rule applies to such a pair. */
  ghost predicate IsGraphemeSegmentation(s: string, clusters: seq<string>) {
    && Concat(clusters) == s
    && (forall k :: 0 <= k < |clusters| ==> clusters[k] != [])
    && (forall k, i :: 0 <= k < |clusters| && 0 <= i < |clusters[k]| - 1 ==>
          !(IsPrintableAscii(clusters[k][i]) && IsPrintableAscii(clusters[k][i + 1])))
  }

  /** There are never more grapheme clusters than characters. */
  lemma {:induction false} GraphemeCountAtMostLength(s: string, clusters: seq<string>)
    requires IsGraphemeSegmentation(s, clusters)
    ensures |clusters| <= |s|
    decreases clusters
  {
    if clusters != [] {
      var rest := clusters[1..];
      assert IsGraphemeSegmentation(Concat(rest), rest) by {
        forall k, i | 0 <= k < |rest| && 0 <= i < |rest[k]| - 1
          ensures !(IsPrintableAscii(rest[k][i]) && IsPrintableAscii(rest[k][i + 1]))
        {
          assert rest[k] == clusters[k + 1];
        }
      }
      GraphemeCountAtMostLength(Concat(rest), rest);
    }
  }

  lemma FirstTwoOfPrefix(s: string, first: string, rest: string)
    requires s == first + rest && |first| >= 2
    ensures first[0] == s[0] && first[1] == s[1]
  {
  }

  /** A string of printable ASCII characters has one grapheme cluster per
      character. */
  lemma {:induction false} AsciiGraphemeCount(s: string, clusters: seq<string>)
    requires IsGraphemeSegmentation(s, clusters)
    requires forall i :: 0 <= i < |s| ==> IsPrintableAscii(s[i])
    ensures |clusters| == |s|
    decreases clusters
  {
    if clusters != [] {
      var first, rest := clusters[0], clusters[1..];
      assert s == first + Concat(rest);
      assert IsGraphemeSegmentation(Concat(rest), rest) by {
        forall k, i | 0 <= k < |rest| && 0 <= i < |rest[k]| - 1
          ensures !(IsPrintableAscii(rest[k][i]) && IsPrintableAscii(rest[k][i + 1]))
        {
          assert rest[k] == clusters[k + 1];
        }
      }
      if |first| >= 2 {
        FirstTwoOfPrefix(s, first, Concat(rest));
        assert false;
      }
      assert Concat(rest) == s[1..];
      AsciiGraphemeCount(Concat(rest), rest);
    }
  }

  // ---------------------------------------------------------------------------
  // `SubscriberName::parse`
  // ---------------------------------------------------------------------------

  const ForbiddenCharacters: seq<char> := ['<', '>', '"', '`', '(', ')', '{', '}', '\\', '/']

  const InvalidSubscriberName: string := "invalid subscriber name"

  /** `s.chars().any(|c| forbidden_characters.contains(&c))`. */
  function ContainsForbiddenCharacters(s: string): (r: bool)
    ensures r <==> exists i :: 0 <= i < |s| && s[i] in ForbiddenCharacters
  {
    if s == [] then false
    else if s[0] in ForbiddenCharacters then true
    else
      assert forall i :: 1 <= i < |s| ==> s[i] == s[1..][i - 1];
      ContainsForbiddenCharacters(s[1..])
  }

  /** A validated name; it holds the submitted string as it was. */
  datatype SubscriberName = SubscriberName(value: string) {
    /** `impl AsRef<str>`. */
    function AsRef(): string {
      value
    }
  }

  /** `SubscriberName::parse`; `graphemes` is what `s.graphemes(true)` yields.
      It accepts exactly the names that have a non-whitespace character, at
      most 256 grapheme clusters and no forbidden character; an accepted name
      keeps `s` unchanged (untrimmed), and every rejection carries the same
      message. */
  function Parse(s: string, graphemes: seq<string>): (r: Result<SubscriberName, string>)
    ensures r.Ok? <==>
      && (exists i :: 0 <= i < |s| && !IsWhitespace(s[i]))
      && |graphemes| <= 256
      && (forall i :: 0 <= i < |s| ==> s[i] !in ForbiddenCharacters)
    ensures r.Ok? ==> r.value.AsRef() == s
    ensures r.Err? ==> r.error == InvalidSubscriberName
  {
    var isEmptyOrWhitespace := Trim(s) == [];
    var isTooLong := |graphemes| > 256;
    var containsForbiddenCharacters := ContainsForbiddenCharacters(s);
    if isEmptyOrWhitespace || isTooLong || containsForbiddenCharacters then
      Err(InvalidSubscriberName)
    else
      Ok(SubscriberName(s))
  }

  // ---------------------------------------------------------------------------
  // The boundaries the unit tests fix
  // ---------------------------------------------------------------------------

  function Repeat(c: char, n: nat): (r: string)
    ensures |r| == n && forall i :: 0 <= i < n ==> r[i] == c
  {
    if n == 0 then [] else [c] + Repeat(c, n - 1)
  }

  /** Exactly 256 `a`s is a valid name. */
  lemma A256GraphemeNameIsValid(graphemes: seq<string>)
    requires IsGraphemeSegmentation(Repeat('a', 256), graphemes)
    ensures Parse(Repeat('a', 256), graphemes) == Ok(SubscriberName(Repeat('a', 256)))
  {
    var s := Repeat('a', 256);
    AsciiGraphemeCount(s, graphemes);
    assert !IsWhitespace(s[0]);
  }

  /** 257 `a`s is one grapheme too many. */
  lemma ANameLongerThan256GraphemesIsInvalid(graphemes: seq<string>)
    requires IsGraphemeSegmentation(Repeat('a', 257), graphemes)
    ensures Parse(Repeat('a', 257), graphemes) == Err(InvalidSubscriberName)
  {
    AsciiGraphemeCount(Repeat('a', 257), graphemes);
  }

  /** A name of at most 256 characters is never too long, whatever its clusters. */
  lemma ShortNamesAreNeverTooLong(s: string, graphemes: seq<string>)
    requires IsGraphemeSegmentation(s, graphemes)
    requires |s| <= 256
    ensures Parse(s, graphemes).Ok? <==>
      (exists i :: 0 <= i < |s| && !IsWhitespace(s[i])) && !ContainsForbiddenCharacters(s)
  {
    GraphemeCountAtMostLength(s, graphemes);
  }

  /** Blank names, the empty one included, are rejected, however long. */
  lemma WhitespaceOnlyNamesAreInvalid(s: string, graphemes: seq<string>)
    requires forall i :: 0 <= i < |s| ==> IsWhitespace(s[i])
    ensures Parse(s, graphemes) == Err(InvalidSubscriberName)
  {
  }

  lemma EmptyAndSpaceNamesAreInvalid(graphemes: seq<string>)
    ensures Parse("", graphemes) == Err(InvalidSubscriberName)
    ensures Parse(" ", graphemes) == Err(InvalidSubscriberName)
  {
    WhitespaceOnlyNamesAreInvalid("", graphemes);
    WhitespaceOnlyNamesAreInvalid(" ", graphemes);
  }

  /** A name holding a forbidden character anywhere is rejected; in particular
      each forbidden character on its own. */
  lemma NamesWithForbiddenCharactersAreInvalid(s: string, graphemes: seq<string>, i: nat)
    requires i < |s| && s[i] in ForbiddenCharacters
    ensures Parse(s, graphemes) == Err(InvalidSubscriberName)
    ensures Parse([s[i]], graphemes) == Err(InvalidSubscriberName)
  {
    assert [s[i]][0] in ForbiddenCharacters;
  }

  lemma ValidNamesAreValid(graphemes: seq<string>)
    requires IsGraphemeSegmentation("Ursula Le Guin", graphemes)
    ensures Parse("Ursula Le Guin", graphemes) == Ok(SubscriberName("Ursula Le Guin"))
  {
    var s := "Ursula Le Guin";
    assert forall i :: 0 <= i < |s| ==> IsPrintableAscii(s[i]) && s[i] !in ForbiddenCharacters;
    AsciiGraphemeCount(s, graphemes);
    assert !IsWhitespace(s[0]);
  }
}
