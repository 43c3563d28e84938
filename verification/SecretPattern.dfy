/**
 The pattern of secret-looking text (internal/contextretrieval/quality.go:22,
 `qualitySecretPattern`) and what the loader's use of it means for parts of a file.
 */
module SecretPattern {

  // ---------- the pattern ----------

  /** `\w`, which decides where `\b` matches. */
  predicate IsWordChar(c: char) {
    '0' <= c <= '9' || 'A' <= c <= 'Z' || 'a' <= c <= 'z' || c == '_'
  }

  predicate Boundary(t: string, i: nat)
    requires i <= |t|
  {
    (i > 0 && IsWordChar(t[i - 1])) != (i < |t| && IsWordChar(t[i]))
  }

  /** `(?i)`: the letters that fold to an ASCII letter. */
  function Folded(c: char): char {
    if 'A' <= c <= 'Z' then c - 'A' + 'a'
    else if c == '\U{17F}' then 's'
    else if c == '\U{212A}' then 'k'
    else c
  }

  /** `x` is the lower-case text `letters`, in any case. */
  predicate Spells(x: string, letters: string) {
    |x| == |letters| && forall i | 0 <= i < |x| :: Folded(x[i]) == letters[i]
  }

  predicate IsKeyHeader(x: string) {
    || Spells(x, "-----begin private key-----")
    || Spells(x, "-----begin rsa private key-----")
    || Spells(x, "-----begin ec private key-----")
    || Spells(x, "-----begin openssh private key-----")
  }

  predicate IsAccessKey(x: string) {
    |x| == 20 && Spells(x[..4], "akia")
    && forall i | 4 <= i < 20 :: '0' <= x[i] <= '9' || 'a' <= Folded(x[i]) <= 'z'
  }

  predicate SpellsPair(x: string, first: string, second: string) {
    Spells(x, first + second) || Spells(x, first + "_" + second) || Spells(x, first + "-" + second)
  }

  predicate IsKeyword(x: string) {
    || SpellsPair(x, "api", "key") || SpellsPair(x, "api", "token") || SpellsPair(x, "auth", "token")
    || SpellsPair(x, "access", "token") || SpellsPair(x, "refresh", "token") || SpellsPair(x, "client", "secret")
    || Spells(x, "password") || Spells(x, "secret")
  }

  predicate IsQuote(c: char) {
    c == '"' || c == '\''
  }

  /** `\s*`. */
  predicate AllSpace(x: string) {
    forall i | 0 <= i < |x| :: x[i] in "\t\n\U{C}\r "
  }

  /** `["']?\s*`. */
  predicate MaybeQuoteThenSpace(x: string) {
    AllSpace(x) || (x != "" && IsQuote(x[0]) && AllSpace(x[1..]))
  }

  /** A keyword, a colon or an equals sign at `s`, and eight or more characters in quotes from `o`. */
  predicate AssignsAt(x: string, k: nat, s: nat, o: nat) {
    && k <= s < o && o + 9 < |x|
    && IsKeyword(x[..k]) && MaybeQuoteThenSpace(x[k..s]) && (x[s] == ':' || x[s] == '=') && AllSpace(x[s + 1..o])
    && IsQuote(x[o]) && IsQuote(x[|x| - 1]) && forall i | o < i < |x| - 1 :: !IsQuote(x[i])
  }

  predicate Assigns(x: string) {
    exists k: nat, s: nat, o: nat | k <= s < o < |x| :: AssignsAt(x, k, s, o)
  }

  /** What a pattern says of a piece of text, and of whether a word boundary is on either side. */
  type Pattern = (string, bool, bool) -> bool

  predicate OccursAt(pattern: Pattern, t: string, i: nat, j: nat)
    requires i <= j <= |t|
  {
    pattern(t[i..j], Boundary(t, i), Boundary(t, j))
  }

  predicate Occurs(pattern: Pattern, t: string) {
    exists i: nat, j: nat | i <= j <= |t| :: OccursAt(pattern, t, i, j)
  }

  predicate IsSecret(x: string, before: bool, after: bool) {
    IsKeyHeader(x) || (before && after && IsAccessKey(x)) || (before && Assigns(x))
  }

  function SecretText(): Pattern {
    (x: string, before: bool, after: bool) => IsSecret(x, before, after)
  }

  /** `ContainsSecretLikeContent`. */
  predicate LooksSecret(t: string) {
    Occurs(SecretText(), t)
  }

  // ---------- parts of a text ----------

  /** No word of the text goes across `p`. */
  predicate CutsNoWord(t: string, p: int) {
    0 < p < |t| ==> !(IsWordChar(t[p - 1]) && IsWordChar(t[p]))
  }

  /** A boundary of a part that cuts no word is a boundary of the whole. */
  lemma BoundaryOfPart(t: string, p: nat, q: nat, i: nat)
    requires p <= q <= |t| && CutsNoWord(t, p) && CutsNoWord(t, q) && i <= q - p && Boundary(t[p..q], i)
    ensures Boundary(t, p + i)
  {
  }

  /** A boundary can only help a match. */
  ghost predicate IsMonotone(pattern: Pattern) {
    forall x: string, before: bool, after: bool, b: bool, a: bool | pattern(x, before, after) && (before ==> b)
        && (after ==> a) ::
      pattern(x, b, a)
  }

  lemma PartOfPart(t: string, p: nat, q: nat, i: nat, j: nat)
    requires p <= q <= |t| && i <= j <= q - p
    ensures t[p..q][i..j] == t[p + i..p + j]
  {
    assert forall k | 0 <= k < j - i :: t[p..q][i..j][k] == t[p..q][i + k] == t[p + i..p + j][k];
  }

  lemma OccursInWhole(pattern: Pattern, t: string, p: nat, q: nat)
    requires IsMonotone(pattern) && p <= q <= |t| && CutsNoWord(t, p) && CutsNoWord(t, q) && Occurs(pattern, t[p..q])
    ensures Occurs(pattern, t)
  {
    var part := t[p..q];
    var i: nat, j: nat :| i <= j <= |part| && OccursAt(pattern, part, i, j);
    PartOfPart(t, p, q, i, j);
    if Boundary(part, i) { BoundaryOfPart(t, p, q, i); }
    if Boundary(part, j) { BoundaryOfPart(t, p, q, j); }
    assert OccursAt(pattern, t, p + i, p + j);
  }

  /** If a part that cuts no word looks like a secret, so does the whole: no file that the loader
      lets in has such a part. */
  lemma SecretPartShows(t: string, p: nat, q: nat)
    requires p <= q <= |t| && CutsNoWord(t, p) && CutsNoWord(t, q) && LooksSecret(t[p..q])
    ensures LooksSecret(t)
  {
    OccursInWhole(SecretText(), t, p, q);
  }

  lemma KeywordLetter(x: string)
    requires IsKeyword(x)
    ensures |x| >= 6 && Folded(x[0]) in "arcps"
  {
  }

  lemma HeaderIsLong(x: string)
    requires IsKeyHeader(x)
    ensures |x| > 20
  {
  }

  lemma MatchIsLong(x: string, before: bool, after: bool)
    requires IsSecret(x, before, after)
    ensures |x| >= 17
    ensures |x| <= 20 ==> before && Folded(x[0]) in "arcps"
  {
    if IsKeyHeader(x) {
      HeaderIsLong(x);
    } else if IsAccessKey(x) {
      assert Folded(x[..4][0]) == 'a';
    } else {
      var k: nat, s: nat, o: nat :| k <= s < o < |x| && AssignsAt(x, k, s, o);
      KeywordLetter(x[..k]);
    }
  }

  /** Cut inside a word, a part can look like a secret though the whole does not. */
  lemma CutWordHidesSecret()
    ensures !LooksSecret("xpassword='12345678'") && LooksSecret("xpassword='12345678'"[1..])
  {
    NoMatchIn("xpassword='12345678'");
    var part := "password='12345678'";
    assert part == "xpassword='12345678'"[1..];
    IsAssignment(part, 8, 8, 9);
    WholeMatches(part);
  }

  lemma NoMatchIn(t: string)
    requires t == "xpassword='12345678'"
    ensures !LooksSecret(t)
  {
    forall i: nat, j: nat | i <= j <= |t| ensures !OccursAt(SecretText(), t, i, j) {
      if IsSecret(t[i..j], Boundary(t, i), Boundary(t, j)) {
        MatchIsLong(t[i..j], Boundary(t, i), Boundary(t, j));
        NoMatchStarts(t, i);
      }
    }
  }

  lemma IsAssignment(x: string, k: nat, s: nat, o: nat)
    requires x == "password='12345678'" && k == 8 && s == 8 && o == 9
    ensures AssignsAt(x, k, s, o)
  {
    assert x[..8] == "password" && x[8..8] == "" && x[9..9] == "";
  }

  lemma WholeMatches(x: string)
    requires Assigns(x) && Boundary(x, 0)
    ensures LooksSecret(x)
  {
    assert x[0..|x|] == x && IsSecret(x, Boundary(x, 0), Boundary(x, |x|));
    assert OccursAt(SecretText(), x, 0, |x|);
  }

  lemma NoMatchStarts(t: string, i: nat)
    requires t == "xpassword='12345678'" && i <= 3 && Boundary(t, i)
    ensures Folded(t[i]) !in "arcps"
  {
  }

  /** No text that matches is shorter than `secret` and an assignment of eight characters. */
  lemma ShortIsNoSecret(t: string)
    requires |t| < 17
    ensures !LooksSecret(t)
  {
    forall i: nat, j: nat | i <= j <= |t| ensures !OccursAt(SecretText(), t, i, j) {
      if OccursAt(SecretText(), t, i, j) { MatchIsLong(t[i..j], Boundary(t, i), Boundary(t, j)); }
    }
  }
}
