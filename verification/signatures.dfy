/**
 * The signature set: the static list of CDN provider names and the
 * "first provider that occurs in the lower-cased text" search that
 * check_dns and check_http both run over it.
 */
module Signatures {
  import opened Options

  /** The provider names, in the order in which they are tried. */
  const CdnProviders: seq<string> :=
    ["akamai", "imperva", "cloudflare", "fastly", "verizon", "stackpath", "incapsula"]

  // ---------------------------------------------------------------------------
  // ASCII lower-casing (`str.lower()` restricted to ASCII)
  // ---------------------------------------------------------------------------

  predicate IsUpper(c: char) {
    'A' <= c <= 'Z'
  }

  function LowerChar(c: char): char {
    if IsUpper(c) then (c as int + 32) as char else c
  }

  /** Two characters that are the same letter up to ASCII case. */
  predicate SameIgnoringCase(a: char, b: char) {
    LowerChar(a) == LowerChar(b)
  }

  function Lower(s: string): (r: string)
    ensures |r| == |s|
    ensures forall i :: 0 <= i < |r| ==> !IsUpper(r[i]) && SameIgnoringCase(r[i], s[i])
  {
    seq(|s|, i requires 0 <= i < |s| => LowerChar(s[i]))
  }

  /** Lower-casing commutes with taking a slice. */
  lemma LowerSlice(s: string, i: nat, j: nat)
    requires i <= j <= |s|
    ensures Lower(s)[i..j] == Lower(s[i..j])
  {
  }

  /** Every provider name is already lower case. */
  lemma ProvidersAreLower()
    ensures forall p :: p in CdnProviders ==> Lower(p) == p
  {
  }

  // ---------------------------------------------------------------------------
  // Python's `pattern in text` for strings
  // ---------------------------------------------------------------------------

  /** `pat` sits in `text` starting at position `i`. */
  ghost predicate OccursAt(text: string, pat: string, i: int) {
    0 <= i && i + |pat| <= |text| && text[i..i + |pat|] == pat
  }

  /** `pat in text`: true exactly when `pat` occurs at some position of `text`. */
  function Contains(text: string, pat: string): (b: bool)
    ensures b <==> exists i :: OccursAt(text, pat, i)
    decreases |text|
  {
    if |pat| > |text| then
      assert forall i :: !OccursAt(text, pat, i);
      false
    else if text[..|pat|] == pat then
      assert OccursAt(text, pat, 0);
      true
    else
      var rest := Contains(text[1..], pat);
      OccursInTail(text, pat);
      rest
  }

  /** When `pat` does not start `text`, it occurs in `text` iff it occurs in the tail. */
  lemma OccursInTail(text: string, pat: string)
    requires |text| > 0 && !OccursAt(text, pat, 0)
    ensures (exists i :: OccursAt(text[1..], pat, i)) <==> (exists i :: OccursAt(text, pat, i))
  {
    if exists i :: OccursAt(text[1..], pat, i) {
      var i :| OccursAt(text[1..], pat, i);
      assert text[1..][i..i + |pat|] == text[i + 1..i + 1 + |pat|];
      assert OccursAt(text, pat, i + 1);
    }
    if exists i :: OccursAt(text, pat, i) {
      var i :| OccursAt(text, pat, i);
      assert text[1..][i - 1..i - 1 + |pat|] == text[i..i + |pat|];
      assert OccursAt(text[1..], pat, i - 1);
    }
  }

  /** `pat` sits in `text` at position `i` when case is ignored on both sides. */
  ghost predicate OccursAtIgnoringCase(text: string, pat: string, i: int) {
    0 <= i && i + |pat| <= |text| && Lower(text[i..i + |pat|]) == Lower(pat)
  }

  /** `pat` occurs in `text` when case is ignored on both sides. */
  ghost predicate OccursIgnoringCase(text: string, pat: string) {
    exists i :: OccursAtIgnoringCase(text, pat, i)
  }

  /** For a lower-case pattern, searching the lower-cased text is a case-insensitive search. */
  lemma {:induction false} ContainsLowerIffIgnoringCase(text: string, pat: string)
    requires Lower(pat) == pat
    ensures Contains(Lower(text), pat) <==> OccursIgnoringCase(text, pat)
  {
    if Contains(Lower(text), pat) {
      var i :| OccursAt(Lower(text), pat, i);
      LowerSlice(text, i, i + |pat|);
      assert OccursAtIgnoringCase(text, pat, i);
    }
    if OccursIgnoringCase(text, pat) {
      var i :| OccursAtIgnoringCase(text, pat, i);
      LowerSlice(text, i, i + |pat|);
      assert OccursAt(Lower(text), pat, i);
    }
  }

  // ---------------------------------------------------------------------------
  // The provider scan
  // ---------------------------------------------------------------------------

  /** Some text of `texts` contains `p`. */
  predicate AnyContains(texts: seq<string>, p: string) {
    exists t :: t in texts && Contains(t, p)
  }

  /**
   * The index of the first provider, at `from` or later, that some text
   * contains: the `for provider in CDN_PROVIDERS: if ...: return` loop.
   */
  function FirstHit(providers: seq<string>, texts: seq<string>, from: nat): (r: Option<nat>)
    requires from <= |providers|
    ensures r.Some? ==> from <= r.value < |providers| && AnyContains(texts, providers[r.value])
    ensures r.Some? ==> forall j :: from <= j < r.value ==> !AnyContains(texts, providers[j])
    ensures r.None? ==> forall j :: from <= j < |providers| ==> !AnyContains(texts, providers[j])
    decreases |providers| - from
  {
    if from == |providers| then None
    else if AnyContains(texts, providers[from]) then Some(from)
    else FirstHit(providers, texts, from + 1)
  }

  // ---------------------------------------------------------------------------
  // The reference reading of the rule, and the first-match functions proved against it
  // ---------------------------------------------------------------------------

  /** Provider number `k` occurs, ignoring case, in one of the texts. */
  ghost predicate Hit(texts: seq<string>, k: nat)
    requires k < |CdnProviders|
  {
    exists t :: t in texts && OccursIgnoringCase(t, CdnProviders[k])
  }

  /** No provider occurs, ignoring case, in `text`. */
  ghost predicate SignatureFree(text: string) {
    forall k :: 0 <= k < |CdnProviders| ==> !Hit([text], k)
  }

  lemma ProvidersDistinct()
    ensures forall j, k :: 0 <= j < k < |CdnProviders| ==> CdnProviders[j] != CdnProviders[k]
  {
  }

  /**
   * The search over lower-cased texts finds provider k exactly when provider k
   * occurs in a text ignoring case.
   */
  lemma {:induction false} AnyContainsLowered(texts: seq<string>, k: nat)
    requires k < |CdnProviders|
    ensures AnyContains(Lowered(texts), CdnProviders[k]) <==> Hit(texts, k)
  {
    var lowered := Lowered(texts);
    var p := CdnProviders[k];
    ProvidersAreLower();
    if AnyContains(lowered, p) {
      var t :| t in lowered && Contains(t, p);
      var i :| 0 <= i < |texts| && lowered[i] == t;
      ContainsLowerIffIgnoringCase(texts[i], p);
      assert texts[i] in texts;
    }
    if Hit(texts, k) {
      var t :| t in texts && OccursIgnoringCase(t, p);
      var i :| 0 <= i < |texts| && texts[i] == t;
      ContainsLowerIffIgnoringCase(texts[i], p);
      assert lowered[i] in lowered;
    }
  }

  /** The search over the lower-cased texts finds exactly the providers that occur ignoring case. */
  lemma LoweredHits(texts: seq<string>)
    ensures forall k :: 0 <= k < |CdnProviders| ==>
      (AnyContains(Lowered(texts), CdnProviders[k]) <==> Hit(texts, k))
  {
    forall k | 0 <= k < |CdnProviders|
      ensures AnyContains(Lowered(texts), CdnProviders[k]) <==> Hit(texts, k)
    {
      AnyContainsLowered(texts, k);
    }
  }

  /** The texts, each lower-cased. */
  function Lowered(texts: seq<string>): seq<string> {
    seq(|texts|, i requires 0 <= i < |texts| => Lower(texts[i]))
  }

  /**
   * The first provider that occurs in one of the lower-cased texts. Nothing is
   * reported exactly when no provider occurs, ignoring case, in any text;
   * provider k is reported exactly when it occurs and no earlier one does.
   */
  function FirstProviderIn(texts: seq<string>): (r: Option<string>)
    ensures r.None? <==> forall k :: 0 <= k < |CdnProviders| ==> !Hit(texts, k)
    ensures forall k :: 0 <= k < |CdnProviders| ==>
      (r == Some(CdnProviders[k]) <==> Hit(texts, k) && forall j :: 0 <= j < k ==> !Hit(texts, j))
  {
    LoweredHits(texts);
    ProvidersDistinct();
    match FirstHit(CdnProviders, Lowered(texts), 0)
    case Some(k) => Some(CdnProviders[k])
    case None => None
  }

  /** The provider reported for one tool output: the check of check_dns. */
  function FirstMatch(text: string): (r: Option<string>)
    ensures r.None? <==> SignatureFree(text)
    ensures forall k :: 0 <= k < |CdnProviders| ==>
      (r == Some(CdnProviders[k]) <==> Hit([text], k) && forall j :: 0 <= j < k ==> !Hit([text], j))
  {
    FirstProviderIn([text])
  }

  /** A provider occurs in one of two texts iff it occurs in the first or in the second. */
  lemma HitPair(a: string, b: string)
    ensures forall k :: 0 <= k < |CdnProviders| ==> (Hit([a, b], k) <==> Hit([a], k) || Hit([b], k))
  {
  }

  /**
   * The provider reported for the `server` and `x-cdn` values, both tried for
   * each provider in turn: the check of check_http. The pair is clear exactly
   * when each value is clear on its own.
   */
  function FirstMatchEither(a: string, b: string): (r: Option<string>)
    ensures r.None? <==> SignatureFree(a) && SignatureFree(b)
    ensures forall k :: 0 <= k < |CdnProviders| ==>
      (r == Some(CdnProviders[k]) <==> Hit([a, b], k) && forall j :: 0 <= j < k ==> !Hit([a, b], j))
  {
    HitPair(a, b);
    FirstProviderIn([a, b])
  }

  /** Case does not matter: texts equal up to case report the same provider. */
  lemma {:induction false} FirstMatchIgnoresCase(s: string, t: string)
    requires |s| == |t|
    requires forall i :: 0 <= i < |s| ==> SameIgnoringCase(s[i], t[i])
    ensures FirstMatch(s) == FirstMatch(t)
  {
    assert Lower(s) == Lower(t);
    assert Lowered([s]) == [Lower(s)] == [Lower(t)] == Lowered([t]);
  }
}
