/** ASCII string helpers: case folding, trimming, provider slugs and decimal numbers. */
module Text {
  function LowerChar(ch: char): char {
    if 'A' <= ch <= 'Z' then (ch as int + 32) as char else ch
  }

  function Lower(s: string): string {
    seq(|s|, i requires 0 <= i < |s| => LowerChar(s[i]))
  }

  predicate EqualFold(a: string, b: string) {
    Lower(a) == Lower(b)
  }

  predicate IsSpace(ch: char) {
    ch == ' ' || ch == '\t' || ch == '\n' || ch == '\r'
  }

  function TrimLeft(s: string): string {
    if s != "" && IsSpace(s[0]) then TrimLeft(s[1..]) else s
  }

  function TrimRight(s: string): string {
    if s != "" && IsSpace(s[|s| - 1]) then TrimRight(s[..|s| - 1]) else s
  }

  function TrimSpace(s: string): string {
    TrimRight(TrimLeft(s))
  }

  predicate IsDigit(ch: char) {
    '0' <= ch <= '9'
  }

  predicate IsSlugChar(ch: char) {
    'a' <= ch <= 'z' || IsDigit(ch)
  }

  /** Every maximal run of characters outside [a-z0-9] becomes one "-". */
  function DashRuns(s: string, afterDash: bool): string {
    if s == "" then ""
    else if IsSlugChar(s[0]) then [s[0]] + DashRuns(s[1..], false)
    else if afterDash then DashRuns(s[1..], true)
    else "-" + DashRuns(s[1..], true)
  }

  function TrimDashes(s: string): string {
    if s == "" then ""
    else if s[0] == '-' then TrimDashes(s[1..])
    else if s[|s| - 1] == '-' then TrimDashes(s[..|s| - 1])
    else s
  }

  const PROVIDER_PREFIX := "provider-"

  /** The provider_id of a username: "provider-" and its slug. */
  function ProviderIdForUsername(username: string): (id: string)
    ensures PROVIDER_PREFIX <= id
  {
    var lowered := if username == "" then "unknown" else Lower(username);
    PROVIDER_PREFIX + TrimDashes(DashRuns(lowered, false))
  }

  /** Lower-case letters, digits and single dashes between them. */
  predicate IsSlug(s: string) {
    && IsDashed(s)
    && (s != "" ==> s[0] != '-' && s[|s| - 1] != '-')
  }

  predicate IsDashed(s: string) {
    && (forall k :: 0 <= k < |s| ==> IsSlugChar(s[k]) || s[k] == '-')
    && (forall k :: 0 < k < |s| ==> s[k - 1] != '-' || s[k] != '-')
  }

  lemma {:induction false} DashRunsDashed(s: string, afterDash: bool)
    ensures IsDashed(DashRuns(s, afterDash))
    ensures afterDash && DashRuns(s, afterDash) != "" ==> DashRuns(s, afterDash)[0] != '-'
  {
    if s != "" {
      DashRunsDashed(s[1..], !IsSlugChar(s[0]));
    }
  }

  lemma {:induction false} DashRunsKeeps(s: string, afterDash: bool)
    requires IsDashed(s) && (afterDash && s != "" ==> s[0] != '-')
    ensures DashRuns(s, afterDash) == s
  {
    if s != "" {
      assert forall k :: 0 <= k < |s| - 1 ==> s[1..][k] == s[k + 1];
      assert IsDashed(s[1..]);
      DashRunsKeeps(s[1..], !IsSlugChar(s[0]));
    }
  }

  lemma {:induction false} TrimmedIsSlug(s: string)
    requires IsDashed(s)
    ensures IsSlug(TrimDashes(s))
  {
    if s != "" && s[0] == '-' {
      assert forall k :: 0 <= k < |s| - 1 ==> s[1..][k] == s[k + 1];
      assert IsDashed(s[1..]);
      TrimmedIsSlug(s[1..]);
    } else if s != "" && s[|s| - 1] == '-' {
      TrimmedIsSlug(s[..|s| - 1]);
    }
  }

  lemma {:induction false} SlugOfSlug(slug: string)
    requires IsSlug(slug) && slug != ""
    ensures ProviderIdForUsername(slug) == PROVIDER_PREFIX + slug
  {
    assert Lower(slug) == slug;
    DashRunsKeeps(slug, false);
  }

  /** The provider_ids somebody signs under are the prefix with any slug, the empty one included. */
  lemma SignerIdsExactly(id: string)
    ensures (exists name :: ProviderIdForUsername(name) == id) <==>
      PROVIDER_PREFIX <= id && IsSlug(id[|PROVIDER_PREFIX|..])
  {
    if name :| ProviderIdForUsername(name) == id {
      var lowered := if name == "" then "unknown" else Lower(name);
      DashRunsDashed(lowered, false);
      TrimmedIsSlug(DashRuns(lowered, false));
      assert id[|PROVIDER_PREFIX|..] == TrimDashes(DashRuns(lowered, false));
    }
    if PROVIDER_PREFIX <= id && IsSlug(id[|PROVIDER_PREFIX|..]) {
      var slug := id[|PROVIDER_PREFIX|..];
      assert id == PROVIDER_PREFIX + slug;
      if slug == "" {
        assert Lower("-") == "-" && DashRuns("-", false) == "-" + DashRuns("", true) == "-";
        assert TrimDashes("-") == "";
        assert ProviderIdForUsername("-") == id;
      } else {
        SlugOfSlug(slug);
      }
    }
  }

  // ---- decimal numbers

  predicate AllDigits(s: string) {
    forall k :: 0 <= k < |s| ==> IsDigit(s[k])
  }

  function DigitChar(d: nat): (ch: char)
    requires d < 10
    ensures IsDigit(ch)
  {
    ('0' as int + d) as char
  }

  /** n printed with %d. */
  function Decimal(n: nat): (s: string)
    ensures |s| > 0 && AllDigits(s)
  {
    if n < 10 then [DigitChar(n)] else Decimal(n / 10) + [DigitChar(n % 10)]
  }

  function DecimalValue(s: string): nat
    requires AllDigits(s)
  {
    if s == "" then 0
    else DecimalValue(s[..|s| - 1]) * 10 + (s[|s| - 1] as int - '0' as int)
  }

  lemma {:induction false} DecimalRoundTrip(n: nat)
    ensures DecimalValue(Decimal(n)) == n
  {
    if n >= 10 {
      DecimalRoundTrip(n / 10);
      assert Decimal(n)[..|Decimal(n)| - 1] == Decimal(n / 10);
    } else {
      assert Decimal(n)[..0] == "";
    }
  }
}
