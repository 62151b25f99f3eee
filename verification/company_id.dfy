/** The company identifier search of `scrape_screener_data`: the first `style` element
    whose text matches `data-row-company-id="(\d+)"` supplies the digits. */
module CompanyId {
  import opened Wrappers
  import opened Text

  const Prefix: string := "data-row-company-id=\""

  /** The regular expression matches `s` at position `i` with group `d`: the prefix,
      one or more digits, then a closing quote. */
  predicate MatchAt(s: string, i: nat, d: string) {
    && |d| > 0
    && AllDigits(d)
    && i + |Prefix| + |d| < |s|
    && s[i..i + |Prefix|] == Prefix
    && s[i + |Prefix|..i + |Prefix| + |d|] == d
    && s[i + |Prefix| + |d|] == '"'
  }

  /** Some position of `s` matches. */
  ghost predicate HasMatch(s: string) {
    exists i: nat, d :: MatchAt(s, i, d)
  }

  /** `d` is the group of the leftmost match in `s` (what `re.search(…).group(1)` returns). */
  ghost predicate LeftmostGroup(s: string, d: string) {
    exists i: nat :: MatchAt(s, i, d) && forall k: nat, d' :: k < i ==> !MatchAt(s, k, d')
  }

  /** The longest run of digits starting at position `j` (the greedy `\d+`). */
  function DigitRun(s: string, j: nat): (r: string)
    requires j <= |s|
    ensures j + |r| <= |s| && r == s[j..j + |r|] && AllDigits(r)
    ensures j + |r| == |s| || !IsAsciiDigit(s[j + |r|])
    decreases |s| - j
  {
    if j < |s| && IsAsciiDigit(s[j]) then [s[j]] + DigitRun(s, j + 1) else []
  }

  /** A digit run that is followed by a non-digit is the longest run at its position. */
  lemma {:induction false} DigitRunIsMaximal(s: string, j: nat, d: string)
    requires j + |d| < |s| && s[j..j + |d|] == d && AllDigits(d) && !IsAsciiDigit(s[j + |d|])
    ensures DigitRun(s, j) == d
    decreases |d|
  {
    if d != [] {
      assert s[j] == d[0];
      assert s[j + 1..j + 1 + |d[1..]|] == d[1..];
      DigitRunIsMaximal(s, j + 1, d[1..]);
    }
  }

  /** The scan at one position: the prefix, then the greedy digit run, then a quote. */
  function GroupAt(s: string, i: nat): (r: Option<string>)
    ensures r.Some? ==> MatchAt(s, i, r.value)
    ensures r.None? ==> forall d :: !MatchAt(s, i, d)
  {
    if !OccursAt(s, Prefix, i) then None
    else
      var j := i + |Prefix|;
      var d := DigitRun(s, j);
      forall d' | MatchAt(s, i, d') ensures d' == d {
        DigitRunIsMaximal(s, j, d');
      }
      if |d| > 0 && j + |d| < |s| && s[j + |d|] == '"' then Some(d) else None
  }

  /** `re.search` from position `i` on. */
  function SearchFrom(s: string, i: nat): (r: Option<string>)
    ensures r.Some? ==> exists j: nat :: i <= j && MatchAt(s, j, r.value) &&
                                        forall k: nat, d :: i <= k < j ==> !MatchAt(s, k, d)
    ensures r.None? <==> forall j: nat, d :: i <= j ==> !MatchAt(s, j, d)
    decreases |s| - i
  {
    if i >= |s| then None
    else
      match GroupAt(s, i)
      case Some(d) => Some(d)
      case None =>
        var r := SearchFrom(s, i + 1);
        assert forall j: nat, d :: i <= j && MatchAt(s, j, d) ==> i + 1 <= j;
        r
  }

  /** The id found in one style text. */
  function Search(s: string): (r: Option<string>)
    ensures r.None? <==> !HasMatch(s)
    ensures r.Some? ==> LeftmostGroup(s, r.value) && |r.value| > 0 && AllDigits(r.value)
  {
    SearchFrom(s, 0)
  }

  /** The loop over the `style` elements: the first one with a match wins. */
  function FindCompanyId(styles: seq<string>): (r: Option<string>)
    ensures r.None? <==> forall k :: 0 <= k < |styles| ==> !HasMatch(styles[k])
    ensures r.Some? ==> exists k :: 0 <= k < |styles| && LeftmostGroup(styles[k], r.value) &&
                                    forall k' :: 0 <= k' < k ==> !HasMatch(styles[k'])
    ensures r.Some? ==> |r.value| > 0 && AllDigits(r.value)
  {
    if styles == [] then None
    else
      match Search(styles[0])
      case Some(d) => Some(d)
      case None =>
        var r := FindCompanyId(styles[1..]);
        assert forall k :: 1 <= k < |styles| ==> styles[k] == styles[1..][k - 1];
        r
  }

  /** The `company_id` entry: the digits, or `"N/A"` when nothing matched. */
  function CompanyIdText(id: Option<string>): string {
    id.GetOr("N/A")
  }
}
