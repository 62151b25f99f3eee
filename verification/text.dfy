/** String operations the scraper applies to text that BeautifulSoup has already
    extracted: prefix tests, `str.lstrip`/`str.rstrip` with one character, the
    space-joining of `get_text(" ", strip=True)`, and substring search. */
module Text {

  predicate StartsWith(s: string, prefix: string) {
    |prefix| <= |s| && s[..|prefix|] == prefix
  }

  /** `s.lstrip(c)`: removes every leading occurrence of `c`. */
  function LStrip(s: string, c: char): (r: string)
    ensures |r| <= |s| && r == s[|s| - |r|..]
    ensures r == [] || r[0] != c
    ensures forall i :: 0 <= i < |s| - |r| ==> s[i] == c
  {
    if s != [] && s[0] == c then LStrip(s[1..], c) else s
  }

  /** `s.rstrip(c)`: removes every trailing occurrence of `c`. */
  function RStrip(s: string, c: char): (r: string)
    ensures |r| <= |s| && r == s[..|r|]
    ensures r == [] || r[|r| - 1] != c
    ensures forall i :: |r| <= i < |s| ==> s[i] == c
  {
    if s != [] && s[|s| - 1] == c then RStrip(s[..|s| - 1], c) else s
  }

  /** No leading or trailing space character. `str.strip()` removes every kind of
      whitespace; only the space that the joining inserts is tracked here. */
  predicate IsStripped(s: string) {
    s == [] || (s[0] != ' ' && s[|s| - 1] != ' ')
  }

  /** `" ".join(parts)` over the parts that are non-empty. */
  function Join(parts: seq<string>): (r: string)
    ensures r == [] <==> forall i :: 0 <= i < |parts| ==> parts[i] == []
    ensures |parts| == 1 ==> r == parts[0]
  {
    if parts == [] then []
    else if parts[0] == [] then Join(parts[1..])
    else
      var rest := Join(parts[1..]);
      if rest == [] then parts[0] else parts[0] + " " + rest
  }

  /** Joining two runs of fragments: the two joined texts with one space between them,
      or just one of them when the other is empty. So every non-empty fragment appears
      once, in order, separated from its neighbours by exactly one space. */
  lemma {:induction false} JoinAppend(a: seq<string>, b: seq<string>)
    ensures Join(a + b) ==
            if Join(a) == [] then Join(b)
            else if Join(b) == [] then Join(a)
            else Join(a) + " " + Join(b)
  {
    if a == [] {
      assert a + b == b;
    } else {
      assert (a + b)[0] == a[0];
      assert (a + b)[1..] == a[1..] + b;
      JoinAppend(a[1..], b);
      if a[0] != [] && Join(a[1..]) != [] && Join(b) != [] {
        assert a[0] + " " + (Join(a[1..]) + " " + Join(b)) == (a[0] + " " + Join(a[1..])) + " " + Join(b);
      }
    }
  }

  /** What `get_text(" ", strip=True)` promises at the edges: when no fragment starts
      or ends with a space, neither does the joined text. */
  lemma {:induction false} JoinIsStripped(parts: seq<string>)
    requires forall i :: 0 <= i < |parts| ==> IsStripped(parts[i])
    ensures IsStripped(Join(parts))
  {
    if parts != [] {
      JoinIsStripped(parts[1..]);
    }
  }

  /** `sub` occurs in `s` starting at position `i`. */
  predicate OccursAt(s: string, sub: string, i: nat) {
    i + |sub| <= |s| && s[i..i + |sub|] == sub
  }

  /** An occurrence in `s[1..]` is an occurrence in `s` one position later. */
  lemma OccursShifted(s: string, sub: string, i: nat)
    requires s != []
    ensures OccursAt(s, sub, i + 1) <==> OccursAt(s[1..], sub, i)
  {
    if i + 1 + |sub| <= |s| {
      var x, y := s[i + 1..i + 1 + |sub|], s[1..][i..i + |sub|];
      forall k | 0 <= k < |sub| ensures x[k] == y[k] {
        assert y[k] == s[1..][i + k] == s[i + 1 + k];
      }
      assert x == y;
    }
  }

  /** True when `sub` occurs somewhere in `s` (the CSS test `[attr*=sub]`). */
  function Contains(s: string, sub: string): (r: bool)
    ensures r <==> exists i: nat :: OccursAt(s, sub, i)
  {
    if StartsWith(s, sub) then
      assert OccursAt(s, sub, 0);
      true
    else if s == [] then
      false
    else
      var r := Contains(s[1..], sub);
      forall i: nat ensures OccursAt(s, sub, i + 1) <==> OccursAt(s[1..], sub, i) {
        OccursShifted(s, sub, i);
      }
      assert !OccursAt(s, sub, 0);
      assert r ==> exists i: nat :: OccursAt(s, sub, i) by {
        if r {
          var i: nat :| OccursAt(s[1..], sub, i);
          assert OccursAt(s, sub, i + 1);
        }
      }
      assert (exists i: nat :: OccursAt(s, sub, i)) ==> r by {
        if exists i: nat :: OccursAt(s, sub, i) {
          var i: nat :| OccursAt(s, sub, i);
          assert i > 0;
          assert OccursAt(s[1..], sub, i - 1);
        }
      }
      r
  }

  /** Characters matched by the regular-expression class `[a-zA-Z0-9]`. */
  predicate IsAsciiAlnum(c: char) {
    ('a' <= c <= 'z') || ('A' <= c <= 'Z') || ('0' <= c <= '9')
  }

  /** Characters matched by `\d`, restricted to ASCII. */
  predicate IsAsciiDigit(c: char) {
    '0' <= c <= '9'
  }

  predicate AllDigits(s: string) {
    forall i :: 0 <= i < |s| ==> IsAsciiDigit(s[i])
  }
}
