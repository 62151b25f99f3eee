/** The output file name of the driver, built from the company name with
    `re.sub(r"[^a-zA-Z0-9]+", "_", name)`. */
module FileName {
  import opened Text

  /** The characters of `s` the substitution never touches, in order. */
  function Alnums(s: string): string {
    if s == [] then []
    else (if IsAsciiAlnum(s[0]) then [s[0]] else []) + Alnums(s[1..])
  }

  lemma {:induction false} AlnumsAppend(a: string, b: string)
    ensures Alnums(a + b) == Alnums(a) + Alnums(b)
  {
    if a != [] {
      assert (a + b)[0] == a[0];
      assert (a + b)[1..] == a[1..] + b;
      AlnumsAppend(a[1..], b);
    } else {
      assert a + b == b;
    }
  }

  /** Some character of `s` is in `[a-zA-Z0-9]`. */
  predicate HasAlnum(s: string) {
    exists i :: 0 <= i < |s| && IsAsciiAlnum(s[i])
  }

  /** The characters of a sanitised name. */
  predicate IsSafeChar(c: char) {
    IsAsciiAlnum(c) || c == '_'
  }

  /** Only `[A-Za-z0-9_]`, and never two `_` in a row. */
  predicate IsSafe(s: string) {
    && (forall i :: 0 <= i < |s| ==> IsSafeChar(s[i]))
    && (forall i :: 0 <= i < |s| - 1 ==> s[i] == '_' ==> s[i + 1] != '_')
  }

  /** What the substitution writes for one character `c` in state `inRun`. */
  function Out(c: char, inRun: bool): string {
    if IsAsciiAlnum(c) then [c] else if inRun then [] else "_"
  }

  /** The substitution read left to right: an alphanumeric is copied, and a character
      outside `[a-zA-Z0-9]` writes `_` when it starts a run and nothing when `inRun`
      says the previous character already did. `Sanitize` states its meaning. */
  function Subst(s: string, inRun: bool): string {
    if s == [] then [] else Out(s[0], inRun) + Subst(s[1..], !IsAsciiAlnum(s[0]))
  }

  /** Whether the substitution is inside a run after reading `a`, having started in
      state `inRun`. */
  function InRunAfter(a: string, inRun: bool): bool {
    if a == [] then inRun else !IsAsciiAlnum(a[|a| - 1])
  }

  /** One step of the substitution on `a + b` and on `a`. */
  lemma SubstStep(a: string, b: string, inRun: bool)
    requires a != []
    ensures Subst(a + b, inRun) == Out(a[0], inRun) + Subst(a[1..] + b, !IsAsciiAlnum(a[0]))
    ensures Subst(a, inRun) == Out(a[0], inRun) + Subst(a[1..], !IsAsciiAlnum(a[0]))
    ensures InRunAfter(a[1..], !IsAsciiAlnum(a[0])) == InRunAfter(a, inRun)
  {
    assert (a + b)[0] == a[0];
    assert (a + b)[1..] == a[1..] + b;
    if a[1..] != [] {
      assert a[1..][|a[1..]| - 1] == a[|a| - 1];
    }
  }

  /** The substitution carries nothing across a cut but the run flag. */
  lemma {:induction false} SubstAppend(a: string, b: string, inRun: bool)
    ensures Subst(a + b, inRun) == Subst(a, inRun) + Subst(b, InRunAfter(a, inRun))
  {
    if a == [] {
      assert a + b == b;
    } else {
      SubstStep(a, b, inRun);
      SubstAppend(a[1..], b, !IsAsciiAlnum(a[0]));
      ConcatAssoc(Out(a[0], inRun), Subst(a[1..], !IsAsciiAlnum(a[0])), Subst(b, InRunAfter(a, inRun)));
    }
  }

  lemma ConcatAssoc(x: string, y: string, z: string)
    ensures x + (y + z) == (x + y) + z
  {
  }

  /** The run flag does not matter in front of an alphanumeric. */
  lemma SubstAlnumStart(s: string)
    requires s != [] && IsAsciiAlnum(s[0])
    ensures Subst(s, true) == Subst(s, false)
  {
  }

  /** The substitution keeps every alphanumeric, in order. */
  lemma {:induction false} SubstAlnums(s: string, inRun: bool)
    ensures Alnums(Subst(s, inRun)) == Alnums(s)
  {
    if s != [] {
      var next := !IsAsciiAlnum(s[0]);
      SubstAlnums(s[1..], next);
      AlnumsAppend(Out(s[0], inRun), Subst(s[1..], next));
      assert s == [s[0]] + s[1..];
      AlnumsAppend([s[0]], s[1..]);
    }
  }

  /** Putting one character in front of a safe text keeps it safe, unless both are `_`. */
  lemma SafeCons(c: char, t: string)
    requires IsSafeChar(c) && IsSafe(t)
    requires c == '_' ==> t == [] || t[0] != '_'
    ensures IsSafe([c] + t)
  {
    var r := [c] + t;
    forall i | 0 <= i < |r| ensures IsSafeChar(r[i]) {
      if i > 0 {
        assert r[i] == t[i - 1];
      }
    }
    forall i | 0 <= i < |r| - 1 ensures r[i] == '_' ==> r[i + 1] != '_' {
      if i > 0 {
        assert r[i] == t[i - 1] && r[i + 1] == t[i];
      }
    }
  }

  /** The substitution writes only safe characters and never two `_` in a row; inside a
      run it does not start with `_`. */
  lemma {:induction false} SubstSafe(s: string, inRun: bool)
    ensures IsSafe(Subst(s, inRun))
    ensures inRun && Subst(s, inRun) != [] ==> Subst(s, inRun)[0] != '_'
  {
    if s != [] {
      var next := !IsAsciiAlnum(s[0]);
      SubstSafe(s[1..], next);
      var t := Subst(s[1..], next);
      if IsAsciiAlnum(s[0]) {
        SafeCons(s[0], t);
      } else if !inRun {
        SafeCons('_', t);
      }
    }
  }

  /** Outside a run, the substitution is empty only for the empty name, and starts with
      `_` exactly when the name starts with a character outside `[a-zA-Z0-9]`. */
  lemma SubstStart(s: string)
    ensures Subst(s, false) == [] <==> s == []
    ensures Subst(s, false) != [] ==> (Subst(s, false)[0] == '_' <==> !IsAsciiAlnum(s[0]))
  {
  }

  /** A name without alphanumerics writes one `_` for its single run, and nothing
      inside a run. */
  lemma {:induction false} SubstNoAlnum(s: string, inRun: bool)
    requires !HasAlnum(s)
    ensures Subst(s, inRun) == if s == [] || inRun then [] else "_"
  {
    if s != [] {
      assert !IsAsciiAlnum(s[0]);
      forall i | 0 <= i < |s[1..]| ensures !IsAsciiAlnum(s[1..][i]) {
        assert s[1..][i] == s[i + 1];
      }
      SubstNoAlnum(s[1..], true);
    }
  }

  /** `re.sub(r"[^a-zA-Z0-9]+", "_", s)`: replaces every maximal run of characters
      outside `[a-zA-Z0-9]` by one `_`. */
  function Sanitize(s: string): (r: string)
    ensures IsSafe(r)
    ensures r == [] <==> s == []
    ensures r != [] ==> (r[0] == '_' <==> !IsAsciiAlnum(s[0]))
    ensures |s| == 1 ==> r == if IsAsciiAlnum(s[0]) then s else "_"
    ensures s != [] && !HasAlnum(s) ==> r == "_"
  {
    SubstSafe(s, false);
    SubstStart(s);
    if HasAlnum(s) then Subst(s, false)
    else
      SubstNoAlnum(s, false);
      Subst(s, false)
  }

  /** Sanitising keeps every alphanumeric of the name, in order, and adds none. */
  lemma SanitizeKeepsAlnums(s: string)
    ensures Alnums(Sanitize(s)) == Alnums(s)
  {
    SubstAlnums(s, false);
  }

  /** The substitution works run by run: cutting the name next to an alphanumeric
      cuts no run in two, so each part is sanitised on its own. With the one-character
      case of `Sanitize`, this places every `_` where a run of other characters was. */
  lemma SanitizeAppend(a: string, b: string)
    requires (a != [] && IsAsciiAlnum(a[|a| - 1])) || (b != [] && IsAsciiAlnum(b[0]))
    ensures Sanitize(a + b) == Sanitize(a) + Sanitize(b)
  {
    SubstAppend(a, b, false);
    if InRunAfter(a, false) {
      SubstAlnumStart(b);
    }
  }

  lemma SafeTail(s: string)
    requires s != [] && IsSafe(s)
    ensures IsSafe(s[1..])
  {
    forall i | 0 <= i < |s[1..]| ensures IsSafeChar(s[1..][i]) {
      assert s[1..][i] == s[i + 1];
    }
    forall i | 0 <= i < |s[1..]| - 1 ensures s[1..][i] == '_' ==> s[1..][i + 1] != '_' {
      assert s[1..][i] == s[i + 1] && s[1..][i + 1] == s[i + 2];
    }
  }

  /** A name that is already safe is left as it is. */
  lemma {:induction false} SanitizeKeepsSafe(s: string)
    requires IsSafe(s)
    ensures Sanitize(s) == s
  {
    if s != [] {
      SafeTail(s);
      SanitizeKeepsSafe(s[1..]);
      if !IsAsciiAlnum(s[0]) {
        assert s[0] == '_';
        if s[1..] != [] {
          assert IsSafeChar(s[1]) && s[1] != '_';
          SubstAlnumStart(s[1..]);
        }
        assert s == "_" + s[1..];
      }
    }
  }

  /** Sanitising twice is sanitising once. */
  lemma {:induction false} SanitizeIdempotent(s: string)
    ensures Sanitize(Sanitize(s)) == Sanitize(s)
  {
    SanitizeKeepsSafe(Sanitize(s));
  }

  const FilePrefix: string := "screener_cleaned_data_"
  const FileSuffix: string := "_with_growth_tables.json"

  /** `f"screener_cleaned_data_{safe_company_name}_with_growth_tables.json"`. */
  function OutputFileName(companyName: string): (r: string)
    ensures StartsWith(r, FilePrefix)
    ensures |r| >= |FilePrefix| + |FileSuffix| && r[|r| - |FileSuffix|..] == FileSuffix
    ensures forall i :: |FilePrefix| <= i < |r| - |FileSuffix| ==> IsSafeChar(r[i])
    ensures Alnums(r[|FilePrefix|..|r| - |FileSuffix|]) == Alnums(companyName)
    ensures r[|FilePrefix|..|r| - |FileSuffix|] == Sanitize(companyName)
  {
    var safe := Sanitize(companyName);
    SanitizeKeepsAlnums(companyName);
    var r := FilePrefix + safe + FileSuffix;
    assert r[|FilePrefix|..|r| - |FileSuffix|] == safe;
    r
  }
}
