/** The per-cell cleaning rule `clean_value`: scrub every character outside
    `\d`, `.`, `\w`, `\s`, delete every upper-case `B`, strip surrounding
    whitespace, and turn an empty result into the missing marker. */
module Cleaning {
  import opened Wrappers
  import opened Sequences
  import opened CharClasses

  /** A cell value: a string, or the missing marker. */
  type Cell = Option<string>

  /** No whitespace at either end. */
  predicate NoOuterSpace(s: string) {
    |s| == 0 || (!IsSpace(s[0]) && !IsSpace(s[|s| - 1]))
  }

  /** The shape of every value the rule produces: only kept characters
      and no surrounding whitespace. */
  predicate IsCleanText(s: string) {
    (forall i :: 0 <= i < |s| ==> IsKept(s[i])) && NoOuterSpace(s)
  }

  /** Nothing of `s` survives cleaning: every character is scrubbed,
      is a `B`, or is whitespace. */
  predicate IsBlank(s: string) {
    forall i :: 0 <= i < |s| ==> !IsKept(s[i]) || IsSpace(s[i])
  }

  /** Deletes every character matched by the pattern `[^\d\.\w\s]`. */
  function Scrub(s: string): (r: string)
  {
    Filter(IsAllowed, s)
  }

  /** Deletes every upper-case `B`. */
  function DropB(s: string): (r: string)
  {
    Filter(c => c != 'B', s)
  }

  /** `s.lstrip()` */
  function TrimStart(s: string): (r: string)
    ensures |r| <= |s| && r == s[|s| - |r|..]
    ensures forall k :: 0 <= k < |s| - |r| ==> IsSpace(s[k])
    ensures |r| > 0 ==> !IsSpace(r[0])
    decreases |s|
  {
    if |s| > 0 && IsSpace(s[0]) then TrimStart(s[1..]) else s
  }

  /** `s.rstrip()` */
  function TrimEnd(s: string): (r: string)
    ensures |r| <= |s| && r == s[..|r|]
    ensures forall k :: |r| <= k < |s| ==> IsSpace(s[k])
    ensures |r| > 0 ==> !IsSpace(r[|r| - 1])
    decreases |s|
  {
    if |s| > 0 && IsSpace(s[|s| - 1]) then TrimEnd(s[..|s| - 1]) else s
  }

  /** A suffix `t` of `s` that drops only whitespace, cut down to a prefix
      `r` of `t` that drops only whitespace, is a contiguous slice of `s`
      whose removed ends are all whitespace. */
  lemma {:induction false} TrimmedIsSlice(s: string, t: string, r: string)
    requires |t| <= |s| && t == s[|s| - |t|..]
    requires forall k :: 0 <= k < |s| - |t| ==> IsSpace(s[k])
    requires |r| <= |t| && r == t[..|r|]
    requires forall k :: |r| <= k < |t| ==> IsSpace(t[k])
    ensures exists i, j ::
              && 0 <= i <= j <= |s| && r == s[i..j]
              && (forall k :: 0 <= k < i ==> IsSpace(s[k]))
              && (forall k :: j <= k < |s| ==> IsSpace(s[k]))
  {
    var i := |s| - |t|;
    var j := i + |r|;
    assert r == s[i..j];
    forall k | j <= k < |s|
      ensures IsSpace(s[k])
    {
      assert s[k] == t[k - i];
    }
    assert forall k :: 0 <= k < i ==> IsSpace(s[k]);
  }

  /** `s.strip()`: the result is a contiguous slice of `s` whose removed
      ends are all whitespace and which itself has no whitespace at either
      end; it is empty exactly when `s` is all whitespace. */
  function Strip(s: string): (r: string)
    ensures NoOuterSpace(r)
    ensures exists i, j ::
              && 0 <= i <= j <= |s| && r == s[i..j]
              && (forall k :: 0 <= k < i ==> IsSpace(s[k]))
              && (forall k :: j <= k < |s| ==> IsSpace(s[k]))
    ensures |r| == 0 <==> forall k :: 0 <= k < |s| ==> IsSpace(s[k])
    ensures NoOuterSpace(s) ==> r == s
  {
    TrimmedIsSlice(s, TrimStart(s), TrimEnd(TrimStart(s)));
    TrimEnd(TrimStart(s))
  }

  lemma StripIsSubsequence(s: string)
    ensures IsSubsequence(Strip(s), s)
  {
    var i, j :| 0 <= i <= j <= |s| && Strip(s) == s[i..j];
    SliceIsSubsequence(s, i, j);
  }

  /** The text part of the rule: scrub, drop `B`, strip. */
  function CleanText(s: string): (r: string)
  {
    Strip(DropB(Scrub(s)))
  }

  /** Scrubbing and then dropping `B` keeps exactly the kept characters. */
  lemma ScrubThenDropB(s: string)
    ensures DropB(Scrub(s)) == Filter(IsKept, s)
  {
    FilterFusion(IsAllowed, c => c != 'B', IsKept, s);
  }

  /** Stripping keeps only characters of its input. */
  lemma StripKeepsCharacters(f: string)
    ensures forall k :: 0 <= k < |Strip(f)| ==> Strip(f)[k] in f
  {
    var t := Strip(f);
    var i, j :| 0 <= i <= j <= |f| && t == f[i..j];
    forall k | 0 <= k < |t| ensures t[k] in f {
      assert t[k] == f[i + k];
    }
  }

  /** The text part always has the cleaned shape, and it is empty exactly
      when nothing of the input survives. */
  lemma CleanTextShape(s: string)
    ensures IsCleanText(CleanText(s))
    ensures |CleanText(s)| == 0 <==> IsBlank(s)
  {
    ScrubThenDropB(s);
    var f := Filter(IsKept, s);
    var t := Strip(f);
    assert CleanText(s) == t;
    StripKeepsCharacters(f);
    FilterMembership(IsKept, s);
    if IsBlank(s) {
      forall k | 0 <= k < |f| ensures IsSpace(f[k]) {
        assert f[k] in s;
      }
    } else {
      var i :| 0 <= i < |s| && IsKept(s[i]) && !IsSpace(s[i]);
      assert s[i] in f;
    }
  }

  /** `clean_value(val)` for a cell that pandas holds as `None` or a string. */
  function CleanValue(v: Cell): (r: Cell)
    ensures v.None? ==> r.None?
    ensures r.Some? ==> |r.value| > 0 && IsCleanText(r.value)
    ensures v.Some? ==> (r.None? <==> IsBlank(v.value))
  {
    match v
    case None => None
    case Some(s) =>
      var t := CleanText(s);
      CleanTextShape(s);
      if |t| == 0 then None else Some(t)
  }

  /** Cleaning only deletes characters: a present result is a
      subsequence of the input. */
  lemma CleanValueDeletesOnly(s: string)
    ensures CleanValue(Some(s)).Some? ==> IsSubsequence(CleanValue(Some(s)).value, s)
  {
    ScrubThenDropB(s);
    var f := Filter(IsKept, s);
    FilterIsSubsequence(IsKept, s);
    StripIsSubsequence(f);
    SubsequenceTransitive(Strip(f), f, s);
  }

  /** A present value is left unchanged by the rule exactly when it already
      has the shape of a cleaned value. */
  lemma {:induction false} CleanValueFixpoint(s: string)
    ensures CleanValue(Some(s)) == Some(s) <==> |s| > 0 && IsCleanText(s)
  {
    if |s| > 0 && IsCleanText(s) {
      ScrubThenDropB(s);
      FilterSatisfies(IsKept, s);
      assert Strip(s) == s;
    }
  }

  /** Cleaning twice is cleaning once. */
  lemma CleanValueIdempotent(v: Cell)
    ensures CleanValue(CleanValue(v)) == CleanValue(v)
  {
    if CleanValue(v).Some? {
      CleanValueFixpoint(CleanValue(v).value);
    }
  }

  /** The rule only looks at the kept characters: inputs with the same kept
      characters in the same order clean to the same value. */
  lemma CleanValueSeesOnlyKept(s: string, t: string)
    requires Filter(IsKept, s) == Filter(IsKept, t)
    ensures CleanValue(Some(s)) == CleanValue(Some(t))
  {
    ScrubThenDropB(s);
    ScrubThenDropB(t);
  }

  /** Inserting a scrubbed character or a capital `B` anywhere in a cell
      does not change what it cleans to. */
  lemma IgnoresUnkeptCharacter(a: string, c: char, b: string)
    requires !IsKept(c)
    ensures CleanValue(Some(a + [c] + b)) == CleanValue(Some(a + b))
  {
    FilterAppend(IsKept, a + [c], b);
    FilterAppend(IsKept, a, [c]);
    FilterAppend(IsKept, a, b);
    assert Filter(IsKept, [c]) == [];
    CleanValueSeesOnlyKept(a + [c] + b, a + b);
  }

  /** Every upper-case `B` is deleted wherever it stands, so `Billboard`
      cleans like `illboard`. */
  lemma CapitalBIsRemoved(a: string, b: string)
    ensures CleanValue(Some(a + "B" + b)) == CleanValue(Some(a + b))
  {
    IgnoresUnkeptCharacter(a, 'B', b);
  }

  /** A run of digits and periods. */
  predicate IsNumeral(s: string) {
    |s| > 0 && forall i :: 0 <= i < |s| ==> IsDigit(s[i]) || s[i] == '.'
  }

  /** A numeral is already clean, and numerals concatenate to numerals. */
  lemma NumeralIsClean(n: string, d: string)
    requires IsNumeral(n) && IsNumeral(d)
    ensures IsNumeral(n + d) && IsCleanText(n + d)
  {
    forall i | 0 <= i < |n + d| ensures IsDigit((n + d)[i]) || (n + d)[i] == '.' {
      if i < |n| {
        assert (n + d)[i] == n[i];
      } else {
        assert (n + d)[i] == d[i - |n|];
      }
    }
  }

  /** Filtering by `IsKept` removes a piece with no kept character and
      keeps a numeral whole. */
  lemma NumeralPieces(n: string)
    requires IsNumeral(n)
    ensures Filter(IsKept, "$") == [] && Filter(IsKept, "B[") == [] && Filter(IsKept, "]") == []
    ensures Filter(IsKept, n) == n
  {
    FilterSatisfies(IsKept, n);
  }

  /** The kept characters of `$<n>B[<d>]` are those of `n` then `d`. */
  lemma FootnoteKeptCharacters(n: string, d: string)
    requires IsNumeral(n) && IsNumeral(d)
    ensures Filter(IsKept, "$" + n + "B[" + d + "]") == n + d
  {
    NumeralPieces(n);
    NumeralPieces(d);
    FilterAppend(IsKept, "$", n);
    FilterAppend(IsKept, "$" + n, "B[");
    FilterAppend(IsKept, "$" + n + "B[", d);
    FilterAppend(IsKept, "$" + n + "B[" + d, "]");
  }

  /** A cell written `$<n>B[<d>]` (currency sign, amount, billions suffix,
      footnote marker) cleans to the amount followed by the footnote's
      digits: only the sign, the suffix and the brackets are removed. */
  lemma FootnoteDigitsSurvive(n: string, d: string)
    requires IsNumeral(n) && IsNumeral(d)
    ensures CleanValue(Some("$" + n + "B[" + d + "]")) == Some(n + d)
  {
    var s := "$" + n + "B[" + d + "]";
    FootnoteKeptCharacters(n, d);
    NumeralIsClean(n, d);
    FilterSatisfies(IsKept, n + d);
    CleanValueSeesOnlyKept(s, n + d);
    CleanValueFixpoint(n + d);
  }
}
