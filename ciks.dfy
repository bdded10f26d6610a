/**
  Loading the CIK list: every line of the CIK file is trimmed, blank lines
  are dropped and each remaining entry is left-padded with zeros to ten
  characters the way Python's `str.zfill(10)` does. Also the inverse view
  used by the filing URL: a CIK with its leading zeros removed (`lstrip('0')`).
 */
module CikLoader {
  import opened Seqs
  import opened Decimal

  /** Width of a normalised CIK. */
  const CikWidth: nat := 10

  /** Python's `str.isspace` for one character: the characters `str.strip()` removes. */
  predicate IsSpace(c: char) {
    ('\t' <= c <= '\r') || ('\U{1C}' <= c <= ' ') || c == '\U{85}' || c == '\U{A0}'
    || c == '\U{1680}' || ('\U{2000}' <= c <= '\U{200A}') || c == '\U{2028}' || c == '\U{2029}'
    || c == '\U{202F}' || c == '\U{205F}' || c == '\U{3000}'
  }

  /** Number of whitespace characters at the start of `s`. */
  function LeadingSpaces(s: string): (n: nat)
    ensures n <= |s|
    ensures forall k :: 0 <= k < n ==> IsSpace(s[k])
    ensures n < |s| ==> !IsSpace(s[n])
  {
    if |s| == 0 || !IsSpace(s[0]) then 0 else 1 + LeadingSpaces(s[1..])
  }

  /** Number of whitespace characters at the end of `s`. */
  function TrailingSpaces(s: string): (n: nat)
    ensures n <= |s|
    ensures forall k :: |s| - n <= k < |s| ==> IsSpace(s[k])
    ensures n < |s| ==> !IsSpace(s[|s| - 1 - n])
  {
    if |s| == 0 || !IsSpace(s[|s| - 1]) then 0 else 1 + TrailingSpaces(s[..|s| - 1])
  }

  /** `str.strip()`: `s` without its leading and trailing whitespace. */
  function Strip(s: string): (r: string)
    ensures r == [] <==> forall k :: 0 <= k < |s| ==> IsSpace(s[k])
    ensures r != [] ==> !IsSpace(r[0]) && !IsSpace(r[|r| - 1])
    ensures LeadingSpaces(s) + |r| <= |s| && r == s[LeadingSpaces(s)..LeadingSpaces(s) + |r|]
    ensures forall k :: LeadingSpaces(s) + |r| <= k < |s| ==> IsSpace(s[k])
  {
    var i := LeadingSpaces(s);
    if i == |s| then []
    else
      var j := |s| - TrailingSpaces(s);
      assert !IsSpace(s[i]);
      s[i..j]
  }

  predicate IsSign(c: char) {
    c == '+' || c == '-'
  }

  /**
    `str.zfill(width)`: pads with '0' on the left up to `width` characters,
    after a leading sign if there is one; never shortens.
   */
  function ZFill(s: string, width: nat): (r: string)
    ensures |r| == if |s| < width then width else |s|
    ensures |s| >= width ==> r == s
    ensures |s| < width && (s == [] || !IsSign(s[0])) ==>
      r[width - |s|..] == s && forall k :: 0 <= k < width - |s| ==> r[k] == '0'
    ensures |s| < width && s != [] && IsSign(s[0]) ==>
      r[0] == s[0] && r[width - |s| + 1..] == s[1..]
      && forall k :: 1 <= k <= width - |s| ==> r[k] == '0'
  {
    if |s| >= width then s
    else if s != [] && IsSign(s[0]) then [s[0]] + Zeros(width - |s|) + s[1..]
    else Zeros(width - |s|) + s
  }

  predicate NonBlank(t: string) {
    t != []
  }

  /** Every line of the file, trimmed. */
  function Trimmed(lines: seq<string>): (ts: seq<string>)
    ensures |ts| == |lines| && forall k :: 0 <= k < |lines| ==> ts[k] == Strip(lines[k])
  {
    seq(|lines|, k requires 0 <= k < |lines| => Strip(lines[k]))
  }

  /** Positions of the lines that hold a CIK (non-blank once trimmed). */
  function CikLines(lines: seq<string>): seq<nat> {
    KeptIndices(Trimmed(lines), NonBlank)
  }

  /** `load_ciks_from_file` on the lines of a file that could be read. */
  function LoadCiks(lines: seq<string>): seq<string> {
    var kept := Filter(Trimmed(lines), NonBlank);
    seq(|kept|, k requires 0 <= k < |kept| => ZFill(kept[k], CikWidth))
  }

  /**
    One CIK per line that is non-blank after trimming, in file order, with
    duplicates kept: the k-th CIK is the trimmed k-th non-blank line padded
    to ten characters.
   */
  lemma LoadCiksSpec(lines: seq<string>)
    ensures |LoadCiks(lines)| == |CikLines(lines)|
    ensures StrictlyIncreasing(CikLines(lines))
    ensures forall k :: 0 <= k < |CikLines(lines)| ==>
      CikLines(lines)[k] < |lines| && LoadCiks(lines)[k] == ZFill(Strip(lines[CikLines(lines)[k]]), CikWidth)
    ensures forall j :: 0 <= j < |lines| ==>
      (j in CikLines(lines) <==> exists c :: c in lines[j] && !IsSpace(c))
  {
    var ts := Trimmed(lines);
    FilterIndices(ts, NonBlank);
    forall j | 0 <= j < |lines|
      ensures j in CikLines(lines) <==> exists c :: c in lines[j] && !IsSpace(c)
    {
      assert NonBlank(ts[j]) <==> j in CikLines(lines);
      if NonBlank(ts[j]) {
        var k :| 0 <= k < |lines[j]| && !IsSpace(lines[j][k]);
        assert lines[j][k] in lines[j];
      }
    }
  }

  /** Every CIK the loader returns has at least ten characters and no surrounding whitespace. */
  lemma {:induction false} LoadedCikShape(lines: seq<string>, k: nat)
    requires k < |LoadCiks(lines)|
    ensures |LoadCiks(lines)[k]| >= CikWidth
    ensures Strip(LoadCiks(lines)[k]) == LoadCiks(lines)[k]
  {
    var ts := Trimmed(lines);
    FilterIndices(ts, NonBlank);
    var kept := Filter(ts, NonBlank);
    var t := kept[k];
    assert LoadCiks(lines)[k] == ZFill(t, CikWidth);
    assert t == Strip(lines[KeptIndices(ts, NonBlank)[k]]);
    assert NonBlank(t) by { assert t in kept; }
    ZFillStripped(t);
  }

  /** Padding a stripped, non-empty entry keeps it free of surrounding whitespace. */
  lemma ZFillStripped(t: string)
    requires t != [] && !IsSpace(t[0]) && !IsSpace(t[|t| - 1])
    ensures Strip(ZFill(t, CikWidth)) == ZFill(t, CikWidth)
  {
    var r := ZFill(t, CikWidth);
    assert !IsSpace(r[0]) by {
      if |t| < CikWidth && IsSign(t[0]) { assert r[0] == t[0]; }
      else if |t| < CikWidth { assert r[0] == '0'; }
    }
    assert !IsSpace(r[|r| - 1]) by {
      if |t| >= CikWidth {
      } else if IsSign(t[0]) && |t| == 1 {
        assert r[|r| - 1] == '0';
      } else if IsSign(t[0]) {
        assert r[|r| - 1] == r[CikWidth - |t| + 1..][|t| - 2] == t[|t| - 1];
      } else {
        assert r[|r| - 1] == r[CikWidth - |t|..][|t| - 1] == t[|t| - 1];
      }
    }
    StripUnchanged(r);
  }

  /** A string that neither starts nor ends with whitespace is its own strip. */
  lemma StripUnchanged(s: string)
    requires s != [] && !IsSpace(s[0]) && !IsSpace(s[|s| - 1])
    ensures Strip(s) == s
  {
    assert LeadingSpaces(s) == 0;
    assert TrailingSpaces(s) == 0;
  }

  /**
    Loading is idempotent: a file written back from loaded CIKs, one per
    line, loads to the same list.
   */
  lemma LoadCiksIdempotent(lines: seq<string>)
    ensures LoadCiks(LoadCiks(lines)) == LoadCiks(lines)
  {
    var once := LoadCiks(lines);
    forall k | 0 <= k < |once|
      ensures Strip(once[k]) == once[k] && NonBlank(once[k]) && ZFill(once[k], CikWidth) == once[k]
    {
      LoadedCikShape(lines, k);
    }
    ReloadKeepsAll(once);
    var kept := Filter(Trimmed(once), NonBlank);
    assert LoadCiks(once) == seq(|kept|, k requires 0 <= k < |kept| => ZFill(kept[k], CikWidth));
  }

  /** Lines that are already trimmed and non-blank all survive the loader's filter. */
  lemma ReloadKeepsAll(cs: seq<string>)
    requires forall k :: 0 <= k < |cs| ==> Strip(cs[k]) == cs[k] && NonBlank(cs[k])
    ensures Filter(Trimmed(cs), NonBlank) == cs
  {
    var ts := Trimmed(cs);
    assert ts == cs;
    KeptAll(ts, NonBlank);
    FilterIndices(ts, NonBlank);
  }

  /** When every element passes, every position is kept. */
  lemma {:induction false} KeptAll<T>(s: seq<T>, p: T -> bool)
    requires forall k :: 0 <= k < |s| ==> p(s[k])
    ensures KeptIndices(s, p) == seq(|s|, k => k)
  {
    if |s| > 0 {
      KeptAll(s[..|s| - 1], p);
    }
  }

  /**
    Padding a digit string never changes the number it denotes: the result
    is all digits, exactly ten long when the input had at most ten digits.
   */
  lemma ZFillDigits(s: string)
    requires IsDigits(s)
    ensures IsDigits(ZFill(s, CikWidth)) && Value(ZFill(s, CikWidth)) == Value(s)
    ensures |s| <= CikWidth ==> |ZFill(s, CikWidth)| == CikWidth
  {
    if |s| < CikWidth {
      if s != [] { assert !IsSign(s[0]); }
      ZerosValue(CikWidth - |s|, s);
    }
  }

  /** `lstrip('0')`: `s` without its leading zeros. */
  function StripLeadingZeros(s: string): (r: string)
    ensures |r| <= |s| && r == s[|s| - |r|..]
    ensures r == [] || r[0] != '0'
    ensures forall k :: 0 <= k < |s| - |r| ==> s[k] == '0'
  {
    if |s| > 0 && s[0] == '0' then StripLeadingZeros(s[1..]) else s
  }

  lemma {:induction false} StripZerosPrefix(n: nat, s: string)
    ensures StripLeadingZeros(Zeros(n) + s) == StripLeadingZeros(s)
  {
    if n > 0 {
      var u := Zeros(n) + s;
      assert Zeros(n) == ['0'] + Zeros(n - 1);
      assert u == ['0'] + (Zeros(n - 1) + s);
      assert u[1..] == Zeros(n - 1) + s;
      assert StripLeadingZeros(u) == StripLeadingZeros(u[1..]);
      StripZerosPrefix(n - 1, s);
    } else {
      assert Zeros(n) + s == s;
    }
  }

  /**
    The CIK segment of a filing URL does not depend on the padding: an
    unsigned entry and its ten-character form lose their leading zeros to
    the same string.
   */
  lemma ZFillThenStripZeros(s: string)
    requires s == [] || !IsSign(s[0])
    ensures StripLeadingZeros(ZFill(s, CikWidth)) == StripLeadingZeros(s)
  {
    if |s| < CikWidth {
      ZFillUnsigned(s, CikWidth);
      StripZerosPrefix(CikWidth - |s|, s);
    } else {
      assert ZFill(s, CikWidth) == s;
    }
  }

  /** An unsigned entry shorter than the width is the entry behind a run of zeros. */
  lemma ZFillUnsigned(s: string, width: nat)
    requires (s == [] || !IsSign(s[0])) && |s| < width
    ensures ZFill(s, width) == Zeros(width - |s|) + s
  {
  }


  /** What `lstrip('0')` removes is a run of zeros. */
  lemma StripZerosSplit(s: string)
    ensures s == Zeros(|s| - |StripLeadingZeros(s)|) + StripLeadingZeros(s)
  {
    var r := StripLeadingZeros(s);
    var n := |s| - |r|;
    var z := Zeros(n);
    assert |s| == |z + r|;
    forall k | 0 <= k < |s| ensures s[k] == (z + r)[k] {
      if k < n {
        assert s[k] == '0' == z[k];
      } else {
        assert (z + r)[k] == r[k - n] == s[k];
      }
    }
  }

  /** Removing the leading zeros of a digit string leaves the number it denotes unchanged. */
  lemma DigitsTail(s: string)
    requires IsDigits(s) && |s| > 0
    ensures IsDigits(s[1..])
  {
    forall k | 0 <= k < |s| - 1 ensures '0' <= s[1..][k] <= '9' {
      assert s[1..][k] == s[k + 1];
    }
  }

  lemma {:induction false} StripZerosValue(s: string)
    requires IsDigits(s)
    ensures IsDigits(StripLeadingZeros(s)) && Value(StripLeadingZeros(s)) == Value(s)
  {
    if |s| > 0 && s[0] == '0' {
      var t := s[1..];
      DigitsTail(s);
      StripZerosValue(t);
      LeadingZeroValue(t);
      assert s == ['0'] + t;
      assert StripLeadingZeros(s) == StripLeadingZeros(t);
    }
  }

}
