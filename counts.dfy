/**
  `Series.value_counts()` on the Form column of the new filings: one entry
  per distinct form with the number of rows carrying it, most frequent
  first. Forms are tallied in order of first appearance and then sorted by
  an insertion sort that keeps that order among equal counts.
 */
module ValueCounts {

  datatype FormCount = FormCount(form: string, count: nat)

  ghost predicate HasForm(t: seq<FormCount>, x: string) {
    exists i :: 0 <= i < |t| && t[i].form == x
  }

  ghost predicate DistinctForms(t: seq<FormCount>) {
    forall i, j :: 0 <= i < j < |t| ==> t[i].form != t[j].form
  }

  ghost predicate NonIncreasing(t: seq<FormCount>) {
    forall i, j :: 0 <= i < j < |t| ==> t[i].count >= t[j].count
  }

  /** Each entry counts its form's occurrences in `s`, and that count is positive. */
  ghost predicate CountsOf(t: seq<FormCount>, s: seq<string>) {
    forall i :: 0 <= i < |t| ==> t[i].count == multiset(s)[t[i].form] && t[i].count > 0
  }

  function Total(t: seq<FormCount>): nat {
    if |t| == 0 then 0 else t[0].count + Total(t[1..])
  }

  /** `t` with the entry for `x` counted once more. */
  function Bump(t: seq<FormCount>, x: string): (r: seq<FormCount>)
    ensures |r| == |t|
  {
    seq(|t|, i requires 0 <= i < |t| => if t[i].form == x then FormCount(x, t[i].count + 1) else t[i])
  }

  /** Counts of the forms of `s`, in order of first appearance. */
  function Tally(s: seq<string>): seq<FormCount> {
    if |s| == 0 then []
    else
      var t := Tally(s[..|s| - 1]);
      var x := s[|s| - 1];
      if HasFormExec(t, x) then Bump(t, x) else t + [FormCount(x, 1)]
  }

  function HasFormExec(t: seq<FormCount>, x: string): (b: bool)
    ensures b <==> HasForm(t, x)
  {
    if |t| == 0 then false
    else if t[0].form == x then true
    else
      var b := HasFormExec(t[1..], x);
      assert HasForm(t[1..], x) ==> HasForm(t, x) by {
        if HasForm(t[1..], x) {
          var i :| 0 <= i < |t| - 1 && t[1..][i].form == x;
          assert t[i + 1].form == x;
        }
      }
      assert HasForm(t, x) ==> HasForm(t[1..], x) by {
        if HasForm(t, x) {
          var i :| 0 <= i < |t| && t[i].form == x;
          assert i > 0 && t[1..][i - 1].form == x;
        }
      }
      b
  }

  /** Stable insertion into a list sorted by decreasing count: `c` goes before entries with a count no larger. */
  function Insert(c: FormCount, t: seq<FormCount>): seq<FormCount> {
    if |t| == 0 || c.count >= t[0].count then [c] + t else [t[0]] + Insert(c, t[1..])
  }

  function SortByCount(t: seq<FormCount>): seq<FormCount> {
    if |t| == 0 then [] else Insert(t[0], SortByCount(t[1..]))
  }

  /** `recent_filings['Form'].value_counts()`. */
  function CountByForm(forms: seq<string>): seq<FormCount> {
    SortByCount(Tally(forms))
  }

  lemma {:induction false} TotalAppend(t: seq<FormCount>, c: FormCount)
    ensures Total(t + [c]) == Total(t) + c.count
  {
    if |t| > 0 {
      assert (t + [c])[1..] == t[1..] + [c];
      TotalAppend(t[1..], c);
    }
  }

  lemma {:induction false} TotalBump(t: seq<FormCount>, x: string)
    requires DistinctForms(t) && HasForm(t, x)
    ensures Total(Bump(t, x)) == Total(t) + 1
  {
    var i :| 0 <= i < |t| && t[i].form == x;
    if i == 0 {
      assert Bump(t, x)[1..] == t[1..];
    } else {
      assert Bump(t, x)[1..] == Bump(t[1..], x);
      assert t[1..][i - 1].form == x;
      TotalBump(t[1..], x);
    }
  }

  /** What a tally of `s` promises: exact, positive counts of distinct forms, covering `s`. */
  ghost predicate TallyOf(t: seq<FormCount>, s: seq<string>) {
    && DistinctForms(t)
    && CountsOf(t, s)
    && (forall x :: x in s <==> HasForm(t, x))
    && Total(t) == |s|
  }

  /** Bumping forms the same entries as before, pointwise. */
  lemma BumpForms(t: seq<FormCount>, x: string)
    ensures forall i :: 0 <= i < |t| ==> Bump(t, x)[i].form == t[i].form
    ensures forall y :: HasForm(Bump(t, x), y) <==> HasForm(t, y)
  {
    var r := Bump(t, x);
    forall y ensures HasForm(r, y) <==> HasForm(t, y) {
      if HasForm(t, y) {
        var i :| 0 <= i < |t| && t[i].form == y;
        assert r[i].form == y;
      }
      if HasForm(r, y) {
        var i :| 0 <= i < |r| && r[i].form == y;
        assert t[i].form == y;
      }
    }
  }

  /** A further occurrence of a form already tallied bumps its entry. */
  lemma TallyBump(t: seq<FormCount>, s: seq<string>, x: string)
    requires TallyOf(t, s) && HasForm(t, x)
    ensures TallyOf(Bump(t, x), s + [x])
  {
    var r := Bump(t, x);
    assert multiset(s + [x]) == multiset(s) + multiset{x};
    TotalBump(t, x);
    BumpForms(t, x);
    assert forall y :: y in s + [x] <==> y in s || y == x;
  }

  /** A first occurrence of a form adds an entry with count one at the end. */
  lemma TallyAppend(t: seq<FormCount>, s: seq<string>, x: string)
    requires TallyOf(t, s) && !HasForm(t, x)
    ensures TallyOf(t + [FormCount(x, 1)], s + [x])
  {
    var r := t + [FormCount(x, 1)];
    assert multiset(s + [x]) == multiset(s) + multiset{x};
    assert x !in s;
    TotalAppend(t, FormCount(x, 1));
    forall y ensures HasForm(r, y) <==> HasForm(t, y) || y == x {
      if HasForm(t, y) {
        var i :| 0 <= i < |t| && t[i].form == y;
        assert r[i].form == y;
      }
      if HasForm(r, y) {
        var i :| 0 <= i < |r| && r[i].form == y;
        if i < |t| { assert t[i].form == y; }
      }
      if y == x { assert r[|t|].form == y; }
    }
    assert forall y :: y in s + [x] <==> y in s || y == x;
    assert forall i :: 0 <= i < |t| ==> t[i].form != x;
  }

  /** The tally counts every form of `s` exactly, once each, and adds up to |s|. */
  lemma {:induction false} TallySpec(s: seq<string>)
    ensures TallyOf(Tally(s), s)
  {
    if |s| > 0 {
      var init, x := s[..|s| - 1], s[|s| - 1];
      TallySpec(init);
      assert s == init + [x];
      if HasForm(Tally(init), x) {
        TallyBump(Tally(init), init, x);
      } else {
        TallyAppend(Tally(init), init, x);
      }
    }
  }

  lemma ConsNonIncreasing(a: FormCount, u: seq<FormCount>)
    requires NonIncreasing(u)
    requires forall j :: 0 <= j < |u| ==> a.count >= u[j].count
    ensures NonIncreasing([a] + u)
  {
    forall i, j | 0 <= i < j < |u| + 1 ensures ([a] + u)[i].count >= ([a] + u)[j].count {
      if i > 0 { assert ([a] + u)[i] == u[i - 1]; }
      assert ([a] + u)[j] == u[j - 1];
    }
  }

  lemma ConsDistinct(a: FormCount, u: seq<FormCount>)
    requires DistinctForms(u)
    requires forall j :: 0 <= j < |u| ==> a.form != u[j].form
    ensures DistinctForms([a] + u)
  {
    forall i, j | 0 <= i < j < |u| + 1 ensures ([a] + u)[i].form != ([a] + u)[j].form {
      if i > 0 { assert ([a] + u)[i] == u[i - 1]; }
      assert ([a] + u)[j] == u[j - 1];
    }
  }

  /** Insertion adds exactly the one entry. */
  lemma {:induction false} InsertElements(c: FormCount, t: seq<FormCount>)
    ensures multiset(Insert(c, t)) == multiset(t) + multiset{c}
    ensures Total(Insert(c, t)) == Total(t) + c.count
  {
    if |t| > 0 && c.count < t[0].count {
      InsertElements(c, t[1..]);
      assert t == [t[0]] + t[1..];
      assert Insert(c, t)[1..] == Insert(c, t[1..]);
    }
  }

  /** Insertion keeps a list sorted by decreasing count. */
  lemma {:induction false} InsertSorted(c: FormCount, t: seq<FormCount>)
    requires NonIncreasing(t)
    ensures NonIncreasing(Insert(c, t))
  {
    if |t| > 0 && c.count < t[0].count {
      var rest := Insert(c, t[1..]);
      InsertSorted(c, t[1..]);
      InsertElements(c, t[1..]);
      forall j | 0 <= j < |rest| ensures t[0].count >= rest[j].count {
        assert rest[j] in multiset(rest);
        if rest[j] != c {
          assert rest[j] in multiset(t[1..]);
          var k :| 0 <= k < |t| - 1 && t[1..][k] == rest[j];
          assert t[k + 1] == rest[j];
        }
      }
      ConsNonIncreasing(t[0], rest);
    } else if |t| > 0 {
      ConsNonIncreasing(c, t);
    }
  }

  /** Inserting an entry for a new form keeps the forms distinct. */
  lemma {:induction false} InsertDistinct(c: FormCount, t: seq<FormCount>)
    requires DistinctForms(t) && !HasForm(t, c.form)
    ensures DistinctForms(Insert(c, t))
  {
    if |t| > 0 && c.count < t[0].count {
      var rest := Insert(c, t[1..]);
      forall i | 0 <= i < |t| - 1 ensures t[1..][i].form != c.form {
        assert t[1..][i] == t[i + 1];
      }
      InsertDistinct(c, t[1..]);
      InsertElements(c, t[1..]);
      forall j | 0 <= j < |rest| ensures t[0].form != rest[j].form {
        assert rest[j] in multiset(rest);
        if rest[j] != c {
          assert rest[j] in multiset(t[1..]);
          var k :| 0 <= k < |t| - 1 && t[1..][k] == rest[j];
          assert t[k + 1] == rest[j];
        }
      }
      ConsDistinct(t[0], rest);
    } else {
      ConsDistinct(c, t);
    }
  }

  lemma {:induction false} SortElements(t: seq<FormCount>)
    ensures multiset(SortByCount(t)) == multiset(t)
    ensures Total(SortByCount(t)) == Total(t)
  {
    if |t| > 0 {
      SortElements(t[1..]);
      InsertElements(t[0], SortByCount(t[1..]));
      assert t == [t[0]] + t[1..];
    }
  }

  lemma {:induction false} SortSorted(t: seq<FormCount>)
    ensures NonIncreasing(SortByCount(t))
  {
    if |t| > 0 {
      SortSorted(t[1..]);
      InsertSorted(t[0], SortByCount(t[1..]));
    }
  }

  lemma {:induction false} SortDistinct(t: seq<FormCount>)
    requires DistinctForms(t)
    ensures DistinctForms(SortByCount(t))
  {
    if |t| > 0 {
      var rest := SortByCount(t[1..]);
      SortDistinct(t[1..]);
      SortElements(t[1..]);
      forall i | 0 <= i < |rest| ensures rest[i].form != t[0].form {
        assert rest[i] in multiset(t[1..]);
        var k :| 0 <= k < |t| - 1 && t[1..][k] == rest[i];
        assert t[k + 1] == rest[i];
      }
      InsertDistinct(t[0], rest);
    }
  }

  /**
    The form breakdown: one entry per distinct form of the new filings, each
    with its positive number of occurrences, most frequent first, and the
    counts add up to the number of new filings.
   */
  lemma CountByFormSpec(forms: seq<string>)
    ensures DistinctForms(CountByForm(forms))
    ensures CountsOf(CountByForm(forms), forms)
    ensures forall x :: x in forms <==> HasForm(CountByForm(forms), x)
    ensures NonIncreasing(CountByForm(forms))
    ensures Total(CountByForm(forms)) == |forms|
  {
    var t := Tally(forms);
    var r := CountByForm(forms);
    TallySpec(forms);
    SortElements(t);
    SortSorted(t);
    SortDistinct(t);
    forall i | 0 <= i < |r| ensures r[i] in t {
      assert r[i] in multiset(r);
    }
    forall x ensures HasForm(r, x) <==> HasForm(t, x) {
      if HasForm(r, x) {
        var i :| 0 <= i < |r| && r[i].form == x;
        assert r[i] in t;
      }
      if HasForm(t, x) {
        var i :| 0 <= i < |t| && t[i].form == x;
        assert t[i] in multiset(r);
      }
    }
  }
}
