/** String helpers of the export script: the line-break normalisation that the
    compiled pattern `[\n\r]+` performs when every match is replaced by a single
    space, and Python's substring test `sub in s`. */
module Text {

  predicate IsLineBreak(c: char) {
    c == '\n' || c == '\r'
  }

  predicate NoLineBreaks(s: string) {
    forall i :: 0 <= i < |s| ==> !IsLineBreak(s[i])
  }

  predicate AllLineBreaks(s: string) {
    forall i :: 0 <= i < |s| ==> IsLineBreak(s[i])
  }

  /** Removes the maximal leading run of line breaks. */
  function DropLineBreaks(s: string): (r: string)
    ensures |r| <= |s|
    ensures r == [] || !IsLineBreak(r[0])
  {
    if s != [] && IsLineBreak(s[0]) then DropLineBreaks(s[1..]) else s
  }

  /** What DropLineBreaks removes is a run of line breaks, and what it keeps is
      the rest of its argument. */
  lemma {:induction false} DropLineBreaksSuffix(s: string)
    ensures var r := DropLineBreaks(s); r == s[|s| - |r|..] && AllLineBreaks(s[..|s| - |r|])
  {
    if s != [] && IsLineBreak(s[0]) {
      DropLineBreaksSuffix(s[1..]);
      var r := DropLineBreaks(s[1..]);
      assert s[1..][|s| - 1 - |r|..] == s[|s| - |r|..];
      assert forall i :: 0 < i < |s| - |r| ==> s[i] == s[1..][..|s| - 1 - |r|][i - 1];
    }
  }

  /** Every maximal run of '\n' / '\r' characters becomes one space; all other
      characters are copied in order. */
  function RemoveLineBreaks(s: string): (r: string)
    ensures NoLineBreaks(r)
    ensures |r| <= |s|
    ensures r == [] <==> s == []
    decreases |s|
  {
    if s == [] then []
    else if IsLineBreak(s[0]) then [' '] + RemoveLineBreaks(DropLineBreaks(s[1..]))
    else [s[0]] + RemoveLineBreaks(s[1..])
  }

  /** Text without line breaks is left exactly as it is. */
  lemma {:induction false} RemoveLineBreaksIdentity(s: string)
    requires NoLineBreaks(s)
    ensures RemoveLineBreaks(s) == s
  {
    if s != [] {
      RemoveLineBreaksIdentity(s[1..]);
    }
  }

  /** Normalising twice is the same as normalising once. */
  lemma {:induction false} RemoveLineBreaksIdempotent(s: string)
    ensures RemoveLineBreaks(RemoveLineBreaks(s)) == RemoveLineBreaks(s)
  {
    RemoveLineBreaksIdentity(RemoveLineBreaks(s));
  }

  lemma {:induction false} DropLineBreaksConcat(a: string, b: string)
    ensures DropLineBreaks(a + b) == if AllLineBreaks(a) then DropLineBreaks(b) else DropLineBreaks(a) + b
  {
    if a != [] {
      assert (a + b)[0] == a[0];
      assert (a + b)[1..] == a[1..] + b;
      if IsLineBreak(a[0]) {
        DropLineBreaksConcat(a[1..], b);
        assert AllLineBreaks(a) <==> AllLineBreaks(a[1..]) by {
          assert forall i :: 0 < i < |a| ==> a[i] == a[1..][i - 1];
        }
      }
    } else {
      assert a + b == b;
    }
  }

  /** Normalisation distributes over a concatenation unless the cut falls inside
      a run of line breaks. */
  lemma {:induction false} RemoveLineBreaksConcat(a: string, b: string)
    requires a == [] || b == [] || !IsLineBreak(a[|a| - 1]) || !IsLineBreak(b[0])
    ensures RemoveLineBreaks(a + b) == RemoveLineBreaks(a) + RemoveLineBreaks(b)
    decreases |a|, 1
  {
    if a == [] {
      assert a + b == b;
    } else if !IsLineBreak(a[0]) {
      assert a + b == [a[0]] + (a[1..] + b);
      RemoveLineBreaksConcat(a[1..], b);
    } else {
      RemoveLineBreaksConcatAtBreak(a, b);
    }
  }

  lemma {:induction false} RemoveLineBreaksConcatAtBreak(a: string, b: string)
    requires a != [] && IsLineBreak(a[0])
    requires b == [] || !IsLineBreak(a[|a| - 1]) || !IsLineBreak(b[0])
    ensures RemoveLineBreaks(a + b) == RemoveLineBreaks(a) + RemoveLineBreaks(b)
    decreases |a|, 0
  {
    var t := a[1..];
    assert (a + b)[1..] == t + b;
    DropLineBreaksConcat(t, b);
    if AllLineBreaks(t) {
      assert b == [] || !IsLineBreak(b[0]) by {
        if b != [] && t != [] {
          assert a[|a| - 1] == t[|t| - 1];
        }
      }
      AllLineBreaksDropped(t);
      RemoveLineBreaksAtBreakStep(a, b, [], b);
    } else {
      var d := DropLineBreaks(t);
      DropLineBreaksSuffix(t);
      assert d != [] && d[|d| - 1] == t[|t| - 1] == a[|a| - 1];
      RemoveLineBreaksConcat(d, b);
      RemoveLineBreaksAtBreakStep(a, b, d, d + b);
    }
  }

  /** One unfolding of RemoveLineBreaks at a leading line break, on both sides of
      the concatenation. */
  lemma RemoveLineBreaksAtBreakStep(a: string, b: string, d: string, db: string)
    requires a != [] && IsLineBreak(a[0])
    requires DropLineBreaks(a[1..]) == d
    requires DropLineBreaks((a + b)[1..]) == db
    requires RemoveLineBreaks(db) == RemoveLineBreaks(d) + RemoveLineBreaks(b)
    ensures RemoveLineBreaks(a + b) == RemoveLineBreaks(a) + RemoveLineBreaks(b)
  {
    assert (a + b)[0] == a[0];
  }

  lemma AllLineBreaksDropped(s: string)
    requires AllLineBreaks(s)
    ensures DropLineBreaks(s) == []
  {
    DropLineBreaksSuffix(s);
  }

  /** A run of line breaks followed by text that does not start with one
      becomes a single space before that text. */
  lemma RemoveLineBreaksLeadingRun(run: string, b: string)
    requires run != [] && AllLineBreaks(run)
    requires b == [] || !IsLineBreak(b[0])
    ensures RemoveLineBreaks(run + b) == " " + RemoveLineBreaks(b)
  {
    assert run + b == [run[0]] + (run[1..] + b);
    DropLineBreaksConcat(run[1..], b);
  }

  /** A maximal run of line breaks between two parts becomes exactly one space. */
  lemma RemoveLineBreaksRun(a: string, run: string, b: string)
    requires run != [] && AllLineBreaks(run)
    requires a == [] || !IsLineBreak(a[|a| - 1])
    requires b == [] || !IsLineBreak(b[0])
    ensures RemoveLineBreaks(a + run + b) == RemoveLineBreaks(a) + " " + RemoveLineBreaks(b)
  {
    var rb := run + b;
    assert a + run + b == a + rb;
    assert rb[0] == run[0];
    RemoveLineBreaksConcat(a, rb);
    RemoveLineBreaksLeadingRun(run, b);
  }

  /** Reference definition, one character at a time: a line break turns into a
      space unless the character before it was a line break too (`afterBreak`),
      in which case it is dropped; every other character is copied. */
  function Normalised(s: string, afterBreak: bool): string {
    if s == [] then []
    else (if !IsLineBreak(s[0]) then [s[0]] else if afterBreak then [] else [' '])
         + Normalised(s[1..], IsLineBreak(s[0]))
  }

  /** Inside a run, the rest of the run contributes nothing. */
  lemma {:induction false} NormalisedInsideRun(t: string)
    ensures Normalised(t, true) == Normalised(DropLineBreaks(t), false)
  {
    if t != [] && IsLineBreak(t[0]) {
      NormalisedInsideRun(t[1..]);
    }
  }

  /** The recursive normalisation agrees with the character-by-character one. */
  lemma {:induction false} RemoveLineBreaksIsNormalised(s: string)
    ensures RemoveLineBreaks(s) == Normalised(s, false)
    decreases |s|
  {
    if s != [] {
      if IsLineBreak(s[0]) {
        NormalisedInsideRun(s[1..]);
        RemoveLineBreaksIsNormalised(DropLineBreaks(s[1..]));
      } else {
        RemoveLineBreaksIsNormalised(s[1..]);
      }
    }
  }

  /** `sub` occurs in `s` starting at position `i`. */
  predicate OccursAt(s: string, sub: string, i: int) {
    0 <= i <= |s| - |sub| && s[i..i + |sub|] == sub
  }

  /** Python's `sub in s`: case-sensitive substring test. */
  predicate Contains(s: string, sub: string) {
    exists i | 0 <= i <= |s| :: OccursAt(s, sub, i)
  }

  /** The empty string occurs in every string, so an empty filter would reject
      nothing even without its own test. */
  lemma ContainsEmpty(s: string)
    ensures Contains(s, "")
  {
    assert OccursAt(s, "", 0);
  }
}
