/** Python's `str.find` and `str.replace(old, new)` for a non-empty `old`:
    every non-overlapping occurrence, scanned left to right, is replaced,
    and the inserted text is never scanned again. */
module Replace {
  import opened Wrappers

  /** `p` occurs in `s` starting at index `i`. */
  predicate OccursAt(s: string, i: nat, p: string)
  {
    i + |p| <= |s| && s[i..i + |p|] == p
  }

  /** `s.find(p)`: the leftmost index at which `p` occurs, or `None`
      (`FindIsLeftmost` states what it finds). */
  function Find(s: string, p: string): (r: Option<nat>)
    requires |p| > 0
    ensures r.Some? ==> r.value + |p| <= |s|
    decreases |s|
  {
    if |s| < |p| then None
    else if s[..|p|] == p then Some(0)
    else
      match Find(s[1..], p)
      case None => None
      case Some(k) => Some(k + 1)
  }

  /** `Find` returns an occurrence with none to its left, and `None` only
      when there is no occurrence at all. */
  lemma {:induction false} FindIsLeftmost(s: string, p: string)
    requires |p| > 0
    ensures Find(s, p).Some? ==> OccursAt(s, Find(s, p).value, p)
    ensures Find(s, p).Some? ==> forall j :: 0 <= j < Find(s, p).value ==> !OccursAt(s, j, p)
    ensures Find(s, p).None? ==> forall j :: 0 <= j <= |s| ==> !OccursAt(s, j, p)
    decreases |s|
  {
    if |s| >= |p| && s[..|p|] != p {
      assert !OccursAt(s, 0, p);
      ShiftOccurrence(s, p);
      FindIsLeftmost(s[1..], p);
    }
  }

  /** An occurrence in the tail `s[1..]` is an occurrence in `s` one place later. */
  lemma ShiftOccurrence(s: string, p: string)
    requires |s| > 0
    ensures forall j: nat :: 0 < j ==> (OccursAt(s, j, p) <==> OccursAt(s[1..], j - 1, p))
  {
    forall j: nat | 0 < j
      ensures OccursAt(s, j, p) <==> OccursAt(s[1..], j - 1, p)
    {
      if j + |p| <= |s| {
        assert s[1..][j - 1..j - 1 + |p|] == s[j..j + |p|];
      }
    }
  }

  /** `s.replace(p, v)`: at each position, either `p` starts here and is
      replaced (scanning resumes after it), or one character is kept. */
  function ReplaceAll(s: string, p: string, v: string): string
    requires |p| > 0
    decreases |s|
  {
    if |s| < |p| then s
    else if s[..|p|] == p then v + ReplaceAll(s[|p|..], p, v)
    else [s[0]] + ReplaceAll(s[1..], p, v)
  }

  /** A string in which `p` does not occur comes back unchanged. */
  lemma {:induction false} ReplaceAbsent(s: string, p: string, v: string)
    requires |p| > 0 && Find(s, p).None?
    ensures ReplaceAll(s, p, v) == s
    decreases |s|
  {
    if |s| >= |p| {
      ReplaceAbsent(s[1..], p, v);
    }
  }

  /** The find-and-splice view of `replace`: text before the leftmost
      occurrence is kept, the occurrence becomes `v`, and the rest is
      processed the same way. */
  lemma ReplaceAtFirst(s: string, p: string, v: string)
    requires |p| > 0 && Find(s, p).Some?
    ensures var i := Find(s, p).value;
      ReplaceAll(s, p, v) == s[..i] + v + ReplaceAll(s[i + |p|..], p, v)
  {
    FindIsLeftmost(s, p);
    ReplaceAt(s, p, v, Find(s, p).value);
  }

  /** The same, for any position holding an occurrence with none before it. */
  lemma {:induction false} ReplaceAt(s: string, p: string, v: string, i: nat)
    requires |p| > 0 && OccursAt(s, i, p)
    requires forall j :: 0 <= j < i ==> !OccursAt(s, j, p)
    ensures ReplaceAll(s, p, v) == s[..i] + v + ReplaceAll(s[i + |p|..], p, v)
    decreases i
  {
    if i == 0 {
      ReplaceAtStart(s, p, v);
    } else {
      var t := s[1..];
      var w := ReplaceAll(s[i + |p|..], p, v);
      FirstOccurrenceInTail(s, p, i);
      ReplaceAt(t, p, v, i - 1);
      ConsSplice(s, i, |p|, v, w);
      assert ReplaceAll(t, p, v) == t[..i - 1] + v + w;
      ReplaceKeepsFirst(s, p, v);
    }
  }

  /** An occurrence at the start is replaced and the scan resumes after it. */
  lemma ReplaceAtStart(s: string, p: string, v: string)
    requires |p| > 0 && OccursAt(s, 0, p)
    ensures ReplaceAll(s, p, v) == s[..0] + v + ReplaceAll(s[|p|..], p, v)
  {
    assert s[..0] == [];
  }

  /** A leftmost occurrence at a positive index is the leftmost occurrence
      of the tail, one place earlier. */
  lemma FirstOccurrenceInTail(s: string, p: string, i: nat)
    requires |p| > 0 && 0 < i && OccursAt(s, i, p)
    requires forall j :: 0 <= j < i ==> !OccursAt(s, j, p)
    ensures |p| <= |s| && !OccursAt(s, 0, p)
    ensures OccursAt(s[1..], i - 1, p)
    ensures forall j :: 0 <= j < i - 1 ==> !OccursAt(s[1..], j, p)
  {
    assert !OccursAt(s, 0, p);
    ShiftOccurrence(s, p);
    forall j | 0 <= j < i - 1
      ensures !OccursAt(s[1..], j, p)
    {
      assert !OccursAt(s, j + 1, p);
    }
  }

  /** When `p` does not start `s`, `replace` keeps the first character. */
  lemma ReplaceKeepsFirst(s: string, p: string, v: string)
    requires |p| > 0 && |p| <= |s| && !OccursAt(s, 0, p)
    ensures ReplaceAll(s, p, v) == [s[0]] + ReplaceAll(s[1..], p, v)
  {
  }

  /** Putting the first character back in front of a splice of the tail. */
  lemma ConsSplice(s: string, i: nat, n: nat, v: string, w: string)
    requires 0 < i && i + n <= |s|
    ensures s[1..][i - 1 + n..] == s[i + n..]
    ensures [s[0]] + (s[1..][..i - 1] + v + w) == s[..i] + v + w
  {
    assert [s[0]] + s[1..][..i - 1] == s[..i];
  }

  /** Replacing a pattern by itself changes nothing. */
  lemma {:induction false} ReplaceBySelf(s: string, p: string)
    requires |p| > 0
    ensures ReplaceAll(s, p, p) == s
    decreases |s|
  {
    if |s| >= |p| {
      if s[..|p|] == p {
        ReplaceBySelf(s[|p|..], p);
        assert s == s[..|p|] + s[|p|..];
      } else {
        ReplaceBySelf(s[1..], p);
        assert s == [s[0]] + s[1..];
      }
    }
  }

  /** No occurrence of `p` straddles the boundary between `a` and `b`. */
  predicate NoStraddle(a: string, b: string, p: string)
  {
    forall i: nat :: i < |a| < i + |p| ==> !OccursAt(a + b, i, p)
  }

  /** Dropping a prefix of `a` keeps the boundary free of straddling occurrences. */
  lemma NoStraddleDrop(a: string, b: string, p: string, k: nat)
    requires NoStraddle(a, b, p) && k <= |a|
    ensures NoStraddle(a[k..], b, p)
  {
    var s := a + b;
    assert a[k..] + b == s[k..];
    forall i: nat | i < |a[k..]| < i + |p|
      ensures !OccursAt(s[k..], i, p)
    {
      assert !OccursAt(s, i + k, p);
      if i + |p| <= |s[k..]| {
        assert s[k..][i..i + |p|] == s[i + k..i + k + |p|];
      }
    }
  }

  /** An occurrence at the very start of `a + b` lies inside a non-empty `a`. */
  lemma NoStraddleAtStart(a: string, b: string, p: string)
    requires NoStraddle(a, b, p) && |a| > 0 && OccursAt(a + b, 0, p)
    ensures |p| <= |a|
  {
  }

  /** When no occurrence straddles the boundary, `replace` works on the two
      halves independently. */
  lemma {:induction false} ReplaceConcat(a: string, b: string, p: string, v: string)
    requires |p| > 0 && NoStraddle(a, b, p)
    ensures ReplaceAll(a + b, p, v) == ReplaceAll(a, p, v) + ReplaceAll(b, p, v)
    decreases |a|
  {
    var s := a + b;
    if |a| == 0 {
      assert s == b;
    } else if |s| < |p| {
      assert ReplaceAll(b, p, v) == b;
    } else if s[..|p|] == p {
      assert OccursAt(s, 0, p);
      NoStraddleAtStart(a, b, p);
      assert a[..|p|] == p;
      assert s[|p|..] == a[|p|..] + b;
      NoStraddleDrop(a, b, p, |p|);
      ReplaceConcat(a[|p|..], b, p, v);
    } else {
      assert s[1..] == a[1..] + b;
      NoStraddleDrop(a, b, p, 1);
      ReplaceConcat(a[1..], b, p, v);
      if |a| >= |p| {
        assert a[..|p|] == s[..|p|];
      } else {
        assert ReplaceAll(a[1..], p, v) == a[1..];
        assert a == [a[0]] + a[1..];
      }
    }
  }

  /** A middle part free of the pattern, with no occurrence straddling either
      of its ends, passes through `replace` untouched. */
  lemma ReplaceAroundMiddle(a: string, m: string, b: string, p: string, v: string)
    requires |p| > 0 && NoStraddle(a, m + b, p) && NoStraddle(m, b, p) && Find(m, p).None?
    ensures ReplaceAll(a + m + b, p, v) == ReplaceAll(a, p, v) + m + ReplaceAll(b, p, v)
  {
    assert a + m + b == a + (m + b);
    ReplaceConcat(a, m + b, p, v);
    ReplaceConcat(m, b, p, v);
    ReplaceAbsent(m, p, v);
  }
}
