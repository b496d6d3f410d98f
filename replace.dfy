/**
 * Rust's `str::replace(pattern, replacement)` for a non-empty pattern: the
 * text is scanned left to right, and every occurrence that does not overlap
 * an occurrence already replaced is substituted.
 */
module Replace {
  import opened Text

  function ReplaceAll(s: string, p: string, r: string): string
    requires |p| > 0
    decreases |s|
  {
    if |s| < |p| then s
    else if s[..|p|] == p then r + ReplaceAll(s[|p|..], p, r)
    else [s[0]] + ReplaceAll(s[1..], p, r)
  }

  /** The first character of `p` occurs nowhere else in `p` (true of every `{NAME}` placeholder). */
  predicate UniqueOpener(p: string) {
    |p| > 0 && forall k :: 0 < k < |p| ==> p[k] != p[0]
  }

  /** Text in which the pattern does not occur is left unchanged. */
  lemma {:induction false} ReplaceAbsent(s: string, p: string, r: string)
    requires |p| > 0
    requires !ContainsSub(s, p)
    ensures ReplaceAll(s, p, r) == s
    decreases |s|
  {
    if |s| >= |p| {
      assert !OccursAt(s, p, 0);
      assert !ContainsSub(s[1..], p) by {
        forall i | 0 <= i <= |s[1..]| ensures !OccursAt(s[1..], p, i) {
          assert !OccursAt(s, p, i + 1);
          if i + |p| <= |s[1..]| {
            assert s[1..][i..i + |p|] == s[i + 1..i + 1 + |p|];
          }
        }
      }
      ReplaceAbsent(s[1..], p, r);
    }
  }

  /** If the text does not start with the pattern, its first character is copied through. */
  lemma CopiesHead(a: string, p: string, r: string)
    requires |p| > 0 && |a| > 0
    requires !StartsWith(a, p)
    ensures ReplaceAll(a, p, r) == [a[0]] + ReplaceAll(a[1..], p, r)
  {
    if |a| < |p| {
      assert [a[0]] + a[1..] == a;
    }
  }

  /**
   * Replacing in a concatenation is replacing in each part, provided no
   * occurrence of the pattern straddles the boundary.
   */
  lemma {:induction false} ReplaceSplit(a: string, b: string, p: string, r: string)
    requires |p| > 0
    requires forall i :: |a| - |p| < i < |a| ==> !OccursAt(a + b, p, i)
    ensures ReplaceAll(a + b, p, r) == ReplaceAll(a, p, r) + ReplaceAll(b, p, r)
    decreases |a|, 1
  {
    if a == [] {
      assert a + b == b;
    } else if StartsWith(a + b, p) {
      SplitAfterMatch(a, b, p, r);
    } else {
      SplitAfterCopy(a, b, p, r);
    }
  }

  /** `ReplaceSplit` when the text starts with the pattern, which then lies wholly inside `a`. */
  lemma {:induction false} SplitAfterMatch(a: string, b: string, p: string, r: string)
    requires |p| > 0 && a != [] && StartsWith(a + b, p)
    requires forall i :: |a| - |p| < i < |a| ==> !OccursAt(a + b, p, i)
    ensures ReplaceAll(a + b, p, r) == ReplaceAll(a, p, r) + ReplaceAll(b, p, r)
    decreases |a|, 0
  {
    assert StartsWith(a, p) by {
      assert OccursAt(a + b, p, 0);
    }
    var a' := a[|p|..];
    assert ReplaceAll(a, p, r) == r + ReplaceAll(a', p, r) by {
      ReplacesHead(a, p, r);
    }
    assert ReplaceAll(a + b, p, r) == r + ReplaceAll(a' + b, p, r) by {
      ReplacesHead(a + b, p, r);
      DropFromFront(a, b, |p|);
    }
    assert ReplaceAll(a' + b, p, r) == ReplaceAll(a', p, r) + ReplaceAll(b, p, r) by {
      NoStraddleAfterDrop(a, b, p, |p|);
      ReplaceSplit(a', b, p, r);
    }
    assert r + (ReplaceAll(a', p, r) + ReplaceAll(b, p, r)) == (r + ReplaceAll(a', p, r)) + ReplaceAll(b, p, r);
  }

  /** `ReplaceSplit` when the text does not start with the pattern, so its first character is copied. */
  lemma {:induction false} SplitAfterCopy(a: string, b: string, p: string, r: string)
    requires |p| > 0 && a != [] && !StartsWith(a + b, p)
    requires forall i :: |a| - |p| < i < |a| ==> !OccursAt(a + b, p, i)
    ensures ReplaceAll(a + b, p, r) == ReplaceAll(a, p, r) + ReplaceAll(b, p, r)
    decreases |a|, 0
  {
    var a' := a[1..];
    var x := [a[0]];
    assert ReplaceAll(a, p, r) == x + ReplaceAll(a', p, r) by {
      assert !StartsWith(a, p) by {
        if |p| <= |a| {
          TakeFromFront(a, b, |p|);
        }
      }
      CopiesHead(a, p, r);
    }
    assert ReplaceAll(a + b, p, r) == x + ReplaceAll(a' + b, p, r) by {
      CopiesHead(a + b, p, r);
      DropFromFront(a, b, 1);
    }
    assert ReplaceAll(a' + b, p, r) == ReplaceAll(a', p, r) + ReplaceAll(b, p, r) by {
      NoStraddleAfterDrop(a, b, p, 1);
      ReplaceSplit(a', b, p, r);
    }
    assert x + (ReplaceAll(a', p, r) + ReplaceAll(b, p, r)) == (x + ReplaceAll(a', p, r)) + ReplaceAll(b, p, r);
  }

  lemma DropFromFront(a: string, b: string, k: nat)
    requires k <= |a|
    ensures (a + b)[k..] == a[k..] + b
  {
  }

  lemma TakeFromFront(a: string, b: string, k: nat)
    requires k <= |a|
    ensures (a + b)[..k] == a[..k]
  {
  }

  /** If the text starts with the pattern, that occurrence is replaced. */
  lemma ReplacesHead(a: string, p: string, r: string)
    requires |p| > 0 && StartsWith(a, p)
    ensures ReplaceAll(a, p, r) == r + ReplaceAll(a[|p|..], p, r)
  {
  }

  /** Dropping the first `k` characters of `a` keeps the boundary with `b` free of straddling occurrences. */
  lemma NoStraddleAfterDrop(a: string, b: string, p: string, k: nat)
    requires 0 < k <= |a|
    requires forall i :: |a| - |p| < i < |a| ==> !OccursAt(a + b, p, i)
    ensures forall i :: |a[k..]| - |p| < i < |a[k..]| ==> !OccursAt(a[k..] + b, p, i)
  {
    var a' := a[k..];
    forall i | |a'| - |p| < i < |a'| ensures !OccursAt(a' + b, p, i) {
      assert !OccursAt(a + b, p, i + k);
      if 0 <= i && i + |p| <= |a' + b| {
        assert (a' + b)[i..i + |p|] == (a + b)[i + k..i + k + |p|];
      }
    }
  }

  /**
   * For a pattern whose opening character is unique, text that starts with
   * that character cannot be straddled from the left.
   */
  lemma ReplaceAtOpener(a: string, t: string, p: string, r: string)
    requires UniqueOpener(p)
    requires |t| > 0 && t[0] == p[0]
    ensures ReplaceAll(a + t, p, r) == ReplaceAll(a, p, r) + ReplaceAll(t, p, r)
  {
    forall i | |a| - |p| < i < |a| ensures !OccursAt(a + t, p, i) {
      var o := |a| - i;
      if 0 <= i && i + |p| <= |a + t| {
        assert (a + t)[i..i + |p|][o] == (a + t)[|a|] == t[0] == p[0];
        assert p[o] != p[0];
      }
    }
    ReplaceSplit(a, t, p, r);
  }

  /** Every occurrence of such a placeholder becomes the replacement, whatever surrounds it. */
  lemma ReplaceToken(a: string, b: string, p: string, r: string)
    requires UniqueOpener(p)
    ensures ReplaceAll(a + p + b, p, r) == ReplaceAll(a, p, r) + r + ReplaceAll(b, p, r)
  {
    assert a + p + b == a + (p + b);
    ReplaceAtOpener(a, p + b, p, r);
    assert (p + b)[..|p|] == p;
    assert (p + b)[|p|..] == b;
  }

  /** Text none of whose positions starts an occurrence passes through unchanged. */
  lemma {:induction false} PassThrough(q: string, b: string, p: string, r: string)
    requires |p| > 0
    requires forall i :: 0 <= i < |q| ==> !OccursAt(q + b, p, i)
    ensures ReplaceAll(q + b, p, r) == q + ReplaceAll(b, p, r)
    decreases |q|
  {
    var s := q + b;
    if q == [] {
      assert s == b;
    } else if |s| < |p| {
      assert ReplaceAll(b, p, r) == b;
    } else {
      assert !OccursAt(s, p, 0);
      var q' := q[1..];
      assert q' + b == s[1..];
      forall i | 0 <= i < |q'| ensures !OccursAt(q' + b, p, i) {
        assert !OccursAt(s, p, i + 1);
        if i + |p| <= |q' + b| {
          assert (q' + b)[i..i + |p|] == s[i + 1..i + 1 + |p|];
        }
      }
      PassThrough(q', b, p, r);
      assert [q[0]] + (q' + ReplaceAll(b, p, r)) == q + ReplaceAll(b, p, r);
    }
  }
}
