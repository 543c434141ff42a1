/** Python string operations used by the template engine: the substring test
    `pat in s`, `s.replace(pat, rep)` (all occurrences, left to right, no
    overlap), and the `split`/`join` pair that characterises `replace`. */
module Text {

  /** `pat` occurs in `s` starting at index `i`. */
  predicate OccursAt(s: string, pat: string, i: nat)
  {
    i + |pat| <= |s| && s[i..i + |pat|] == pat
  }

  /** Python's `pat in s`. */
  predicate Contains(s: string, pat: string)
    decreases |s|
  {
    |pat| <= |s| && (s[..|pat|] == pat || Contains(s[1..], pat))
  }

  /** Python's `s.replace(pat, rep)` for a non-empty `pat`: scan left to right,
      replace each occurrence and resume after it. */
  function Replace(s: string, pat: string, rep: string): string
    requires |pat| > 0
    decreases |s|
  {
    if |s| < |pat| then s
    else if s[..|pat|] == pat then rep + Replace(s[|pat|..], pat, rep)
    else [s[0]] + Replace(s[1..], pat, rep)
  }

  /** Python's `s.split(pat)` for a non-empty `pat`. */
  function Split(s: string, pat: string): (parts: seq<string>)
    requires |pat| > 0
    ensures |parts| >= 1
    decreases |s|
  {
    if |s| < |pat| then [s]
    else if s[..|pat|] == pat then [""] + Split(s[|pat|..], pat)
    else
      var rest := Split(s[1..], pat);
      [[s[0]] + rest[0]] + rest[1..]
  }

  /** Python's `sep.join(parts)` for a non-empty list of parts. */
  function Join(parts: seq<string>, sep: string): string
    requires |parts| >= 1
    decreases |parts|
  {
    if |parts| == 1 then parts[0] else parts[0] + sep + Join(parts[1..], sep)
  }

  lemma {:induction false} ContainsIffOccurs(s: string, pat: string)
    ensures Contains(s, pat) <==> exists i: nat :: OccursAt(s, pat, i)
    decreases |s|
  {
    if |pat| <= |s| {
      if s[..|pat|] == pat {
        assert OccursAt(s, pat, 0);
      } else {
        ContainsIffOccurs(s[1..], pat);
        if Contains(s[1..], pat) {
          var i: nat :| OccursAt(s[1..], pat, i);
          assert s[i + 1..i + 1 + |pat|] == s[1..][i..i + |pat|];
          assert OccursAt(s, pat, i + 1);
        }
        if exists i: nat :: OccursAt(s, pat, i) {
          var i: nat :| OccursAt(s, pat, i);
          assert i != 0;
          assert s[1..][i - 1..i - 1 + |pat|] == s[i..i + |pat|];
          assert OccursAt(s[1..], pat, i - 1);
        }
      }
    } else {
      forall i: nat ensures !OccursAt(s, pat, i) { }
    }
  }

  /** Replacing a pattern that does not occur changes nothing. */
  lemma {:induction false} ReplaceAbsent(s: string, pat: string, rep: string)
    requires |pat| > 0 && !Contains(s, pat)
    ensures Replace(s, pat, rep) == s
    decreases |s|
  {
    if |s| >= |pat| {
      ReplaceAbsent(s[1..], pat, rep);
      assert [s[0]] + s[1..] == s;
    }
  }

  /** Replacing a pattern by itself changes nothing. */
  lemma {:induction false} ReplaceBySelf(s: string, pat: string)
    requires |pat| > 0
    ensures Replace(s, pat, pat) == s
    decreases |s|
  {
    if |s| >= |pat| {
      if s[..|pat|] == pat {
        ReplaceBySelf(s[|pat|..], pat);
        assert s[..|pat|] + s[|pat|..] == s;
      } else {
        ReplaceBySelf(s[1..], pat);
        assert [s[0]] + s[1..] == s;
      }
    }
  }

  /** A leading occurrence is replaced and the scan resumes after it. */
  lemma ReplaceLeading(pat: string, s: string, rep: string)
    requires |pat| > 0
    ensures Replace(pat + s, pat, rep) == rep + Replace(s, pat, rep)
  {
    assert (pat + s)[..|pat|] == pat;
    assert (pat + s)[|pat|..] == s;
  }

  /** Where the pattern does not start at the head, the head character is
      copied and the scan moves on by one. */
  lemma ReplaceNoMatchAtHead(s: string, pat: string, rep: string)
    requires |pat| > 0 && |s| > 0
    requires !(|pat| <= |s| && s[..|pat|] == pat)
    ensures Replace(s, pat, rep) == [s[0]] + Replace(s[1..], pat, rep)
  {
    if |s| < |pat| {
      assert [s[0]] + s[1..] == s;
    }
  }

  /** A prefix that does not contain the first character of the pattern is
      copied unchanged. */
  lemma {:induction false} ReplaceSkipsPrefix(pre: string, s: string, pat: string, rep: string)
    requires |pat| > 0 && pat[0] !in pre
    ensures Replace(pre + s, pat, rep) == pre + Replace(s, pat, rep)
    ensures Contains(pre + s, pat) <==> Contains(s, pat)
    decreases |pre|
  {
    if pre != [] {
      var t := pre + s;
      assert t[0] == pre[0] != pat[0];
      assert t[1..] == pre[1..] + s;
      ReplaceSkipsPrefix(pre[1..], s, pat, rep);
      if |t| >= |pat| {
        assert t[..|pat|] != pat;
        assert Replace(t, pat, rep) == [t[0]] + Replace(t[1..], pat, rep);
      }
      assert [pre[0]] + (pre[1..] + Replace(s, pat, rep)) == pre + Replace(s, pat, rep);
    } else {
      assert pre + s == s;
    }
  }

  /** No occurrence of `pat` starts in `a` and runs past its end. */
  predicate NoneAcross(a: string, b: string, pat: string)
  {
    forall p: nat :: p < |a| < p + |pat| ==> !OccursAt(a + b, pat, p)
  }

  /** Dropping a prefix of `a` keeps occurrences from running past its end. */
  lemma NoneAcrossSuffix(a: string, b: string, pat: string, n: nat)
    requires n <= |a| && NoneAcross(a, b, pat)
    ensures NoneAcross(a[n..], b, pat)
  {
    var a' := a[n..];
    var s := a + b;
    assert s[n..] == a' + b;
    forall p: nat | p < |a'| < p + |pat| ensures !OccursAt(a' + b, pat, p) {
      assert !OccursAt(s, pat, p + n);
      if p + |pat| <= |a' + b| {
        assert (a' + b)[p..p + |pat|] == s[p + n..p + n + |pat|];
      }
    }
  }

  /** Where no occurrence of the pattern starts in `a` and runs past its
      end, the scan over `a + b` is the scan over `a` followed by the scan
      over `b`. */
  lemma {:induction false} ReplaceConcat(a: string, b: string, pat: string, rep: string)
    requires |pat| > 0 && NoneAcross(a, b, pat)
    ensures Replace(a + b, pat, rep) == Replace(a, pat, rep) + Replace(b, pat, rep)
    decreases |a|
  {
    var s := a + b;
    if a == [] {
      assert s == b;
    } else if |s| < |pat| {
      assert Replace(a, pat, rep) == a && Replace(b, pat, rep) == b;
    } else if s[..|pat|] == pat {
      ReplaceConcatMatch(a, b, pat, rep);
    } else {
      ReplaceConcatSkip(a, b, pat, rep);
    }
  }

  lemma {:induction false} ReplaceConcatMatch(a: string, b: string, pat: string, rep: string)
    requires |pat| > 0 && NoneAcross(a, b, pat) && a != [] && |pat| <= |a + b| && (a + b)[..|pat|] == pat
    ensures Replace(a + b, pat, rep) == Replace(a, pat, rep) + Replace(b, pat, rep)
    decreases |a|, 0
  {
    var s := a + b;
    assert |pat| <= |a| by {
      if |a| < |pat| {
        assert OccursAt(s, pat, 0);
      }
    }
    assert a[..|pat|] == pat;
    var a' := a[|pat|..];
    assert s[|pat|..] == a' + b;
    NoneAcrossSuffix(a, b, pat, |pat|);
    ReplaceConcat(a', b, pat, rep);
  }

  lemma {:induction false} ReplaceConcatSkip(a: string, b: string, pat: string, rep: string)
    requires |pat| > 0 && NoneAcross(a, b, pat) && a != [] && |pat| <= |a + b| && (a + b)[..|pat|] != pat
    ensures Replace(a + b, pat, rep) == Replace(a, pat, rep) + Replace(b, pat, rep)
    decreases |a|, 0
  {
    var s := a + b;
    var a' := a[1..];
    assert s[1..] == a' + b;
    NoneAcrossSuffix(a, b, pat, 1);
    ReplaceConcat(a', b, pat, rep);
    if |a| >= |pat| {
      assert a[..|pat|] == s[..|pat|];
    } else {
      assert Replace(a, pat, rep) == a && Replace(a', pat, rep) == a';
    }
    assert [a[0]] + (Replace(a', pat, rep) + Replace(b, pat, rep)) == ([a[0]] + Replace(a', pat, rep)) + Replace(b, pat, rep);
  }

  /** A string that contains a pattern is at least as long as it, and a
      pattern that starts with `p` is found only where `p` is. */
  lemma {:induction false} ContainsPrefixOfPattern(s: string, p: string, pat: string)
    requires p <= pat && Contains(s, pat)
    ensures Contains(s, p)
    decreases |s|
  {
    if s[..|pat|] == pat {
      assert s[..|p|] == pat[..|p|] == p;
    } else {
      ContainsPrefixOfPattern(s[1..], p, pat);
    }
  }

  /** The parts of `s.split(pat)` joined with `pat` give back `s`. */
  lemma {:induction false} JoinSplit(s: string, pat: string)
    requires |pat| > 0
    ensures Join(Split(s, pat), pat) == s
    decreases |s|
  {
    if |s| >= |pat| {
      var parts := Split(s, pat);
      if s[..|pat|] == pat {
        var rest := Split(s[|pat|..], pat);
        assert parts == [""] + rest;
        assert parts[1..] == rest;
        JoinSplit(s[|pat|..], pat);
        assert Join(parts, pat) == "" + pat + Join(rest, pat);
        assert s == s[..|pat|] + s[|pat|..];
      } else {
        var rest := Split(s[1..], pat);
        assert parts == [[s[0]] + rest[0]] + rest[1..];
        JoinSplit(s[1..], pat);
        if |rest| > 1 {
          assert parts[1..] == rest[1..];
          assert Join(rest, pat) == rest[0] + pat + Join(rest[1..], pat);
          assert Join(parts, pat) == ([s[0]] + rest[0]) + pat + Join(rest[1..], pat);
        }
        assert s == [s[0]] + s[1..];
      }
    }
  }

  /** `s.replace(pat, rep)` equals `rep.join(s.split(pat))`: every occurrence
      found by the left-to-right scan is replaced, and nothing else is. */
  lemma {:induction false} ReplaceIsJoinOfSplit(s: string, pat: string, rep: string)
    requires |pat| > 0
    ensures Replace(s, pat, rep) == Join(Split(s, pat), rep)
    decreases |s|
  {
    if |s| >= |pat| {
      if s[..|pat|] == pat {
        ReplaceIsJoinOfSplitMatch(s, pat, rep);
      } else {
        ReplaceIsJoinOfSplitSkip(s, pat, rep);
      }
    }
  }

  lemma {:induction false} ReplaceIsJoinOfSplitMatch(s: string, pat: string, rep: string)
    requires |pat| > 0 && |s| >= |pat| && s[..|pat|] == pat
    ensures Replace(s, pat, rep) == Join(Split(s, pat), rep)
    decreases |s|, 0
  {
    var parts := Split(s, pat);
    var rest := Split(s[|pat|..], pat);
    assert parts == [""] + rest;
    assert parts[1..] == rest;
    ReplaceIsJoinOfSplit(s[|pat|..], pat, rep);
    assert Replace(s, pat, rep) == rep + Replace(s[|pat|..], pat, rep);
    assert Join(parts, rep) == "" + rep + Join(rest, rep);
  }

  lemma {:induction false} ReplaceIsJoinOfSplitSkip(s: string, pat: string, rep: string)
    requires |pat| > 0 && |s| >= |pat| && s[..|pat|] != pat
    ensures Replace(s, pat, rep) == Join(Split(s, pat), rep)
    decreases |s|, 0
  {
    var parts := Split(s, pat);
    var rest := Split(s[1..], pat);
    assert parts == [[s[0]] + rest[0]] + rest[1..];
    ReplaceIsJoinOfSplit(s[1..], pat, rep);
    assert Replace(s, pat, rep) == [s[0]] + Replace(s[1..], pat, rep);
    if |rest| > 1 {
      assert parts[1..] == rest[1..];
      var tail := Join(rest[1..], rep);
      calc {
        Join(parts, rep);
        ([s[0]] + rest[0]) + rep + tail;
        { SeqAssoc3([s[0]], rest[0], rep, tail); }
        [s[0]] + (rest[0] + rep + tail);
        [s[0]] + Join(rest, rep);
      }
    } else {
      assert Join(parts, rep) == [s[0]] + rest[0];
    }
  }

  lemma SeqAssoc3(a: string, b: string, c: string, d: string)
    ensures (a + b) + c + d == a + (b + c + d)
  {
  }

  /** The first part of `s.split(pat)` is a prefix of `s`. */
  lemma {:induction false} SplitHeadIsPrefix(s: string, pat: string)
    requires |pat| > 0
    ensures Split(s, pat)[0] <= s
    decreases |s|
  {
    if |s| >= |pat| && s[..|pat|] != pat {
      SplitHeadIsPrefix(s[1..], pat);
    }
  }

  /** No part of `s.split(pat)` contains `pat`. */
  lemma {:induction false} SplitPartsAvoidPattern(s: string, pat: string)
    requires |pat| > 0
    ensures forall k :: 0 <= k < |Split(s, pat)| ==> !Contains(Split(s, pat)[k], pat)
    decreases |s|
  {
    var parts := Split(s, pat);
    if |s| < |pat| {
      assert parts == [s];
    } else if s[..|pat|] == pat {
      SplitPartsAvoidPattern(s[|pat|..], pat);
      assert !Contains(parts[0], pat) by { assert parts[0] == ""; }
    } else {
      var rest := Split(s[1..], pat);
      SplitPartsAvoidPattern(s[1..], pat);
      SplitHeadIsPrefix(s[1..], pat);
      var head := [s[0]] + rest[0];
      assert head <= s;
      assert !Contains(head, pat) by {
        if |pat| <= |head| {
          assert head[..|pat|] == s[..|pat|];
          assert head[1..] == rest[0];
        }
      }
      forall k | 0 <= k < |parts| ensures !Contains(parts[k], pat) {
        if k > 0 { assert parts[k] == rest[k]; }
      }
    }
  }
}
