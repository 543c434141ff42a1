/** Why one pass of the resolver is enough for a chain of references: the
    outer loop writes every rewritten value back into the dictionary before
    the later keys are read, so a value that refers only to keys before it
    sees them already resolved. */
module Chains {
  import opened Wrappers
  import opened Text
  import opened Variables
  import opened Resolver
  import opened Pieces

  /** Entry `i` refers only to the keys that come before it. */
  predicate RefersBack(ps: seq<Piece>, vars: Vars, i: nat)
    requires i <= |vars|
  {
    forall k :: 0 <= k < |ps| && ps[k].Ref? ==> ps[k].name in Keys(vars[..i])
  }

  /** A dictionary of strings with distinct brace-free keys in which every
      value is the text of its pieces in `shapes` and refers only to earlier
      keys, as in `{a: "A", b: "{a}B", c: "{b}C"}`. */
  predicate ForwardChain(vars: Vars, shapes: seq<seq<Piece>>)
  {
    && |shapes| == |vars|
    && DistinctKeys(vars) && BraceFreeKeys(vars)
    && forall i :: 0 <= i < |vars| ==>
         && vars[i].val == Str(Assemble(shapes[i], false))
         && WellFormed(shapes[i])
         && RefersBack(shapes[i], vars, i)
  }

  /** Position `k` of `w` holds the pieces of entry `k` with every reference
      replaced by the value `w` itself holds for the named key. */
  predicate Filled(w: Vars, shapes: seq<seq<Piece>>, k: nat)
    requires k < |w| && k < |shapes|
  {
    w[k].val == Str(Assemble(Fill(shapes[k], w, Some(w[k].key)), false))
  }

  /** `w` has the keys of `vars`, in the same order. */
  predicate SameKeys(w: Vars, vars: Vars)
  {
    |w| == |vars| && forall k :: 0 <= k < |vars| ==> w[k].key == vars[k].key
  }

  /** The first `i` values of `w` are strings without an opening brace. */
  predicate PlainBefore(w: Vars, i: nat)
  {
    i <= |w| && forall k :: 0 <= k < i ==> w[k].val.Str? && '{' !in w[k].val.s
  }

  /** The dictionary after the first `i` steps of a pass over a forward
      chain: the keys are in place, the entries from `i` on are untouched,
      and the entries before `i` are filled strings without an opening
      brace. */
  predicate ChainInvariant(vars: Vars, shapes: seq<seq<Piece>>, w: Vars, i: nat)
  {
    && ForwardChain(vars, shapes) && i <= |vars| && SameKeys(w, vars)
    && (forall k :: i <= k < |vars| ==> w[k] == vars[k])
    && PlainBefore(w, i)
    && (forall k :: 0 <= k < i ==> Filled(w, shapes, k))
  }

  /** A text of literals without an opening brace has none. */
  lemma {:induction false} AssembleLiterals(ps: seq<Piece>, double: bool)
    requires WellFormed(ps) && forall k :: 0 <= k < |ps| ==> ps[k].Lit?
    ensures '{' !in Assemble(ps, double)
    decreases |ps|
  {
    if ps != [] {
      assert ps[0].Lit? && '{' !in ps[0].text;
      assert WellFormed(ps[1..]) && forall k :: 0 <= k < |ps| - 1 ==> ps[1..][k].Lit? by {
        forall k | 0 <= k < |ps| - 1 ensures ps[1..][k] == ps[k + 1] { }
      }
      AssembleLiterals(ps[1..], double);
    }
  }

  /** Filling reads only the values of the referenced keys. */
  lemma FillAgrees(ps: seq<Piece>, a: Vars, b: Vars, self: Option<string>)
    requires forall k :: 0 <= k < |ps| && ps[k].Ref? ==> Lookup(a, ps[k].name) == Lookup(b, ps[k].name)
    ensures Fill(ps, a, self) == Fill(ps, b, self)
  {
    assert forall k :: 0 <= k < |ps| ==> Fill(ps, a, self)[k] == Fill(ps, b, self)[k];
  }

  /** Two dictionaries with the keys of `vars` that agree on their first `m`
      entries look up every key among the first `m` alike. */
  lemma LookupEarlier(vars: Vars, a: Vars, b: Vars, m: nat, n: string)
    requires m <= |vars| == |a| == |b| && DistinctKeys(vars)
    requires forall k :: 0 <= k < |vars| ==> a[k].key == vars[k].key && b[k].key == vars[k].key
    requires forall k :: 0 <= k < m ==> a[k] == b[k]
    requires n in Keys(vars[..m])
    ensures exists j :: 0 <= j < m && vars[j].key == n && Lookup(a, n) == Some(a[j].val) && a[j] == b[j]
    ensures Lookup(a, n) == Lookup(b, n)
  {
    var j :| 0 <= j < m && Keys(vars[..m])[j] == n;
    assert vars[..m][j].key == n;
    assert DistinctKeys(a) && DistinctKeys(b);
    LookupAt(a, j);
    LookupAt(b, j);
  }

  /** In step `m` every reference of entry `m` names an earlier key, which
      is not the entry's own and already holds a string without `{`. */
  lemma RefResolved(vars: Vars, w: Vars, m: nat, n: string)
    requires DistinctKeys(vars) && SameKeys(w, vars) && PlainBefore(w, m) && m < |vars|
    requires n in Keys(vars[..m])
    ensures n != w[m].key
    ensures Lookup(w, n).Some? && Lookup(w, n).value.Str? && '{' !in Lookup(w, n).value.s
  {
    LookupEarlier(vars, w, w, m, n);
    var j :| 0 <= j < m && vars[j].key == n && Lookup(w, n) == Some(w[j].val);
  }

  /** The references of entry `m` are plain in the dictionary of step `m`. */
  lemma RefsPlain(vars: Vars, w: Vars, m: nat, ps: seq<Piece>)
    requires DistinctKeys(vars) && SameKeys(w, vars) && PlainBefore(w, m) && m < |vars|
    requires RefersBack(ps, vars, m)
    ensures PlainRefs(ps, w, Some(vars[m].key))
  {
    forall k | 0 <= k < |ps| && ps[k].Ref? && Some(vars[m].key) != Some(ps[k].name) && ps[k].name in Keys(w)
      ensures '{' !in Show(Lookup(w, ps[k].name).value)
    {
      RefResolved(vars, w, m, ps[k].name);
    }
  }

  /** Entry `m` filled in the dictionary of step `m` is literal text only. */
  lemma FilledIsLiteral(vars: Vars, w: Vars, m: nat, ps: seq<Piece>)
    requires DistinctKeys(vars) && SameKeys(w, vars) && PlainBefore(w, m) && m < |vars|
    requires RefersBack(ps, vars, m)
    ensures forall k :: 0 <= k < |ps| ==> Fill(ps, w, Some(vars[m].key))[k].Lit?
  {
    forall k | 0 <= k < |ps| ensures Fill(ps, w, Some(vars[m].key))[k].Lit? {
      if ps[k].Ref? {
        RefResolved(vars, w, m, ps[k].name);
      }
    }
  }

  /** Step `m` of the pass fills entry `m` from the entries before it. */
  lemma StepFills(vars: Vars, w: Vars, m: nat, ps: seq<Piece>)
    requires DistinctKeys(vars) && BraceFreeKeys(vars) && SameKeys(w, vars) && PlainBefore(w, m) && m < |vars|
    requires WellFormed(ps) && RefersBack(ps, vars, m)
    ensures var s' := Assemble(Fill(ps, w, Some(vars[m].key)), false);
      '{' !in s' && Substitute(w, vars[m].key, Assemble(ps, false), |w|) == s'
  {
    var self := Some(vars[m].key);
    assert DistinctKeys(w) && BraceFreeKeys(w);
    RefsPlain(vars, w, m, ps);
    SubstitutePieces(w, vars[m].key, ps, |w|);
    assert w[..|w|] == w;
    FillWellFormed(ps, w, self);
    FilledIsLiteral(vars, w, m, ps);
    AssembleLiterals(Fill(ps, w, self), false);
  }

  /** Entries filled before a step stay filled after it: the step writes
      only position `m`, and they refer only to earlier positions. */
  lemma StillFilled(vars: Vars, shapes: seq<seq<Piece>>, w: Vars, w': Vars, m: nat, k: nat)
    requires ForwardChain(vars, shapes) && m < |vars| && k <= m
    requires SameKeys(w, vars) && SameKeys(w', vars)
    requires forall j :: 0 <= j < m ==> w'[j] == w[j]
    ensures Fill(shapes[k], w, Some(vars[k].key)) == Fill(shapes[k], w', Some(vars[k].key))
  {
    var ps := shapes[k];
    assert RefersBack(ps, vars, k);
    forall i | 0 <= i < |ps| && ps[i].Ref? ensures Lookup(w, ps[i].name) == Lookup(w', ps[i].name) {
      assert ps[i].name in Keys(vars[..k]);
      var j :| 0 <= j < k && Keys(vars[..k])[j] == ps[i].name;
      assert Keys(vars[..m])[j] == ps[i].name;
      LookupEarlier(vars, w, w', m, ps[i].name);
    }
    FillAgrees(ps, w, w', Some(vars[k].key));
  }

  /** Writing the filled entry `m` back keeps the invariant, one position
      further on. */
  lemma WriteBack(vars: Vars, shapes: seq<seq<Piece>>, w: Vars, m: nat, s': string)
    requires ChainInvariant(vars, shapes, w, m) && m < |vars|
    requires '{' !in s' && s' == Assemble(Fill(shapes[m], w, Some(vars[m].key)), false)
    ensures ChainInvariant(vars, shapes, w[m := Entry(vars[m].key, Str(s'))], m + 1)
  {
    var w' := w[m := Entry(vars[m].key, Str(s'))];
    assert SameKeys(w', vars);
    forall k | 0 <= k <= m ensures Filled(w', shapes, k) {
      StillFilled(vars, shapes, w, w', m, k);
      if k < m {
        assert Filled(w, shapes, k) && w'[k] == w[k];
      }
    }
  }

  /** One step of the pass keeps the invariant, one position further on. */
  lemma ChainStep(vars: Vars, shapes: seq<seq<Piece>>, w: Vars, m: nat)
    requires ChainInvariant(vars, shapes, w, m) && m < |vars|
    ensures ChainInvariant(vars, shapes, Step(w, m, vars[m]).0, m + 1)
  {
    var e := vars[m];
    var ps := shapes[m];
    assert e.val == Str(Assemble(ps, false)) && WellFormed(ps) && RefersBack(ps, vars, m);
    StepFills(vars, w, m, ps);
    var s' := Assemble(Fill(ps, w, Some(e.key)), false);
    assert Step(w, m, e).0 == w[m := Entry(e.key, Str(s'))] by {
      if s' == e.val.s {
        assert w[m := Entry(e.key, Str(s'))] == w;
      }
    }
    WriteBack(vars, shapes, w, m, s');
  }

  /** The first `i` steps of a pass over a forward chain. */
  lemma {:induction false} ChainPassUpTo(vars: Vars, shapes: seq<seq<Piece>>, i: nat)
    requires ForwardChain(vars, shapes) && i <= |vars|
    ensures ChainInvariant(vars, shapes, PassUpTo(vars, i).0, i)
    decreases i
  {
    if i > 0 {
      var w := PassUpTo(vars, i - 1).0;
      assert PassUpTo(vars, i).0 == Step(w, i - 1, vars[i - 1]).0;
      ChainPassUpTo(vars, shapes, i - 1);
      ChainStep(vars, shapes, w, i - 1);
    } else {
      assert PassUpTo(vars, 0).0 == vars;
    }
  }

  /** Strings without an opening brace hold no placeholder. */
  lemma PlainIsResolved(w: Vars)
    requires forall k :: 0 <= k < |w| ==> w[k].val.Str? && '{' !in w[k].val.s
    ensures Resolved(w)
  {
    forall i, j | 0 <= i < |w| && 0 <= j < |w| && w[i].val.Str? && w[i].key != w[j].key
      ensures !Contains(w[i].val.s, Placeholder(w[j].key))
    {
      NoBraceNoPlaceholder(w[i].val.s, w[j].key);
    }
  }

  /** A forward chain is fully substituted by the first pass: every value
      becomes its pieces with each reference replaced by the final value of
      the key it names, no value keeps an opening brace, the result is
      resolved, and a second pass, when one runs, changes nothing. */
  lemma ChainResolves(vars: Vars, shapes: seq<seq<Piece>>, maxIterations: int)
    requires ForwardChain(vars, shapes) && maxIterations >= 1
    ensures Resolve(vars, maxIterations) == Pass(vars).0
    ensures var r := Resolve(vars, maxIterations);
      && Resolved(r) && |r| == |vars|
      && forall k :: 0 <= k < |vars| ==>
           r[k].key == vars[k].key && r[k].val.Str? && '{' !in r[k].val.s && Filled(r, shapes, k)
    ensures PassesRun(vars, maxIterations) == if Pass(vars).1 && maxIterations >= 2 then 2 else 1
  {
    ChainPassUpTo(vars, shapes, |vars|);
    var w := Pass(vars).0;
    PlainIsResolved(w);
    if Pass(vars).1 {
      ResolveResolved(w, maxIterations - 1);
    }
  }
}
