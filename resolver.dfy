/** The variable-reference resolver of the mail service: `{key}` placeholders
    inside string values are replaced by the `str()` of the other keys'
    values, in a bounded fixed-point loop over the dictionary. */
module Resolver {
  import opened Text
  import opened Variables

  // ---------------------------------------------------------------------
  // Specification: one pass, and the bounded iteration of passes
  // ---------------------------------------------------------------------

  /** The inner loop over the first `j` entries of the current dictionary:
      each other key's placeholder found in `value` is replaced by that key's
      current value. The entry with the key itself is skipped. */
  function Substitute(current: Vars, key: string, value: string, j: nat): string
    requires j <= |current|
  {
    if j == 0 then value
    else
      var v := Substitute(current, key, value, j - 1);
      var e := current[j - 1];
      if e.key != key && Contains(v, Placeholder(e.key))
      then Replace(v, Placeholder(e.key), Show(e.val))
      else v
  }

  /** The body of the outer `for` loop for the entry `e` at position `i` of
      the current dictionary `w`: a string is rewritten against `w`, a nested
      dictionary gets one pass over its own keys, anything else is left
      alone. The flag says whether position `i` was overwritten. */
  function Step(w: Vars, i: nat, e: Entry): (r: (Vars, bool))
    requires i < |w| && w[i] == e
    ensures |r.0| == |w|
    ensures forall k :: 0 <= k < |w| && k != i ==> r.0[k] == w[k]
    ensures SameEntryShape(r.0[i], e)
    ensures r.1 <==> r.0[i] != e
    decreases e, 0
  {
    match e.val
    case Str(s) =>
      var s' := Substitute(w, e.key, s, |w|);
      if s' != s then (w[i := Entry(e.key, Str(s'))], true) else (w, false)
    case Nested(es) =>
      var es' := Pass(es).0;
      SameShapeHeight(es', es);
      if es' != es then (w[i := Entry(e.key, Nested(es'))], true) else (w, false)
    case Other(_) => (w, false)
  }

  /** The first `i` iterations of one pass, writing each rewritten value back
      into the dictionary at once so that later keys see it. The flag is
      `changes_made`. */
  function PassUpTo(vars: Vars, i: nat): (r: (Vars, bool))
    requires i <= |vars|
    ensures |r.0| == |vars|
    ensures forall k :: i <= k < |vars| ==> r.0[k] == vars[k]
    ensures SameShape(r.0, vars)
    ensures r.1 <==> r.0 != vars
    decreases vars, 1, i
  {
    if i == 0 then (vars, false)
    else
      var (w, changed) := PassUpTo(vars, i - 1);
      var (w', c) := Step(w, i - 1, vars[i - 1]);
      assert w'[i - 1] == vars[i - 1] ==> w' == w;
      assert changed ==> w' != vars by {
        if changed {
          var k :| 0 <= k < |w| && w[k] != vars[k];
          assert k < i - 1 && w'[k] == w[k];
        }
      }
      (w', changed || c)
  }

  /** One full pass over the dictionary (one iteration of the outer loop). */
  function Pass(vars: Vars): (r: (Vars, bool))
    ensures SameShape(r.0, vars)
    ensures r.1 <==> r.0 != vars
    decreases vars, 2
  {
    PassUpTo(vars, |vars|)
  }

  /** At most `maxIterations` passes, stopping after the first pass that
      changes nothing. */
  function Resolve(vars: Vars, maxIterations: int): Vars
    decreases maxIterations
  {
    if maxIterations <= 0 then vars
    else
      var (w, changed) := Pass(vars);
      if !changed then w else Resolve(w, maxIterations - 1)
  }

  /** The number of passes `Resolve` runs. */
  function PassesRun(vars: Vars, maxIterations: int): nat
    decreases maxIterations
  {
    if maxIterations <= 0 then 0
    else
      var (w, changed) := Pass(vars);
      if !changed then 1 else 1 + PassesRun(w, maxIterations - 1)
  }

  // ---------------------------------------------------------------------
  // The method, as the source runs it
  // ---------------------------------------------------------------------

  /** `_process_variable_references`: works on a copy of `variables`, makes
      at most `maxIterations` passes and returns the copy. The ghost `passes`
      counts the passes made. */
  method ProcessVariableReferences(variables: Vars, maxIterations: int) returns (processed: Vars, ghost passes: nat)
    ensures processed == Resolve(variables, maxIterations)
    ensures passes == PassesRun(variables, maxIterations)
    decreases MaxHeight(variables), 1
  {
    processed := variables;
    passes := 0;
    var iteration := 0;
    while iteration < maxIterations
      invariant 0 <= iteration && (iteration <= maxIterations || iteration == 0)
      invariant MaxHeight(processed) == MaxHeight(variables)
      invariant Resolve(variables, maxIterations) == Resolve(processed, maxIterations - iteration)
      invariant PassesRun(variables, maxIterations) == passes + PassesRun(processed, maxIterations - iteration)
      decreases maxIterations - iteration
    {
      ghost var before := processed;
      ghost var remaining := maxIterations - iteration;
      var changesMade;
      processed, changesMade := ProcessPass(processed);
      SameShapeHeight(processed, before);
      ResolveOnePass(before, remaining, processed, changesMade);
      passes := passes + 1;
      if !changesMade {
        break;
      }
      iteration := iteration + 1;
      assert maxIterations - iteration == remaining - 1;
    }
  }

  /** `Resolve` and `PassesRun` after one pass. */
  lemma ResolveOnePass(vars: Vars, n: int, next: Vars, changed: bool)
    requires n > 0 && (next, changed) == Pass(vars)
    ensures changed ==> Resolve(vars, n) == Resolve(next, n - 1) && PassesRun(vars, n) == 1 + PassesRun(next, n - 1)
    ensures !changed ==> Resolve(vars, n) == next && PassesRun(vars, n) == 1
  {
  }

  /** One iteration of the outer loop: every entry in order, each rewritten
      value written back into `processed` at once. */
  method ProcessPass(start: Vars) returns (processed: Vars, changesMade: bool)
    ensures (processed, changesMade) == Pass(start)
    decreases MaxHeight(start), 0
  {
    processed := start;
    changesMade := false;
    var i := 0;
    while i < |processed|
      invariant |processed| == |start| && 0 <= i <= |start|
      invariant (processed, changesMade) == PassUpTo(start, i)
    {
      var key, value := processed[i].key, processed[i].val;
      assert processed[i] == start[i];
      match value {
        case Str(s) =>
          var v := SubstituteReferences(processed, key, s);
          if v != s {
            processed := processed[i := Entry(key, Str(v))];
            changesMade := true;
          }
        case Nested(es) =>
          assert Height(start[i].val) <= MaxHeight(start);
          var nested, _ := ProcessVariableReferences(es, 1);
          NestedIsOnePass(es);
          if nested != es {
            processed := processed[i := Entry(key, Nested(nested))];
            changesMade := true;
          }
        case Other(_) =>
      }
      i := i + 1;
    }
  }

  /** The inner `for` loop: replace the placeholder of every other key found
      in `value` by that key's current value. */
  method SubstituteReferences(processed: Vars, key: string, value: string) returns (v: string)
    ensures v == Substitute(processed, key, value, |processed|)
  {
    v := value;
    var j := 0;
    while j < |processed|
      invariant 0 <= j <= |processed|
      invariant v == Substitute(processed, key, value, j)
    {
      var varKey, varValue := processed[j].key, processed[j].val;
      if varKey != key {
        var placeholder := Placeholder(varKey);
        if Contains(v, placeholder) {
          v := Replace(v, placeholder, Show(varValue));
        }
      }
      j := j + 1;
    }
  }

  /** `Step` on a string entry, once the inner loop's result is known. */
  lemma StepOnString(w: Vars, i: nat, s': string)
    requires i < |w| && w[i].val.Str?
    requires Substitute(w, w[i].key, w[i].val.s, |w|) == s'
    ensures s' == w[i].val.s ==> Step(w, i, w[i]) == (w, false)
    ensures s' != w[i].val.s ==> Step(w, i, w[i]) == (w[i := Entry(w[i].key, Str(s'))], true)
  {
  }

  /** One step of the inner loop, once its effect on the string is known. */
  lemma SubstituteOneMore(w: Vars, key: string, value: string, j: nat, before: string, after: string)
    requires j < |w| && Substitute(w, key, value, j) == before
    requires w[j].key == key || !Contains(before, Placeholder(w[j].key)) ==> after == before
    requires w[j].key != key && Contains(before, Placeholder(w[j].key))
             ==> after == Replace(before, Placeholder(w[j].key), Show(w[j].val))
    ensures Substitute(w, key, value, j + 1) == after
  {
  }

  // ---------------------------------------------------------------------
  // Properties
  // ---------------------------------------------------------------------

  /** A nested dictionary resolved with `max_iterations=1` gets exactly one
      pass over its own keys. */
  lemma NestedIsOnePass(es: Vars)
    ensures Resolve(es, 1) == Pass(es).0
    ensures PassesRun(es, 1) == 1
  {
  }

  /** Resolution keeps the keys, their order and the kind of every value;
      a value that is neither a string nor a dictionary is passed through. */
  lemma {:induction false} ResolveKeepsShape(vars: Vars, maxIterations: int)
    ensures SameShape(Resolve(vars, maxIterations), vars)
    ensures Keys(Resolve(vars, maxIterations)) == Keys(vars)
    decreases maxIterations
  {
    if maxIterations > 0 {
      var (w, changed) := Pass(vars);
      if changed {
        ResolveKeepsShape(w, maxIterations - 1);
      }
    }
    SameShapeKeys(Resolve(vars, maxIterations), vars);
  }

  /** At most `maxIterations` passes are made, at least one when the bound
      is positive, and stopping before the bound happens only at a fixed
      point: one more pass would change nothing. */
  lemma {:induction false} PassesBounded(vars: Vars, maxIterations: int)
    ensures maxIterations <= 0 ==> PassesRun(vars, maxIterations) == 0 && Resolve(vars, maxIterations) == vars
    ensures maxIterations > 0 ==> 1 <= PassesRun(vars, maxIterations) <= maxIterations
    ensures PassesRun(vars, maxIterations) < maxIterations ==>
              Pass(Resolve(vars, maxIterations)) == (Resolve(vars, maxIterations), false)
    decreases maxIterations
  {
    if maxIterations > 0 {
      var (w, changed) := Pass(vars);
      if changed {
        PassesBounded(w, maxIterations - 1);
      }
    }
  }

  /** Self-reference exclusion: the value stored under `key` itself never
      influences the rewriting of `key`'s string. */
  lemma {:induction false} OwnEntryIgnored(w: Vars, w': Vars, key: string, value: string, j: nat)
    requires j <= |w| == |w'|
    requires forall k :: 0 <= k < |w| ==> w[k].key == w'[k].key
    requires forall k :: 0 <= k < |w| && w[k].key != key ==> w[k].val == w'[k].val
    ensures Substitute(w, key, value, j) == Substitute(w', key, value, j)
  {
    if j > 0 {
      OwnEntryIgnored(w, w', key, value, j - 1);
    }
  }

  /** A key alone in its dictionary keeps its string, even one holding its
      own placeholder such as `{"x": "{x}"}`. */
  lemma {:induction false} SelfReferenceKept(x: string, s: string, maxIterations: int)
    ensures Resolve([Entry(x, Str(s))], maxIterations) == [Entry(x, Str(s))]
  {
    var vars := [Entry(x, Str(s))];
    assert Substitute(vars, x, s, 1) == s by {
      assert Substitute(vars, x, s, 0) == s;
    }
    assert PassUpTo(vars, 1) == (vars, false) by {
      assert PassUpTo(vars, 0) == (vars, false);
      assert Step(vars, 0, vars[0]) == (vars, false);
    }
  }

  /** No string value of the dictionary holds the placeholder of another of
      its keys, and the same holds inside every nested dictionary. */
  predicate Resolved(vars: Vars)
  {
    && (forall i, j :: 0 <= i < |vars| && 0 <= j < |vars| && vars[i].val.Str? && vars[i].key != vars[j].key
          ==> !Contains(vars[i].val.s, Placeholder(vars[j].key)))
    && (forall i :: 0 <= i < |vars| && vars[i].val.Nested? ==> Resolved(vars[i].val.entries))
  }

  /** A string that holds no placeholder of another key survives the inner
      loop unchanged. */
  lemma {:induction false} SubstituteNothingToDo(vars: Vars, key: string, value: string, j: nat)
    requires j <= |vars|
    requires forall k :: 0 <= k < |vars| && vars[k].key != key ==> !Contains(value, Placeholder(vars[k].key))
    ensures Substitute(vars, key, value, j) == value
  {
    if j > 0 {
      SubstituteNothingToDo(vars, key, value, j - 1);
    }
  }

  /** A pass over a resolved dictionary changes nothing. */
  lemma {:induction false} PassOnResolved(vars: Vars, i: nat)
    requires i <= |vars| && Resolved(vars)
    ensures PassUpTo(vars, i) == (vars, false)
    decreases vars, i
  {
    if i > 0 {
      PassOnResolved(vars, i - 1);
      var e := vars[i - 1];
      match e.val {
        case Str(s) =>
          forall k | 0 <= k < |vars| && vars[k].key != e.key
            ensures !Contains(s, Placeholder(vars[k].key))
          {
          }
          SubstituteNothingToDo(vars, e.key, s, |vars|);
        case Nested(es) =>
          assert Resolved(es);
          PassOnResolved(es, |es|);
          assert Pass(es).0 == es;
          assert Step(vars, i - 1, e) == (vars, false);
        case Other(_) =>
      }
    }
  }

  /** Idempotence: resolving an already resolved dictionary returns it
      unchanged after a single pass. */
  lemma ResolveResolved(vars: Vars, maxIterations: int)
    requires Resolved(vars)
    ensures Resolve(vars, maxIterations) == vars
    ensures PassesRun(vars, maxIterations) == if maxIterations > 0 then 1 else 0
  {
    PassOnResolved(vars, |vars|);
  }

  /** A string without `{` holds no placeholder. */
  lemma NoBraceNoPlaceholder(s: string, key: string)
    requires '{' !in s
    ensures !Contains(s, Placeholder(key))
  {
    ReplaceSkipsPrefix(s, "", Placeholder(key), "");
    assert s + "" == s;
  }

  /** Entries whose values are strings without an opening brace are left
      alone by a pass. */
  lemma {:induction false} PassSkipsPlain(vars: Vars, i: nat)
    requires i <= |vars|
    requires forall k :: 0 <= k < i ==> vars[k].val.Str? && '{' !in vars[k].val.s
    ensures PassUpTo(vars, i) == (vars, false)
    decreases i
  {
    if i > 0 {
      PassSkipsPlain(vars, i - 1);
      var e := vars[i - 1];
      forall k | 0 <= k < |vars| && vars[k].key != e.key
        ensures !Contains(e.val.s, Placeholder(vars[k].key))
      {
        NoBraceNoPlaceholder(e.val.s, vars[k].key);
      }
      SubstituteNothingToDo(vars, e.key, e.val.s, |vars|);
    }
  }
}
