/** The values the template engine works on: a Python `Dict[str, Any]` whose
    values are strings, nested dictionaries or anything else. Python
    dictionaries keep insertion order and the resolver's result depends on
    that order, so a dictionary is an association list of entries. */
module Variables {
  import opened Wrappers

  datatype Value =
    | Str(s: string)              // a Python `str`
    | Nested(entries: seq<Entry>) // a Python `dict`
    | Other(text: string)         // any other value, with its `str()` form

  datatype Entry = Entry(key: string, val: Value)

  /** An ordered Python dictionary. */
  type Vars = seq<Entry>

  /** The keys of a dictionary, in iteration order. */
  function Keys(vars: Vars): (ks: seq<string>)
    ensures |ks| == |vars|
    ensures forall k :: 0 <= k < |vars| ==> ks[k] == vars[k].key
  {
    if vars == [] then [] else Keys(vars[..|vars| - 1]) + [vars[|vars| - 1].key]
  }

  /** A Python dictionary never holds a key twice. */
  predicate DistinctKeys(vars: Vars)
  {
    forall i, j :: 0 <= i < j < |vars| ==> vars[i].key != vars[j].key
  }

  /** `d.get(key)`. */
  function Lookup(vars: Vars, key: string): (r: Option<Value>)
    ensures r.None? <==> key !in Keys(vars)
    ensures r.Some? ==> exists k :: 0 <= k < |vars| && vars[k] == Entry(key, r.value)
  {
    if vars == [] then None
    else if vars[|vars| - 1].key == key then Some(vars[|vars| - 1].val)
    else Lookup(vars[..|vars| - 1], key)
  }

  lemma LookupSnoc(d: Vars, e: Entry, key: string)
    ensures Lookup(d + [e], key) == if e.key == key then Some(e.val) else Lookup(d, key)
  {
    assert (d + [e])[..|d|] == d;
  }

  /** Looking a key up from the front of the dictionary. */
  lemma {:induction false} LookupCons(e: Entry, es: Vars, key: string)
    ensures Lookup([e] + es, key)
         == if key in Keys(es) then Lookup(es, key) else if e.key == key then Some(e.val) else None
    decreases |es|
  {
    var ees := [e] + es;
    if es == [] {
      assert ees[..0] == [];
    } else {
      var n := |es| - 1;
      var init := es[..n];
      assert ees[..|ees| - 1] == [e] + init;
      assert es[..|es| - 1] == init;
      LookupCons(e, init, key);
      assert key in Keys(es) <==> key in Keys(init) || key == es[n].key by {
        assert Keys(es) == Keys(init) + [es[n].key];
      }
      if es[n].key != key {
        assert Lookup(ees, key) == Lookup([e] + init, key);
        assert Lookup(es, key) == Lookup(init, key);
      }
    }
  }

  /** Overwriting the value of an existing key of a dictionary whose keys
      are distinct. */
  lemma {:induction false} LookupUpdate(d: Vars, i: nat, e: Entry, key: string)
    requires i < |d| && d[i].key == e.key && DistinctKeys(d)
    ensures Lookup(d[i := e], key) == if e.key == key then Some(e.val) else Lookup(d, key)
    decreases |d|
  {
    var n := |d| - 1;
    assert d == d[..n] + [d[n]];
    if i == n {
      assert d[i := e] == d[..n] + [e];
      LookupSnoc(d[..n], e, key);
      LookupSnoc(d[..n], d[n], key);
    } else {
      assert d[i := e] == d[..n][i := e] + [d[n]];
      assert DistinctKeys(d[..n]);
      LookupUpdate(d[..n], i, e, key);
      LookupSnoc(d[..n][i := e], d[n], key);
      LookupSnoc(d[..n], d[n], key);
    }
  }

  /** In a dictionary with distinct keys, looking up the key at position
      `i` finds the value at position `i`. */
  lemma {:induction false} LookupAt(vars: Vars, i: nat)
    requires DistinctKeys(vars) && i < |vars|
    ensures Lookup(vars, vars[i].key) == Some(vars[i].val)
    decreases |vars|
  {
    var n := |vars| - 1;
    if i < n {
      assert DistinctKeys(vars[..n]);
      assert vars[..n][i] == vars[i];
      LookupAt(vars[..n], i);
    }
  }

  /** Two dictionaries with distinct keys and no key in common concatenate
      into one with distinct keys. */
  lemma DistinctAppend(a: Vars, b: Vars)
    requires DistinctKeys(a) && DistinctKeys(b)
    requires forall i, j :: 0 <= i < |a| && 0 <= j < |b| ==> a[i].key != b[j].key
    ensures DistinctKeys(a + b)
  {
    forall i, j | 0 <= i < j < |a + b| ensures (a + b)[i].key != (a + b)[j].key {
      if j < |a| {
        assert (a + b)[i] == a[i] && (a + b)[j] == a[j];
      } else if i < |a| {
        assert (a + b)[i] == a[i] && (a + b)[j] == b[j - |a|];
      } else {
        assert (a + b)[i] == b[i - |a|] && (a + b)[j] == b[j - |a|];
      }
    }
  }

  /** The position of the first entry with `key`. */
  function IndexOf(d: Vars, key: string): (i: nat)
    requires key in Keys(d)
    ensures i < |d| && d[i].key == key
    ensures forall j :: 0 <= j < i ==> d[j].key != key
  {
    if d[0].key == key then 0
    else
      assert key in Keys(d[1..]) by {
        var k :| 0 <= k < |d| && Keys(d)[k] == key;
        assert Keys(d[1..])[k - 1] == d[k].key;
      }
      1 + IndexOf(d[1..], key)
  }

  /** `d[key] = value`: an existing key keeps its position and gets the new
      value, a new key goes to the end. */
  function Assign(d: Vars, e: Entry): (r: Vars)
    ensures |r| == if e.key in Keys(d) then |d| else |d| + 1
    ensures forall j :: 0 <= j < |d| ==> r[j].key == d[j].key
    ensures r[|r| - 1].key == e.key || e.key in Keys(d)
    ensures DistinctKeys(d) ==> DistinctKeys(r)
    ensures DistinctKeys(d) ==> forall key :: Lookup(r, key) == if e.key == key then Some(e.val) else Lookup(d, key)
  {
    if e.key in Keys(d) then
      var i := IndexOf(d, e.key);
      var r := d[i := e];
      assert DistinctKeys(d) ==> forall key :: Lookup(r, key) == if e.key == key then Some(e.val) else Lookup(d, key) by {
        if DistinctKeys(d) {
          forall key ensures Lookup(r, key) == if e.key == key then Some(e.val) else Lookup(d, key) {
            LookupUpdate(d, i, e, key);
          }
        }
      }
      r
    else
      var r := d + [e];
      assert forall key :: Lookup(r, key) == if e.key == key then Some(e.val) else Lookup(d, key) by {
        forall key ensures Lookup(r, key) == if e.key == key then Some(e.val) else Lookup(d, key) {
          LookupSnoc(d, e, key);
        }
      }
      assert DistinctKeys(d) ==> DistinctKeys(r) by {
        if DistinctKeys(d) {
          forall i, j | 0 <= i < j < |r| ensures r[i].key != r[j].key {
            if j == |d| {
              assert Keys(d)[i] == d[i].key;
            }
          }
        }
      }
      r
  }

  /** The keys of a non-empty dictionary, from the front. */
  lemma KeysFront(es: Vars)
    requires es != []
    ensures Keys(es) == [es[0].key] + Keys(es[1..])
  {
  }

  /** `for e in es: d[e.key] = e.val`. Every key ends up with its last value
      in `es`, keys not in `es` keep theirs, and the keys already in `d`
      keep their positions. */
  function AssignAll(d: Vars, es: seq<Entry>): (r: Vars)
    ensures |r| >= |d|
    ensures forall j :: 0 <= j < |d| ==> r[j].key == d[j].key
    ensures DistinctKeys(d) ==> DistinctKeys(r)
    ensures DistinctKeys(d) ==> forall key :: Lookup(r, key) == if key in Keys(es) then Lookup(es, key) else Lookup(d, key)
    decreases |es|, 1
  {
    if es == [] then d
    else
      var d1 := Assign(d, es[0]);
      var r := AssignAll(d1, es[1..]);
      assert DistinctKeys(d) ==> forall key :: Lookup(r, key) == if key in Keys(es) then Lookup(es, key) else Lookup(d, key) by {
        if DistinctKeys(d) {
          forall key ensures Lookup(r, key) == if key in Keys(es) then Lookup(es, key) else Lookup(d, key) {
            AssignAllFirst(d, es, key);
          }
        }
      }
      r
  }

  /** The step of `AssignAll` that assigns the first entry. */
  lemma AssignAllFirst(d: Vars, es: seq<Entry>, key: string)
    requires es != [] && DistinctKeys(d)
    ensures Lookup(AssignAll(Assign(d, es[0]), es[1..]), key) == if key in Keys(es) then Lookup(es, key) else Lookup(d, key)
    decreases |es|, 0
  {
    LookupCons(es[0], es[1..], key);
    assert [es[0]] + es[1..] == es;
    KeysFront(es);
  }

  /** Assigning entries whose keys are all new appends them in order. */
  lemma {:induction false} AssignAllFresh(d: Vars, es: seq<Entry>)
    requires DistinctKeys(d + es)
    ensures AssignAll(d, es) == d + es
    decreases |es|
  {
    if es != [] {
      assert es[0].key !in Keys(d) by {
        forall k | 0 <= k < |d| ensures Keys(d)[k] != es[0].key {
          assert (d + es)[k] == d[k] && (d + es)[|d|] == es[0];
        }
      }
      assert d + [es[0]] + es[1..] == d + es;
      AssignAllFresh(d + [es[0]], es[1..]);
    }
  }

  /** The placeholder `{key}` that the resolver substitutes. */
  function Placeholder(key: string): (p: string)
    ensures |p| == |key| + 2 && p[0] == '{'
  {
    "{" + key + "}"
  }

  /** Python's `str(value)`. A nested dictionary prints in Python's
      `{'k': v, ...}` form, its strings quoted. */
  function Show(v: Value): string
  {
    match v
    case Str(s) => s
    case Other(t) => t
    case Nested(es) => "{" + ShowItems(es) + "}"
  }

  /** Python's `repr(value)` as used inside a printed dictionary. */
  function ShowRepr(v: Value): string
  {
    match v
    case Str(s) => "'" + s + "'"
    case Other(t) => t
    case Nested(es) => "{" + ShowItems(es) + "}"
  }

  function ShowItems(es: seq<Entry>): string
  {
    if es == [] then ""
    else
      var item := "'" + es[0].key + "': " + ShowRepr(es[0].val);
      if |es| == 1 then item else item + ", " + ShowItems(es[1..])
  }

  /** How deep dictionaries are nested inside a value. */
  function Height(v: Value): nat
  {
    match v
    case Nested(es) => 1 + MaxHeight(es)
    case _ => 0
  }

  function MaxHeight(es: seq<Entry>): (h: nat)
    ensures forall k :: 0 <= k < |es| ==> Height(es[k].val) <= h
  {
    if es == [] then 0
    else
      var last := Height(es[|es| - 1].val);
      var init := MaxHeight(es[..|es| - 1]);
      assert forall k :: 0 <= k < |es| - 1 ==> es[k] == es[..|es| - 1][k];
      if last < init then init else last
  }

  /** Two dictionaries with the same keys in the same order, and at each
      position a value of the same kind and nesting height; an `Other` value
      is identical. */
  predicate SameShape(a: Vars, b: Vars)
  {
    && |a| == |b|
    && forall k :: 0 <= k < |a| ==> SameEntryShape(a[k], b[k])
  }

  predicate SameEntryShape(x: Entry, y: Entry)
  {
    && x.key == y.key
    && x.val.Str? == y.val.Str?
    && x.val.Nested? == y.val.Nested?
    && (x.val.Other? ==> x.val == y.val)
    && Height(x.val) == Height(y.val)
  }

  lemma {:induction false} SameShapeKeys(a: Vars, b: Vars)
    requires SameShape(a, b)
    ensures Keys(a) == Keys(b)
  {
  }

  lemma {:induction false} SameShapeHeight(a: Vars, b: Vars)
    requires SameShape(a, b)
    ensures MaxHeight(a) == MaxHeight(b)
    decreases |a|
  {
    if a != [] {
      var n := |a| - 1;
      assert SameShape(a[..n], b[..n]) by {
        forall k | 0 <= k < n ensures SameEntryShape(a[..n][k], b[..n][k]) {
          assert a[..n][k] == a[k] && b[..n][k] == b[k];
        }
      }
      SameShapeHeight(a[..n], b[..n]);
    }
  }
}
