/** Templates read as a sequence of pieces: literal text without an opening
    brace, and references to a name written `{name}` (a variable reference
    inside a value) or `{{name}}` (a token in an HTML template). On such
    text, replacing the wrapped form of one name is the same as turning
    that name's references into literal text, which gives the resolver and
    the renderer a reference definition to be compared with. */
module Pieces {
  import opened Wrappers
  import opened Text
  import opened Variables
  import opened Resolver

  datatype Piece = Lit(text: string) | Ref(name: string)

  /** A name that contains no brace at all. */
  predicate BraceFree(s: string)
  {
    '{' !in s && '}' !in s
  }

  /** `{name}` when `double` is false, `{{name}}` when it is true. */
  function Wrap(name: string, double: bool): (w: string)
    ensures |w| >= 2 && w[0] == '{'
  {
    if double then "{" + Placeholder(name) + "}" else Placeholder(name)
  }

  /** The text of one piece. */
  function Spell(p: Piece, double: bool): string
  {
    match p
    case Lit(t) => t
    case Ref(n) => Wrap(n, double)
  }

  /** The text the pieces spell. */
  function Assemble(ps: seq<Piece>, double: bool): string
  {
    if ps == [] then "" else Spell(ps[0], double) + Assemble(ps[1..], double)
  }

  lemma AssembleCons(p: Piece, rest: seq<Piece>, double: bool)
    ensures Assemble([p] + rest, double) == Spell(p, double) + Assemble(rest, double)
  {
    assert ([p] + rest)[1..] == rest;
  }

  /** Literal text has no opening brace; references name brace-free keys. */
  predicate WellFormed(ps: seq<Piece>)
  {
    forall k :: 0 <= k < |ps| ==>
      (ps[k].Lit? ==> '{' !in ps[k].text) && (ps[k].Ref? ==> BraceFree(ps[k].name))
  }

  /** Every reference to `key` becomes the literal text `rep`. */
  function Subst(ps: seq<Piece>, key: string, rep: string): (r: seq<Piece>)
    ensures |r| == |ps|
  {
    if ps == [] then []
    else [if ps[0] == Ref(key) then Lit(rep) else ps[0]] + Subst(ps[1..], key, rep)
  }

  /** A reference to a key of `vars` other than `self` becomes the `str()`
      of that key's value; literal text, references to unknown names and
      references to `self` stay as they are. */
  function FillOne(p: Piece, vars: Vars, self: Option<string>): Piece
  {
    match p
    case Lit(_) => p
    case Ref(n) =>
      if self == Some(n) then p
      else match Lookup(vars, n)
        case Some(v) => Lit(Show(v))
        case None => p
  }

  /** `FillOne` on every piece. */
  function Fill(ps: seq<Piece>, vars: Vars, self: Option<string>): (r: seq<Piece>)
    ensures |r| == |ps|
    ensures forall k :: 0 <= k < |ps| ==> r[k] == FillOne(ps[k], vars, self)
  {
    if ps == [] then []
    else [FillOne(ps[0], vars, self)] + Fill(ps[1..], vars, self)
  }

  predicate BraceFreeKeys(vars: Vars)
  {
    forall k :: 0 <= k < |vars| ==> BraceFree(vars[k].key)
  }

  /** Every reference of `ps` that filling replaces, one to a key of `vars`
      other than `self`, names a value that prints without an opening
      brace. Values that no piece refers to may print as they like. */
  predicate PlainRefs(ps: seq<Piece>, vars: Vars, self: Option<string>)
  {
    forall k :: 0 <= k < |ps| && ps[k].Ref? && self != Some(ps[k].name) && ps[k].name in Keys(vars)
      ==> '{' !in Show(Lookup(vars, ps[k].name).value)
  }

  /** What the loops need of a text and a dictionary to be read as pieces:
      distinct brace-free keys, well-formed pieces and plain referenced
      values. */
  predicate Fillable(ps: seq<Piece>, vars: Vars, self: Option<string>)
  {
    DistinctKeys(vars) && BraceFreeKeys(vars) && WellFormed(ps) && PlainRefs(ps, vars, self)
  }

  /** A dictionary whose keys are brace-free and whose values, except the
      value of `self`, print without an opening brace. */
  predicate PlainExcept(vars: Vars, self: Option<string>)
  {
    forall k :: 0 <= k < |vars| ==>
      BraceFree(vars[k].key) && (self != Some(vars[k].key) ==> '{' !in Show(vars[k].val))
  }

  predicate PlainVars(vars: Vars)
  {
    PlainExcept(vars, None)
  }

  /** In a dictionary of plain values every reference is plain. */
  lemma PlainExceptCoversRefs(vars: Vars, self: Option<string>, ps: seq<Piece>)
    requires PlainExcept(vars, self)
    ensures BraceFreeKeys(vars) && PlainRefs(ps, vars, self)
    ensures DistinctKeys(vars) && WellFormed(ps) ==> Fillable(ps, vars, self)
  {
    forall k | 0 <= k < |ps| && ps[k].Ref? && self != Some(ps[k].name) && ps[k].name in Keys(vars)
      ensures '{' !in Show(Lookup(vars, ps[k].name).value)
    {
      var v := Lookup(vars, ps[k].name).value;
      var i :| 0 <= i < |vars| && vars[i] == Entry(ps[k].name, v);
    }
  }

  /** With distinct keys, what holds of the references against a dictionary
      holds against each of its prefixes. */
  lemma PlainRefsPrefix(ps: seq<Piece>, vars: Vars, self: Option<string>, j: nat)
    requires DistinctKeys(vars) && PlainRefs(ps, vars, self) && j <= |vars|
    ensures PlainRefs(ps, vars[..j], self)
  {
    forall k | 0 <= k < |ps| && ps[k].Ref? && self != Some(ps[k].name) && ps[k].name in Keys(vars[..j])
      ensures '{' !in Show(Lookup(vars[..j], ps[k].name).value)
    {
      var v := Lookup(vars[..j], ps[k].name).value;
      var i :| 0 <= i < j && vars[..j][i] == Entry(ps[k].name, v);
      LookupAt(vars, i);
    }
  }

  /** Two bracketed names that differ cannot match at the same position. */
  lemma BracketedDiffer(opens: string, k: string, key: string, closes: string, rest: string)
    requires '}' !in k && '}' !in key && k != key && |closes| > 0 && closes[0] == '}'
    ensures var s := opens + k + closes + rest; var p := opens + key + closes;
      !(|p| <= |s| && s[..|p|] == p)
  {
    var s := opens + k + closes + rest;
    var p := opens + key + closes;
    var n := |opens|;
    if |p| <= |s| {
      var i: nat;
      if |k| < |key| {
        i := n + |k|;
        assert s[i] == '}' && p[i] == key[|k|];
      } else if |k| > |key| {
        i := n + |key|;
        assert s[i] == k[|key|] && p[i] == '}';
      } else {
        var d :| 0 <= d < |k| && k[d] != key[d];
        i := n + d;
        assert s[i] == k[d] && p[i] == key[d];
      }
      assert s[..|p|][i] != p[i];
    }
  }

  lemma ReplaceSkipsOtherPlaceholder(k: string, key: string, rest: string, rep: string)
    requires BraceFree(k) && BraceFree(key) && k != key
    ensures Replace(Placeholder(k) + rest, Placeholder(key), rep)
         == Placeholder(k) + Replace(rest, Placeholder(key), rep)
  {
    var p := Placeholder(key);
    var s := "{" + k + "}" + rest;
    assert Placeholder(k) + rest == s;
    BracketedDiffer("{", k, key, "}", rest);
    ReplaceNoMatchAtHead(s, p, rep);
    assert s[1..] == (k + "}") + rest;
    ReplaceSkipsPrefix(k + "}", rest, p, rep);
    assert [s[0]] + ((k + "}") + Replace(rest, p, rep)) == Placeholder(k) + Replace(rest, p, rep);
  }

  lemma ReplaceSkipsOtherToken(k: string, key: string, rest: string, rep: string)
    requires BraceFree(k) && BraceFree(key) && k != key
    ensures Replace(Wrap(k, true) + rest, Wrap(key, true), rep)
         == Wrap(k, true) + Replace(rest, Wrap(key, true), rep)
  {
    var p := Wrap(key, true);
    var t := (k + "}}") + rest;
    var s1 := "{" + t;
    var s := "{" + s1;
    TokenText(k, rest);
    TokenNotAtHead(k, key, rest);
    ReplaceNoMatchAtHead(s, p, rep);
    assert s[1..] == s1;
    TokenNotAfterBrace(k, key, rest);
    ReplaceNoMatchAtHead(s1, p, rep);
    assert s1[1..] == t;
    ReplaceSkipsPrefix(k + "}}", rest, p, rep);
    assert Replace(s, p, rep) == "{" + ("{" + ((k + "}}") + Replace(rest, p, rep)));
  }

  /** `{{k}}` followed by `rest`, brace by brace. */
  lemma TokenText(k: string, rest: string)
    ensures Wrap(k, true) + rest == "{" + ("{" + ((k + "}}") + rest))
    ensures Wrap(k, true) == "{" + ("{" + (k + "}}"))
  {
  }

  /** Another key's token does not start where `{{k}}` starts. */
  lemma TokenNotAtHead(k: string, key: string, rest: string)
    requires BraceFree(k) && BraceFree(key) && k != key
    ensures var s := "{" + ("{" + ((k + "}}") + rest)); var p := Wrap(key, true);
      !(|p| <= |s| && s[..|p|] == p)
  {
    BracketedDiffer("{{", k, key, "}}", rest);
    assert "{{" + k + "}}" + rest == "{" + ("{" + ((k + "}}") + rest));
    assert Wrap(key, true) == "{{" + key + "}}";
  }

  /** Nor one character later, where only one brace is left. */
  lemma TokenNotAfterBrace(k: string, key: string, rest: string)
    requires BraceFree(k)
    ensures var s1 := "{" + ((k + "}}") + rest); var p := Wrap(key, true);
      !(|p| <= |s1| && s1[..|p|] == p)
  {
    var s1 := "{" + ((k + "}}") + rest);
    var p := Wrap(key, true);
    assert s1[1] != '{' by {
      if |k| > 0 { assert s1[1] == k[0]; } else { assert s1[1] == '}'; }
    }
    assert p[1] == '{';
    if |p| <= |s1| {
      assert s1[..|p|][1] != p[1];
    }
  }

  /** After its first two characters, a token holds no opening brace. */
  lemma TokenTail(key: string)
    requires BraceFree(key)
    ensures |Wrap(key, true)| == |key| + 4
    ensures forall i :: 2 <= i < |Wrap(key, true)| ==> Wrap(key, true)[i] != '{'
  {
    assert Wrap(key, true) == "{{" + key + "}}";
  }

  /** A token of another brace-free key does not occur across either end of
      `{{x}}`: replacing it in the text around `{{x}}` leaves `{{x}}` where it
      was, whatever that text holds. */
  lemma ReplaceAroundToken(a: string, x: string, b: string, key: string, rep: string)
    requires BraceFree(x) && BraceFree(key) && x != key
    ensures Replace(a + Wrap(x, true) + b, Wrap(key, true), rep)
         == Replace(a, Wrap(key, true), rep) + Wrap(x, true) + Replace(b, Wrap(key, true), rep)
  {
    var pat := Wrap(key, true);
    var t := Wrap(x, true) + b;
    assert t[0] == '{' && t[1] == '{' by {
      TokenText(x, b);
    }
    NoTokenAcross(a, t, key);
    ReplaceConcat(a, t, pat, rep);
    ReplaceSkipsOtherToken(x, key, b, rep);
    Assoc(a, Wrap(x, true), b);
  }

  lemma Assoc(a: string, w: string, b: string)
    ensures a + w + b == a + (w + b)
  {
  }

  /** No token starts in `a` and ends in a text `t` that opens with `{{`. */
  lemma NoTokenAcross(a: string, t: string, key: string)
    requires BraceFree(key) && |t| >= 2 && t[0] == '{' && t[1] == '{'
    ensures NoneAcross(a, t, Wrap(key, true))
  {
    var pat := Wrap(key, true);
    var s := a + t;
    TokenTail(key);
    forall p: nat | p < |a| < p + |pat| ensures !OccursAt(s, pat, p) {
      if p + |pat| <= |s| {
        var d := |a| - p;
        var i := if d >= 2 then d else 2;
        assert s[p + i] == t[i - d] == '{';
        assert s[p..p + |pat|][i] != pat[i];
      }
    }
  }

  /** Replacing the wrapped form of a brace-free `key` by any text turns
      exactly the references to `key` into that text. */
  lemma {:induction false} ReplaceInPieces(ps: seq<Piece>, double: bool, key: string, rep: string)
    requires WellFormed(ps) && BraceFree(key)
    ensures Replace(Assemble(ps, double), Wrap(key, double), rep) == Assemble(Subst(ps, key, rep), double)
    decreases |ps|
  {
    var p := Wrap(key, double);
    if ps != [] {
      var rest := Assemble(ps[1..], double);
      assert WellFormed(ps[1..]) by {
        forall k | 0 <= k < |ps| - 1 ensures ps[1..][k] == ps[k + 1] { }
      }
      ReplaceInPieces(ps[1..], double, key, rep);
      assert Subst(ps, key, rep)[1..] == Subst(ps[1..], key, rep);
      match ps[0]
      case Lit(t) =>
        assert '{' !in t by { assert ps[0].Lit?; }
        ReplaceSkipsPrefix(t, rest, p, rep);
      case Ref(k) =>
        assert BraceFree(k) by { assert ps[0].Ref?; }
        if k == key {
          ReplaceLeading(p, rest, rep);
        } else {
          if double {
            ReplaceSkipsOtherToken(k, key, rest, rep);
          } else {
            ReplaceSkipsOtherPlaceholder(k, key, rest, rep);
          }
        }
    }
  }

  /** The text without any reference to `key` does not change. */
  lemma {:induction false} SubstAbsent(ps: seq<Piece>, key: string, rep: string)
    requires forall k :: 0 <= k < |ps| ==> ps[k] != Ref(key)
    ensures Subst(ps, key, rep) == ps
    decreases |ps|
  {
    if ps != [] {
      SubstAbsent(ps[1..], key, rep);
    }
  }

  /** Filling against one more entry, whose key is new, turns the references
      to that key into its printed value (unless it is `self`). */
  lemma {:induction false} FillOneMore(ps: seq<Piece>, vars: Vars, e: Entry, self: Option<string>)
    requires e.key !in Keys(vars)
    ensures Fill(ps, vars + [e], self)
         == if self == Some(e.key) then Fill(ps, vars, self) else Subst(Fill(ps, vars, self), e.key, Show(e.val))
    decreases |ps|
  {
    if ps != [] {
      var f := Fill(ps, vars, self);
      var g := Fill(ps, vars + [e], self);
      FillOneMore(ps[1..], vars, e, self);
      FillPieceOneMore(ps[0], vars, e, self);
      assert g == [g[0]] + Fill(ps[1..], vars + [e], self);
      assert f == [f[0]] + Fill(ps[1..], vars, self);
      if self != Some(e.key) {
        var rep := Show(e.val);
        assert Subst(f, e.key, rep) == [if f[0] == Ref(e.key) then Lit(rep) else f[0]] + Subst(f[1..], e.key, rep);
      }
    }
  }

  /** `FillOneMore` for one piece. */
  lemma FillPieceOneMore(p: Piece, vars: Vars, e: Entry, self: Option<string>)
    requires e.key !in Keys(vars)
    ensures FillOne(p, vars + [e], self)
         == if self == Some(e.key) || FillOne(p, vars, self) != Ref(e.key) then FillOne(p, vars, self)
            else Lit(Show(e.val))
  {
    if p.Ref? {
      LookupSnoc(vars, e, p.name);
    }
  }

  /** Pieces with no reference to a key of `vars` are left as they are. */
  lemma {:induction false} FillUnknownRefs(ps: seq<Piece>, vars: Vars, self: Option<string>)
    requires forall k :: 0 <= k < |ps| && ps[k].Ref? ==> ps[k].name !in Keys(vars)
    ensures Fill(ps, vars, self) == ps
    decreases |ps|
  {
    if ps != [] {
      assert ps[0].Ref? ==> Lookup(vars, ps[0].name) == None;
      FillUnknownRefs(ps[1..], vars, self);
    }
  }

  lemma {:induction false} FillNothing(ps: seq<Piece>, self: Option<string>)
    ensures Fill(ps, [], self) == ps
    decreases |ps|
  {
    if ps != [] {
      FillNothing(ps[1..], self);
    }
  }

  /** Filled pieces stay well formed when the values the pieces refer to
      print without an opening brace. */
  lemma {:induction false} FillWellFormed(ps: seq<Piece>, vars: Vars, self: Option<string>)
    requires WellFormed(ps) && PlainRefs(ps, vars, self)
    ensures WellFormed(Fill(ps, vars, self))
    decreases |ps|
  {
    if ps != [] {
      assert WellFormed(ps[1..]) && PlainRefs(ps[1..], vars, self) by {
        forall k | 0 <= k < |ps| - 1 ensures ps[1..][k] == ps[k + 1] { }
      }
      FillWellFormed(ps[1..], vars, self);
      var f := Fill(ps, vars, self);
      forall k | 0 <= k < |f|
        ensures (f[k].Lit? ==> '{' !in f[k].text) && (f[k].Ref? ==> BraceFree(f[k].name))
      {
        if k > 0 {
          assert f[k] == Fill(ps[1..], vars, self)[k - 1];
        }
      }
    }
  }

  /** The key at position `j` is not among the keys before it. */
  lemma KeyIsNew(vars: Vars, j: nat)
    requires DistinctKeys(vars) && j < |vars|
    ensures vars[j].key !in Keys(vars[..j])
    ensures vars[..j + 1] == vars[..j] + [vars[j]]
  {
    assert forall k :: 0 <= k < j ==> Keys(vars[..j])[k] == vars[k].key;
  }

  /** One more entry of the dictionary, as both loops see it: replacing the
      wrapped key of entry `j` in the text filled from the entries before it
      gives the text filled from the entries up to it. */
  lemma FillStep(ps: seq<Piece>, vars: Vars, self: Option<string>, j: nat, double: bool)
    requires j < |vars| && Fillable(ps, vars, self)
    ensures self == Some(vars[j].key) ==> Fill(ps, vars[..j + 1], self) == Fill(ps, vars[..j], self)
    ensures self != Some(vars[j].key) ==>
      Replace(Assemble(Fill(ps, vars[..j], self), double), Wrap(vars[j].key, double), Show(vars[j].val))
        == Assemble(Fill(ps, vars[..j + 1], self), double)
  {
    var e := vars[j];
    KeyIsNew(vars, j);
    FillOneMore(ps, vars[..j], e, self);
    PlainRefsPrefix(ps, vars, self, j);
    FillWellFormed(ps, vars[..j], self);
    ReplaceInPieces(Fill(ps, vars[..j], self), double, e.key, Show(e.val));
  }

  /** The resolver's inner loop, on a value made of literal text and
      `{name}` references, against a dictionary with distinct brace-free
      keys whose referenced values print without an opening brace: every
      reference to another key of the dictionary is replaced by that key's
      printed value, and every other reference is left as it is. */
  lemma {:induction false} SubstitutePieces(w: Vars, self: string, ps: seq<Piece>, j: nat)
    requires j <= |w| && Fillable(ps, w, Some(self))
    ensures Substitute(w, self, Assemble(ps, false), j) == Assemble(Fill(ps, w[..j], Some(self)), false)
    decreases j
  {
    if j == 0 {
      FillNothing(ps, Some(self));
      assert w[..0] == [];
    } else {
      var e := w[j - 1];
      SubstitutePieces(w, self, ps, j - 1);
      FillStep(ps, w, Some(self), j - 1, false);
      if e.key != self {
        var v := Assemble(Fill(ps, w[..j - 1], Some(self)), false);
        assert Wrap(e.key, false) == Placeholder(e.key);
        if !Contains(v, Placeholder(e.key)) {
          ReplaceAbsent(v, Placeholder(e.key), Show(e.val));
        }
      }
    }
  }

  /** `SubstitutePieces` over the whole dictionary, when every value other
      than `self`'s prints without an opening brace. */
  lemma SubstitutePlainPieces(w: Vars, self: string, ps: seq<Piece>)
    requires DistinctKeys(w) && PlainExcept(w, Some(self)) && WellFormed(ps)
    ensures Substitute(w, self, Assemble(ps, false), |w|) == Assemble(Fill(ps, w, Some(self)), false)
  {
    PlainExceptCoversRefs(w, Some(self), ps);
    SubstitutePieces(w, self, ps, |w|);
    assert w[..|w|] == w;
  }
}
