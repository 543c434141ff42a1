/** `_render_template`: branding fields and request variables are merged,
    request variables winning; the merged dictionary is resolved with
    `_process_variable_references` (three passes at most); then every
    `{{key}}` token of the template is replaced by the value of `key`, one
    key at a time in the merged dictionary's order. */
module Renderer {
  import opened Wrappers
  import opened Text
  import opened Variables
  import opened Resolver
  import opened Pieces

  /** The branding fields a render merges under the request variables. The
      last four are optional in the configuration and carry a default. */
  datatype BrandingConfig = BrandingConfig(
    appName: string,
    appOwner: string,
    contactEmail: string,
    logoUrl: string,
    primaryColor: string,
    primaryShadeColor: string,
    primaryForegroundColor: string)

  /** `branding_config.model_dump()`: the fields in declaration order. */
  function ModelDump(b: BrandingConfig): (r: Vars)
    ensures |r| == 7
    ensures forall k :: 0 <= k < |r| ==> r[k].val.Str?
  {
    [ Entry("app_name", Str(b.appName)),
      Entry("app_owner", Str(b.appOwner)),
      Entry("contact_email", Str(b.contactEmail)),
      Entry("logo_url", Str(b.logoUrl)),
      Entry("primary_color", Str(b.primaryColor)),
      Entry("primary_shade_color", Str(b.primaryShadeColor)),
      Entry("primary_foreground_color", Str(b.primaryForegroundColor)) ]
  }

  /** The branding keys are distinct and brace-free. */
  lemma ModelDumpKeys(b: BrandingConfig)
    ensures DistinctKeys(ModelDump(b))
    ensures forall k :: 0 <= k < 7 ==> BraceFree(ModelDump(b)[k].key)
  {
    var r := ModelDump(b);
    assert |r[0].key| == 8 && |r[1].key| == 9 && |r[2].key| == 13 && |r[3].key| == 8;
    assert |r[4].key| == 13 && |r[5].key| == 19 && |r[6].key| == 24;
    assert r[0].key[0] != r[3].key[0];
    assert r[2].key[0] != r[4].key[0];
    FirstKeysBraceFree();
    LastKeysBraceFree();
  }

  /** A key of lower-case letters and underscores holds no brace. */
  lemma SnakeCaseBraceFree(s: string)
    requires forall i :: 0 <= i < |s| ==> 'a' <= s[i] <= 'z' || s[i] == '_'
    ensures BraceFree(s)
  {
    assert forall i :: 0 <= i < |s| ==> s[i] != '{' && s[i] != '}';
  }

  lemma FirstKeysBraceFree()
    ensures BraceFree("app_name") && BraceFree("app_owner") && BraceFree("contact_email") && BraceFree("logo_url")
  {
    SnakeCaseBraceFree("app_name");
    SnakeCaseBraceFree("app_owner");
    SnakeCaseBraceFree("contact_email");
    SnakeCaseBraceFree("logo_url");
  }

  lemma LastKeysBraceFree()
    ensures BraceFree("primary_color") && BraceFree("primary_shade_color") && BraceFree("primary_foreground_color")
  {
    SnakeCaseBraceFree("primary_color");
    SnakeCaseBraceFree("primary_shade_color");
    SnakeCaseBraceFree("primary_foreground_color");
  }

  /** `{**base, **over}`: a fresh dictionary filled from `base`, then from
      `over`. A key of `over` takes its value from `over`; every other key
      keeps its value from `base`; the keys of a well-formed `base` come
      first, in their order. */
  function Merge(base: Vars, over: Vars): (r: Vars)
    ensures DistinctKeys(r)
    ensures forall key :: Lookup(r, key) == if key in Keys(over) then Lookup(over, key) else Lookup(base, key)
    ensures forall key :: key in Keys(r) <==> key in Keys(base) || key in Keys(over)
    ensures DistinctKeys(base) ==> |r| >= |base| && forall j :: 0 <= j < |base| ==> r[j].key == base[j].key
  {
    var start := AssignAll([], base);
    assert DistinctKeys(base) ==> start == base by {
      if DistinctKeys(base) {
        AssignAllFresh([], base);
        assert [] + base == base;
      }
    }
    assert forall key :: Lookup(start, key) == Lookup(base, key) by {
      forall key ensures Lookup(start, key) == Lookup(base, key) {
        if key !in Keys(base) {
          assert Lookup(base, key) == None;
        }
      }
    }
    AssignAll(start, over)
  }

  /** Two dictionaries with distinct keys and no key in common merge into
      their concatenation. */
  lemma MergeDisjoint(base: Vars, over: Vars)
    requires DistinctKeys(base + over)
    ensures Merge(base, over) == base + over
  {
    assert DistinctKeys(base) by {
      assert forall k :: 0 <= k < |base| ==> (base + over)[k] == base[k];
    }
    AssignAllFresh([], base);
    assert [] + base == base;
    AssignAllFresh(base, over);
  }

  /** The template loop over the first `j` entries of the resolved
      dictionary: each `{{key}}` token is replaced by `str(value)`. */
  function RenderWith(t: string, vars: Vars, j: nat): string
    requires j <= |vars|
  {
    if j == 0 then t
    else Replace(RenderWith(t, vars, j - 1), Wrap(vars[j - 1].key, true), Show(vars[j - 1].val))
  }

  /** The dictionary a render substitutes: branding under the request
      variables, resolved with the default of three passes. */
  function RenderVariables(variables: Vars, branding: BrandingConfig): Vars
  {
    Resolve(Merge(ModelDump(branding), variables), 3)
  }

  function Render(t: string, variables: Vars, branding: BrandingConfig): string
  {
    var all := RenderVariables(variables, branding);
    RenderWith(t, all, |all|)
  }

  /** `_render_template`. */
  method RenderTemplate(templateContent: string, variables: Vars, branding: BrandingConfig) returns (html: string)
    ensures html == Render(templateContent, variables, branding)
  {
    var all := Merge(ModelDump(branding), variables);
    ghost var passes;
    all, passes := ProcessVariableReferences(all, 3);
    html := ReplaceTokens(templateContent, all);
  }

  /** The template loop of `_render_template`: every `{{key}}` token is
      replaced by `str(value)`, one key at a time. */
  method ReplaceTokens(templateContent: string, all: Vars) returns (html: string)
    ensures html == RenderWith(templateContent, all, |all|)
  {
    html := templateContent;
    var i := 0;
    while i < |all|
      invariant i <= |all|
      invariant html == RenderWith(templateContent, all, i)
    {
      html := Replace(html, Wrap(all[i].key, true), Show(all[i].val));
      i := i + 1;
    }
  }

  /** The keys of the substituted dictionary are exactly the branding fields
      and the request variables, each key once. */
  lemma RenderVariablesKeys(variables: Vars, branding: BrandingConfig)
    ensures DistinctKeys(RenderVariables(variables, branding))
    ensures forall key ::
      key in Keys(RenderVariables(variables, branding)) <==> key in Keys(ModelDump(branding)) || key in Keys(variables)
  {
    var merged := Merge(ModelDump(branding), variables);
    ResolveKeepsShape(merged, 3);
  }

  /** A template with no `{{` is returned as it is. */
  lemma {:induction false} RenderWithoutTokens(t: string, vars: Vars, j: nat)
    requires j <= |vars| && !Contains(t, "{{")
    ensures RenderWith(t, vars, j) == t
    decreases j
  {
    if j > 0 {
      RenderWithoutTokens(t, vars, j - 1);
      var token := Wrap(vars[j - 1].key, true);
      assert "{{" <= token;
      if Contains(t, token) {
        ContainsPrefixOfPattern(t, "{{", token);
      }
      ReplaceAbsent(t, token, Show(vars[j - 1].val));
    }
  }

  /** The render loop on a template of literal text and `{{name}}` tokens,
      against a dictionary with distinct brace-free keys whose values
      referred to by the template print without an opening brace: each token
      of a key becomes that key's printed value and every other token stays
      verbatim. */
  lemma {:induction false} RenderPieces(ps: seq<Piece>, vars: Vars, j: nat)
    requires j <= |vars| && Fillable(ps, vars, None)
    ensures RenderWith(Assemble(ps, true), vars, j) == Assemble(Fill(ps, vars[..j], None), true)
    decreases j
  {
    if j == 0 {
      FillNothing(ps, None);
      assert vars[..0] == [];
    } else {
      var t := Assemble(ps, true);
      var e := vars[j - 1];
      assert RenderWith(t, vars, j) == Replace(RenderWith(t, vars, j - 1), Wrap(e.key, true), Show(e.val));
      RenderPieces(ps, vars, j - 1);
      FillStep(ps, vars, None, j - 1, true);
    }
  }

  /** `RenderPieces` over the whole dictionary, when every value prints
      without an opening brace. */
  lemma RenderPlainPieces(ps: seq<Piece>, vars: Vars)
    requires DistinctKeys(vars) && PlainVars(vars) && WellFormed(ps)
    ensures RenderWith(Assemble(ps, true), vars, |vars|) == Assemble(Fill(ps, vars, None), true)
  {
    PlainExceptCoversRefs(vars, None, ps);
    RenderPieces(ps, vars, |vars|);
    assert vars[..|vars|] == vars;
  }

  /** A `{{name}}` token whose name is not a key survives the render loop
      verbatim, and the text on either side of it is rendered as if it stood
      alone, whatever that text and the values hold. */
  lemma {:induction false} RenderKeepsUnknownToken(pre: string, name: string, post: string, vars: Vars, j: nat)
    requires j <= |vars| && BraceFreeKeys(vars) && BraceFree(name) && name !in Keys(vars)
    ensures RenderWith(pre + Wrap(name, true) + post, vars, j)
         == RenderWith(pre, vars, j) + Wrap(name, true) + RenderWith(post, vars, j)
    decreases j
  {
    if j > 0 {
      var e := vars[j - 1];
      var w := Wrap(name, true);
      var a := RenderWith(pre, vars, j - 1);
      var b := RenderWith(post, vars, j - 1);
      var p, v := Wrap(e.key, true), Show(e.val);
      calc {
        RenderWith(pre + w + post, vars, j);
        Replace(RenderWith(pre + w + post, vars, j - 1), p, v);
        { RenderKeepsUnknownToken(pre, name, post, vars, j - 1); }
        Replace(a + w + b, p, v);
        { assert Keys(vars)[j - 1] == e.key;
          ReplaceAroundToken(a, name, b, e.key, v); }
        Replace(a, p, v) + w + Replace(b, p, v);
        RenderWith(pre, vars, j) + w + RenderWith(post, vars, j);
      }
    }
  }
}
