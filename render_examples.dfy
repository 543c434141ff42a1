/** `_render_template` on the shapes of the mail service's rendering tests,
    stated for all brace-free text around the tokens and for every branding
    whose fields contain no opening brace. */
module RenderExamples {
  import opened Wrappers
  import opened Text
  import opened Variables
  import opened Resolver
  import opened Pieces
  import opened Renderer

  predicate PlainBranding(b: BrandingConfig)
  {
    && '{' !in b.appName && '{' !in b.appOwner && '{' !in b.contactEmail && '{' !in b.logoUrl
    && '{' !in b.primaryColor && '{' !in b.primaryShadeColor && '{' !in b.primaryForegroundColor
  }

  /** Every value is a string without an opening brace, under a brace-free
      key. */
  predicate PlainStrings(vars: Vars)
  {
    forall k :: 0 <= k < |vars| ==> vars[k].val.Str? && '{' !in vars[k].val.s && BraceFree(vars[k].key)
  }

  lemma PlainStringsAppend(a: Vars, b: Vars)
    requires PlainStrings(a) && PlainStrings(b)
    ensures PlainStrings(a + b)
  {
    forall k | 0 <= k < |a + b| ensures (a + b)[k].val.Str? && '{' !in (a + b)[k].val.s && BraceFree((a + b)[k].key) {
      if k < |a| {
        assert (a + b)[k] == a[k];
      } else {
        assert (a + b)[k] == b[k - |a|];
      }
    }
  }

  lemma PlainStringsArePlain(vars: Vars)
    requires PlainStrings(vars)
    ensures PlainVars(vars)
  {
  }

  /** A pass leaves a prefix of plain strings alone. */
  lemma PlainPrefixSkipped(vars: Vars, i: nat)
    requires i <= |vars| && PlainStrings(vars[..i])
    ensures PassUpTo(vars, i) == (vars, false)
  {
    assert forall k :: 0 <= k < i ==> vars[..i][k] == vars[k];
    PassSkipsPlain(vars, i);
  }

  /** Plain strings, followed by one entry that may hold references. */
  lemma PlainExceptLast(a: Vars, e: Entry)
    requires PlainStrings(a) && BraceFree(e.key)
    ensures PlainExcept(a + [e], Some(e.key))
  {
    forall k | 0 <= k < |a + [e]|
      ensures BraceFree((a + [e])[k].key) && (Some(e.key) != Some((a + [e])[k].key) ==> '{' !in Show((a + [e])[k].val))
    {
      if k < |a| {
        assert (a + [e])[k] == a[k];
      }
    }
  }

  lemma BrandingFacts(b: BrandingConfig)
    requires PlainBranding(b)
    ensures DistinctKeys(ModelDump(b)) && PlainStrings(ModelDump(b))
    ensures forall k :: 0 <= k < 7 ==>
      && BraceFree(ModelDump(b)[k].key) && '{' !in ModelDump(b)[k].val.s
      && |ModelDump(b)[k].key| > 0 && ModelDump(b)[k].key[0] != 'u' && ModelDump(b)[k].key[0] != 'm'
    ensures ModelDump(b)[0] == Entry("app_name", Str(b.appName))
  {
    ModelDumpKeys(b);
  }

  /** The request keys of the tests hold no brace. */
  lemma RequestKeysBraceFree()
    ensures BraceFree("username") && BraceFree("message")
  {
    SnakeCaseBraceFree("username");
    SnakeCaseBraceFree("message");
  }

  /** Branding keys followed by request variables whose keys start with u or
      m: the keys are distinct and the merge is the concatenation. */
  lemma MergeWithBranding(b: BrandingConfig, vars: Vars)
    requires PlainBranding(b) && DistinctKeys(vars)
    requires forall j :: 0 <= j < |vars| ==> |vars[j].key| > 0 && vars[j].key[0] in "um"
    ensures DistinctKeys(ModelDump(b) + vars)
    ensures Merge(ModelDump(b), vars) == ModelDump(b) + vars
  {
    BrandingFacts(b);
    var r := ModelDump(b);
    forall i, j | 0 <= i < |r| && 0 <= j < |vars| ensures r[i].key != vars[j].key {
      assert r[i].key[0] != vars[j].key[0];
    }
    DistinctAppend(r, vars);
    MergeDisjoint(r, vars);
  }

  lemma AssembleFive(a: string, n1: string, b: string, n2: string, c: string, double: bool)
    ensures Assemble([Lit(a), Ref(n1), Lit(b), Ref(n2), Lit(c)], double)
         == a + Wrap(n1, double) + b + Wrap(n2, double) + c
  {
    AssembleCons(Lit(c), [], double);
    AssembleCons(Ref(n2), [Lit(c)], double);
    AssembleCons(Lit(b), [Ref(n2), Lit(c)], double);
    AssembleCons(Ref(n1), [Lit(b), Ref(n2), Lit(c)], double);
    AssembleCons(Lit(a), [Ref(n1), Lit(b), Ref(n2), Lit(c)], double);
  }

  lemma AssembleFiveLits(a: string, x: string, b: string, y: string, c: string, double: bool)
    ensures Assemble([Lit(a), Lit(x), Lit(b), Lit(y), Lit(c)], double) == a + x + b + y + c
  {
    AssembleCons(Lit(c), [], double);
    AssembleCons(Lit(y), [Lit(c)], double);
    AssembleCons(Lit(b), [Lit(y), Lit(c)], double);
    AssembleCons(Lit(x), [Lit(b), Lit(y), Lit(c)], double);
    AssembleCons(Lit(a), [Lit(x), Lit(b), Lit(y), Lit(c)], double);
  }

  lemma AssembleThree(a: string, n: string, c: string, double: bool)
    ensures Assemble([Lit(a), Ref(n), Lit(c)], double) == a + Wrap(n, double) + c
  {
    AssembleCons(Lit(c), [], double);
    AssembleCons(Ref(n), [Lit(c)], double);
    AssembleCons(Lit(a), [Ref(n), Lit(c)], double);
  }

  lemma AssembleThreeLits(a: string, x: string, c: string, double: bool)
    ensures Assemble([Lit(a), Lit(x), Lit(c)], double) == a + x + c
  {
    AssembleCons(Lit(c), [], double);
    AssembleCons(Lit(x), [Lit(c)], double);
    AssembleCons(Lit(a), [Lit(x), Lit(c)], double);
  }

  lemma WellFormedFive(a: string, n1: string, b: string, n2: string, c: string)
    requires '{' !in a && '{' !in b && '{' !in c && BraceFree(n1) && BraceFree(n2)
    ensures WellFormed([Lit(a), Ref(n1), Lit(b), Ref(n2), Lit(c)])
  {
  }

  lemma WellFormedThree(a: string, n: string, c: string)
    requires '{' !in a && '{' !in c && BraceFree(n)
    ensures WellFormed([Lit(a), Ref(n), Lit(c)])
  {
  }

  lemma FillFive(vars: Vars, self: Option<string>, a: string, n1: string, b: string, n2: string, c: string)
    requires Lookup(vars, n1).Some? && Lookup(vars, n2).Some? && self != Some(n1) && self != Some(n2)
    ensures Fill([Lit(a), Ref(n1), Lit(b), Ref(n2), Lit(c)], vars, self)
         == [Lit(a), Lit(Show(Lookup(vars, n1).value)), Lit(b), Lit(Show(Lookup(vars, n2).value)), Lit(c)]
  {
  }

  lemma FillThree(vars: Vars, a: string, n: string, c: string)
    requires Lookup(vars, n).Some?
    ensures Fill([Lit(a), Ref(n), Lit(c)], vars, None) == [Lit(a), Lit(Show(Lookup(vars, n).value)), Lit(c)]
  {
  }

  // test_render_template

  /** The welcome render's dictionary is the branding followed by the user
      name, with nothing to resolve. */
  lemma WelcomeVariables(b: BrandingConfig, user: string)
    requires PlainBranding(b) && '{' !in user
    ensures var r := ModelDump(b) + [Entry("username", Str(user))];
      && RenderVariables([Entry("username", Str(user))], b) == r
      && DistinctKeys(r) && PlainVars(r) && |r| == 8
  {
    var vars := [Entry("username", Str(user))];
    var r := ModelDump(b) + vars;
    MergeWithBranding(b, vars);
    BrandingFacts(b);
    RequestKeysBraceFree();
    PlainStringsAppend(ModelDump(b), vars);
    PlainStringsArePlain(r);
    PassSkipsPlain(r, |r|);
  }

  /** `{{app_name}}` becomes the branding's application name and
      `{{username}}` the user name; the text around them is kept. */
  lemma WelcomeExample(b: BrandingConfig, user: string, pre: string, mid: string, post: string)
    requires PlainBranding(b) && '{' !in user && '{' !in pre && '{' !in mid && '{' !in post
    ensures Render(pre + Wrap("app_name", true) + mid + Wrap("username", true) + post,
                   [Entry("username", Str(user))], b)
         == pre + b.appName + mid + user + post
  {
    var r := ModelDump(b) + [Entry("username", Str(user))];
    WelcomeVariables(b, user);
    BrandingFacts(b);
    var ps := [Lit(pre), Ref("app_name"), Lit(mid), Ref("username"), Lit(post)];
    AssembleFive(pre, "app_name", mid, "username", post, true);
    FirstKeysBraceFree();
    RequestKeysBraceFree();
    WellFormedFive(pre, "app_name", mid, "username", post);
    RenderPlainPieces(ps, r);
    assert r[0] == Entry("app_name", Str(b.appName));
    LookupAt(r, 0);
    LookupAt(r, 7);
    FillFive(r, None, pre, "app_name", mid, "username", post);
    AssembleFiveLits(pre, b.appName, mid, user, post, true);
  }

  // test_render_template_with_variable_references

  function MessageVars(user: string, h: string, m: string): Vars
  {
    [Entry("username", Str(user)), Entry("message", Str(h + Placeholder("username") + m + Placeholder("app_name")))]
  }

  function MessageResolved(b: BrandingConfig, user: string, h: string, m: string): Vars
  {
    ModelDump(b) + [Entry("username", Str(user)), Entry("message", Str(h + user + m + b.appName))]
  }

  lemma MessageMergedFacts(b: BrandingConfig, user: string, h: string, m: string)
    requires PlainBranding(b) && '{' !in user && '{' !in h && '{' !in m
    ensures var r := ModelDump(b) + MessageVars(user, h, m);
      && Merge(ModelDump(b), MessageVars(user, h, m)) == r
      && |r| == 9 && DistinctKeys(r) && PlainExcept(r, Some("message"))
      && r[0] == Entry("app_name", Str(b.appName)) && r[7] == Entry("username", Str(user))
      && r[8].key == "message" && PlainStrings(r[..8])
  {
    MessageMerge(b, user, h, m);
    MessagePlain(b, user, h, m);
  }

  lemma MessageMerge(b: BrandingConfig, user: string, h: string, m: string)
    requires PlainBranding(b)
    ensures var r := ModelDump(b) + MessageVars(user, h, m);
      && Merge(ModelDump(b), MessageVars(user, h, m)) == r && DistinctKeys(r)
  {
    var vars := MessageVars(user, h, m);
    assert DistinctKeys(vars) by {
      assert |vars[0].key| != |vars[1].key|;
    }
    MergeWithBranding(b, vars);
  }

  lemma MessagePlain(b: BrandingConfig, user: string, h: string, m: string)
    requires PlainBranding(b) && '{' !in user
    ensures var r := ModelDump(b) + MessageVars(user, h, m);
      && |r| == 9 && PlainExcept(r, Some("message"))
      && r[0] == Entry("app_name", Str(b.appName)) && r[7] == Entry("username", Str(user))
      && r[8].key == "message" && PlainStrings(r[..8])
  {
    var vars := MessageVars(user, h, m);
    BrandingFacts(b);
    RequestKeysBraceFree();
    var front := ModelDump(b) + [vars[0]];
    PlainStringsAppend(ModelDump(b), [vars[0]]);
    assert ModelDump(b) + vars == front + [vars[1]];
    assert (ModelDump(b) + vars)[..8] == front;
    PlainExceptLast(front, vars[1]);
  }

  lemma MessageResolvedFacts(b: BrandingConfig, user: string, h: string, m: string)
    requires PlainBranding(b) && '{' !in user && '{' !in h && '{' !in m
    ensures var r1 := MessageResolved(b, user, h, m);
      && |r1| == 9 && DistinctKeys(r1) && PlainVars(r1) && PlainStrings(r1)
      && r1 == (ModelDump(b) + MessageVars(user, h, m))[8 := Entry("message", Str(h + user + m + b.appName))]
  {
    var r := ModelDump(b) + MessageVars(user, h, m);
    var r1 := MessageResolved(b, user, h, m);
    var tail := [Entry("username", Str(user)), Entry("message", Str(h + user + m + b.appName))];
    MessageMergedFacts(b, user, h, m);
    BrandingFacts(b);
    RequestKeysBraceFree();
    PlainStringsAppend(ModelDump(b), tail);
    PlainStringsArePlain(r1);
    assert r1 == r[8 := Entry("message", Str(h + user + m + b.appName))];
    assert forall k :: 0 <= k < 9 ==> r1[k].key == r[k].key;
  }

  /** The message's inner loop: both references are replaced, against keys
      that come before it in the dictionary and after it. */
  lemma MessageSubstitution(b: BrandingConfig, user: string, h: string, m: string)
    requires PlainBranding(b) && '{' !in user && '{' !in h && '{' !in m
    ensures var r := ModelDump(b) + MessageVars(user, h, m);
      Substitute(r, "message", h + Placeholder("username") + m + Placeholder("app_name"), |r|)
        == h + user + m + b.appName
  {
    var r := ModelDump(b) + MessageVars(user, h, m);
    MessageMergedFacts(b, user, h, m);
    var mps := [Lit(h), Ref("username"), Lit(m), Ref("app_name"), Lit("")];
    AssembleFive(h, "username", m, "app_name", "", false);
    assert h + Placeholder("username") + m + Placeholder("app_name") + ""
        == h + Placeholder("username") + m + Placeholder("app_name");
    FirstKeysBraceFree();
    RequestKeysBraceFree();
    WellFormedFive(h, "username", m, "app_name", "");
    SubstitutePlainPieces(r, "message", mps);
    LookupAt(r, 0);
    LookupAt(r, 7);
    assert Some("message") != Some("username") && Some("message") != Some("app_name");
    FillFive(r, Some("message"), h, "username", m, "app_name", "");
    AssembleFiveLits(h, user, m, b.appName, "", false);
    assert h + user + m + b.appName + "" == h + user + m + b.appName;
  }

  /** The first pass rewrites "message" and nothing else; the second pass
      finds nothing to do. */
  lemma MessageFirstPass(b: BrandingConfig, user: string, h: string, m: string)
    requires PlainBranding(b) && '{' !in user && '{' !in h && '{' !in m
    ensures Pass(ModelDump(b) + MessageVars(user, h, m)) == (MessageResolved(b, user, h, m), true)
  {
    var r := ModelDump(b) + MessageVars(user, h, m);
    var value := h + Placeholder("username") + m + Placeholder("app_name");
    var text := h + user + m + b.appName;
    MessageMergedFacts(b, user, h, m);
    MessageResolvedFacts(b, user, h, m);
    PlainPrefixSkipped(r, 8);
    MessageSubstitution(b, user, h, m);
    assert value != text by {
      assert value[|h|] == '{';
    }
    assert r[8] == Entry("message", Str(value));
    StepOnString(r, 8, text);
  }

  lemma MessageResolution(b: BrandingConfig, user: string, h: string, m: string)
    requires PlainBranding(b) && '{' !in user && '{' !in h && '{' !in m
    ensures RenderVariables(MessageVars(user, h, m), b) == MessageResolved(b, user, h, m)
  {
    var r1 := MessageResolved(b, user, h, m);
    MessageMergedFacts(b, user, h, m);
    MessageFirstPass(b, user, h, m);
    MessageResolvedFacts(b, user, h, m);
    assert r1[..9] == r1;
    PlainPrefixSkipped(r1, 9);
  }

  /** The render loop over the resolved dictionary. */
  lemma MessageRenderLoop(b: BrandingConfig, user: string, h: string, m: string, pre: string, post: string)
    requires PlainBranding(b) && '{' !in user && '{' !in h && '{' !in m && '{' !in pre && '{' !in post
    ensures |MessageResolved(b, user, h, m)| == 9
    ensures RenderWith(pre + Wrap("message", true) + post, MessageResolved(b, user, h, m), 9)
         == pre + (h + user + m + b.appName) + post
  {
    var r1 := MessageResolved(b, user, h, m);
    MessageResolvedFacts(b, user, h, m);
    var text := h + user + m + b.appName;
    var ps := [Lit(pre), Ref("message"), Lit(post)];
    AssembleThree(pre, "message", post, true);
    RequestKeysBraceFree();
    WellFormedThree(pre, "message", post);
    RenderPlainPieces(ps, r1);
    assert r1[8] == Entry("message", Str(text));
    LookupAt(r1, 8);
    FillThree(r1, pre, "message", post);
    AssembleThreeLits(pre, text, post, true);
  }

  /** A `{{message}}` token is replaced by the message with its references
      resolved: the user name and the branding's application name. */
  lemma MessageExample(b: BrandingConfig, user: string, h: string, m: string, pre: string, post: string)
    requires PlainBranding(b) && '{' !in user && '{' !in h && '{' !in m && '{' !in pre && '{' !in post
    ensures Render(pre + Wrap("message", true) + post, MessageVars(user, h, m), b)
         == pre + (h + user + m + b.appName) + post
  {
    MessageResolution(b, user, h, m);
    MessageRenderLoop(b, user, h, m, pre, post);
  }

  // The tests' own inputs; the branding fields they leave out keep their
  // defaults, which are taken to contain no opening brace.

  lemma WelcomeTemplateText()
    ensures "<h1>Welcome to " + Wrap("app_name", true) + "</h1><p>Hello " + Wrap("username", true) + "</p>"
         == "<h1>Welcome to {{app_name}}</h1><p>Hello {{username}}</p>"
  {
  }

  lemma WelcomeOutputText()
    ensures "<h1>Welcome to " + "TestApp" + "</h1><p>Hello " + "TestUser" + "</p>"
         == "<h1>Welcome to TestApp</h1><p>Hello TestUser</p>"
  {
  }

  /** test_render_template, on the test's template and values. */
  lemma RenderTemplateTest(logo: string, color: string, shade: string, fg: string)
    requires '{' !in logo && '{' !in color && '{' !in shade && '{' !in fg
    ensures Render("<h1>Welcome to {{app_name}}</h1><p>Hello {{username}}</p>",
                   [Entry("username", Str("TestUser"))],
                   BrandingConfig("TestApp", "Owner", "test@example.com", logo, color, shade, fg))
         == "<h1>Welcome to TestApp</h1><p>Hello TestUser</p>"
  {
    var b := BrandingConfig("TestApp", "Owner", "test@example.com", logo, color, shade, fg);
    assert PlainBranding(b);
    WelcomeExample(b, "TestUser", "<h1>Welcome to ", "</h1><p>Hello ", "</p>");
    WelcomeTemplateText();
    WelcomeOutputText();
  }

  lemma MessageValueText()
    ensures "Hello " + Placeholder("username") + ", welcome to " + Placeholder("app_name")
         == "Hello {username}, welcome to {app_name}"
  {
  }

  lemma MessageTemplateText()
    ensures "<p>" + Wrap("message", true) + "</p>" == "<p>{{message}}</p>"
  {
  }

  lemma MessageOutputText()
    ensures "<p>" + ("Hello " + "TestUser" + ", welcome to " + "TestApp") + "</p>"
         == "<p>Hello TestUser, welcome to TestApp</p>"
  {
  }

  /** test_render_template_with_variable_references, on the test's template
      and values. */
  lemma RenderReferencesTest(logo: string, color: string, shade: string, fg: string)
    requires '{' !in logo && '{' !in color && '{' !in shade && '{' !in fg
    ensures Render("<p>{{message}}</p>",
                   [Entry("username", Str("TestUser")), Entry("message", Str("Hello {username}, welcome to {app_name}"))],
                   BrandingConfig("TestApp", "Owner", "test@example.com", logo, color, shade, fg))
         == "<p>Hello TestUser, welcome to TestApp</p>"
  {
    var b := BrandingConfig("TestApp", "Owner", "test@example.com", logo, color, shade, fg);
    assert PlainBranding(b);
    MessageExample(b, "TestUser", "Hello ", ", welcome to ", "<p>", "</p>");
    MessageValueText();
    MessageTemplateText();
    MessageOutputText();
  }
}
