/** The resolver on the dictionaries of the mail service's tests and on a
    few more, worked out pass by pass. */
module ResolverExamples {
  import opened Text
  import opened Variables
  import opened Resolver

  lemma GreetingReplace()
    ensures Contains("Hello {name}", "{name}")
    ensures Replace("Hello {name}", "{name}", "World") == "Hello World"
  {
    assert "Hello {name}" == "Hello " + "{name}";
    assert '{' !in "Hello ";
    ReplaceSkipsPrefix("Hello ", "{name}", "{name}", "World");
    ReplaceLeading("{name}", "", "World");
    assert "{name}" + "" == "{name}";
    calc {
      Replace("Hello {name}", "{name}", "World");
      "Hello " + Replace("{name}", "{name}", "World");
      "Hello " + ("World" + Replace("", "{name}", "World"));
      "Hello " + "World";
      "Hello World";
    }
    assert Contains("{name}", "{name}");
  }

  lemma GreetingFirstPass()
    ensures Pass([Entry("name", Str("World")), Entry("greeting", Str("Hello {name}"))])
         == ([Entry("name", Str("World")), Entry("greeting", Str("Hello World"))], true)
  {
    var vars := [Entry("name", Str("World")), Entry("greeting", Str("Hello {name}"))];
    GreetingKeepsName();
    GreetingRewritesGreeting();
  }

  lemma GreetingKeepsName()
    ensures var vars := [Entry("name", Str("World")), Entry("greeting", Str("Hello {name}"))];
      PassUpTo(vars, 1) == (vars, false)
  {
    var vars := [Entry("name", Str("World")), Entry("greeting", Str("Hello {name}"))];
    assert Substitute(vars, "name", "World", 2) == "World" by {
      NoBraceNoPlaceholder("World", "greeting");
      assert Substitute(vars, "name", "World", 1) == "World";
    }
    assert Step(vars, 0, vars[0]) == (vars, false);
  }

  lemma GreetingRewritesGreeting()
    ensures var vars := [Entry("name", Str("World")), Entry("greeting", Str("Hello {name}"))];
      Step(vars, 1, vars[1]) == ([Entry("name", Str("World")), Entry("greeting", Str("Hello World"))], true)
  {
    var vars := [Entry("name", Str("World")), Entry("greeting", Str("Hello {name}"))];
    GreetingSubstitute();
    GreetingChanged();
    StepOnString(vars, 1, "Hello World");
    assert vars[1 := Entry("greeting", Str("Hello World"))]
        == [Entry("name", Str("World")), Entry("greeting", Str("Hello World"))];
  }

  lemma GreetingChanged()
    ensures "Hello World" != "Hello {name}"
  {
    assert "Hello World"[6] != "Hello {name}"[6];
  }

  lemma GreetingSubstitute()
    ensures var vars := [Entry("name", Str("World")), Entry("greeting", Str("Hello {name}"))];
      Substitute(vars, "greeting", "Hello {name}", 2) == "Hello World"
  {
    var vars := [Entry("name", Str("World")), Entry("greeting", Str("Hello {name}"))];
    GreetingReplace();
    assert Placeholder("name") == "{name}";
    SubstituteOneMore(vars, "greeting", "Hello {name}", 0, "Hello {name}", "Hello World");
    SubstituteOneMore(vars, "greeting", "Hello {name}", 1, "Hello World", "Hello World");
  }

  /** A flat dictionary whose strings hold no `{` is resolved. */
  lemma NoBracesResolved(vars: Vars)
    requires forall k :: 0 <= k < |vars| ==> !vars[k].val.Nested?
    requires forall k :: 0 <= k < |vars| && vars[k].val.Str? ==> '{' !in vars[k].val.s
    ensures Resolved(vars)
  {
    forall i, j | 0 <= i < |vars| && 0 <= j < |vars| && vars[i].val.Str?
      ensures !Contains(vars[i].val.s, Placeholder(vars[j].key))
    {
      NoBraceNoPlaceholder(vars[i].val.s, vars[j].key);
    }
  }

  /** `{"name": "World", "greeting": "Hello {name}"}` resolves `greeting` to
      "Hello World": one pass rewrites it, a second finds nothing to do. */
  lemma GreetingExample()
    ensures Resolve([Entry("name", Str("World")), Entry("greeting", Str("Hello {name}"))], 3)
         == [Entry("name", Str("World")), Entry("greeting", Str("Hello World"))]
    ensures PassesRun([Entry("name", Str("World")), Entry("greeting", Str("Hello {name}"))], 3) == 2
  {
    GreetingFirstPass();
    GreetingSecondPass();
  }

  lemma GreetingSecondPass()
    ensures var w1 := [Entry("name", Str("World")), Entry("greeting", Str("Hello World"))];
      Resolve(w1, 2) == w1 && PassesRun(w1, 2) == 1
  {
    var w1 := [Entry("name", Str("World")), Entry("greeting", Str("Hello World"))];
    assert '{' !in "Hello World";
    NoBracesResolved(w1);
    ResolveResolved(w1, 2);
  }

  /** A placeholder followed by brace-free text: its one occurrence is
      replaced. */
  lemma ReplaceLeadingPlaceholder(key: string, rest: string, rep: string)
    requires '{' !in rest
    ensures Contains(Placeholder(key) + rest, Placeholder(key))
    ensures Replace(Placeholder(key) + rest, Placeholder(key), rep) == rep + rest
  {
    var p := Placeholder(key);
    ReplaceLeading(p, rest, rep);
    ReplaceSkipsPrefix(rest, "", p, rep);
    assert rest + "" == rest;
    assert (p + rest)[..|p|] == p;
  }

  /** The placeholder of another key of the same length is not found in a
      string made of a placeholder and brace-free text. */
  lemma OtherPlaceholderAbsent(k1: string, k2: string, rest: string)
    requires |k1| == |k2| && k1 != k2 && '{' !in k1 && '{' !in rest
    ensures !Contains(Placeholder(k1) + rest, Placeholder(k2))
  {
    var s := Placeholder(k1) + rest;
    assert s[..|k2| + 2] == Placeholder(k1) by {
      assert s[..|k2| + 2] == s[..|Placeholder(k1)|];
    }
    assert Placeholder(k1) != Placeholder(k2) by {
      assert Placeholder(k1)[1..|k1| + 1] == k1;
      assert Placeholder(k2)[1..|k2| + 1] == k2;
    }
    assert s[1..] == k1 + ("}" + rest);
    assert '{' !in s[1..];
    NoBraceNoPlaceholder(s[1..], k2);
  }

  // {"a": "A", "b": "{a}B", "c": "{b}C"}: "b" is rewritten first, and "c"
  // already sees the new value of "b" in the same pass.

  lemma ChainKeepsA()
    ensures var vars := [Entry("a", Str("A")), Entry("b", Str("{a}B")), Entry("c", Str("{b}C"))];
      PassUpTo(vars, 1) == (vars, false)
  {
    var vars := [Entry("a", Str("A")), Entry("b", Str("{a}B")), Entry("c", Str("{b}C"))];
    SubstituteOneMore(vars, "a", "A", 0, "A", "A");
    SubstituteOneMore(vars, "a", "A", 1, "A", "A");
    SubstituteOneMore(vars, "a", "A", 2, "A", "A");
    StepOnString(vars, 0, "A");
  }

  lemma ChainRewritesB()
    ensures var vars := [Entry("a", Str("A")), Entry("b", Str("{a}B")), Entry("c", Str("{b}C"))];
      Step(vars, 1, vars[1]) == ([Entry("a", Str("A")), Entry("b", Str("AB")), Entry("c", Str("{b}C"))], true)
  {
    var vars := [Entry("a", Str("A")), Entry("b", Str("{a}B")), Entry("c", Str("{b}C"))];
    assert Placeholder("a") + "B" == "{a}B";
    ReplaceLeadingPlaceholder("a", "B", "A");
    assert "A" + "B" == "AB";
    SubstituteOneMore(vars, "b", "{a}B", 0, "{a}B", "AB");
    SubstituteOneMore(vars, "b", "{a}B", 1, "AB", "AB");
    NoBraceNoPlaceholder("AB", "c");
    SubstituteOneMore(vars, "b", "{a}B", 2, "AB", "AB");
    StepOnString(vars, 1, "AB");
    assert vars[1 := Entry("b", Str("AB"))]
        == [Entry("a", Str("A")), Entry("b", Str("AB")), Entry("c", Str("{b}C"))];
  }

  lemma ChainRewritesC()
    ensures var w := [Entry("a", Str("A")), Entry("b", Str("AB")), Entry("c", Str("{b}C"))];
      Step(w, 2, w[2]) == ([Entry("a", Str("A")), Entry("b", Str("AB")), Entry("c", Str("ABC"))], true)
  {
    var w := [Entry("a", Str("A")), Entry("b", Str("AB")), Entry("c", Str("{b}C"))];
    assert Placeholder("b") + "C" == "{b}C";
    OtherPlaceholderAbsent("b", "a", "C");
    SubstituteOneMore(w, "c", "{b}C", 0, "{b}C", "{b}C");
    ReplaceLeadingPlaceholder("b", "C", "AB");
    assert "AB" + "C" == "ABC";
    SubstituteOneMore(w, "c", "{b}C", 1, "{b}C", "ABC");
    SubstituteOneMore(w, "c", "{b}C", 2, "ABC", "ABC");
    StepOnString(w, 2, "ABC");
    assert w[2 := Entry("c", Str("ABC"))]
        == [Entry("a", Str("A")), Entry("b", Str("AB")), Entry("c", Str("ABC"))];
  }

  lemma ChainFirstPass()
    ensures Pass([Entry("a", Str("A")), Entry("b", Str("{a}B")), Entry("c", Str("{b}C"))])
         == ([Entry("a", Str("A")), Entry("b", Str("AB")), Entry("c", Str("ABC"))], true)
  {
    var vars := [Entry("a", Str("A")), Entry("b", Str("{a}B")), Entry("c", Str("{b}C"))];
    ChainKeepsA();
    ChainRewritesB();
    ChainRewritesC();
    assert PassUpTo(vars, 2) == ([Entry("a", Str("A")), Entry("b", Str("AB")), Entry("c", Str("{b}C"))], true);
  }

  /** `{"a": "A", "b": "{a}B", "c": "{b}C"}` resolves `c` to "ABC" in a
      single pass, because the rewritten `b` is visible when `c` is
      processed; the second pass finds nothing to do. */
  lemma ChainExample()
    ensures Resolve([Entry("a", Str("A")), Entry("b", Str("{a}B")), Entry("c", Str("{b}C"))], 3)
         == [Entry("a", Str("A")), Entry("b", Str("AB")), Entry("c", Str("ABC"))]
    ensures PassesRun([Entry("a", Str("A")), Entry("b", Str("{a}B")), Entry("c", Str("{b}C"))], 3) == 2
  {
    var w := [Entry("a", Str("A")), Entry("b", Str("AB")), Entry("c", Str("ABC"))];
    ChainFirstPass();
    NoBracesResolved(w);
    ResolveResolved(w, 2);
  }

  // {"a": "{b}", "b": "{a}"}: a cycle.

  lemma CycleFirstPass()
    ensures Pass([Entry("a", Str("{b}")), Entry("b", Str("{a}"))])
         == ([Entry("a", Str("{a}")), Entry("b", Str("{a}"))], true)
  {
    var vars := [Entry("a", Str("{b}")), Entry("b", Str("{a}"))];
    var w := [Entry("a", Str("{a}")), Entry("b", Str("{a}"))];
    assert Step(vars, 0, vars[0]) == (w, true) by {
      assert Placeholder("b") + "" == "{b}";
      ReplaceLeadingPlaceholder("b", "", "{a}");
      SubstituteOneMore(vars, "a", "{b}", 0, "{b}", "{b}");
      SubstituteOneMore(vars, "a", "{b}", 1, "{b}", "{a}");
      assert "{a}" != "{b}" by { assert "{a}"[1] != "{b}"[1]; }
      StepOnString(vars, 0, "{a}");
      assert vars[0 := Entry("a", Str("{a}"))] == w;
    }
    assert Step(w, 1, w[1]) == (w, false) by {
      assert Placeholder("a") == "{a}";
      ReplaceBySelf("{a}", "{a}");
      SubstituteOneMore(w, "b", "{a}", 0, "{a}", "{a}");
      SubstituteOneMore(w, "b", "{a}", 1, "{a}", "{a}");
      StepOnString(w, 1, "{a}");
    }
    assert PassUpTo(vars, 1) == (w, true);
  }

  lemma CycleSecondPass()
    ensures Pass([Entry("a", Str("{a}")), Entry("b", Str("{a}"))])
         == ([Entry("a", Str("{a}")), Entry("b", Str("{a}"))], false)
  {
    var w := [Entry("a", Str("{a}")), Entry("b", Str("{a}"))];
    assert Step(w, 0, w[0]) == (w, false) by {
      assert Placeholder("a") + "" == "{a}";
      OtherPlaceholderAbsent("a", "b", "");
      SubstituteOneMore(w, "a", "{a}", 0, "{a}", "{a}");
      SubstituteOneMore(w, "a", "{a}", 1, "{a}", "{a}");
      StepOnString(w, 0, "{a}");
    }
    assert Step(w, 1, w[1]) == (w, false) by {
      assert Placeholder("a") == "{a}";
      ReplaceBySelf("{a}", "{a}");
      SubstituteOneMore(w, "b", "{a}", 0, "{a}", "{a}");
      SubstituteOneMore(w, "b", "{a}", 1, "{a}", "{a}");
      StepOnString(w, 1, "{a}");
    }
    assert PassUpTo(w, 1) == (w, false);
  }

  /** The cycle `{"a": "{b}", "b": "{a}"}` terminates: after two passes both
      values are "{a}" and the second pass changes nothing. */
  lemma CycleExample()
    ensures Resolve([Entry("a", Str("{b}")), Entry("b", Str("{a}"))], 3)
         == [Entry("a", Str("{a}")), Entry("b", Str("{a}"))]
    ensures PassesRun([Entry("a", Str("{b}")), Entry("b", Str("{a}"))], 3) == 2
  {
    CycleFirstPass();
    CycleSecondPass();
  }

  /** A nested dictionary is resolved against its own keys only:
      `{"name": "User", "nested": {"message": "Hi {name}"}}` comes back
      unchanged, the nested `{name}` left as it is. */
  lemma NestedSeesOnlyOwnKeys()
    ensures var vars := [Entry("name", Str("User")), Entry("nested", Nested([Entry("message", Str("Hi {name}"))]))];
      Resolve(vars, 3) == vars
  {
    var inner := [Entry("message", Str("Hi {name}"))];
    var vars := [Entry("name", Str("User")), Entry("nested", Nested(inner))];
    assert Resolved(inner);
    assert !Contains("User", Placeholder("nested"));
    assert Resolved(vars);
    ResolveResolved(vars, 3);
  }
}
