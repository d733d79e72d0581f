/** Concrete runs of the formatter and the walk on small declaration trees. */
module Scenarios {
  import opened Optional
  import opened Descriptors
  import opened MethodDeclVisitor
  import opened WalkProperties

  const VoidType: TypeBinding := TypeBinding(true, Some("V"))
  const IntType: TypeBinding := TypeBinding(true, Some("I"))
  const StringType: TypeBinding := TypeBinding(false, Some("java.lang.String"))

  /** A resolved `void run()`. */
  const Run: MethodBinding := MethodBinding("run", false, [], VoidType)

  /** A zero-parameter method prints nothing between the parentheses. */
  lemma ZeroParameterScenario()
    ensures Signature(Run) == "run()V"
  {
    assert JoinedParameters([]) == "";
    assert DescriptorText(VoidType) == "V";
    assert Signature(Run) == "run" + "(" + "" + ")" + "V";
  }

  /** A constructor prints under `<init>`, with reference types wrapped, in declared order. */
  lemma ConstructorScenario()
    ensures Signature(MethodBinding("Foo", true, [StringType, IntType], VoidType)) == "<init>(Ljava.lang.String;I)V"
  {
    var m := MethodBinding("Foo", true, [StringType, IntType], VoidType);
    ConstructorParameters();
    assert DescriptorText(VoidType) == "V";
    assert NamePart(m) == "<init>";
    LiteralConcat();
  }

  lemma ConstructorParameters()
    ensures JoinedParameters([StringType, IntType]) == "Ljava.lang.String;I"
  {
    JoinedPair(StringType, IntType);
    assert DescriptorText(StringType) == "Ljava.lang.String;";
    assert DescriptorText(IntType) == "I";
  }

  lemma LiteralConcat()
    ensures "<init>" + "(" + "Ljava.lang.String;I" + ")" + "V" == "<init>(Ljava.lang.String;I)V"
  {
  }

  /** A type reporting no binary name prints as `Lnull;`. */
  lemma NullBinaryNameScenario()
    ensures Signature(MethodBinding("id", false, [TypeBinding(false, None)], TypeBinding(false, None))) == "id(Lnull;)Lnull;"
  {
    JoinedSingle(TypeBinding(false, None));
    assert DescriptorText(TypeBinding(false, None)) == "Lnull;";
  }

  lemma JoinedSingle(a: TypeBinding)
    ensures JoinedParameters([a]) == DescriptorText(a)
  {
    assert [a][1..] == [];
  }

  lemma JoinedPair(a: TypeBinding, b: TypeBinding)
    ensures JoinedParameters([a, b]) == DescriptorText(a) + DescriptorText(b)
  {
    assert [a, b][1..] == [b];
    JoinedSingle(b);
  }

  lemma Single(d: Decl, context: string)
    ensures SignaturesAll([d]) == Signatures(d)
    ensures DiagnosticsAll([d], context) == Diagnostics(d, context)
  {
    assert [d][1..] == [];
  }

  lemma Pair(d: Decl, e: Decl, context: string)
    ensures SignaturesAll([d, e]) == Signatures(d) + Signatures(e)
    ensures DiagnosticsAll([d, e], context) == Diagnostics(d, context) + Diagnostics(e, context)
  {
    assert [d, e][1..] == [e];
    Single(e, context);
  }

  /** A method declaration without body declarations, as the walk reports it. */
  lemma Leaf(identifier: string, binding: Option<MethodBinding>, context: string)
    ensures binding.Some? ==> Signatures(MethodDecl(identifier, binding, [])) == [Signature(binding.value)]
    ensures binding.None? ==> Signatures(MethodDecl(identifier, binding, [])) == []
    ensures binding.Some? ==> Diagnostics(MethodDecl(identifier, binding, []), context) == []
    ensures binding.None? ==> Diagnostics(MethodDecl(identifier, binding, []), context) == [MethodWarning(context, identifier)]
  {
  }

  /** An unresolved method in a resolved class: nothing printed, one warning naming the class and the method. */
  lemma UnresolvedMethodInResolvedType()
    ensures var tree := TypeDecl(ClassOrInterface, "Foo", Some("com.acme.Foo"), [MethodDecl("bar", None, [])]);
      VisitDecl(tree, Fresh) == Walk([], [], ["binding cannot be resolved. com.acme.Foo#bar"])
  {
    var bar := MethodDecl("bar", None, []);
    var tree := TypeDecl(ClassOrInterface, "Foo", Some("com.acme.Foo"), [bar]);
    VisitDeclMatchesReference(tree, Fresh);
    assert Entry(tree) == "com.acme.Foo";
    Single(bar, "com.acme.Foo");
    Leaf("bar", None, "com.acme.Foo");
    assert Signatures(tree) == [];
    assert Diagnostics(tree, Peek([])) == [MethodWarning("com.acme.Foo", "bar")];
    WarningTexts();
  }

  /** An unresolved enum holding a resolved method: a type warning, and the method's line is still printed. */
  lemma ResolvedMethodInUnresolvedType()
    ensures var tree := TypeDecl(Enum, "Foo", None, [MethodDecl("run", Some(Run), [])]);
      VisitDecl(tree, Fresh) == Walk([], ["run()V"], ["binding cannot be resolved. type: Foo"])
  {
    var run := MethodDecl("run", Some(Run), []);
    var tree := TypeDecl(Enum, "Foo", None, [run]);
    VisitDeclMatchesReference(tree, Fresh);
    Single(run, Unresolved);
    Leaf("run", Some(Run), Unresolved);
    ZeroParameterScenario();
    assert TypeWarning("Foo") == "binding cannot be resolved. type: Foo";
    assert Diagnostics(tree, NullText) == [TypeWarning("Foo")] + DiagnosticsAll([run], Unresolved);
  }

  /**
   * The warning context is the innermost entry: inside an unresolved inner
   * class it is the sentinel, and after that class it is the outer name
   * again.
   */
  lemma WarningContextIsInnermostEntry()
    ensures var inner := TypeDecl(ClassOrInterface, "Inner", None, [MethodDecl("m", None, [])]);
      var outer := TypeDecl(ClassOrInterface, "Outer", Some("a.Outer"), [inner, MethodDecl("n", None, [])]);
      VisitDecl(outer, Fresh).warnings == [
        "binding cannot be resolved. type: Inner",
        "binding cannot be resolved. UNRESOLVED#m",
        "binding cannot be resolved. a.Outer#n"]
  {
    var m := MethodDecl("m", None, []);
    var n := MethodDecl("n", None, []);
    var inner := TypeDecl(ClassOrInterface, "Inner", None, [m]);
    var outer := TypeDecl(ClassOrInterface, "Outer", Some("a.Outer"), [inner, n]);
    VisitDeclMatchesReference(outer, Fresh);
    Pair(inner, n, "a.Outer");
    Single(m, Unresolved);
    Leaf("m", None, Unresolved);
    Leaf("n", None, "a.Outer");
    var w1, w2, w3 := TypeWarning("Inner"), MethodWarning(Unresolved, "m"), MethodWarning("a.Outer", "n");
    assert Diagnostics(inner, "a.Outer") == [w1] + [w2];
    assert Diagnostics(outer, NullText) == [w1] + [w2] + [w3];
    WarningTexts();
  }

  lemma WarningTexts()
    ensures TypeWarning("Inner") == "binding cannot be resolved. type: Inner"
    ensures MethodWarning(Unresolved, "m") == "binding cannot be resolved. UNRESOLVED#m"
    ensures MethodWarning("a.Outer", "n") == "binding cannot be resolved. a.Outer#n"
    ensures MethodWarning("com.acme.Foo", "bar") == "binding cannot be resolved. com.acme.Foo#bar"
  {
  }

  /** An annotation type pushes nothing, and with nothing on the stack the context prints as "null". */
  lemma AnnotationTypePushesNothing()
    ensures var anno := TypeDecl(AnnotationType, "A", Some("a.A"), [OtherNode([MethodDecl("k", None, [])])]);
      VisitDecl(anno, Fresh).warnings == ["binding cannot be resolved. null#k"]
  {
    var k := MethodDecl("k", None, []);
    var other := OtherNode([k]);
    var anno := TypeDecl(AnnotationType, "A", Some("a.A"), [other]);
    VisitDeclMatchesReference(anno, Fresh);
    Single(other, NullText);
    Single(k, NullText);
    Leaf("k", None, NullText);
    assert MethodWarning(NullText, "k") == "binding cannot be resolved. null#k";
  }
}
