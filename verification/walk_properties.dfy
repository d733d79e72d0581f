/**
 * What the walk of MethodDeclVisitor prints and logs, stated without the
 * type stack: a reference reading of the declaration tree in which the
 * warning context is passed down explicitly as the innermost enclosing type
 * entry. The theorems below show the stack-threading walk agrees with it,
 * and derive the counting, ordering and failure-isolation properties.
 */
module WalkProperties {
  import opened Optional
  import opened Descriptors
  import opened MethodDeclVisitor

  /** The signature lines of the resolved methods below d, in depth-first declaration order. */
  function Signatures(d: Decl): seq<string>
    decreases d
  {
    match d
    case TypeDecl(_, _, _, members) => SignaturesAll(members)
    case MethodDecl(_, binding, body) =>
      (if binding.Some? then [Signature(binding.value)] else []) + SignaturesAll(body)
    case OtherNode(children) => SignaturesAll(children)
  }

  function SignaturesAll(ds: seq<Decl>): seq<string>
    decreases ds
  {
    if |ds| == 0 then [] else Signatures(ds[0]) + SignaturesAll(ds[1..])
  }

  /**
   * The warnings for the resolution failures below d, in depth-first order,
   * when the innermost enclosing type entry above d is context.
   */
  function Diagnostics(d: Decl, context: string): seq<string>
    decreases d
  {
    match d
    case TypeDecl(kind, identifier, binding, members) =>
      if kind == AnnotationType then DiagnosticsAll(members, context)
      else (if binding.None? then [TypeWarning(identifier)] else []) + DiagnosticsAll(members, Entry(d))
    case MethodDecl(identifier, binding, body) =>
      (if binding.None? then [MethodWarning(context, identifier)] else []) + DiagnosticsAll(body, context)
    case OtherNode(children) => DiagnosticsAll(children, context)
  }

  function DiagnosticsAll(ds: seq<Decl>, context: string): seq<string>
    decreases ds
  {
    if |ds| == 0 then [] else Diagnostics(ds[0], context) + DiagnosticsAll(ds[1..], context)
  }

  /**
   * The walk over one declaration leaves the stack as it found it, appends
   * exactly the reference signature lines to the output, and appends exactly
   * the reference warnings, with the stack's top as the context.
   */
  lemma {:induction false} VisitDeclMatchesReference(d: Decl, w: Walk)
    ensures VisitDecl(d, w) == Walk(w.typeStack, w.printed + Signatures(d), w.warnings + Diagnostics(d, Peek(w.typeStack)))
    decreases d
  {
    match d
    case TypeDecl(kind, identifier, binding, members) =>
      if kind == AnnotationType {
        VisitAllMatchesReference(members, w);
      } else {
        var entered := EnterType(d, w);
        assert Peek(entered.typeStack) == Entry(d);
        VisitAllMatchesReference(members, entered);
        EnterVisitLeaveMatchesReference(d, w);
      }
    case MethodDecl(identifier, binding, body) =>
      var visited := VisitMethod(d, w);
      VisitAllMatchesReference(body, visited);
      assert VisitDecl(d, w).printed
          == w.printed + ((if binding.Some? then [Signature(binding.value)] else []) + SignaturesAll(body));
      assert VisitDecl(d, w).warnings
          == w.warnings + ((if binding.None? then [MethodWarning(Peek(w.typeStack), identifier)] else []) + DiagnosticsAll(body, Peek(w.typeStack)));
    case OtherNode(children) =>
      VisitAllMatchesReference(children, w);
  }

  /**
   * The class, interface or enum step of the agreement: given that the
   * members' walk agrees with the reference under the pushed entry, entering,
   * walking and leaving the type agrees with it too.
   */
  lemma EnterVisitLeaveMatchesReference(d: Decl, w: Walk)
    requires d.TypeDecl? && d.kind != AnnotationType
    requires var entered := EnterType(d, w);
      VisitAll(d.members, entered)
      == Walk(entered.typeStack, entered.printed + SignaturesAll(d.members), entered.warnings + DiagnosticsAll(d.members, Entry(d)))
    ensures VisitDecl(d, w) == Walk(w.typeStack, w.printed + Signatures(d), w.warnings + Diagnostics(d, Peek(w.typeStack)))
  {
    var left := TypeStepUnfolds(d, w);
    var own := TypeDiagnosticsSplit(d, Peek(w.typeStack));
    var entered := EnterType(d, w);
    assert Signatures(d) == SignaturesAll(d.members);
    assert left.printed == w.printed + Signatures(d);
    assert entered.warnings == w.warnings + own;
    assert left.warnings == w.warnings + own + DiagnosticsAll(d.members, Entry(d));
    Regroup(w.warnings, own, DiagnosticsAll(d.members, Entry(d)), []);
    assert own + DiagnosticsAll(d.members, Entry(d)) + [] == Diagnostics(d, Peek(w.typeStack));
    assert left.warnings == w.warnings + Diagnostics(d, Peek(w.typeStack));
    assert left == Walk(w.typeStack, w.printed + Signatures(d), w.warnings + Diagnostics(d, Peek(w.typeStack)));
  }

  /** A class, interface or enum step is the pop after the members' walk after the push. */
  lemma TypeStepUnfolds(d: Decl, w: Walk) returns (left: Walk)
    requires d.TypeDecl? && d.kind != AnnotationType
    ensures left == VisitDecl(d, w)
    ensures left.typeStack == w.typeStack
    ensures var visited := VisitAll(d.members, EnterType(d, w));
      left.printed == visited.printed && left.warnings == visited.warnings
  {
    left := LeaveType(VisitAll(d.members, EnterType(d, w))).value;
  }

  /** A class, interface or enum's diagnostics: its own warning, if unresolved, then its members' under its entry. */
  lemma TypeDiagnosticsSplit(d: Decl, context: string) returns (own: seq<string>)
    requires d.TypeDecl? && d.kind != AnnotationType
    ensures d.typeBinding.Some? ==> own == []
    ensures d.typeBinding.None? ==> own == [WarningPrefix + "type: " + d.identifier]
    ensures Diagnostics(d, context) == own + DiagnosticsAll(d.members, Entry(d))
  {
    own := if d.typeBinding.None? then [TypeWarning(d.identifier)] else [];
  }

  /** The same agreement for a sequence of sibling declarations. */
  lemma {:induction false} VisitAllMatchesReference(ds: seq<Decl>, w: Walk)
    ensures VisitAll(ds, w) == Walk(w.typeStack, w.printed + SignaturesAll(ds), w.warnings + DiagnosticsAll(ds, Peek(w.typeStack)))
    decreases ds
  {
    if |ds| > 0 {
      VisitDeclMatchesReference(ds[0], w);
      var next := VisitDecl(ds[0], w);
      VisitAllMatchesReference(ds[1..], next);
      assert VisitAll(ds, w).printed == w.printed + Signatures(ds[0]) + SignaturesAll(ds[1..]);
      assert VisitAll(ds, w).warnings
          == w.warnings + Diagnostics(ds[0], Peek(w.typeStack)) + DiagnosticsAll(ds[1..], Peek(w.typeStack));
    }
  }

  /** The method declarations below d whose binding resolves (resolved) or does not (!resolved). */
  function CountMethods(d: Decl, resolved: bool): nat
    decreases d
  {
    match d
    case TypeDecl(_, _, _, members) => CountMethodsAll(members, resolved)
    case MethodDecl(_, binding, body) =>
      (if binding.Some? == resolved then 1 else 0) + CountMethodsAll(body, resolved)
    case OtherNode(children) => CountMethodsAll(children, resolved)
  }

  function CountMethodsAll(ds: seq<Decl>, resolved: bool): nat
    decreases ds
  {
    if |ds| == 0 then 0 else CountMethods(ds[0], resolved) + CountMethodsAll(ds[1..], resolved)
  }

  /** The class, interface and enum declarations below d whose binding does not resolve. */
  function CountUnresolvedTypes(d: Decl): nat
    decreases d
  {
    match d
    case TypeDecl(kind, _, binding, members) =>
      (if kind != AnnotationType && binding.None? then 1 else 0) + CountUnresolvedTypesAll(members)
    case MethodDecl(_, _, body) => CountUnresolvedTypesAll(body)
    case OtherNode(children) => CountUnresolvedTypesAll(children)
  }

  function CountUnresolvedTypesAll(ds: seq<Decl>): nat
    decreases ds
  {
    if |ds| == 0 then 0 else CountUnresolvedTypes(ds[0]) + CountUnresolvedTypesAll(ds[1..])
  }

  /**
   * One printed line per resolved method, and one warning per unresolved
   * method or unresolved class, interface or enum.
   */
  lemma {:induction false} LineCounts(d: Decl, w: Walk)
    ensures |VisitDecl(d, w).printed| == |w.printed| + CountMethods(d, true)
    ensures |VisitDecl(d, w).warnings| == |w.warnings| + CountMethods(d, false) + CountUnresolvedTypes(d)
  {
    VisitDeclMatchesReference(d, w);
    ReferenceCounts(d, Peek(w.typeStack));
  }

  lemma {:induction false} ReferenceCounts(d: Decl, context: string)
    ensures |Signatures(d)| == CountMethods(d, true)
    ensures |Diagnostics(d, context)| == CountMethods(d, false) + CountUnresolvedTypes(d)
    decreases d
  {
    match d
    case TypeDecl(kind, _, _, members) =>
      if kind == AnnotationType {
        ReferenceCountsAll(members, context);
      } else {
        ReferenceCountsAll(members, Entry(d));
      }
    case MethodDecl(_, _, body) => ReferenceCountsAll(body, context);
    case OtherNode(children) => ReferenceCountsAll(children, context);
  }

  lemma {:induction false} ReferenceCountsAll(ds: seq<Decl>, context: string)
    ensures |SignaturesAll(ds)| == CountMethodsAll(ds, true)
    ensures |DiagnosticsAll(ds, context)| == CountMethodsAll(ds, false) + CountUnresolvedTypesAll(ds)
    decreases ds
  {
    if |ds| > 0 {
      ReferenceCounts(ds[0], context);
      ReferenceCountsAll(ds[1..], context);
    }
  }

  /** d with every type binding removed, as if no class, interface or enum resolved. */
  function WithoutTypeBindings(d: Decl): Decl
    decreases d
  {
    match d
    case TypeDecl(kind, identifier, _, members) => TypeDecl(kind, identifier, None, WithoutTypeBindingsAll(members))
    case MethodDecl(identifier, binding, body) => MethodDecl(identifier, binding, WithoutTypeBindingsAll(body))
    case OtherNode(children) => OtherNode(WithoutTypeBindingsAll(children))
  }

  function WithoutTypeBindingsAll(ds: seq<Decl>): seq<Decl>
    decreases ds
  {
    if |ds| == 0 then [] else [WithoutTypeBindings(ds[0])] + WithoutTypeBindingsAll(ds[1..])
  }

  /**
   * Failure isolation across the type/method boundary: a type that does not
   * resolve never suppresses or changes a line printed for a method inside
   * it, and the stack is restored all the same.
   */
  lemma TypeFailuresNeverSuppressOutput(d: Decl, w: Walk)
    ensures VisitDecl(WithoutTypeBindings(d), w).printed == VisitDecl(d, w).printed
    ensures VisitDecl(WithoutTypeBindings(d), w).typeStack == w.typeStack
  {
    VisitDeclMatchesReference(d, w);
    VisitDeclMatchesReference(WithoutTypeBindings(d), w);
    SignaturesIgnoreTypeBindings(d);
  }

  lemma {:induction false} SignaturesIgnoreTypeBindings(d: Decl)
    ensures Signatures(WithoutTypeBindings(d)) == Signatures(d)
    decreases d
  {
    match d
    case TypeDecl(_, _, _, members) => SignaturesIgnoreTypeBindingsAll(members);
    case MethodDecl(_, _, body) => SignaturesIgnoreTypeBindingsAll(body);
    case OtherNode(children) => SignaturesIgnoreTypeBindingsAll(children);
  }

  lemma {:induction false} SignaturesIgnoreTypeBindingsAll(ds: seq<Decl>)
    ensures SignaturesAll(WithoutTypeBindingsAll(ds)) == SignaturesAll(ds)
    decreases ds
  {
    if |ds| > 0 {
      SignaturesIgnoreTypeBindings(ds[0]);
      SignaturesIgnoreTypeBindingsAll(ds[1..]);
      assert WithoutTypeBindingsAll(ds)[1..] == WithoutTypeBindingsAll(ds[1..]);
    }
  }

  lemma {:induction false} SignaturesAllAppend(ds: seq<Decl>, es: seq<Decl>)
    ensures SignaturesAll(ds + es) == SignaturesAll(ds) + SignaturesAll(es)
    decreases |ds|
  {
    if |ds| == 0 {
      assert ds + es == es;
    } else {
      assert (ds + es)[1..] == ds[1..] + es;
      SignaturesAllAppend(ds[1..], es);
    }
  }

  lemma {:induction false} DiagnosticsAllAppend(ds: seq<Decl>, es: seq<Decl>, context: string)
    ensures DiagnosticsAll(ds + es, context) == DiagnosticsAll(ds, context) + DiagnosticsAll(es, context)
    decreases |ds|
  {
    if |ds| == 0 {
      assert ds + es == es;
    } else {
      assert (ds + es)[1..] == ds[1..] + es;
      DiagnosticsAllAppend(ds[1..], es, context);
    }
  }

  /**
   * Walking two runs of siblings is walking the first and then the second
   * from where the first left off: nothing in one run affects the other
   * except through the lines appended.
   */
  lemma VisitAllAppend(ds: seq<Decl>, es: seq<Decl>, w: Walk)
    ensures VisitAll(ds + es, w) == VisitAll(es, VisitAll(ds, w))
  {
    PrintedAppend(ds, es, w);
    WarningsAppend(ds, es, w);
  }

  lemma PrintedAppend(ds: seq<Decl>, es: seq<Decl>, w: Walk)
    ensures VisitAll(ds + es, w).printed == VisitAll(es, VisitAll(ds, w)).printed
  {
    VisitAllMatchesReference(ds + es, w);
    SignaturesAllAppend(ds, es);
    VisitAllMatchesReference(ds, w);
    VisitAllMatchesReference(es, VisitAll(ds, w));
  }

  lemma WarningsAppend(ds: seq<Decl>, es: seq<Decl>, w: Walk)
    ensures VisitAll(ds + es, w).warnings == VisitAll(es, VisitAll(ds, w)).warnings
  {
    VisitAllMatchesReference(ds + es, w);
    DiagnosticsAllAppend(ds, es, Peek(w.typeStack));
    VisitAllMatchesReference(ds, w);
    VisitAllMatchesReference(es, VisitAll(ds, w));
  }

  /**
   * Failure isolation between siblings: a method whose binding does not
   * resolve loses exactly its own line; the lines of the methods before it,
   * nested in it and after it are printed as when it resolves.
   */
  lemma UnresolvedMethodLosesOnlyItsLine(pre: seq<Decl>, d: Decl, post: seq<Decl>, w: Walk)
    requires d.MethodDecl? && d.methodBinding.Some?
    ensures VisitAll(pre + [d] + post, w).printed
         == w.printed + SignaturesAll(pre) + [Signature(d.methodBinding.value)] + SignaturesAll(d.body) + SignaturesAll(post)
    ensures VisitAll(pre + [d.(methodBinding := None)] + post, w).printed
         == w.printed + SignaturesAll(pre) + SignaturesAll(d.body) + SignaturesAll(post)
  {
    PrintedAround(pre, d, post, w);
    PrintedAround(pre, d.(methodBinding := None), post, w);
    var x, p, b, q := w.printed, SignaturesAll(pre), SignaturesAll(d.body), SignaturesAll(post);
    var line := Signature(d.methodBinding.value);
    assert Signatures(d) == [line] + b;
    assert Signatures(d.(methodBinding := None)) == b;
    Regroup(x + p, [line], b, q);
  }

  /** The walk prints, around one declaration, the lines of its siblings before and after it. */
  lemma PrintedAround(pre: seq<Decl>, d: Decl, post: seq<Decl>, w: Walk)
    ensures VisitAll(pre + [d] + post, w).printed == w.printed + SignaturesAll(pre) + Signatures(d) + SignaturesAll(post)
  {
    var all := pre + [d] + post;
    VisitAllMatchesReference(all, w);
    assert VisitAll(all, w).printed == w.printed + SignaturesAll(all);
    SignaturesAround(pre, d, post);
    Regroup(w.printed, SignaturesAll(pre), Signatures(d), SignaturesAll(post));
  }

  lemma Regroup<T>(x: seq<T>, p: seq<T>, m: seq<T>, q: seq<T>)
    ensures x + (p + m + q) == x + p + m + q
  {
  }

  lemma SignaturesAround(pre: seq<Decl>, d: Decl, post: seq<Decl>)
    ensures SignaturesAll(pre + [d] + post) == SignaturesAll(pre) + Signatures(d) + SignaturesAll(post)
  {
    SignaturesAllAppend(pre + [d], post);
    SignaturesAllAppend(pre, [d]);
    assert [d][1..] == [];
  }

  /**
   * Each compilation unit walked by its own fresh visitor, the results
   * merged in unit order.
   */
  function SeparateRuns(units: seq<Decl>): Walk
    decreases units
  {
    if |units| == 0 then Fresh
    else
      var first := VisitDecl(units[0], Fresh);
      var rest := SeparateRuns(units[1..]);
      Walk([], first.printed + rest.printed, first.warnings + rest.warnings)
  }

  /**
   * One visitor shared by all compilation units, as the source processor
   * uses it, behaves exactly like a fresh visitor per unit: the stack is
   * empty again at every unit boundary, so no context leaks between units.
   */
  lemma SharedVisitorMatchesSeparateRuns(units: seq<Decl>)
    ensures VisitAll(units, Fresh) == SeparateRuns(units)
    ensures VisitAll(units, Fresh).typeStack == []
  {
    VisitAllMatchesReference(units, Fresh);
    SeparateRunsMatchReference(units);
  }

  lemma {:induction false} SeparateRunsMatchReference(units: seq<Decl>)
    ensures SeparateRuns(units) == Walk([], SignaturesAll(units), DiagnosticsAll(units, NullText))
    decreases units
  {
    if |units| > 0 {
      VisitDeclMatchesReference(units[0], Fresh);
      SeparateRunsMatchReference(units[1..]);
      var first := VisitDecl(units[0], Fresh);
      assert first.printed == Signatures(units[0]);
      assert first.warnings == Diagnostics(units[0], NullText);
    }
  }
}
