# Method signature extraction — a Dafny model

JavaStaticAnalysis walks the declaration trees that the Eclipse JDT front end
builds for a set of Java source files. For every method declaration it prints
one JVM-style signature line, `name(paramDescriptors)returnDescriptor`. A
constructor is printed as `<init>`. A primitive type prints its code as it is.
Every other type prints as `L<binaryName>;`. While it walks, the visitor keeps
a stack of the enclosing class and enum names. When a binding cannot be
resolved, it logs a warning that names the innermost entry of that stack and
then carries on. The repository also holds a small two-variant `Result` type.

This project models those parts and proves properties about them:

- `optional.dfy` — `Option`, which stands for a Java reference that may be null.
- `java_result.dfy` (module `JavaResult`) — `util/Result.java`: the `ok`/`error`
  factories with their null check, `map`, `consume`, `toString`, `hashCode` and
  the variant-blind `equals`.
- `descriptors.dfy` (module `Descriptors`) — `getBinaryName` and
  `getMethodName`. `BuildSignature` is the loop that collects and joins the
  parameter descriptors.
- `signature_decoding.dfy` (module `SignatureDecoding`) — a decoder for
  signature lines. It is the formatter's partner: the round trip and the
  overload-key property are proved against it.
- `method_decl_visitor.dfy` (module `MethodDeclVisitor`) — the declaration tree
  and the visitor's `visit`/`endVisit` overloads. The visitor's hidden state
  (its type stack, standard output and logger) is threaded as an explicit
  `Walk` value.
- `walk_properties.dfy` (module `WalkProperties`) — a reference reading of the
  tree that uses no stack, and the theorems that tie the walk to it: lines and
  warnings, counts, failure isolation, splitting a run of siblings, and reuse
  of one visitor across compilation units.
- `scenarios.dfy` (module `Scenarios`) — concrete runs on small trees.

The model follows the code exactly in these details:

- Binary names are used exactly as JDT reports them. They are dotted
  (`Ljava.lang.String;`), not slashed. Array types are wrapped a second time,
  so `String[]` gives `L[Ljava.lang.String;;`.
- A type that reports no binary name prints as `Lnull;`. This is Java's string
  concatenation of null. A binding may report no binary name, for example for
  a capture or for a local type declared in unreachable code.
- A type warning reads `binding cannot be resolved. type: <identifier>`. A
  method warning reads `binding cannot be resolved. <top>#<identifier>`.
  Neither warning ends in "unresolved".
- When the stack is empty, `peek` returns null, so the context prints as `null`.
- Annotation type declarations are `AbstractTypeDeclaration`s, but the visitor
  does not override `visit` for them. They push nothing.
- push and pop are a plain `visit`/`endVisit` pair, not a scoped guard. Within
  the model nothing between the two throws past the visitor, because both
  binding exceptions are caught (other exceptions are listed under "Left
  out"). So the pairing holds: `VisitDecl` proves the stack is restored after
  every subtree, and that `endVisit` never pops an empty deque.
- One visitor instance is shared across all compilation units.
  `SharedVisitorMatchesSeparateRuns` proves this behaves like a fresh visitor
  per unit.

## Model

| member | source | states |
|---|---|---|
| JavaResult.MakeOk | src/main/java/com/lethe_river/jsa/util/Result.java:30-32 | a null payload throws NullPointerException; otherwise the result is an Ok member holding exactly that payload |
| JavaResult.MakeError | src/main/java/com/lethe_river/jsa/util/Result.java:41-43 | a null payload throws NullPointerException; otherwise the result is an Error member holding exactly that payload |
| JavaResult.Result.Map | src/main/java/com/lethe_river/jsa/util/Result.java:53-57 | an Ok member applies f1 to its payload; an Error member applies f2 |
| JavaResult.Result.Consume | src/main/java/com/lethe_river/jsa/util/Result.java:65-69 | exactly one consumer is called, with the payload: c1 for Ok and c2 for Error |
| JavaResult.Result.ToString | src/main/java/com/lethe_river/jsa/util/Result.java:76-79 | the text is the payload's own string, whichever member holds it |
| JavaResult.Result.HashCode | src/main/java/com/lethe_river/jsa/util/Result.java:86-89 | the hash is the payload's hash, the same whether an Ok or an Error member holds the payload |
| JavaResult.Result.Equals | src/main/java/com/lethe_river/jsa/util/Result.java:96-107 | a Result equals itself; it equals another object exactly when that object is a Result whose payload is equal, whatever either variant; null and other classes are never equal |
| JavaResult.HashCodeConsistentWithEquals | src/main/java/com/lethe_river/jsa/util/Result.java:86-89 | the hash is the payload's hash, and equal Results always have equal hashes |
| JavaResult.EqualsIsEquivalence | src/main/java/com/lethe_river/jsa/util/Result.java:96-107 | equals is reflexive, symmetric and transitive on Results |
| JavaResult.EqualsRejectsForeignObjects | src/main/java/com/lethe_river/jsa/util/Result.java:96-107 | no Result equals null or an object of another class |
| JavaResult.EqualsIgnoresVariant | src/main/java/com/lethe_river/jsa/util/Result.java:96-107 | two Results are equal exactly when their payloads are, so Ok(x) equals Error(x) |
| JavaResult.ToStringConsistentWithEquals | src/main/java/com/lethe_river/jsa/util/Result.java:76-79 | equal Results print the same text, and the text never shows the variant |
| JavaResult.MapWithConstructorsIsIdentity | src/main/java/com/lethe_river/jsa/util/Result.java:53-57 | mapping with the two constructors rebuilds the same Result |
| JavaResult.MapFusion | src/main/java/com/lethe_river/jsa/util/Result.java:53-57 | applying g after map equals mapping with g composed into both functions |
| JavaResult.ConsumeAgreesWithMap | src/main/java/com/lethe_river/jsa/util/Result.java:65-69 | consume calls exactly the consumer that map would select |
| JavaResult.FactoriesEqualOnSamePayload | src/main/java/com/lethe_river/jsa/util/Result.java:30-43 | ok(x) and error(x) are different values that are nevertheless equal |
| Descriptors.Descriptor | src/main/java/com/lethe_river/jsa/MethodDeclVisitor.java:99-102 | a primitive's binary name is returned unchanged; any other type's name sits between a leading `L` and a trailing `;`, with a missing name as "null" |
| Descriptors.NamePart | src/main/java/com/lethe_river/jsa/MethodDeclVisitor.java:86 | a constructor is named `<init>`; any other method uses the binding's name |
| Descriptors.ConstructorIgnoresDeclaredName | src/main/java/com/lethe_river/jsa/MethodDeclVisitor.java:86 | a constructor's line starts with `<init>` and does not change when the binding reports a different name |
| Descriptors.JoinedParametersAppend | src/main/java/com/lethe_river/jsa/MethodDeclVisitor.java:88-95 | the joined descriptors of a split parameter list are the two halves' descriptors, in order |
| Descriptors.Signature | src/main/java/com/lethe_river/jsa/MethodDeclVisitor.java:95 | the line starts with the name part and `(`, and ends with `)` followed by the return descriptor |
| Descriptors.SignatureLayout | src/main/java/com/lethe_river/jsa/MethodDeclVisitor.java:95 | the line is the name part, `(`, the parameter descriptors, `)` and the return descriptor, at these positions; zero parameters give `name()ret` |
| Descriptors.BuildSignature | src/main/java/com/lethe_river/jsa/MethodDeclVisitor.java:79-96 | collecting each parameter's descriptor and joining them with no separator builds the signature line |
| SignatureDecoding.ParseFieldRoundTrip | src/main/java/com/lethe_river/jsa/MethodDeclVisitor.java:99-102 | the element descriptor inside an array's binary name (brackets, then a base-type code or `L<name>;`) reads back as itself |
| SignatureDecoding.ParseBinaryNameRoundTrip | src/main/java/com/lethe_river/jsa/MethodDeclVisitor.java:99-102 | a class or array binary name followed by the closing `;` of the wrapping reads back as that name, even though array names hold a `;` of their own |
| SignatureDecoding.ParseTypeRoundTrip | src/main/java/com/lethe_river/jsa/MethodDeclVisitor.java:99-102 | a well-formed type's descriptor reads back as that type and leaves the rest of the text unread |
| SignatureDecoding.ParseParametersRoundTrip | src/main/java/com/lethe_river/jsa/MethodDeclVisitor.java:88-95 | the joined parameter descriptors read back as the same types in the same order |
| SignatureDecoding.DecodeSignatureRoundTrip | src/main/java/com/lethe_river/jsa/MethodDeclVisitor.java:79-96 | every well-formed signature line decodes to the name part, parameter types and return type of its binding |
| SignatureDecoding.SignatureIsOverloadKey | src/main/java/com/lethe_river/jsa/MethodDeclVisitor.java:79-96 | for well-formed bindings, including array parameters and returns, two lines are equal exactly when name part, parameters and return type are all equal |
| SignatureDecoding.ArrayBindingsAreWellFormed | src/main/java/com/lethe_river/jsa/MethodDeclVisitor.java:99-102 | the binary names reported for `String[]` and `int[][]` are well formed, so the overload key covers them |
| SignatureDecoding.StrayDelimiterMakesSignaturesAmbiguous | src/main/java/com/lethe_river/jsa/MethodDeclVisitor.java:99-102 | the `L...;` wrapping alone is not a key: a name with a stray `;` that no class or array name has lets two different methods print the same line |
| MethodDeclVisitor.Peek | src/main/java/com/lethe_river/jsa/MethodDeclVisitor.java:29 | the warning context is the innermost stack entry, or "null" when the stack is empty |
| MethodDeclVisitor.QualifiedName | src/main/java/com/lethe_river/jsa/MethodDeclVisitor.java:68-77 | resolves exactly when the type binding exists and gives its qualified name; otherwise fails with message `type: <identifier>` |
| MethodDeclVisitor.MethodName | src/main/java/com/lethe_river/jsa/MethodDeclVisitor.java:79-96 | resolves exactly when the method binding exists and gives its signature line; otherwise fails with the method binding exception |
| MethodDeclVisitor.EnterType | src/main/java/com/lethe_river/jsa/MethodDeclVisitor.java:34-42 | pushes exactly one entry and keeps the stack below it. The entry is the qualified name, or `UNRESOLVED` plus one warning ending in `type: <identifier>`. Nothing is printed |
| MethodDeclVisitor.LeaveType | src/main/java/com/lethe_river/jsa/MethodDeclVisitor.java:44-46 | pops exactly the top entry and changes nothing else; it fails only on an empty stack |
| MethodDeclVisitor.VisitMethod | src/main/java/com/lethe_river/jsa/MethodDeclVisitor.java:24-32 | a resolved method prints its signature. An unresolved one prints nothing and logs one warning `<top>#<identifier>`. The stack does not change |
| MethodDeclVisitor.VisitDecl | src/main/java/com/lethe_river/jsa/MethodDeclVisitor.java:48-66 | after any subtree the stack is exactly what it was before, whatever resolved, so no endVisit pops an empty stack |
| MethodDeclVisitor.VisitAll | src/main/java/com/lethe_river/jsa/MethodDeclVisitor.java:31 | the stack after a run of siblings is the stack before it |
| WalkProperties.VisitDeclMatchesReference | src/main/java/com/lethe_river/jsa/MethodDeclVisitor.java:24-66 | the walk prints exactly the stack-free reference lines in depth-first order. It logs exactly the reference warnings, whose context is the innermost enclosing entry. The stack is restored |
| WalkProperties.VisitAllMatchesReference | src/main/java/com/lethe_river/jsa/MethodDeclVisitor.java:24-66 | the same agreement with the reference, for a run of sibling declarations |
| WalkProperties.LineCounts | src/main/java/com/lethe_river/jsa/MethodDeclVisitor.java:24-42 | one line is printed per resolved method. One warning is logged per unresolved method and per unresolved class, interface or enum |
| WalkProperties.TypeFailuresNeverSuppressOutput | src/main/java/com/lethe_river/jsa/MethodDeclVisitor.java:34-42 | removing every type binding leaves the printed lines unchanged, and the stack is still restored |
| WalkProperties.VisitAllAppend | src/main/java/com/lethe_river/jsa/MethodDeclVisitor.java:48-66 | walking two runs of siblings equals walking the first run and then the second |
| WalkProperties.UnresolvedMethodLosesOnlyItsLine | src/main/java/com/lethe_river/jsa/MethodDeclVisitor.java:25-31 | an unresolved method loses exactly its own line. Lines before it, nested in it and after it are still printed |
| WalkProperties.SharedVisitorMatchesSeparateRuns | src/main/java/com/lethe_river/jsa/SourceProcessor.java:80-87 | one visitor shared by all compilation units gives the same lines and warnings as a fresh visitor per unit. The stack is empty between units |
| Scenarios.ZeroParameterScenario | src/main/java/com/lethe_river/jsa/MethodDeclVisitor.java:95 | a resolved `void run()` prints `run()V` |
| Scenarios.ConstructorScenario | src/main/java/com/lethe_river/jsa/MethodDeclVisitor.java:86-95 | a constructor taking a String and an int prints `<init>(Ljava.lang.String;I)V` |
| Scenarios.NullBinaryNameScenario | src/main/java/com/lethe_river/jsa/MethodDeclVisitor.java:99-102 | a type that reports no binary name prints as `Lnull;` |
| Scenarios.UnresolvedMethodInResolvedType | src/main/java/com/lethe_river/jsa/MethodDeclVisitor.java:25-31 | an unresolved method in class com.acme.Foo prints nothing and logs `binding cannot be resolved. com.acme.Foo#bar` |
| Scenarios.ResolvedMethodInUnresolvedType | src/main/java/com/lethe_river/jsa/MethodDeclVisitor.java:34-42 | an unresolved enum logs its type warning, and the resolved method inside it is still printed |
| Scenarios.WarningContextIsInnermostEntry | src/main/java/com/lethe_river/jsa/MethodDeclVisitor.java:29 | inside an unresolved inner class the context is `UNRESOLVED`; after that class it is the outer name again |
| Scenarios.AnnotationTypePushesNothing | src/main/java/com/lethe_river/jsa/MethodDeclVisitor.java:48-66 | an annotation type pushes nothing, so a method below it with no other enclosing type gets the context `null` |

## Left out

- SourceProcessor.java's file discovery, classpath setup and JDT parser
  configuration are I/O and calls into a foreign library. `resolveBinding()` is
  an input: an optional binding stored on each declaration node. The model
  keeps only one thing from SourceProcessor: that one visitor instance is
  shared across every compilation unit.
- JDT's `ASTVisitor` dispatch is reduced to three node shapes. Class, interface,
  enum and annotation type declarations are one shape; method declarations are
  another; every other node is `OtherNode`. Each node holds its child
  declarations in source order. Nodes that contain no declarations are dropped.
- Standard output and the logger are modelled as appended sequences of lines.
  Log levels, handlers, timestamps and log files (LoggerUtil.java) and
  FileUtil.java are left out.
- BindingException.java is not part of this model. The model assumes that its
  `getMessage()` returns the message passed to its constructor.
- Exceptions other than the two binding exceptions are left out: for example,
  a JDT binding that returns null from `getReturnType`.
- MethodNameOutputVisitor.java is a legacy visitor that prints only the simple
  name. The tests only run the whole tool over the bundled sample sources. The
  bundled JHotDraw sources are analyser input, not part of this program.
- SignatureDecoding.SignatureIsOverloadKey: covers bindings that report a
  class binary name or an array binary name. Two kinds are not covered. A
  binding that reports no binary name prints as `Lnull;`. A type variable
  may report a name built from its declaring element, such as
  `p.C$(Ljava/lang/Object;)V$T` for one declared by a generic method, which
  holds `(` and `;`.
- JavaResult.Result: the type parameters O and E are erased into one payload
  type, because at run time both members hand out their payload as an Object.
  Static typing of the mapping functions and consumers is therefore not
  modelled.
- JavaResult.EqualsIsEquivalence: the payload's own `equals` is modelled as
  Dafny equality. A payload whose `equals` is not an equivalence relation is
  not modelled.
- JavaResult.HashCodeConsistentWithEquals: the payload's hash is a parameter
  function. The 32-bit range of Java's `int` is not imposed on it.
- JavaResult.Result.Consume: the consumers' side effects are not modelled. The
  contract records which consumer is called and with what argument.
