/**
 * The depth-first walk of MethodDeclVisitor over a declaration tree.
 *
 * Class, interface and enum declarations push their qualified name (or the
 * "UNRESOLVED" sentinel, with a warning) on the enclosing-type stack when the
 * walk enters them and pop it when the walk leaves them. Each method
 * declaration prints its signature line, or, when its binding cannot be
 * resolved, logs a warning naming the innermost enclosing type. Every visit
 * descends into the node's children.
 *
 * The visitor's hidden state (its type stack, standard output and logger)
 * is threaded explicitly as a Walk value. The stack is a sequence whose last
 * element is the innermost entry (the head of the Java deque).
 */
module MethodDeclVisitor {
  import opened Optional
  import opened Descriptors

  /** The kinds of abstract type declaration; the visitor overrides visit and endVisit only for the first two. */
  datatype TypeKind = ClassOrInterface | Enum | AnnotationType

  /**
   * A node of the declaration tree, with the outcome of resolveBinding on
   * it: a type binding is represented by the qualified name it reports, a
   * method binding by what the signature code reads from it.
   */
  datatype Decl =
    | TypeDecl(kind: TypeKind, identifier: string, typeBinding: Option<string>, members: seq<Decl>)
    | MethodDecl(identifier: string, methodBinding: Option<MethodBinding>, body: seq<Decl>)
    | OtherNode(children: seq<Decl>)

  /** The exceptions thrown when a binding cannot be resolved, each carrying its message. */
  datatype BindingFailure =
    | TypeDeclBindingFailure(identifier: string)
    | MethodDeclBindingFailure(identifier: string)
  {
    function Message(): string
    {
      match this
      case TypeDeclBindingFailure(id) => "type: " + id
      case MethodDeclBindingFailure(id) => "method: " + id
    }
  }

  /** The outcome of a resolving call: its value, or the binding exception it throws. */
  datatype Resolution<T> = Resolved(value: T) | Failed(failure: BindingFailure)

  /** The visitor's state: the enclosing-type stack, the lines printed and the warnings logged so far. */
  datatype Walk = Walk(typeStack: seq<string>, printed: seq<string>, warnings: seq<string>)

  /** The state of a freshly constructed visitor. */
  const Fresh: Walk := Walk([], [], [])

  /** The stack entry pushed for a type whose binding cannot be resolved. */
  const Unresolved: string := "UNRESOLVED"

  /** The text every warning of the visitor starts with. */
  const WarningPrefix: string := "binding cannot be resolved. "

  /** peek on the stack as it appears in a warning: the innermost entry, or "null" when the stack is empty. */
  function Peek(stack: seq<string>): (top: string)
    ensures |stack| > 0 ==> top == stack[|stack| - 1]
    ensures |stack| == 0 ==> top == NullText
  {
    if |stack| == 0 then NullText else stack[|stack| - 1]
  }

  /** The stack entry a type declaration contributes: its qualified name, or the sentinel. */
  function Entry(d: Decl): string
    requires d.TypeDecl?
  {
    match d.typeBinding
    case Some(name) => name
    case None => Unresolved
  }

  /** The warning logged for a type declaration whose binding cannot be resolved. */
  function TypeWarning(identifier: string): string
  {
    WarningPrefix + "type: " + identifier
  }

  /** The warning logged for a method declaration whose binding cannot be resolved. */
  function MethodWarning(context: string, identifier: string): string
  {
    WarningPrefix + context + "#" + identifier
  }

  /** getQualifiedName: the binding's qualified name, or the type binding exception. */
  function QualifiedName(d: Decl): (r: Resolution<string>)
    requires d.TypeDecl?
    ensures r.Resolved? <==> d.typeBinding.Some?
    ensures r.Resolved? ==> r.value == d.typeBinding.value
    ensures r.Failed? ==> r.failure.Message() == "type: " + d.identifier
  {
    match d.typeBinding
    case Some(name) => Resolved(name)
    case None => Failed(TypeDeclBindingFailure(d.identifier))
  }

  /** getMethodName: the signature line, or the method binding exception. */
  function MethodName(d: Decl): (r: Resolution<string>)
    requires d.MethodDecl?
    ensures r.Resolved? <==> d.methodBinding.Some?
    ensures r.Resolved? ==> r.value == Signature(d.methodBinding.value)
    ensures r.Failed? ==> r.failure == MethodDeclBindingFailure(d.identifier)
  {
    match d.methodBinding
    case Some(m) => Resolved(Signature(m))
    case None => Failed(MethodDeclBindingFailure(d.identifier))
  }

  /**
   * visit(AbstractTypeDeclaration): pushes exactly one entry, the qualified
   * name when the binding resolves, otherwise the sentinel together with one
   * warning ending in `type: <identifier>`. Nothing is printed.
   */
  function EnterType(d: Decl, w: Walk): (w': Walk)
    requires d.TypeDecl?
    ensures |w'.typeStack| == |w.typeStack| + 1
    ensures w'.typeStack[..|w.typeStack|] == w.typeStack
    ensures d.typeBinding.Some? ==> Peek(w'.typeStack) == d.typeBinding.value && w'.warnings == w.warnings
    ensures d.typeBinding.None? ==> Peek(w'.typeStack) == Unresolved
                                    && w'.warnings == w.warnings + [WarningPrefix + "type: " + d.identifier]
    ensures w'.printed == w.printed
  {
    match QualifiedName(d)
    case Resolved(name) => w.(typeStack := w.typeStack + [name])
    case Failed(e) =>
      assert WarningPrefix + e.Message() == WarningPrefix + "type: " + d.identifier;
      w.(typeStack := w.typeStack + [Unresolved], warnings := w.warnings + [WarningPrefix + e.Message()])
  }

  /**
   * endVisit(AbstractTypeDeclaration): pops exactly one entry. The Java deque
   * throws on an empty stack, which is the None result.
   */
  function LeaveType(w: Walk): (r: Option<Walk>)
    ensures r.None? <==> |w.typeStack| == 0
    ensures r.Some? ==> r.value.typeStack + [Peek(w.typeStack)] == w.typeStack
    ensures r.Some? ==> r.value.printed == w.printed && r.value.warnings == w.warnings
  {
    if |w.typeStack| == 0 then None
    else Some(w.(typeStack := w.typeStack[..|w.typeStack| - 1]))
  }

  /**
   * visit(MethodDeclaration): prints the signature of a resolved method;
   * for an unresolved one prints nothing and logs one warning naming the
   * innermost enclosing type entry and the declared name. The stack is left
   * alone.
   */
  function VisitMethod(d: Decl, w: Walk): (w': Walk)
    requires d.MethodDecl?
    ensures w'.typeStack == w.typeStack
    ensures d.methodBinding.Some? ==> w'.printed == w.printed + [Signature(d.methodBinding.value)]
                                      && w'.warnings == w.warnings
    ensures d.methodBinding.None? ==> w'.printed == w.printed
                                      && w'.warnings == w.warnings + [MethodWarning(Peek(w.typeStack), d.identifier)]
  {
    match MethodName(d)
    case Resolved(line) => w.(printed := w.printed + [line])
    case Failed(_) =>
      assert WarningPrefix + Peek(w.typeStack) + "#" + d.identifier == MethodWarning(Peek(w.typeStack), d.identifier);
      w.(warnings := w.warnings + [WarningPrefix + Peek(w.typeStack) + "#" + d.identifier])
  }

  /**
   * The walk over one declaration and everything below it. Every visit is
   * paired with its endVisit, so the stack after the subtree is the stack
   * before it, whatever resolved; in particular no endVisit ever pops an
   * empty stack.
   */
  function VisitDecl(d: Decl, w: Walk): (w': Walk)
    ensures w'.typeStack == w.typeStack
    decreases d
  {
    match d
    case TypeDecl(kind, _, _, members) =>
      if kind == AnnotationType then VisitAll(members, w)
      else
        var entered := EnterType(d, w);
        var visited := VisitAll(members, entered);
        (match LeaveType(visited)
         case Some(left) => left
         case None => assert false; visited)
    case MethodDecl(_, _, body) =>
      VisitAll(body, VisitMethod(d, w))
    case OtherNode(children) =>
      VisitAll(children, w)
  }

  /** The walk over sibling declarations, left to right. */
  function VisitAll(ds: seq<Decl>, w: Walk): (w': Walk)
    ensures w'.typeStack == w.typeStack
    decreases ds
  {
    if |ds| == 0 then w else VisitAll(ds[1..], VisitDecl(ds[0], w))
  }
}
