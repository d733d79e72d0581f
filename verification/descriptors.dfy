/**
 * Descriptor and signature formatting of MethodDeclVisitor (getBinaryName and
 * getMethodName): a resolved method binding becomes one line
 * `name(paramDescriptors)returnDescriptor`.
 *
 * The formatting follows the code, not the Java Virtual Machine
 * Specification: every non-primitive binary name is wrapped as `L<name>;`
 * exactly as the binding reports it, so names keep their dots and array
 * names keep their own `[` and `;`.
 */
module Descriptors {
  import opened Optional

  /**
   * What the descriptor code asks of a resolved type binding: whether it is
   * primitive, and its binary name. A binding may report no binary name (a
   * null), for example for a capture or for a local type declared in
   * unreachable code.
   */
  datatype TypeBinding = TypeBinding(isPrimitive: bool, binaryName: Option<string>)

  /** What the signature code asks of a resolved method binding. */
  datatype MethodBinding = MethodBinding(
    name: string,
    isConstructor: bool,
    parameterTypes: seq<TypeBinding>,
    returnType: TypeBinding)

  /** The name every constructor is printed under. */
  const ConstructorName: string := "<init>"

  /** Java string concatenation renders a null String as this text. */
  const NullText: string := "null"

  /** The text a possibly-null String contributes to a concatenation. */
  function Text(s: Option<string>): string
  {
    match s
    case Some(t) => t
    case None => NullText
  }

  /**
   * getBinaryName: a primitive's binary name unchanged (possibly null), any
   * other type's binary name inside the `L…;` envelope, with a null name
   * rendered as "null".
   */
  function Descriptor(ty: TypeBinding): (d: Option<string>)
    ensures ty.isPrimitive ==> d == ty.binaryName
    ensures !ty.isPrimitive ==> (d.Some? && |d.value| >= 2 && d.value[0] == 'L'
                                  && d.value[|d.value| - 1] == ';' && d.value[1..|d.value| - 1] == Text(ty.binaryName))
  {
    if ty.isPrimitive then ty.binaryName else Some("L" + Text(ty.binaryName) + ";")
  }

  /** The printed form of one descriptor, as the joining collector appends it. */
  function DescriptorText(ty: TypeBinding): string
  {
    Text(Descriptor(ty))
  }

  /** The name part of a signature: the sentinel for constructors, else the binding's name. */
  function NamePart(m: MethodBinding): (name: string)
    ensures m.isConstructor ==> name == ConstructorName
    ensures !m.isConstructor ==> name == m.name
  {
    if m.isConstructor then ConstructorName else m.name
  }

  /** The parameter descriptors concatenated in declared order with no separator. */
  function JoinedParameters(ps: seq<TypeBinding>): string
  {
    if |ps| == 0 then "" else DescriptorText(ps[0]) + JoinedParameters(ps[1..])
  }

  /** getMethodName on a resolved binding: the line the visitor prints for a method. */
  function Signature(m: MethodBinding): (s: string)
    ensures |s| >= |NamePart(m)| + 2 + |DescriptorText(m.returnType)|
    ensures s[..|NamePart(m)|] == NamePart(m) && s[|NamePart(m)|] == '('
    ensures s[|s| - |DescriptorText(m.returnType)|..] == DescriptorText(m.returnType)
    ensures s[|s| - |DescriptorText(m.returnType)| - 1] == ')'
  {
    NamePart(m) + "(" + JoinedParameters(m.parameterTypes) + ")" + DescriptorText(m.returnType)
  }

  /** Joining is a homomorphism: the descriptors of a split list are the two halves' descriptors, in order. */
  lemma {:induction false} JoinedParametersAppend(ps: seq<TypeBinding>, qs: seq<TypeBinding>)
    ensures JoinedParameters(ps + qs) == JoinedParameters(ps) + JoinedParameters(qs)
    decreases |ps|
  {
    if |ps| == 0 {
      assert ps + qs == qs;
    } else {
      assert (ps + qs)[1..] == ps[1..] + qs;
      JoinedParametersAppend(ps[1..], qs);
    }
  }

  /**
   * The signature lays out its parts in order: the name part, "(", the
   * parameter descriptors in declared order, ")", the return descriptor.
   * A zero-parameter method has nothing between the parentheses.
   */
  lemma SignatureLayout(m: MethodBinding)
    ensures var s := Signature(m); var n := |NamePart(m)|; var p := |JoinedParameters(m.parameterTypes)|;
      && |s| == n + p + 2 + |DescriptorText(m.returnType)|
      && s[..n] == NamePart(m)
      && s[n] == '('
      && s[n + 1..n + 1 + p] == JoinedParameters(m.parameterTypes)
      && s[n + 1 + p] == ')'
      && s[n + 2 + p..] == DescriptorText(m.returnType)
    ensures |m.parameterTypes| == 0 ==> Signature(m) == NamePart(m) + "()" + DescriptorText(m.returnType)
  {
    var s := Signature(m);
    var n := |NamePart(m)|;
    var p := |JoinedParameters(m.parameterTypes)|;
    assert s == NamePart(m) + "(" + JoinedParameters(m.parameterTypes) + ")" + DescriptorText(m.returnType);
    if |m.parameterTypes| == 0 {
      assert JoinedParameters(m.parameterTypes) == "";
    }
  }

  /** A constructor's signature does not depend on the name the binding reports. */
  lemma ConstructorIgnoresDeclaredName(m: MethodBinding, other: string)
    requires m.isConstructor
    ensures Signature(m.(name := other)) == Signature(m)
    ensures Signature(m)[..|ConstructorName|] == ConstructorName
  {
  }

  /**
   * getMethodName as the code computes it: the parameter descriptors are
   * collected one by one and joined with the empty separator.
   */
  method BuildSignature(m: MethodBinding) returns (line: string)
    ensures line == NamePart(m) + "(" + JoinedParameters(m.parameterTypes) + ")" + DescriptorText(m.returnType)
    ensures line == Signature(m)
  {
    var params := m.parameterTypes;
    var joined := "";
    var i := 0;
    while i < |params|
      invariant 0 <= i <= |params|
      invariant joined == JoinedParameters(params[..i])
    {
      JoinedParametersAppend(params[..i], [params[i]]);
      assert params[..i + 1] == params[..i] + [params[i]];
      joined := joined + DescriptorText(params[i]);
      i := i + 1;
    }
    assert params[..i] == params;
    line := NamePart(m) + "(" + joined + ")" + DescriptorText(m.returnType);
  }
}
