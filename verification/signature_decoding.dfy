/**
 * A decoder for the signature lines the visitor prints, used as the
 * independent partner of the formatter: on well-formed bindings it recovers
 * the name part, the parameter types in order and the return type, so the
 * printed line is a faithful overload key. Well-formed covers the binary
 * names bindings report for classes and for arrays (which carry their own
 * `;` inside the `L...;` wrapping); StrayDelimiterMakesSignaturesAmbiguous
 * shows that the wrapping alone, on arbitrary names, is not a key.
 */
module SignatureDecoding {
  import opened Optional
  import opened Descriptors

  /** The base-type codes of section 4.3.2 of the Java Virtual Machine Specification. */
  const BaseTypeCodes: set<char> := {'B', 'C', 'D', 'F', 'I', 'J', 'S', 'Z'}

  /** The codes a primitive binding reports: the base types and `V` for void (section 4.3.3 of the Java Virtual Machine Specification). */
  const PrimitiveCodes: set<char> := BaseTypeCodes + {'V'}

  /**
   * A field descriptor as it appears inside an array's binary name: `[`
   * before a field descriptor, a base-type code, or `L`, a name without `;`,
   * and `;` (section 4.3.2 of the Java Virtual Machine Specification, with
   * the dots JDT keeps in binary names).
   */
  predicate FieldDescriptor(e: string)
    decreases |e|
  {
    if |e| == 0 then false
    else if e[0] == '[' then FieldDescriptor(e[1..])
    else if e[0] == 'L' then |e| >= 2 && e[|e| - 1] == ';' && ';' !in e[1..|e| - 1]
    else |e| == 1 && e[0] in BaseTypeCodes
  }

  /** The binary name of an array type: `[` followed by the element's field descriptor. */
  predicate ArrayBinaryName(n: string)
  {
    |n| > 0 && n[0] == '[' && FieldDescriptor(n)
  }

  /** The binary name of a class, interface or enum: no `;`, and not starting with `[`. */
  predicate ClassBinaryName(n: string)
  {
    ';' !in n && (|n| == 0 || n[0] != '[')
  }

  /** A type binding whose descriptor can be read back: a known primitive code, or a reported class or array binary name. */
  predicate WellFormedType(ty: TypeBinding)
  {
    && ty.binaryName.Some?
    && (if ty.isPrimitive
        then |ty.binaryName.value| == 1 && ty.binaryName.value[0] in PrimitiveCodes
        else ArrayBinaryName(ty.binaryName.value) || ClassBinaryName(ty.binaryName.value))
  }

  /** A method binding whose signature can be read back; constructors may report any name. */
  predicate WellFormedMethod(m: MethodBinding)
  {
    && (m.isConstructor || '(' !in m.name)
    && (forall i :: 0 <= i < |m.parameterTypes| ==> WellFormedType(m.parameterTypes[i]))
    && WellFormedType(m.returnType)
  }

  /** The three parts a signature line encodes. */
  datatype SignatureParts = SignatureParts(name: string, parameterTypes: seq<TypeBinding>, returnType: TypeBinding)

  /** The parts of a method binding that its signature line is meant to carry. */
  function PartsOf(m: MethodBinding): SignatureParts
  {
    SignatureParts(NamePart(m), m.parameterTypes, m.returnType)
  }

  /** The index of the first occurrence of c in s, if any. */
  function Find(s: string, c: char): (r: Option<nat>)
    ensures r.Some? ==> r.value < |s| && s[r.value] == c && c !in s[..r.value]
    ensures r.None? ==> c !in s
  {
    if |s| == 0 then None
    else if s[0] == c then Some(0)
    else
      match Find(s[1..], c)
      case None => None
      case Some(k) =>
        assert s[..k + 1] == [s[0]] + s[1..][..k];
        Some(k + 1)
  }

  lemma FindFirst(a: string, c: char, b: string)
    requires c !in a
    ensures Find(a + [c] + b, c) == Some(|a|)
  {
    var s := a + [c] + b;
    assert s[|a|] == c;
    assert s[..|a|] == a;
  }

  /** Reads one field descriptor (the shape of an array's binary name) from the front of s, returning it and what follows. */
  function ParseField(s: string): (r: Option<(string, string)>)
    ensures r.Some? ==> |r.value.1| < |s|
    decreases |s|
  {
    if |s| == 0 then None
    else if s[0] == '[' then
      match ParseField(s[1..])
      case None => None
      case Some((e, rest)) => Some(([s[0]] + e, rest))
    else if s[0] == 'L' then
      match Find(s[1..], ';')
      case None => None
      case Some(k) => Some((s[..k + 2], s[k + 2..]))
    else if s[0] in BaseTypeCodes then Some(([s[0]], s[1..]))
    else None
  }

  /**
   * Reads the binary name inside an `L...;` wrapping and the closing `;`:
   * an array name is read by its shape, any other name up to the first `;`.
   */
  function ParseBinaryName(s: string): (r: Option<(string, string)>)
    ensures r.Some? ==> |r.value.1| < |s|
  {
    if |s| > 0 && s[0] == '[' then
      match ParseField(s)
      case None => None
      case Some((n, rest)) => if |rest| > 0 && rest[0] == ';' then Some((n, rest[1..])) else None
    else
      match Find(s, ';')
      case None => None
      case Some(k) => Some((s[..k], s[k + 1..]))
  }

  /** Reads one descriptor from the front of s, returning the type and what follows it. */
  function ParseType(s: string): (r: Option<(TypeBinding, string)>)
    ensures r.Some? ==> |r.value.1| < |s|
  {
    if |s| == 0 then None
    else if s[0] in PrimitiveCodes then Some((TypeBinding(true, Some([s[0]])), s[1..]))
    else if s[0] == 'L' then
      match ParseBinaryName(s[1..])
      case None => None
      case Some((n, rest)) => Some((TypeBinding(false, Some(n)), rest))
    else None
  }

  /** Reads descriptors up to and including the closing `)`, returning the types and what follows. */
  function ParseParameters(s: string): (r: Option<(seq<TypeBinding>, string)>)
    ensures r.Some? ==> |r.value.1| < |s|
    decreases |s|
  {
    if |s| == 0 then None
    else if s[0] == ')' then Some(([], s[1..]))
    else
      match ParseType(s)
      case None => None
      case Some((ty, rest)) =>
        match ParseParameters(rest)
        case None => None
        case Some((tys, tail)) => Some(([ty] + tys, tail))
  }

  /** Splits a signature line into its name part, parameter types and return type. */
  function DecodeSignature(s: string): Option<SignatureParts>
  {
    match Find(s, '(')
    case None => None
    case Some(i) =>
      match ParseParameters(s[i + 1..])
      case None => None
      case Some((tys, rest)) =>
        match ParseType(rest)
        case None => None
        case Some((ret, tail)) =>
          if tail == [] then Some(SignatureParts(s[..i], tys, ret)) else None
  }

  /** A field descriptor reads back as itself, leaving what followed it. */
  lemma {:induction false} ParseFieldRoundTrip(e: string, rest: string)
    requires FieldDescriptor(e)
    ensures ParseField(e + rest) == Some((e, rest))
    decreases |e|
  {
    var s := e + rest;
    if e[0] == '[' {
      assert s[1..] == e[1..] + rest;
      ParseFieldRoundTrip(e[1..], rest);
      assert [s[0]] + e[1..] == e;
    } else if e[0] == 'L' {
      var name := e[1..|e| - 1];
      assert s[1..] == name + [';'] + rest;
      FindFirst(name, ';', rest);
      assert s[..|name| + 2] == e;
      assert s[|name| + 2..] == rest;
    } else {
      assert [s[0]] == e;
      assert s[1..] == rest;
    }
  }

  /** A class or array binary name followed by the closing `;` reads back as that name. */
  lemma ParseBinaryNameRoundTrip(n: string, rest: string)
    requires ArrayBinaryName(n) || ClassBinaryName(n)
    ensures ParseBinaryName(n + ";" + rest) == Some((n, rest))
  {
    var s := n + ";" + rest;
    if ArrayBinaryName(n) {
      assert s == n + (";" + rest);
      ParseFieldRoundTrip(n, ";" + rest);
      assert (";" + rest)[1..] == rest;
    } else {
      assert s[0] != '[' by {
        if |n| > 0 { assert s[0] == n[0]; } else { assert s[0] == ';'; }
      }
      assert s == n + [';'] + rest;
      FindFirst(n, ';', rest);
      assert s[..|n|] == n;
      assert s[|n| + 1..] == rest;
    }
  }

  /** A well-formed type's descriptor reads back as that type, leaving what followed it. */
  lemma ParseTypeRoundTrip(ty: TypeBinding, rest: string)
    requires WellFormedType(ty)
    ensures ParseType(DescriptorText(ty) + rest) == Some((ty, rest))
  {
    var s := DescriptorText(ty) + rest;
    var n := ty.binaryName.value;
    if ty.isPrimitive {
      assert s == n + rest;
      assert [s[0]] == n;
    } else {
      assert s == "L" + n + ";" + rest;
      assert s[1..] == n + ";" + rest;
      ParseBinaryNameRoundTrip(n, rest);
    }
  }

  /** The joined parameter descriptors, closed by `)`, read back as the same types in the same order. */
  lemma {:induction false} ParseParametersRoundTrip(tys: seq<TypeBinding>, rest: string)
    requires forall i :: 0 <= i < |tys| ==> WellFormedType(tys[i])
    ensures ParseParameters(JoinedParameters(tys) + ")" + rest) == Some((tys, rest))
    decreases |tys|
  {
    var s := JoinedParameters(tys) + ")" + rest;
    if |tys| == 0 {
      assert s == [')'] + rest;
    } else {
      var head := DescriptorText(tys[0]);
      var tail := JoinedParameters(tys[1..]) + ")" + rest;
      assert s == head + tail;
      DescriptorDoesNotStartWithParen(tys[0], tail);
      ParseTypeRoundTrip(tys[0], tail);
      ParseParametersRoundTrip(tys[1..], rest);
      assert ParseParameters(s) == Some(([tys[0]] + tys[1..], rest));
      assert [tys[0]] + tys[1..] == tys;
    }
  }

  /** A well-formed descriptor never starts with the `)` that closes the parameter list. */
  lemma DescriptorDoesNotStartWithParen(ty: TypeBinding, rest: string)
    requires WellFormedType(ty)
    ensures |DescriptorText(ty) + rest| > 0 && (DescriptorText(ty) + rest)[0] != ')'
  {
    var d := DescriptorText(ty);
    if ty.isPrimitive {
      assert d == ty.binaryName.value;
    } else {
      assert d == "L" + ty.binaryName.value + ";";
    }
    assert (d + rest)[0] == d[0];
  }

  /** Decoding succeeds with the parts that the search for `(` and the two parsers return. */
  lemma DecodeFromParts(s: string, i: nat, tys: seq<TypeBinding>, rest: string, ret: TypeBinding)
    requires Find(s, '(') == Some(i)
    requires ParseParameters(s[i + 1..]) == Some((tys, rest))
    requires ParseType(rest) == Some((ret, []))
    ensures DecodeSignature(s) == Some(SignatureParts(s[..i], tys, ret))
  {
  }

  /** A line laid out as name, `(`, joined parameters, `)` and return descriptor decodes to those parts. */
  lemma DecodeLine(name: string, tys: seq<TypeBinding>, ret: TypeBinding)
    requires '(' !in name
    requires forall i :: 0 <= i < |tys| ==> WellFormedType(tys[i])
    requires WellFormedType(ret)
    ensures DecodeSignature(name + "(" + (JoinedParameters(tys) + ")" + DescriptorText(ret)))
            == Some(SignatureParts(name, tys, ret))
  {
    var tail := JoinedParameters(tys) + ")" + DescriptorText(ret);
    var s := name + "(" + tail;
    FindFirst(name, '(', tail);
    assert s[..|name|] == name;
    assert s[|name| + 1..] == tail;
    ParseParametersRoundTrip(tys, DescriptorText(ret));
    ParseTypeRoundTrip(ret, []);
    assert DescriptorText(ret) + [] == DescriptorText(ret);
    DecodeFromParts(s, |name|, tys, DescriptorText(ret), ret);
  }

  /** Every well-formed signature line decodes to the parts of the binding that produced it. */
  lemma DecodeSignatureRoundTrip(m: MethodBinding)
    requires WellFormedMethod(m)
    ensures DecodeSignature(Signature(m)) == Some(PartsOf(m))
  {
    NamePartHasNoParen(m);
    SignatureRegrouped(m);
    DecodeLine(NamePart(m), m.parameterTypes, m.returnType);
  }

  /** The name part of a well-formed binding holds no `(`: `<init>` has none, and other names are required not to. */
  lemma NamePartHasNoParen(m: MethodBinding)
    requires WellFormedMethod(m)
    ensures '(' !in NamePart(m)
  {
    assert ConstructorName == ['<', 'i', 'n', 'i', 't', '>'];
  }

  /** The signature line with its parts after `(` grouped together. */
  lemma SignatureRegrouped(m: MethodBinding)
    ensures Signature(m) == NamePart(m) + "(" + (JoinedParameters(m.parameterTypes) + ")" + DescriptorText(m.returnType))
  {
  }

  /**
   * On well-formed bindings the signature line is an overload key: two
   * methods print the same line exactly when they agree on name part,
   * parameter types (in order) and return type.
   */
  lemma SignatureIsOverloadKey(m1: MethodBinding, m2: MethodBinding)
    requires WellFormedMethod(m1) && WellFormedMethod(m2)
    ensures Signature(m1) == Signature(m2) <==> PartsOf(m1) == PartsOf(m2)
  {
    DecodeSignatureRoundTrip(m1);
    DecodeSignatureRoundTrip(m2);
  }

  /** The names JDT reports for `String[]` and `int[][]` are well formed, so their signatures are covered by the overload key. */
  lemma ArrayBindingsAreWellFormed()
    ensures WellFormedType(TypeBinding(false, Some("[Ljava.lang.String;")))
    ensures WellFormedType(TypeBinding(false, Some("[[I")))
  {
    assert FieldDescriptor("Ljava.lang.String;");
    assert FieldDescriptor("[I") by { assert FieldDescriptor("I"); }
  }

  /**
   * Without well-formedness the line is not a key: a parameter whose binary
   * name holds a stray `;` (one no class or array name has) prints the same
   * as two parameters.
   */
  lemma StrayDelimiterMakesSignaturesAmbiguous()
    ensures var one := MethodBinding("f", false, [TypeBinding(false, Some("a;Lb"))], TypeBinding(true, Some("V")));
      var two := MethodBinding("f", false, [TypeBinding(false, Some("a")), TypeBinding(false, Some("b"))], TypeBinding(true, Some("V")));
      one != two && Signature(one) == Signature(two) == "f(La;Lb;)V"
  {
  }
}
