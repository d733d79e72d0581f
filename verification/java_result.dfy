/**
 * The two-variant outcome type of the util package (Result.java): a value is
 * either an Ok member or an Error member, and every operation dispatches on
 * which member it holds.
 *
 * At run time the generic parameters O and E are erased and both members hand
 * out their payload as a plain Object (Member.getValue), which is what makes
 * equality, hashCode and toString blind to the variant. The model therefore
 * uses one payload type V for both members.
 */
module JavaResult {

  /** An argument handed to a factory method: a Java reference that may be null. */
  datatype Ref<V> = Null | Obj(get: V)

  /** The outcome of calling a factory: the new Result, or the NullPointerException of Objects.requireNonNull. */
  datatype Creation<V(==)> = Created(result: Result<V>) | NullPointerThrown

  /** The argument of equals(Object): null, another Result, or an object of some other class. */
  datatype Other<V(==)> = NullRef | ResultRef(other: Result<V>) | OtherClass

  /** One call made by consume: which consumer was invoked and with what. */
  datatype Invocation<V> = FirstConsumer(arg: V) | SecondConsumer(arg: V)

  datatype Result<V(==)> = Ok(value: V) | Error(value: V) {

    /** map(f1, f2): the Ok member applies f1, the Error member applies f2. */
    function Map<R>(f1: V -> R, f2: V -> R): (r: R)
      ensures Ok? ==> r == f1(value)
      ensures Error? ==> r == f2(value)
    {
      match this
      case Ok(v) => f1(v)
      case Error(e) => f2(e)
    }

    /**
     * consume(c1, c2), as the sequence of consumer calls it makes: exactly one
     * call, to c1 for Ok and to c2 for Error, with the payload.
     */
    function Consume(): (calls: seq<Invocation<V>>)
      ensures |calls| == 1
      ensures calls[0].arg == value
      ensures calls[0].FirstConsumer? <==> Ok?
      ensures calls[0].SecondConsumer? <==> Error?
    {
      match this
      case Ok(v) => [FirstConsumer(v)]
      case Error(e) => [SecondConsumer(e)]
    }

    /** toString: the payload's own string, whichever member holds it. */
    function ToString(show: V -> string): (s: string)
      ensures s == show(value)
    {
      Map(show, show)
    }

    /** hashCode: the payload's hash, the same whichever member holds it. */
    function HashCode(hash: V -> int): (h: int)
      ensures h == Map(hash, hash)
    {
      hash(value)
    }

    /**
     * equals(Object): true exactly when the other object is a Result whose
     * payload equals this one's; the variant is never compared.
     */
    predicate Equals(obj: Other<V>)
      ensures obj == ResultRef(this) ==> Equals(obj)
      ensures Equals(obj) <==> obj.ResultRef? && obj.other.value == value
    {
      match obj
      case NullRef => false
      case OtherClass => false
      case ResultRef(o) => value == o.value
    }
  }

  /** ok(value): wraps a non-null payload in an Ok member; null is refused. */
  function MakeOk<V(==)>(v: Ref<V>): (c: Creation<V>)
    ensures c.NullPointerThrown? <==> v.Null?
    ensures c.Created? ==> c.result.Ok? && c.result.value == v.get
  {
    match v
    case Null => NullPointerThrown
    case Obj(x) => Created(Ok(x))
  }

  /** error(value): wraps a non-null payload in an Error member; null is refused. */
  function MakeError<V(==)>(v: Ref<V>): (c: Creation<V>)
    ensures c.NullPointerThrown? <==> v.Null?
    ensures c.Created? ==> c.result.Error? && c.result.value == v.get
  {
    match v
    case Null => NullPointerThrown
    case Obj(x) => Created(Error(x))
  }

  /** Equality is an equivalence relation on Results. */
  lemma EqualsIsEquivalence<V>(a: Result<V>, b: Result<V>, c: Result<V>)
    ensures a.Equals(ResultRef(a))
    ensures a.Equals(ResultRef(b)) <==> b.Equals(ResultRef(a))
    ensures a.Equals(ResultRef(b)) && b.Equals(ResultRef(c)) ==> a.Equals(ResultRef(c))
  {
  }

  /** No Result equals null or an object of another class. */
  lemma EqualsRejectsForeignObjects<V>(a: Result<V>)
    ensures !a.Equals(NullRef)
    ensures !a.Equals(OtherClass)
  {
  }

  /**
   * The variant is invisible to equality: an Ok and an Error built from the
   * same payload are equal, and two Results are equal exactly when their
   * payloads are, whatever their variants.
   */
  lemma EqualsIgnoresVariant<V>(x: V, a: Result<V>, b: Result<V>)
    ensures Ok(x).Equals(ResultRef(Error(x)))
    ensures a.Equals(ResultRef(b)) <==> a.value == b.value
  {
  }

  /** Equal Results have equal hash codes, for every payload hash function. */
  lemma HashCodeConsistentWithEquals<V>(a: Result<V>, b: Result<V>, hash: V -> int)
    requires a.Equals(ResultRef(b))
    ensures a.HashCode(hash) == b.HashCode(hash)
    ensures a.HashCode(hash) == hash(a.value)
  {
  }

  /** Equal Results print the same, and the text never reveals the variant. */
  lemma ToStringConsistentWithEquals<V>(a: Result<V>, b: Result<V>, show: V -> string)
    requires a.Equals(ResultRef(b))
    ensures a.ToString(show) == b.ToString(show)
    ensures Ok(a.value).ToString(show) == Error(a.value).ToString(show)
  {
  }

  /** Mapping with the two constructors rebuilds the same Result. */
  lemma MapWithConstructorsIsIdentity<V>(a: Result<V>)
    ensures a.Map(x => Ok(x), e => Error(e)) == a
  {
  }

  /** Post-processing a map result is the same as mapping with composed functions. */
  lemma MapFusion<V, R, S>(a: Result<V>, f1: V -> R, f2: V -> R, g: R -> S)
    ensures g(a.Map(f1, f2)) == a.Map(x => g(f1(x)), e => g(f2(e)))
  {
  }

  /** consume makes exactly the call that map would select. */
  lemma ConsumeAgreesWithMap<V>(a: Result<V>)
    ensures a.Consume() == [a.Map(x => FirstConsumer(x), e => SecondConsumer(e))]
  {
  }

  /** A Result built by ok and one built by error from the same payload are equal. */
  lemma FactoriesEqualOnSamePayload<V>(x: V)
    ensures MakeOk(Obj(x)).Created? && MakeError(Obj(x)).Created?
    ensures MakeOk(Obj(x)).result.Equals(ResultRef(MakeError(Obj(x)).result))
    ensures MakeOk(Obj(x)).result != MakeError(Obj(x)).result
  {
  }
}
