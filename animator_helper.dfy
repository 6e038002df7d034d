/**
 * The animator-parameter helpers: whether an animator declares a parameter,
 * registration of a parameter's hash in a caller-owned key set, and the
 * three tiers of setter dispatch (unchecked by name, checked against the
 * key set, checked by name on every call).
 *
 * The animator is reduced to what the helpers see of it: its list of
 * parameter descriptors and the setter calls it receives, kept as a log.
 * The name-to-hash function of the engine is a parameter and is not assumed
 * to be injective.
 */
module AnimatorHelper {

  /** C#'s 32-bit `int`: parameter hashes and integer parameter values. */
  newtype int32 = x: int | -0x8000_0000 <= x < 0x8000_0000

  /** The bits of a C# `float`; the helpers pass them on without looking at them. */
  type Float32 = bv32

  datatype ParameterType = Bool | Int | Float | Trigger

  /** One entry of the animator's parameter list. */
  datatype Parameter = Parameter(name: string, kind: ParameterType)

  /**
   * The argument of one setter overload. The four overloads of each helper
   * differ only in the static type of the value; the trigger overload has
   * no value at all.
   */
  datatype Value = BoolValue(b: bool) | IntValue(i: int32) | FloatValue(f: Float32) | TriggerValue

  /** The parameter type an overload implies. */
  function TypeOf(v: Value): ParameterType {
    match v
    case BoolValue(_) => Bool
    case IntValue(_) => Int
    case FloatValue(_) => Float
    case TriggerValue => Trigger
  }

  /** How a setter call designates its parameter. */
  datatype Target = ByName(name: string) | ByHash(hash: int32)

  /** One call of SetBool, SetInteger, SetFloat or SetTrigger on the animator. */
  datatype SetterCall = SetterCall(target: Target, value: Value)

  /** The reference answer of HasParameter: a non-empty name that the list
      holds with exactly that type. */
  predicate Declared(parameters: seq<Parameter>, name: string, kind: ParameterType) {
    name != [] && Parameter(name, kind) in parameters
  }

  /** Every key in `keys` is the hash of some non-empty name the animator declares. */
  predicate KeysDeclared(keys: set<int32>, parameters: seq<Parameter>, stringToHash: string -> int32) {
    forall k :: k in keys ==>
      exists i :: 0 <= i < |parameters| && parameters[i].name != [] && stringToHash(parameters[i].name) == k
  }

  /** No two descriptors share a name. */
  predicate UniqueNames(parameters: seq<Parameter>) {
    forall i, j :: 0 <= i < j < |parameters| ==> parameters[i].name != parameters[j].name
  }

  /** The engine's animator, as far as the helpers use it. */
  class Animator {
    const parameters: seq<Parameter>
    var calls: seq<SetterCall>

    constructor (parameters: seq<Parameter>)
      ensures this.parameters == parameters && calls == []
    {
      this.parameters := parameters;
      calls := [];
    }

    /** Any one of the engine's typed setters; its effect on the state machine is not modelled. */
    method Set(target: Target, value: Value)
      modifies this
      ensures calls == old(calls) + [SetterCall(target, value)]
    {
      calls := calls + [SetterCall(target, value)];
    }
  }

  /** A caller-owned set of parameter hashes. */
  class HashSet {
    var elements: set<int32>

    constructor ()
      ensures elements == {}
    {
      elements := {};
    }

    method Add(x: int32)
      modifies this
      ensures elements == old(elements) + {x}
    {
      elements := elements + {x};
    }
  }

  /** Linear search of the parameter list for an exact name-and-type match. */
  method HasParameter(animator: Animator, name: string, kind: ParameterType) returns (found: bool)
    ensures found == Declared(animator.parameters, name, kind)
  {
    if name == [] {
      return false;
    }
    var parameters := animator.parameters;
    var i := 0;
    while i < |parameters|
      invariant 0 <= i <= |parameters|
      invariant Parameter(name, kind) !in parameters[..i]
    {
      var param := parameters[i];
      if param.kind == kind && param.name == name {
        return true;
      }
      i := i + 1;
    }
    assert parameters[..i] == parameters;
    return false;
  }

  /** An empty name is never declared, whatever the animator holds. */
  lemma EmptyNameNeverDeclared(parameters: seq<Parameter>, kind: ParameterType)
    ensures !Declared(parameters, [], kind)
  {
  }

  /** A descriptor with a non-empty name is found under its own type. */
  lemma DeclaredParameterFound(parameters: seq<Parameter>, i: nat)
    requires i < |parameters| && parameters[i].name != []
    ensures Declared(parameters, parameters[i].name, parameters[i].kind)
  {
    assert parameters[i] == Parameter(parameters[i].name, parameters[i].kind);
  }

  /** With unique names, a declared parameter's name is found under no other type. */
  lemma DeclaredIsTypeSensitive(parameters: seq<Parameter>, i: nat, other: ParameterType)
    requires i < |parameters| && parameters[i].name != []
    requires UniqueNames(parameters)
    requires other != parameters[i].kind
    ensures !Declared(parameters, parameters[i].name, other)
  {
  }

  /**
   * Sets the out-parameter to the sentinel -1 for an empty name, and
   * otherwise to the name's hash; adds that hash to the caller's set only
   * when the animator declares the parameter with the requested type.
   */
  method RegisterParameter(animator: Animator, parameterName: string, kind: ParameterType,
                           parameterSet: HashSet, stringToHash: string -> int32)
    returns (parameterHash: int32)
    modifies parameterSet
    ensures parameterName == [] ==> parameterHash == -1
    ensures parameterName != [] ==> parameterHash == stringToHash(parameterName)
    ensures parameterSet.elements ==
              if Declared(animator.parameters, parameterName, kind)
              then old(parameterSet.elements) + {parameterHash}
              else old(parameterSet.elements)
    ensures KeysDeclared(old(parameterSet.elements), animator.parameters, stringToHash) ==>
              KeysDeclared(parameterSet.elements, animator.parameters, stringToHash)
  {
    parameterHash := -1;
    if parameterName == [] {
      return;
    }
    parameterHash := stringToHash(parameterName);
    var present := HasParameter(animator, parameterName, kind);
    if present {
      var i :| 0 <= i < |animator.parameters| && animator.parameters[i] == Parameter(parameterName, kind);
      assert animator.parameters[i].name == parameterName;
      parameterSet.Add(parameterHash);
    }
  }

  /** Unchecked tier: forwards to the setter of the value's type, by name. */
  method SetValue(animator: Animator, parameterName: string, value: Value)
    modifies animator
    ensures animator.calls == old(animator.calls) + [SetterCall(ByName(parameterName), value)]
  {
    animator.Set(ByName(parameterName), value);
  }

  /** Key-checked tier: writes by hash only when the hash is in the caller's set. */
  method SafeSetValue(animator: Animator, value: Value, parameterHash: int32, validParameters: HashSet)
    returns (ok: bool)
    modifies animator
    ensures ok == (parameterHash in validParameters.elements)
    ensures animator.calls ==
              old(animator.calls) + if ok then [SetterCall(ByHash(parameterHash), value)] else []
    ensures unchanged(validParameters)
  {
    if parameterHash !in validParameters.elements {
      return false;
    }
    animator.Set(ByHash(parameterHash), value);
    return true;
  }

  /** Name-checked tier: searches the parameter list on every call, with the type the value implies. */
  method TrySetValue(animator: Animator, parameterName: string, value: Value) returns (ok: bool)
    modifies animator
    ensures ok == Declared(animator.parameters, parameterName, TypeOf(value))
    ensures animator.calls ==
              old(animator.calls) + if ok then [SetterCall(ByName(parameterName), value)] else []
  {
    var present := HasParameter(animator, parameterName, TypeOf(value));
    if !present {
      return false;
    }
    animator.Set(ByName(parameterName), value);
    return true;
  }

  /**
   * A client: an animator with a float "Speed" and a trigger "Jump". After
   * registering "Speed", a keyed write to it succeeds; a keyed write under
   * the hash of an undeclared name succeeds exactly when that hash collides
   * with the hash of "Speed", since the hash is not injective.
   */
  method SpeedJumpClient(stringToHash: string -> int32, speed: Float32)
  {
    var animator := new Animator([Parameter("Speed", Float), Parameter("Jump", Trigger)]);
    var keys := new HashSet();
    var speedHash := RegisterParameter(animator, "Speed", Float, keys, stringToHash);
    assert Parameter("Speed", Float) == animator.parameters[0];
    assert keys.elements == {stringToHash("Speed")};
    var wrote := SafeSetValue(animator, FloatValue(speed), speedHash, keys);
    assert wrote && animator.calls == [SetterCall(ByHash(speedHash), FloatValue(speed))];
    var missing := SafeSetValue(animator, IntValue(1), stringToHash("Missing"), keys);
    assert missing <==> stringToHash("Missing") == stringToHash("Speed");
    var jumped := TrySetValue(animator, "Jump", TriggerValue);
    assert Parameter("Jump", Trigger) == animator.parameters[1];
    assert jumped;
    var wrongType := TrySetValue(animator, "Jump", BoolValue(true));
    assert Parameter("Jump", Bool) !in animator.parameters;
    assert !wrongType;
    assert animator.calls[|animator.calls| - 1] == SetterCall(ByName("Jump"), TriggerValue);
    assert |animator.calls| == if missing then 3 else 2;
  }
}
