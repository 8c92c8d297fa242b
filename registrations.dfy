/** Bindings and their materialisation (typeRegistration.go).

    Values handed out by the library are either nil or an object. An object
    created by the library (reflect.New) gets a fresh identity from an
    Allocator; objects supplied by callers carry whatever identity they had.
    The user program that the library serves (which types implement which
    interfaces, and what a type's GodiInit does) is a Program value.
 */
module Registrations {
  import opened Wrappers
  import opened Types

  /** A Go interface{} value: nil, or an object with an identity and the
      printed name of its dynamic type. */
  datatype Value = Nil | Obj(id: nat, typ: string)

  /** The (interface{}, error) pair that Resolve and Initialize return. */
  datatype Pair = Pair(value: Value, err: Option<string>)

  /** What an InitializeCallback returns: whether to go on with the other
      initializers, and an error. */
  datatype CallbackResult = CallbackResult(callInitializers: bool, err: Option<string>)

  type InitializeCallback = Value -> CallbackResult

  /** The Initializable capability of a value: absent, or a GodiInit that
      succeeds or fails with an error. */
  datatype SelfInit = NotInitializable | InitSucceeded | InitFailed(err: string)

  /** The user program as the library sees it through reflection. */
  datatype Program = Program(implements: (string, string) -> bool, godiInit: Value -> SelfInit)

  /** The first two results of realize: the instance and whether this call
      created it. */
  datatype Raw = Raw(instance: Value, created: bool)

  /** reflect.New: every call yields a new object. */
  class Allocator {
    var next: nat

    constructor ()
      ensures next == 0
    {
      next := 0;
    }

    method New(t: string) returns (v: Value)
      modifies this
      ensures v == Obj(old(next), PtrTo(t))
      ensures next == old(next) + 1
    {
      v := Obj(next, PtrTo(t));
      next := next + 1;
    }
  }

  /** ensureImplementor: a type may satisfy an interface directly or only
      through its pointer type; None is Go's nil error. */
  function EnsureImplementor(program: Program, impl: string, target: string): (err: Option<string>)
    ensures err.None? <==> program.implements(impl, target) || program.implements(PtrTo(impl), target)
    ensures err.Some? ==> err.value == "Expected " + impl + " to implement " + target
  {
    if !program.implements(impl, target) then
      if !program.implements(PtrTo(impl), target) then
        Some("Expected " + impl + " to implement " + target)
      else None
    else None
  }

  /** typeRegistration: one binding of a target to an implementor. Only the
      cached instance changes after construction. */
  class TypeRegistration {
    const targetType: TypeInfo
    const implType: TypeInfo
    const initializer: Option<InitializeCallback>
    var instance: Value
    const cached: bool
    const id: int

    constructor (targetType: TypeInfo, implType: TypeInfo, initializer: Option<InitializeCallback>,
                 instance: Value, cached: bool, id: int)
      ensures this.targetType == targetType && this.implType == implType
      ensures this.initializer == initializer && this.instance == instance
      ensures this.cached == cached && this.id == id
    {
      this.targetType := targetType;
      this.implType := implType;
      this.initializer := initializer;
      this.instance := instance;
      this.cached := cached;
      this.id := id;
    }

    /** What realize yields in the current state: a stored instance of a
        cached binding is handed back as it is; in every other case a new
        object of the implementor type is built, which needs that type. */
    function Realization(typeMap: map<string, string>, heap: Allocator): Outcome<Raw>
      reads this, implType, heap
    {
      if cached && instance != Nil then Done(Raw(instance, false))
      else match implType.TypeIn(typeMap)
        case Fatal(m) => Fatal(m)
        case Done(t) => Done(Raw(Obj(heap.next, PtrTo(t)), true))
    }

    /** The state realize leaves behind, against the state before it: when
        it builds an object, exactly one object is allocated, the implementor
        descriptor keeps the type it looked up, and a cached binding stores the
        object; otherwise nothing changes. */
    twostate predicate Realized(typeMap: map<string, string>, heap: Allocator)
      reads this, implType, heap
    {
      var raw := old(Realization(typeMap, heap));
      var created := raw.Done? && raw.value.created;
      && instance == (if cached && created then raw.value.instance else old(instance))
      && heap.next == (if created then old(heap.next) + 1 else old(heap.next))
      && implType.reflectType == (if created then Some(old(implType.TypeIn(typeMap)).value) else old(implType.reflectType))
    }

    /** realize, run sequentially. The re-check of `instance` stands for the
        guard against a concurrent winner taken under the write lock. */
    method Realize(typeMap: map<string, string>, heap: Allocator) returns (r: Outcome<Raw>)
      modifies this`instance, implType`reflectType, heap
      ensures r == old(Realization(typeMap, heap))
      ensures Realized(typeMap, heap)
    {
      var created := false;
      var inst := instance;
      var needsCachedInstance := cached && instance == Nil;
      if needsCachedInstance {
        if instance == Nil {
          var t := implType.Type(typeMap);
          if t.Fatal? {
            return Fatal(t.message);
          }
          inst := heap.New(t.value);
          created := true;
          instance := inst;
        } else {
          inst := instance;
        }
      }
      if !cached {
        var t := implType.Type(typeMap);
        if t.Fatal? {
          return Fatal(t.message);
        }
        inst := heap.New(t.value);
        created := true;
      }
      return Done(Raw(inst, created));
    }
  }

  /** A cached binding that holds an instance returns it unchanged and
      creates nothing. */
  lemma CachedHitReturnsStored(b: TypeRegistration, typeMap: map<string, string>, heap: Allocator)
    requires b.cached && b.instance != Nil
    ensures b.Realization(typeMap, heap) == Done(Raw(b.instance, false))
  {
  }

  /** realize never replaces a stored instance, and after it a cached
      binding answers the next call with the instance it returned, without
      creating another. */
  twostate lemma CachedRealizeIsStable(b: TypeRegistration, typeMap: map<string, string>, heap: Allocator)
    requires b.Realized(typeMap, heap) && old(b.Realization(typeMap, heap)).Done?
    ensures old(b.instance) != Nil ==> b.instance == old(b.instance)
    ensures b.cached ==>
              b.Realization(typeMap, heap) == Done(Raw(old(b.Realization(typeMap, heap)).value.instance, false))
  {
  }

  /** Any other binding builds a new object on every call, or panics when
      the implementor type cannot be found. */
  lemma OtherwiseCreatesFresh(b: TypeRegistration, typeMap: map<string, string>, heap: Allocator)
    requires !b.cached || b.instance == Nil
    ensures b.implType.TypeIn(typeMap).Fatal? ==> b.Realization(typeMap, heap).Fatal?
    ensures b.implType.TypeIn(typeMap).Done? ==>
              b.Realization(typeMap, heap) == Done(Raw(Obj(heap.next, PtrTo(b.implType.TypeIn(typeMap).value)), true))
  {
  }
}
