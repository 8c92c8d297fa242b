/** Scopes, registration tokens and the package-level state
    (registrationContext.go and godi.go).

    A RegistrationContext is a scope: bindings keyed by canonical target
    name (newest first), a list of instance initializers (newest first), a
    parent scope and an optional close handler. Runtime holds the package
    globals: the type catalog, the registration counter, the root and the
    current scope, the allocator that stands for reflect.New, and the user
    program. Its ghost field `scopes` holds every scope created so far.

    Resolution is specified by ghost functions over the state: Lookup finds
    the scope and binding in force, InitChain is the initializer chain, and
    ResolveSpec combines them with the binding's Realization.
 */
module Godi {
  import opened Wrappers
  import opened Types
  import opened Registrations
  import Registry

  const ErrorRegistrationNotFound := "NotFound"

  /** The panic of a nil pointer dereference. */
  const NilDereference := "runtime error: invalid memory address or nil pointer dereference"

  /** InstanceInitializer: a pluggable post-construction hook. */
  datatype InstanceInitializer = InstanceInitializer(
    canInitialize: (Value, string) -> bool,
    initialize: (Value, string) -> Pair)

  /** The only close handler the library installs: the closure built by
      CreateScope(true), which hands the current-scope pointer back to the
      parent of the scope it was installed on. */
  datatype CloseHandler = RestoreParent

  /** Where a resolution finds its binding: the scope that holds it, and the
      head binding of that scope's list. */
  datatype Found = Found(scope: RegistrationContext, binding: TypeRegistration)

  function CallbackMessage(reg: TypeRegistration, err: string): string
  {
    "Error with initializer for " + reg.implType.typeName + ": " + err
  }

  function GodiInitMessage(reg: TypeRegistration, err: string): string
  {
    "Error initializing '" + reg.implType.typeName + "' (registered for target '"
      + reg.targetType.typeName + "'): " + err
  }

  /** The panic of the type assertion `e.Value.(InstanceInitializer)` on a
      nil element of the initializer list. */
  const NilInitializer := "interface conversion: interface is nil, not godi.InstanceInitializer"

  /** A non-nil initializer that accepts the instance. */
  predicate Accepts(init: Option<InstanceInitializer>, v: Value, typeName: string)
  {
    init.Some? && init.value.canInitialize(v, typeName)
  }

  /** Where the scan of a list stops: at a nil element, whose type assertion
      panics, or at an initializer that accepts the instance. */
  predicate Halts(init: Option<InstanceInitializer>, v: Value, typeName: string)
  {
    init.None? || Accepts(init, v, typeName)
  }

  /** The position, in list order, where the scan of the initializers stops;
      none means every element is non-nil and none accepts the instance. */
  function FirstHalt(inits: seq<Option<InstanceInitializer>>, v: Value, typeName: string): (r: Option<nat>)
    ensures r.Some? ==> r.value < |inits| && Halts(inits[r.value], v, typeName)
    ensures r.Some? ==> forall j :: 0 <= j < r.value ==> !Halts(inits[j], v, typeName)
    ensures r.None? ==> forall j :: 0 <= j < |inits| ==> !Halts(inits[j], v, typeName)
  {
    if inits == [] then None
    else if Halts(inits[0], v, typeName) then Some(0)
    else match FirstHalt(inits[1..], v, typeName)
      case None => None
      case Some(i) => Some(i + 1)
  }

  /** The type names a registration files its binding under. */
  lemma TypeNameOfExtracted(t: string)
    ensures TypeToString(InstanceToType(t)) == FormatType(t)
    ensures FormatType(FormatType(t)) == FormatType(t)
  {
    FormatTypeIdempotent(t);
  }

  /** registrationContext */
  class RegistrationContext {
    var parent: RegistrationContext?
    var registrations: Registry.Table
    var initializers: seq<Option<InstanceInitializer>>
    var onclose: Option<CloseHandler>
    /** Length of the parent chain when the scope was made; a parent is
        always strictly less deep. */
    ghost const depth: nat

    /** newregistrationContext */
    constructor (parent: RegistrationContext?)
      ensures this.parent == parent && registrations == map[] && initializers == [] && onclose == None
      ensures depth == if parent == null then 0 else parent.depth + 1
    {
      this.parent := parent;
      registrations := map[];
      initializers := [];
      onclose := None;
      depth := if parent == null then 0 else parent.depth + 1;
    }

    /** RegisterInstanceInitializer: the newest initializer goes first. */
    method RegisterInstanceInitializer(initializer: Option<InstanceInitializer>) returns (err: Option<string>)
      modifies this`initializers
      ensures initializers == [initializer] + old(initializers)
      ensures err == None
    {
      initializers := [initializer] + initializers;
      return None;
    }

    /** initializeInstance: the binding's callback, then GodiInit, then the
        first accepting initializer of this scope (a nil element met first
        panics), else the same steps again in the parent scope. */
    method InitializeInstance(g: Runtime, instance: Value, typeReg: TypeRegistration) returns (r: Outcome<Pair>)
      requires g.Linked() && this in g.scopes
      ensures r == InitChain(g, this, instance, typeReg)
      decreases depth
    {
      var callInitializers := true;
      if typeReg.initializer.Some? {
        var res := typeReg.initializer.value(instance);
        callInitializers := res.callInitializers;
        if res.err.Some? && !callInitializers {
          return Fatal(CallbackMessage(typeReg, res.err.value));
        }
      }
      if callInitializers {
        var selfInit := g.program.godiInit(instance);
        if selfInit.InitFailed? {
          return Fatal(GodiInitMessage(typeReg, selfInit.err));
        }
        var typeName := typeReg.implType.typeName;
        var i := 0;
        while i < |initializers|
          invariant 0 <= i <= |initializers|
          invariant forall j :: 0 <= j < i ==> !Halts(initializers[j], instance, typeName)
        {
          var init := initializers[i];
          if init.None? {
            return Fatal(NilInitializer);
          }
          if init.value.canInitialize(instance, typeName) {
            return Done(init.value.initialize(instance, typeName));
          }
          i := i + 1;
        }
        if parent != null {
          r := parent.InitializeInstance(g, instance, typeReg);
          return;
        }
      }
      return Done(Pair(instance, None));
    }

    /** addRegistration */
    method AddRegistration(reg: TypeRegistration)
      modifies this`registrations
      ensures registrations == Registry.Push(old(registrations), reg)
    {
      var tn := reg.targetType.typeName;
      if tn !in registrations {
        registrations := registrations[tn := []];
      }
      var l := registrations[tn];
      registrations := registrations[tn := [reg] + l];
    }

    /** findRegistration: the binding in force in this scope for a name,
        read under the scope's read lock. */
    function FindRegistration(typeName: string): (r: TypeRegistration?)
      reads this
      ensures r == null <==> Registry.Head(registrations, FormatType(typeName)).None?
      ensures r != null ==> Registry.Head(registrations, FormatType(typeName)) == Some(r)
    {
      var name := FormatType(typeName);
      if name !in registrations || |registrations[name]| == 0 then null
      else registrations[name][0]
    }

    /** removeRegistration: walk the list of the binding's name and unlink
        the first element with the same id. */
    method RemoveRegistration(reg: TypeRegistration) returns (removed: bool)
      modifies this`registrations
      ensures removed == Registry.Removes(old(registrations), reg)
      ensures registrations == Registry.Remove(old(registrations), reg)
    {
      var tn := reg.targetType.typeName;
      if tn !in registrations || |registrations[tn]| == 0 {
        return false;
      }
      var l := registrations[tn];
      var i := 0;
      while i < |l|
        invariant 0 <= i <= |l|
        invariant forall j :: 0 <= j < i ==> l[j].id != reg.id
      {
        if reg.id == l[i].id {
          Registry.RemoveByIdSplices(l, reg.id);
          registrations := registrations[tn := l[..i] + l[i + 1..]];
          return true;
        }
        i := i + 1;
      }
      return false;
    }

    /** RegisterByName: both types are named now and looked up later. */
    method RegisterByName(g: Runtime, target: string, implementor: string, cached: bool)
      returns (token: RegistrationToken)
      requires g.Valid() && this in g.scopes
      modifies this`registrations, g`registrationCounter
      ensures g.Valid()
      ensures g.registrationCounter == old(g.registrationCounter) + 1
      ensures fresh(token) && fresh(token.registration) && token.context == this
      ensures fresh(token.registration.targetType) && fresh(token.registration.implType)
      ensures var b := token.registration;
              && b.id == g.registrationCounter && b.cached == cached
              && b.initializer.None? && b.instance == Nil
              && b.targetType.typeName == FormatType(target) && b.implType.typeName == FormatType(implementor)
              && b.targetType.reflectType.None? && b.implType.reflectType.None?
              && registrations == Registry.Push(old(registrations), b)
    {
      g.registrationCounter := g.registrationCounter + 1;
      var targetType := new TypeInfo(target, None);
      var implType := new TypeInfo(implementor, None);
      var tr := new TypeRegistration(targetType, implType, None, Nil, cached, g.registrationCounter);
      AddRegistration(tr);
      token := new RegistrationToken(this, tr);
      g.AfterPush(this, tr);
    }

    /** RegisterInstanceImplementor: a ready-made instance, cached for good.
        A nil instance has no type, so reflection dereferences nil; an
        instance whose type does not implement the target panics after the
        counter has moved on, and nothing is registered. */
    method RegisterInstanceImplementor(g: Runtime, target: string, instance: Value)
      returns (r: Outcome<RegistrationToken>)
      requires g.Valid() && this in g.scopes
      modifies this`registrations, g`registrationCounter
      ensures g.Valid()
      ensures instance == Nil ==>
                r == Fatal(NilDereference) && g.registrationCounter == old(g.registrationCounter)
                && registrations == old(registrations)
      ensures instance != Nil ==> g.registrationCounter == old(g.registrationCounter) + 1
      ensures instance != Nil ==>
                var check := EnsureImplementor(g.program, InstanceToType(instance.typ), InstanceToType(target));
                && (check.Some? ==> r == Fatal(check.value) && registrations == old(registrations))
                && (check.None? ==> r.Done?)
      ensures r.Done? ==>
                var b := r.value.registration;
                && fresh(r.value) && fresh(b) && fresh(b.targetType) && fresh(b.implType) && r.value.context == this
                && b.id == g.registrationCounter && b.cached && b.instance == instance && b.initializer.None?
                && b.targetType.typeName == FormatType(target) && b.implType.typeName == FormatType(instance.typ)
                && b.targetType.reflectType == Some(InstanceToType(target))
                && b.implType.reflectType == Some(InstanceToType(instance.typ))
                && registrations == Registry.Push(old(registrations), b)
    {
      var t := InstanceToType(target);
      if instance == Nil {
        return Fatal(NilDereference);
      }
      var rt := InstanceToType(instance.typ);
      g.registrationCounter := g.registrationCounter + 1;
      var targetType := new TypeInfo("", Some(t));
      var implType := new TypeInfo("", Some(rt));
      var tr := new TypeRegistration(targetType, implType, None, instance, true, g.registrationCounter);
      var err := EnsureImplementor(g.program, rt, t);
      if err.Some? {
        g.AfterCount();
        return Fatal(err.value);
      }
      AddRegistration(tr);
      var token := new RegistrationToken(this, tr);
      g.AfterPush(this, tr);
      TypeNameOfExtracted(target);
      TypeNameOfExtracted(instance.typ);
      return Done(token);
    }

    /** RegisterTypeImplementor: instances are built from the implementor
        type on demand, once if cached. A mismatch panics as above. */
    method RegisterTypeImplementor(g: Runtime, target: string, impl: string, cached: bool,
                                   init: Option<InitializeCallback>)
      returns (r: Outcome<RegistrationToken>)
      requires g.Valid() && this in g.scopes
      modifies this`registrations, g`registrationCounter
      ensures g.Valid()
      ensures g.registrationCounter == old(g.registrationCounter) + 1
      ensures var check := EnsureImplementor(g.program, InstanceToType(impl), InstanceToType(target));
              && (check.Some? ==> r == Fatal(check.value) && registrations == old(registrations))
              && (check.None? ==> r.Done?)
      ensures r.Done? ==>
                var b := r.value.registration;
                && fresh(r.value) && fresh(b) && fresh(b.targetType) && fresh(b.implType) && r.value.context == this
                && b.id == g.registrationCounter && b.cached == cached && b.instance == Nil && b.initializer == init
                && b.targetType.typeName == FormatType(target) && b.implType.typeName == FormatType(impl)
                && b.targetType.reflectType == Some(InstanceToType(target))
                && b.implType.reflectType == Some(InstanceToType(impl))
                && registrations == Registry.Push(old(registrations), b)
    {
      var t := InstanceToType(target);
      var implementor := InstanceToType(impl);
      g.registrationCounter := g.registrationCounter + 1;
      var targetType := new TypeInfo("", Some(t));
      var implType := new TypeInfo("", Some(implementor));
      var tr := new TypeRegistration(targetType, implType, init, Nil, cached, g.registrationCounter);
      var err := EnsureImplementor(g.program, implementor, t);
      if err.Some? {
        g.AfterCount();
        return Fatal(err.value);
      }
      AddRegistration(tr);
      var token := new RegistrationToken(this, tr);
      g.AfterPush(this, tr);
      TypeNameOfExtracted(target);
      TypeNameOfExtracted(impl);
      return Done(token);
    }

    /** Resolve: strip one pointer level from the requested type, then
        resolveCore. */
    method Resolve(g: Runtime, target: string) returns (r: Outcome<Pair>)
      requires g.Linked() && this in g.scopes
      modifies Touched(g, this, FormatType(target)), g.heap
      ensures r == old(ResolveSpec(g, this, FormatType(target)))
      ensures AfterResolve(g, old(Lookup(g, this, FormatType(target))), old(g.typeMap))
      decreases depth, 1
    {
      var t := InstanceToType(target);
      TypeNameOfExtracted(target);
      r := ResolveCore(g, t);
    }

    /** resolveCore: the head binding of this scope; without one, the
        parent's resolution; with one, realize it and run a freshly created
        instance through this scope's initializer chain. */
    method ResolveCore(g: Runtime, t: string) returns (r: Outcome<Pair>)
      requires g.Linked() && this in g.scopes
      modifies Touched(g, this, FormatType(t)), g.heap
      ensures r == old(ResolveSpec(g, this, FormatType(t)))
      ensures AfterResolve(g, old(Lookup(g, this, FormatType(t))), old(g.typeMap))
      decreases depth, 0
    {
      ghost var key := FormatType(t);
      var name := TypeToString(t);
      FormatTypeIdempotent(t);
      var reg := FindRegistration(name);
      if reg == null && parent != null {
        LookupFallsThrough(g, this, key);
        r := parent.Resolve(g, t);
        return;
      }
      if reg != null {
        ResolveHere(g, this, key, reg);
        var raw := reg.Realize(g.typeMap, g.heap);
        if raw.Fatal? {
          return Fatal(raw.message);
        }
        if raw.value.created {
          r := InitializeInstance(g, raw.value.instance, reg);
          return;
        }
        return Done(Pair(raw.value.instance, None));
      }
      return Done(Pair(Nil, Some(ErrorRegistrationNotFound)));
    }

    /** Close: run and drop the close handler, detach from the parent, then
        Reset. The registrations map is never nil here, so the source's
        guard around the first part always holds. */
    method Close(g: Runtime)
      requires g.Valid() && this in g.scopes
      modifies this`parent, this`onclose, this`registrations, this`initializers, g`currentContext
      ensures g.Valid()
      ensures parent == null && onclose == None && registrations == map[] && initializers == []
      ensures g.currentContext ==
                if old(onclose).Some? && old(g.currentContext) == this then old(parent) else old(g.currentContext)
    {
      if onclose.Some? {
        if g.currentContext == this {
          g.currentContext := parent;
        }
        onclose := None;
      }
      parent := null;
      Reset();
    }

    /** createScopeCore */
    method CreateScopeCore(g: Runtime, onclose: Option<CloseHandler>) returns (ctx: RegistrationContext)
      requires g.Valid() && this in g.scopes
      modifies g`scopes
      ensures g.Valid() && g.scopes == old(g.scopes) + {ctx}
      ensures fresh(ctx) && ctx.parent == this && ctx.onclose == onclose
      ensures ctx.registrations == map[] && ctx.initializers == []
    {
      ctx := new RegistrationContext(this);
      if onclose.Some? {
        ctx.onclose := onclose;
      }
      g.scopes := g.scopes + {ctx};
    }

    /** CreateScope: a child scope with no close handler. */
    method CreateScope(g: Runtime) returns (ctx: RegistrationContext)
      requires g.Valid() && this in g.scopes
      modifies g`scopes
      ensures g.Valid() && g.scopes == old(g.scopes) + {ctx}
      ensures fresh(ctx) && ctx.parent == this && ctx.onclose == None
      ensures ctx.registrations == map[] && ctx.initializers == []
    {
      ctx := new RegistrationContext(this);
      g.scopes := g.scopes + {ctx};
    }

    /** Reset: forget every binding and initializer of this scope. */
    method Reset()
      modifies this`registrations, this`initializers
      ensures registrations == map[] && initializers == []
    {
      registrations := map[];
      initializers := [];
    }
  }

  /** RegistrationToken: revokes one binding from the scope that made it. */
  class RegistrationToken {
    var context: RegistrationContext?
    const registration: TypeRegistration

    constructor (context: RegistrationContext, registration: TypeRegistration)
      ensures this.context == context && this.registration == registration
    {
      this.context := context;
      this.registration := registration;
    }

    /** Close: remove the binding from its scope once; later calls change
        nothing. */
    method Close(g: Runtime)
      requires g.Valid() && (context != null ==> context in g.scopes)
      modifies this`context, {context}`registrations
      ensures g.Valid() && context == null
      ensures old(context) != null ==>
                old(context).registrations == Registry.Remove(old(context.registrations), registration)
    {
      var scope := context;
      if scope != null {
        var removed := scope.RemoveRegistration(registration);
        Registry.RemoveKeepsWellFormed(old(scope.registrations), registration, g.registrationCounter);
        context := null;
      }
    }
  }

  /** Where resolution of the canonical name `key` starting at `s` finds a
      binding: the first scope, from `s` up through its ancestors, whose
      list for `key` is not empty. */
  ghost function Lookup(g: Runtime, s: RegistrationContext, key: string): (r: Option<Found>)
    requires g.Linked() && s in g.scopes
    reads g, g.scopes
    ensures r.Some? ==> r.value.scope in g.scopes
    ensures r.Some? ==> Registry.Head(r.value.scope.registrations, key) == Some(r.value.binding)
    decreases s.depth
  {
    match Registry.Head(s.registrations, key)
    case Some(b) => Some(Found(s, b))
    case None => if s.parent != null then Lookup(g, s.parent, key) else None
  }

  /** The objects a resolution may change: the binding it finds and that
      binding's implementor descriptor. */
  ghost function Touched(g: Runtime, s: RegistrationContext, key: string): (r: set<object>)
    requires g.Linked() && s in g.scopes
    reads g, g.scopes
    ensures g !in r && forall t | t in g.scopes :: t !in r
  {
    match Lookup(g, s, key)
    case None => {}
    case Some(f) => {f.binding, f.binding.implType}
  }

  /** A scope without a binding for `key` resolves it as its parent does. */
  lemma LookupFallsThrough(g: Runtime, s: RegistrationContext, key: string)
    requires g.Linked() && s in g.scopes && s.parent != null
    requires Registry.Head(s.registrations, key).None?
    ensures s.parent in g.scopes
    ensures Lookup(g, s, key) == Lookup(g, s.parent, key)
    ensures Touched(g, s, key) == Touched(g, s.parent, key)
    ensures ResolveSpec(g, s, key) == ResolveSpec(g, s.parent, key)
  {
  }

  /** A scope with a binding for `key` resolves it through that binding. */
  lemma ResolveHere(g: Runtime, s: RegistrationContext, key: string, b: TypeRegistration)
    requires g.Linked() && s in g.scopes
    requires Registry.Head(s.registrations, key) == Some(b)
    ensures Lookup(g, s, key) == Some(Found(s, b))
    ensures Touched(g, s, key) == {b, b.implType}
    ensures ResolveSpec(g, s, key) ==
              match b.Realization(g.typeMap, g.heap)
              case Fatal(m) => Fatal(m)
              case Done(raw) =>
                if raw.created then InitChain(g, s, raw.instance, b) else Done(Pair(raw.instance, None))
  {
  }

  /** What initializeInstance yields in scope `s`. */
  ghost function InitChain(g: Runtime, s: RegistrationContext, v: Value, reg: TypeRegistration): Outcome<Pair>
    requires g.Linked() && s in g.scopes
    reads g, g.scopes
    decreases s.depth
  {
    var cb := if reg.initializer.Some? then reg.initializer.value(v) else CallbackResult(true, None);
    if cb.err.Some? && !cb.callInitializers then Fatal(CallbackMessage(reg, cb.err.value))
    else if !cb.callInitializers then Done(Pair(v, None))
    else if g.program.godiInit(v).InitFailed? then Fatal(GodiInitMessage(reg, g.program.godiInit(v).err))
    else match FirstHalt(s.initializers, v, reg.implType.typeName)
      case Some(i) =>
        if s.initializers[i].None? then Fatal(NilInitializer)
        else Done(s.initializers[i].value.initialize(v, reg.implType.typeName))
      case None => if s.parent != null then InitChain(g, s.parent, v, reg) else Done(Pair(v, None))
  }

  /** What resolving the canonical name `key` yields in scope `s`. */
  ghost function ResolveSpec(g: Runtime, s: RegistrationContext, key: string): Outcome<Pair>
    requires g.Linked() && s in g.scopes
    reads g, g.scopes, g.heap, Touched(g, s, key)
  {
    match Lookup(g, s, key)
    case None => Done(Pair(Nil, Some(ErrorRegistrationNotFound)))
    case Some(f) =>
      match f.binding.Realization(g.typeMap, g.heap)
      case Fatal(m) => Fatal(m)
      case Done(raw) =>
        if raw.created then InitChain(g, f.scope, raw.instance, f.binding)
        else Done(Pair(raw.instance, None))
  }

  /** The state a resolution leaves behind: the binding it found stores the
      instance it built if it is cached, its implementor descriptor keeps the
      type it looked up, and exactly one object was allocated when one was
      built. */
  twostate predicate AfterResolve(g: Runtime, found: Option<Found>, typeMap: map<string, string>)
    reads g, g.heap, if found.Some? then {found.value.binding, found.value.binding.implType} else {}
  {
    match found
    case None => g.heap.next == old(g.heap.next)
    case Some(f) => f.binding.Realized(typeMap, g.heap)
  }

  /** The target descriptor of the current scope's head binding for a name. */
  ghost function HeadTarget(g: Runtime, target: string): set<object>
    requires g.Linked()
    reads g, g.scopes
  {
    match Registry.Head(g.currentContext.registrations, FormatType(target))
    case None => {}
    case Some(b) => {b.targetType}
  }

  /** The objects ResolveByName may change. */
  ghost function ByNameTouched(g: Runtime, target: string): set<object>
    requires g.Linked()
    reads g, g.scopes, HeadTarget(g, target)
  {
    match Registry.Head(g.currentContext.registrations, FormatType(target))
    case None => {}
    case Some(b) =>
      match b.targetType.reflectType
      case None => {}
      case Some(rt) => Touched(g, g.currentContext, FormatType(rt))
  }

  /** What ResolveByName yields: the current scope alone is searched for the
      name; the binding found there is resolved through its target type,
      which a binding registered by name does not hold until something sets
      it, and then the nil type is dereferenced. */
  ghost function ByNameSpec(g: Runtime, target: string): Outcome<Pair>
    requires g.Linked()
    reads g, g.scopes, g.heap, HeadTarget(g, target), ByNameTouched(g, target)
  {
    match Registry.Head(g.currentContext.registrations, FormatType(target))
    case None => Done(Pair(Nil, Some(ErrorRegistrationNotFound)))
    case Some(b) =>
      match b.targetType.reflectType
      case None => Fatal(NilDereference)
      case Some(rt) => ResolveSpec(g, g.currentContext, FormatType(rt))
  }

  /** What RegisterType does to the catalog, and its error. */
  function CatalogAdd(typeMap: map<string, string>, val: string): (r: (map<string, string>, Option<string>))
    ensures r.1.Some? <==> FormatType(val) in typeMap
    ensures r.1.Some? ==> r.0 == typeMap && r.1.value == "Already registered: " + FormatType(val)
    ensures r.1.None? ==> r.0.Keys == typeMap.Keys + {FormatType(val)}
    ensures r.1.None? ==> r.0[FormatType(val)] == InstanceToType(val)
    ensures forall name | name in typeMap :: name in r.0 && r.0[name] == typeMap[name]
  {
    var (t, name) := ExtractType(val);
    if name in typeMap then (typeMap, Some("Already registered: " + name))
    else (typeMap[name := t], None)
  }

  /** The package globals of godi.go. */
  class Runtime {
    var typeMap: map<string, string>
    var registrationCounter: int
    const rootContext: RegistrationContext
    var currentContext: RegistrationContext
    const heap: Allocator
    const program: Program
    ghost var scopes: set<RegistrationContext>

    ghost predicate Valid()
      reads this, scopes
    {
      Linked() && Numbered()
    }

    /** The root and the current scope are known, and every known scope's
        parent is a known, shallower scope; only a scope with a parent
        carries a close handler. */
    ghost predicate Linked()
      reads this, scopes
    {
      && rootContext in scopes && currentContext in scopes
      && (forall s | s in scopes :: s.parent != null ==> s.parent in scopes && s.parent.depth < s.depth)
      && (forall s | s in scopes :: s.onclose.Some? ==> s.parent != null)
    }

    /** Binding ids are distinct within each list and drawn from the
        counter. */
    ghost predicate Numbered()
      reads this, scopes
    {
      && 0 <= registrationCounter
      && (forall s | s in scopes :: Registry.WellFormed(s.registrations, registrationCounter))
    }

    /** The initial values of the globals. */
    constructor (program: Program)
      ensures Valid() && fresh(rootContext) && fresh(heap) && scopes == {rootContext}
      ensures typeMap == map[] && registrationCounter == 0 && currentContext == rootContext
      ensures rootContext.parent == null && rootContext.registrations == map[] && rootContext.initializers == []
      ensures rootContext.onclose == None && heap.next == 0 && this.program == program
    {
      var root := new RegistrationContext(null);
      typeMap := map[];
      registrationCounter := 0;
      rootContext := root;
      currentContext := root;
      heap := new Allocator();
      this.program := program;
      scopes := {root};
    }

    /** RegisterType: add a type to the catalog under its canonical name,
        unless that name is taken. */
    method RegisterType(val: string) returns (err: Option<string>)
      modifies this`typeMap
      ensures (typeMap, err) == CatalogAdd(old(typeMap), val)
    {
      var (t, name) := ExtractType(val);
      if name in typeMap {
        return Some("Already registered: " + name);
      }
      typeMap := typeMap[name := t];
      return None;
    }

    /** Reset: empty the catalog and the root scope, and make the root scope
        current again. Child scopes keep their own state. */
    method Reset()
      requires Valid()
      modifies this`typeMap, this`currentContext, rootContext`registrations, rootContext`initializers
      ensures Valid()
      ensures typeMap == map[] && currentContext == rootContext
      ensures rootContext.registrations == map[] && rootContext.initializers == []
    {
      typeMap := map[];
      rootContext.Reset();
      currentContext := rootContext;
    }

    /** RegisterInstanceInitializer on the current scope. */
    method RegisterInstanceInitializer(initializer: Option<InstanceInitializer>) returns (err: Option<string>)
      requires Valid()
      modifies currentContext`initializers
      ensures Valid() && err == None
      ensures currentContext.initializers == [initializer] + old(currentContext.initializers)
    {
      err := currentContext.RegisterInstanceInitializer(initializer);
    }

    /** RegisterInstanceImplementor on the current scope. */
    method RegisterInstanceImplementor(target: string, instance: Value) returns (r: Outcome<RegistrationToken>)
      requires Valid()
      modifies currentContext`registrations, this`registrationCounter
      ensures Valid()
      ensures instance == Nil ==>
                r == Fatal(NilDereference) && registrationCounter == old(registrationCounter)
                && currentContext.registrations == old(currentContext.registrations)
      ensures instance != Nil ==> registrationCounter == old(registrationCounter) + 1
      ensures instance != Nil ==>
                var check := EnsureImplementor(program, InstanceToType(instance.typ), InstanceToType(target));
                && (check.Some? ==> r == Fatal(check.value) && currentContext.registrations == old(currentContext.registrations))
                && (check.None? ==> r.Done?)
      ensures r.Done? ==>
                var b := r.value.registration;
                && fresh(r.value) && fresh(b) && fresh(b.targetType) && fresh(b.implType)
                && r.value.context == currentContext
                && b.id == registrationCounter && b.cached && b.instance == instance && b.initializer.None?
                && b.targetType.typeName == FormatType(target) && b.implType.typeName == FormatType(instance.typ)
                && b.targetType.reflectType == Some(InstanceToType(target))
                && b.implType.reflectType == Some(InstanceToType(instance.typ))
                && currentContext.registrations == Registry.Push(old(currentContext.registrations), b)
    {
      r := currentContext.RegisterInstanceImplementor(this, target, instance);
    }

    /** RegisterTypeImplementor on the current scope. */
    method RegisterTypeImplementor(target: string, impl: string, cached: bool, init: Option<InitializeCallback>)
      returns (r: Outcome<RegistrationToken>)
      requires Valid()
      modifies currentContext`registrations, this`registrationCounter
      ensures Valid()
      ensures registrationCounter == old(registrationCounter) + 1
      ensures var check := EnsureImplementor(program, InstanceToType(impl), InstanceToType(target));
              && (check.Some? ==> r == Fatal(check.value) && currentContext.registrations == old(currentContext.registrations))
              && (check.None? ==> r.Done?)
      ensures r.Done? ==>
                var b := r.value.registration;
                && fresh(r.value) && fresh(b) && fresh(b.targetType) && fresh(b.implType)
                && r.value.context == currentContext
                && b.id == registrationCounter && b.cached == cached && b.instance == Nil && b.initializer == init
                && b.targetType.typeName == FormatType(target) && b.implType.typeName == FormatType(impl)
                && b.targetType.reflectType == Some(InstanceToType(target))
                && b.implType.reflectType == Some(InstanceToType(impl))
                && currentContext.registrations == Registry.Push(old(currentContext.registrations), b)
    {
      r := currentContext.RegisterTypeImplementor(this, target, impl, cached, init);
    }

    /** RegisterByName on the current scope. */
    method RegisterByName(target: string, implementor: string, cached: bool) returns (token: RegistrationToken)
      requires Valid()
      modifies currentContext`registrations, this`registrationCounter
      ensures Valid() && token.context == currentContext
      ensures registrationCounter == old(registrationCounter) + 1
      ensures var b := token.registration;
              && fresh(token) && fresh(b) && fresh(b.targetType) && fresh(b.implType)
              && b.id == registrationCounter && b.cached == cached
              && b.initializer.None? && b.instance == Nil
              && b.targetType.typeName == FormatType(target) && b.implType.typeName == FormatType(implementor)
              && b.targetType.reflectType.None? && b.implType.reflectType.None?
              && currentContext.registrations == Registry.Push(old(currentContext.registrations), b)
    {
      token := currentContext.RegisterByName(this, target, implementor, cached);
    }

    /** Resolve in the current scope. */
    method Resolve(target: string) returns (r: Outcome<Pair>)
      requires Valid()
      modifies Touched(this, currentContext, FormatType(target)), heap
      ensures Valid()
      ensures r == old(ResolveSpec(this, currentContext, FormatType(target)))
      ensures AfterResolve(this, old(Lookup(this, currentContext, FormatType(target))), old(typeMap))
    {
      r := currentContext.Resolve(this, target);
    }

    /** ResolveByName */
    method ResolveByName(target: string) returns (r: Outcome<Pair>)
      requires Valid()
      modifies ByNameTouched(this, target), heap
      ensures r == old(ByNameSpec(this, target))
    {
      var reg := currentContext.FindRegistration(target);
      if reg == null {
        return Done(Pair(Nil, Some(ErrorRegistrationNotFound)));
      }
      if reg.targetType.reflectType.None? {
        return Fatal(NilDereference);
      }
      r := currentContext.ResolveCore(this, reg.targetType.reflectType.value);
    }

    /** CreateScope, as written: with `pushScope` the new scope gets the
        restore-parent close handler, but it is never made current. */
    method CreateScope(pushScope: bool) returns (ctx: RegistrationContext)
      requires Valid()
      modifies this`scopes
      ensures Valid() && scopes == old(scopes) + {ctx}
      ensures fresh(ctx) && ctx.parent == currentContext
      ensures ctx.onclose == (if pushScope then Some(RestoreParent) else None)
      ensures ctx.registrations == map[] && ctx.initializers == []
    {
      var onclose: Option<CloseHandler> := None;
      if pushScope {
        onclose := Some(RestoreParent);
      }
      ctx := currentContext.CreateScopeCore(this, onclose);
    }

    /** CreateScope as documented: with `pushScope` the new scope becomes
        the current one until it is closed. */
    method CreateScopeAsDocumented(pushScope: bool) returns (ctx: RegistrationContext)
      requires Valid()
      modifies this`scopes, this`currentContext
      ensures Valid() && scopes == old(scopes) + {ctx}
      ensures fresh(ctx) && ctx.parent == old(currentContext)
      ensures ctx.onclose == (if pushScope then Some(RestoreParent) else None)
      ensures ctx.registrations == map[] && ctx.initializers == []
      ensures currentContext == if pushScope then ctx else old(currentContext)
    {
      var onclose: Option<CloseHandler> := None;
      if pushScope {
        onclose := Some(RestoreParent);
      }
      ctx := currentContext.CreateScopeCore(this, onclose);
      if pushScope {
        currentContext := ctx;
      }
    }

    /** A scope gained a binding that took the counter's new value. */
    twostate lemma AfterPush(s: RegistrationContext, new b: TypeRegistration)
      requires old(Valid()) && s in old(scopes)
      requires scopes == old(scopes) && currentContext == old(currentContext)
      requires registrationCounter == old(registrationCounter) + 1 && b.id == registrationCounter
      requires s.registrations == Registry.Push(old(s.registrations), b)
      requires forall t | t in scopes :: t.parent == old(t.parent) && t.onclose == old(t.onclose)
      requires forall t | t in scopes && t != s :: t.registrations == old(t.registrations)
      ensures Valid()
    {
      forall t | t in scopes ensures Registry.WellFormed(t.registrations, registrationCounter) {
        if t == s {
          Registry.PushKeepsWellFormed(old(s.registrations), b, old(registrationCounter));
        } else {
          Registry.WellFormedGrows(t.registrations, old(registrationCounter), registrationCounter);
        }
      }
    }

    /** The counter moved on and no table changed. */
    twostate lemma AfterCount()
      requires old(Valid())
      requires scopes == old(scopes) && currentContext == old(currentContext)
      requires registrationCounter == old(registrationCounter) + 1
      requires forall t | t in scopes ::
                 t.parent == old(t.parent) && t.onclose == old(t.onclose) && t.registrations == old(t.registrations)
      ensures Valid()
    {
      forall t | t in scopes ensures Registry.WellFormed(t.registrations, registrationCounter) {
        Registry.WellFormedGrows(t.registrations, old(registrationCounter), registrationCounter);
      }
    }
  }
}
