/** Properties of resolution and of the initializer chain, stated over the
    specification functions of module Godi. */
module GodiProperties {
  import opened Wrappers
  import opened Types
  import opened Registrations
  import Registry
  import opened Godi

  /** The scopes resolution visits from `s`: `s`, its parent, and so on up
      to a scope without a parent. */
  ghost function Ancestry(g: Runtime, s: RegistrationContext): (r: seq<RegistrationContext>)
    requires g.Linked() && s in g.scopes
    reads g, g.scopes
    ensures |r| > 0 && r[0] == s
    decreases s.depth
  {
    if s.parent == null then [s] else [s] + Ancestry(g, s.parent)
  }

  /** The ancestry is the parent chain: known scopes, each followed by its
      parent, ending at a scope without one. */
  lemma {:induction false} AncestryIsParentChain(g: Runtime, s: RegistrationContext)
    requires g.Linked() && s in g.scopes
    ensures var a := Ancestry(g, s);
            && (forall i | 0 <= i < |a| :: a[i] in g.scopes)
            && (forall i | 0 <= i < |a| - 1 :: a[i].parent == a[i + 1])
            && a[|a| - 1].parent == null
    decreases s.depth
  {
    if s.parent != null {
      AncestryIsParentChain(g, s.parent);
      var up := Ancestry(g, s.parent);
      assert Ancestry(g, s) == [s] + up;
    }
  }

  /** No binding is found exactly when no scope on the way up has a binding
      for the name. */
  lemma {:induction false} LookupNoneIffUnbound(g: Runtime, s: RegistrationContext, key: string)
    requires g.Linked() && s in g.scopes
    ensures Lookup(g, s, key).None? <==>
              forall t | t in Ancestry(g, s) :: Registry.Head(t.registrations, key).None?
    decreases s.depth
  {
    if Registry.Head(s.registrations, key).None? && s.parent != null {
      LookupNoneIffUnbound(g, s.parent, key);
      assert Ancestry(g, s) == [s] + Ancestry(g, s.parent);
    }
  }

  /** A found binding comes from the nearest scope on the way up that has a
      binding for the name: the child shadows its ancestors. */
  lemma {:induction false} LookupFindsNearest(g: Runtime, s: RegistrationContext, key: string)
    requires g.Linked() && s in g.scopes
    requires Lookup(g, s, key).Some?
    ensures var f := Lookup(g, s, key).value; var a := Ancestry(g, s);
            exists i | 0 <= i < |a| ::
              && a[i] == f.scope && Registry.Head(a[i].registrations, key) == Some(f.binding)
              && forall t | t in a[..i] :: Registry.Head(t.registrations, key).None?
    decreases s.depth
  {
    var f := Lookup(g, s, key).value;
    var a := Ancestry(g, s);
    if Registry.Head(s.registrations, key).Some? {
      assert Ancestry(g, s)[..0] == [];
      assert Ancestry(g, s)[0] == f.scope;
    } else {
      LookupFindsNearest(g, s.parent, key);
      var up := Ancestry(g, s.parent);
      assert a == [s] + up;
      var i :| 0 <= i < |up| && up[i] == f.scope && Registry.Head(up[i].registrations, key) == Some(f.binding)
               && forall t | t in up[..i] :: Registry.Head(t.registrations, key).None?;
      assert a[..i + 1] == [s] + up[..i];
      assert Ancestry(g, s)[i + 1] == f.scope;
    }
  }

  /** With no binding anywhere on the way up, resolution reports
      ErrorRegistrationNotFound with a nil value. */
  lemma ResolveUnboundIsNotFound(g: Runtime, s: RegistrationContext, key: string)
    requires g.Linked() && s in g.scopes
    requires forall t | t in Ancestry(g, s) :: Registry.Head(t.registrations, key).None?
    ensures ResolveSpec(g, s, key) == Done(Pair(Nil, Some(ErrorRegistrationNotFound)))
  {
    LookupNoneIffUnbound(g, s, key);
  }

  /** A cached binding that holds an instance resolves to that instance, and
      neither a callback nor an initializer runs. */
  lemma CacheHitSkipsInitializers(g: Runtime, s: RegistrationContext, key: string)
    requires g.Linked() && s in g.scopes
    requires Lookup(g, s, key).Some?
    requires Lookup(g, s, key).value.binding.cached && Lookup(g, s, key).value.binding.instance != Nil
    ensures ResolveSpec(g, s, key) == Done(Pair(Lookup(g, s, key).value.binding.instance, None))
  {
  }

  /** Any other binding yields a new object of its implementor type, and the
      result is that object run through the initializer chain of the scope
      that holds the binding, which may be an ancestor of `s`. */
  lemma FreshInstanceGoesThroughChain(g: Runtime, s: RegistrationContext, key: string)
    requires g.Linked() && s in g.scopes
    requires Lookup(g, s, key).Some?
    requires var b := Lookup(g, s, key).value.binding; !b.cached || b.instance == Nil
    requires Lookup(g, s, key).value.binding.implType.TypeIn(g.typeMap).Done?
    ensures var f := Lookup(g, s, key).value;
            ResolveSpec(g, s, key) ==
              InitChain(g, f.scope, Obj(g.heap.next, PtrTo(f.binding.implType.TypeIn(g.typeMap).value)), f.binding)
  {
  }

  /** A binding whose implementor type is known only by name and is missing
      from the catalog makes resolution panic, naming that type. */
  lemma UnregisteredImplementorPanics(g: Runtime, s: RegistrationContext, key: string)
    requires g.Linked() && s in g.scopes
    requires Lookup(g, s, key).Some?
    requires var b := Lookup(g, s, key).value.binding; !b.cached || b.instance == Nil
    requires var b := Lookup(g, s, key).value.binding;
             b.implType.reflectType.None? && b.implType.typeName !in g.typeMap
    ensures ResolveSpec(g, s, key) == Fatal(MissingTypeMessage(Lookup(g, s, key).value.binding.implType.typeName))
  {
    TypeFailsOnlyWhenUnregistered(Lookup(g, s, key).value.binding.implType, g.typeMap);
  }

  /** The initializer chain proceeds when there is no callback or the
      callback asks for it. A callback error is then ignored. */
  predicate Proceeds(reg: TypeRegistration, v: Value)
  {
    reg.initializer.None? || reg.initializer.value(v).callInitializers
  }

  /** A callback that returns (false, err) panics; one that returns
      (false, nil) hands the instance back untouched, with no GodiInit and no
      initializer. */
  lemma CallbackStopsChain(g: Runtime, s: RegistrationContext, v: Value, reg: TypeRegistration)
    requires g.Linked() && s in g.scopes
    requires reg.initializer.Some? && !reg.initializer.value(v).callInitializers
    ensures var err := reg.initializer.value(v).err;
            && (err.Some? ==> InitChain(g, s, v, reg) == Fatal(CallbackMessage(reg, err.value)))
            && (err.None? ==> InitChain(g, s, v, reg) == Done(Pair(v, None)))
  {
  }

  /** A failing GodiInit panics with the implementor and target names. */
  lemma GodiInitFailurePanics(g: Runtime, s: RegistrationContext, v: Value, reg: TypeRegistration)
    requires g.Linked() && s in g.scopes
    requires Proceeds(reg, v) && g.program.godiInit(v).InitFailed?
    ensures InitChain(g, s, v, reg) == Fatal(GodiInitMessage(reg, g.program.godiInit(v).err))
  {
  }

  /** The first scope on the way up whose scan stops decides the result:
      the element the scan stops at panics when it is nil and otherwise
      initializes the instance; the scopes below it and the initializers
      after it play no part. */
  lemma {:induction false} FirstHaltDecides(
    g: Runtime, s: RegistrationContext, v: Value, reg: TypeRegistration, k: nat)
    requires g.Linked() && s in g.scopes
    requires Proceeds(reg, v) && !g.program.godiInit(v).InitFailed?
    requires k < |Ancestry(g, s)|
    requires FirstHalt(Ancestry(g, s)[k].initializers, v, reg.implType.typeName).Some?
    requires forall t | t in Ancestry(g, s)[..k] :: FirstHalt(t.initializers, v, reg.implType.typeName).None?
    ensures var owner := Ancestry(g, s)[k];
            var i := FirstHalt(owner.initializers, v, reg.implType.typeName).value;
            owner.initializers[i].None? ==> InitChain(g, s, v, reg) == Fatal(NilInitializer)
    ensures var owner := Ancestry(g, s)[k];
            var i := FirstHalt(owner.initializers, v, reg.implType.typeName).value;
            owner.initializers[i].Some? ==>
              InitChain(g, s, v, reg) == Done(owner.initializers[i].value.initialize(v, reg.implType.typeName))
    decreases s.depth
  {
    if k > 0 {
      var a := Ancestry(g, s);
      var up := Ancestry(g, s.parent);
      assert a == [s] + up;
      assert a[..k] == [s] + up[..k - 1];
      FirstHaltDecides(g, s.parent, v, reg, k - 1);
    }
  }

  /** When every initializer on the way up is non-nil and declines the
      instance, the chain hands it back unchanged. */
  lemma {:induction false} NoAcceptingInitializerLeavesInstance(
    g: Runtime, s: RegistrationContext, v: Value, reg: TypeRegistration)
    requires g.Linked() && s in g.scopes
    requires Proceeds(reg, v) && !g.program.godiInit(v).InitFailed?
    requires forall t | t in Ancestry(g, s) :: FirstHalt(t.initializers, v, reg.implType.typeName).None?
    ensures InitChain(g, s, v, reg) == Done(Pair(v, None))
    decreases s.depth
  {
    if s.parent != null {
      assert Ancestry(g, s) == [s] + Ancestry(g, s.parent);
      NoAcceptingInitializerLeavesInstance(g, s.parent, v, reg);
    }
  }

  /** The newest initializer is looked at first: a nil one or one that
      accepts stops the scan there, one that declines passes the question on
      to the older ones. */
  lemma NewestInitializerFirst(init: Option<InstanceInitializer>, inits: seq<Option<InstanceInitializer>>,
                               v: Value, typeName: string)
    ensures Halts(init, v, typeName) ==> FirstHalt([init] + inits, v, typeName) == Some(0)
    ensures !Halts(init, v, typeName) ==>
              FirstHalt([init] + inits, v, typeName) ==
                (match FirstHalt(inits, v, typeName) case None => None case Some(i) => Some(i + 1))
  {
    assert ([init] + inits)[1..] == inits;
  }

  /** ResolveByName searches the current scope only: a binding held by an
      ancestor is not found. */
  lemma ByNameIgnoresAncestors(g: Runtime, target: string)
    requires g.Linked()
    requires Registry.Head(g.currentContext.registrations, FormatType(target)).None?
    ensures ByNameSpec(g, target) == Done(Pair(Nil, Some(ErrorRegistrationNotFound)))
  {
  }

  /** ResolveByName on a binding whose target type was given by name only
      dereferences the missing type and panics. */
  lemma ByNameWithoutTargetTypePanics(g: Runtime, target: string)
    requires g.Linked()
    requires var h := Registry.Head(g.currentContext.registrations, FormatType(target));
             h.Some? && h.value.targetType.reflectType.None?
    ensures ByNameSpec(g, target) == Fatal(NilDereference)
  {
  }

  /** A binding that carries its target type is resolved by ResolveByName as
      Resolve resolves that type in the current scope. */
  lemma ByNameAgreesWithResolve(g: Runtime, target: string)
    requires g.Linked()
    requires var h := Registry.Head(g.currentContext.registrations, FormatType(target));
             h.Some? && h.value.targetType.reflectType.Some?
    ensures var rt := Registry.Head(g.currentContext.registrations, FormatType(target)).value.targetType.reflectType.value;
            ByNameSpec(g, target) == ResolveSpec(g, g.currentContext, FormatType(rt))
  {
  }

  /** Registering a type whose canonical name is already in the catalog
      fails and changes nothing, whatever value it came from. */
  lemma RegisterTypeRejectsDuplicates(typeMap: map<string, string>, val: string, other: string)
    requires FormatType(other) == FormatType(val)
    ensures var once := CatalogAdd(typeMap, val).0;
            CatalogAdd(once, other) == (once, Some("Already registered: " + FormatType(val)))
  {
  }
}
