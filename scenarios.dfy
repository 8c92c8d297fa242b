/** Verified scenarios of scope pushing on a fresh Runtime (godi.go, CreateScope).

    The comment on CreateScope promises that with `pushScope` the new scope
    becomes the global one until it is closed; the code only installs the
    close handler that would restore the parent. These scenarios state what each
    version does to later registrations. */
module Scenarios {
  import opened Wrappers
  import opened Registrations
  import opened Godi

  /** As written: after CreateScope(true) the root scope is still current,
      so a registration that follows lands in the root scope, not in the
      scope that was meant to be pushed. */
  method PushedScopeStaysBehind(program: Program, target: string, implementor: string)
    returns (root: RegistrationContext, pushed: RegistrationContext,
             current: RegistrationContext, holder: RegistrationContext)
    ensures pushed.onclose == Some(RestoreParent) && pushed.parent == root
    ensures current == root && holder == root && pushed != root
  {
    var g := new Runtime(program);
    root := g.rootContext;
    pushed := g.CreateScope(true);
    current := g.currentContext;
    var token := g.RegisterByName(target, implementor, false);
    holder := token.context;
  }

  /** As documented: the pushed scope is current and receives the
      registration; closing it makes its parent, the root, current again. */
  method PushedScopeIsCurrentUntilClosed(program: Program, target: string, implementor: string)
    returns (root: RegistrationContext, pushed: RegistrationContext, during: RegistrationContext,
             holder: RegistrationContext, after: RegistrationContext)
    ensures during == pushed && holder == pushed && pushed != root
    ensures after == root
  {
    var g := new Runtime(program);
    root := g.rootContext;
    pushed := g.CreateScopeAsDocumented(true);
    during := g.currentContext;
    var token := g.RegisterByName(target, implementor, false);
    holder := token.context;
    pushed.Close(g);
    after := g.currentContext;
  }
}
