/** Type names and lazily resolved type descriptors (typeInfo.go, and the
    name helpers of godi.go).

    A Go `reflect.Type` is represented by the string `%v` prints for it, for
    example "godi.T1" or "*godi.T1". A pointer type is its element type with a
    leading '*'. The canonical name of a type is that string with every '*'
    removed.
 */
module Types {
  import opened Wrappers

  /** formatType: remove every '*' from a type name. */
  function FormatType(typeName: string): (r: string)
    ensures '*' !in r
    ensures |r| <= |typeName|
    decreases |typeName|
  {
    if typeName == [] then []
    else (if typeName[0] == '*' then [] else [typeName[0]]) + FormatType(typeName[1..])
  }

  /** typeToString: the canonical name of a type. It holds no '*', and a
      name that holds none is its own canonical name. */
  function TypeToString(t: string): (r: string)
    ensures '*' !in r
    ensures r == t <==> '*' !in t
    ensures FormatType(r) == r
  {
    FormatTypeFixesStarFree(t);
    FormatTypeIdempotent(t);
    FormatType(t)
  }

  predicate IsPtr(t: string)
  {
    |t| > 0 && t[0] == '*'
  }

  /** reflect.PtrTo */
  function PtrTo(t: string): (r: string)
    ensures IsPtr(r)
  {
    "*" + t
  }

  /** ExtractType without the "rtype" special case: the type of a value with
      one level of pointer removed, and that type's canonical name. */
  function ExtractType(val: string): (r: (string, string))
    ensures r.0 == if IsPtr(val) then val[1..] else val
    ensures val == r.0 || val == PtrTo(r.0)
    ensures r.1 == FormatType(val)
  {
    var t := if IsPtr(val) then val[1..] else val;
    assert IsPtr(val) ==> val == PtrTo(t);
    FormatTypeOfPtr(t);
    (t, TypeToString(t))
  }

  /** instanceToType: the type of a value with one level of pointer
      removed; it has the same canonical name as the value's own type. */
  function InstanceToType(val: string): (r: string)
    ensures r == if IsPtr(val) then val[1..] else val
    ensures FormatType(r) == FormatType(val)
  {
    ExtractType(val).0
  }

  /** Removing stars distributes over concatenation: the result keeps every
      character that is not a '*', in the original order. */
  lemma {:induction false} FormatTypeAppend(a: string, b: string)
    ensures FormatType(a + b) == FormatType(a) + FormatType(b)
    decreases |a|
  {
    if a == [] {
      assert a + b == b;
    } else {
      assert (a + b)[0] == a[0];
      assert (a + b)[1..] == a[1..] + b;
      FormatTypeAppend(a[1..], b);
    }
  }

  /** A name is left as it is exactly when it holds no '*'. */
  lemma {:induction false} FormatTypeFixesStarFree(s: string)
    ensures FormatType(s) == s <==> '*' !in s
    decreases |s|
  {
    if s != [] && '*' !in s {
      assert '*' !in s[1..];
      FormatTypeFixesStarFree(s[1..]);
      assert s == [s[0]] + s[1..];
    }
  }

  lemma {:induction false} FormatTypeIdempotent(s: string)
    ensures FormatType(FormatType(s)) == FormatType(s)
  {
    FormatTypeFixesStarFree(FormatType(s));
  }

  /** A pointer type and its element type have the same canonical name. */
  lemma FormatTypeOfPtr(t: string)
    ensures FormatType(PtrTo(t)) == FormatType(t)
  {
    assert PtrTo(t)[1..] == t;
  }

  /** The message of the panic raised by Type() for a name missing from the
      type catalog. */
  function MissingTypeMessage(typeName: string): string
  {
    "Can't find type '" + typeName + "', did you forget to register it?"
  }

  /** typeInfo: a type name together with the type it denotes, which a
      descriptor built from a name alone looks up in the catalog on first use
      and then keeps. */
  class TypeInfo {
    const typeName: string
    var reflectType: Option<string>

    /** newtypeInfo */
    constructor (typeName: string, reflectType: Option<string>)
      ensures reflectType.None? ==> this.typeName == FormatType(typeName)
      ensures reflectType.Some? ==> this.typeName == TypeToString(reflectType.value)
      ensures '*' !in this.typeName
      ensures this.reflectType == reflectType
    {
      var name := FormatType(typeName);
      if reflectType.Some? {
        name := TypeToString(reflectType.value);
      }
      this.typeName := name;
      this.reflectType := reflectType;
    }

    /** What Type() yields against the catalog `typeMap`. */
    function TypeIn(typeMap: map<string, string>): (r: Outcome<string>)
      reads this
    {
      if reflectType.Some? then Done(reflectType.value)
      else if typeName in typeMap then Done(typeMap[typeName])
      else Fatal(MissingTypeMessage(typeName))
    }

    /** Type(): look the name up on first use and keep the result. */
    method Type(typeMap: map<string, string>) returns (r: Outcome<string>)
      modifies this`reflectType
      ensures r == old(TypeIn(typeMap))
      ensures r.Done? ==> reflectType == Some(r.value)
      ensures r.Fatal? ==> reflectType == old(reflectType)
    {
      if reflectType.None? {
        if typeName !in typeMap {
          return Fatal(MissingTypeMessage(typeName));
        }
        reflectType := Some(typeMap[typeName]);
      }
      return Done(reflectType.value);
    }
  }

  /** Type() fails exactly for a descriptor that has no type yet and whose
      name is missing from the catalog, and the panic names the type. */
  lemma TypeFailsOnlyWhenUnregistered(ti: TypeInfo, typeMap: map<string, string>)
    ensures ti.TypeIn(typeMap).Fatal? <==> ti.reflectType.None? && ti.typeName !in typeMap
    ensures ti.TypeIn(typeMap).Fatal? ==> ti.TypeIn(typeMap).message == MissingTypeMessage(ti.typeName)
  {
  }

  /** Once a descriptor holds its type the catalog is no longer consulted. */
  lemma CachedTypeIgnoresCatalog(ti: TypeInfo, m1: map<string, string>, m2: map<string, string>)
    requires ti.reflectType.Some?
    ensures ti.TypeIn(m1) == ti.TypeIn(m2) == Done(ti.reflectType.value)
  {
  }
}
