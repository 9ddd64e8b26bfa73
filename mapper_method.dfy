/**
 * MapperMethod: the decisions a mapper method makes around its SqlSession
 * call. It resolves the statement a method is bound to (SqlCommand),
 * reads the method's signature (MethodSignature), converts row counts to
 * the declared return type, and refuses a null result for a primitive
 * return type. ParamMap refuses lookups of unknown parameter names.
 *
 * Java reflection is replaced by plain data: a return type is one of the
 * cases below, a parameter class carries its name and the names of its
 * supertypes, and an interface carries its super-interfaces.
 */
module MapperMethod {
  import opened Wrappers
  import opened JavaInt

  datatype BindingException =
    | UnsupportedReturnType(commandName: Option<string>)
    | NullForPrimitive(commandName: Option<string>)
    | ParameterNotFound(key: string)
    | StatementNotFound(statementId: string)
    | UnknownExecutionMethod(statementName: string)
    | MultipleParameters(methodName: string, paramType: string)

  /** The declared return type of a mapper method, as far as these rules look at it. */
  datatype ReturnType =
    | VoidType
    | IntType | IntegerClass
    | LongType | LongClass
    | BooleanType | BooleanClass
    | OtherPrimitive(name: string)
    | OtherClass(name: string, isMap: bool)

  /** Class.isPrimitive: void and the primitive types. */
  predicate IsPrimitive(t: ReturnType)
  {
    t.VoidType? || t.IntType? || t.LongType? || t.BooleanType? || t.OtherPrimitive?
  }

  /** Map.class.isAssignableFrom(t). */
  predicate IsMap(t: ReturnType)
  {
    t.OtherClass? && t.isMap
  }

  /** A value returned from a mapper method. */
  datatype JValue = Null | IntValue(i: Int32) | LongValue(l: Int64) | BoolValue(b: bool) | Object(id: nat)

  /** The number a numeric value stands for. */
  function NumericValue(v: JValue): Option<int>
  {
    match v
    case IntValue(i) => Some(i)
    case LongValue(l) => Some(l)
    case _ => None
  }

  /**
   * rowCountResult: void gives null, Integer/int the count, Long/long the
   * count widened, Boolean/boolean whether any row changed; any other return
   * type is refused.
   */
  function RowCountResult(rowCount: Int32, returnType: ReturnType, name: Option<string>)
    : (r: Result<JValue, BindingException>)
    ensures r.Err? <==> returnType.OtherPrimitive? || returnType.OtherClass?
    ensures r.Err? ==> r.error == UnsupportedReturnType(name)
    ensures r.Ok? && r.value.Null? <==> returnType.VoidType?
    ensures (returnType.IntType? || returnType.IntegerClass?) ==> r == Ok(IntValue(rowCount))
    ensures (returnType.LongType? || returnType.LongClass?) ==> r == Ok(LongValue(rowCount))
    ensures r.Ok? && !r.value.Null? && !r.value.BoolValue? ==> NumericValue(r.value) == Some(rowCount)
    ensures (returnType.BooleanType? || returnType.BooleanClass?) ==> r == Ok(BoolValue(rowCount > 0))
  {
    if returnType.VoidType? then Ok(Null)
    else if returnType.IntegerClass? || returnType.IntType? then Ok(IntValue(rowCount))
    else if returnType.LongClass? || returnType.LongType? then
      assert IsInt32(rowCount);
      Ok(LongValue(rowCount))
    else if returnType.BooleanClass? || returnType.BooleanType? then Ok(BoolValue(rowCount > 0))
    else Err(UnsupportedReturnType(name))
  }

  /** The check at the end of execute: null cannot be returned for a primitive other than void. */
  function CheckResult(result: JValue, returnType: ReturnType, name: Option<string>)
    : (r: Result<JValue, BindingException>)
    ensures r.Ok? ==> r.value == result
    ensures r.Err? <==> result.Null? && IsPrimitive(returnType) && !returnType.VoidType?
  {
    if result.Null? && IsPrimitive(returnType) && !returnType.VoidType? then Err(NullForPrimitive(name))
    else Ok(result)
  }

  /** A converted row count always passes the null-for-primitive check. */
  lemma RowCountPassesCheck(rowCount: Int32, returnType: ReturnType, name: Option<string>)
    ensures RowCountResult(rowCount, returnType, name).Ok? ==>
      CheckResult(RowCountResult(rowCount, returnType, name).value, returnType, name)
        == RowCountResult(rowCount, returnType, name)
  {
  }

  /** ParamMap.get: a name that is not a key is an error, naming the key. */
  function ParamMapGet<V>(params: map<string, V>, key: string): (r: Result<V, BindingException>)
    ensures r.Ok? <==> key in params
    ensures r.Ok? ==> r.value == params[key]
    ensures r.Err? ==> r.error == ParameterNotFound(key)
  {
    if key !in params then Err(ParameterNotFound(key)) else Ok(params[key])
  }

  // ---------------------------------------------------------------------
  // SqlCommand

  datatype SqlCommandType = UNKNOWN | INSERT | UPDATE | DELETE | SELECT | FLUSH

  datatype MappedStatement = MappedStatement(id: string, sqlCommandType: SqlCommandType)

  /** A mapper interface and the interfaces it extends directly. */
  datatype Interface = Interface(name: string, supers: seq<Interface>)

  /** The id under which a method's statement is registered by default. */
  function StatementId(interfaceName: string, methodName: string): string
  {
    interfaceName + "." + methodName
  }

  /** `d.isAssignableFrom(i)` for interfaces: `i` is `d` or extends it. */
  predicate Extends(i: Interface, d: Interface)
    decreases i
  {
    i == d || exists k | 0 <= k < |i.supers| :: Extends(i.supers[k], d)
  }

  /** `i` and every interface it extends, directly or not. */
  function Ancestors(i: Interface): set<Interface>
    decreases i, 1
  {
    {i} + AncestorsFrom(i, 0)
  }

  function AncestorsFrom(i: Interface, k: nat): set<Interface>
    requires k <= |i.supers|
    decreases i, 0, |i.supers| - k
  {
    if k == |i.supers| then {} else Ancestors(i.supers[k]) + AncestorsFrom(i, k + 1)
  }

  /**
   * resolveMappedStatement: the statement registered for the interface
   * itself wins; when there is none and the interface declares the method,
   * there is no statement; otherwise the super-interfaces that extend the
   * declaring class are searched in order.
   */
  function ResolveMappedStatement(config: map<string, MappedStatement>, mapperInterface: Interface,
                                  methodName: string, declaringClass: Interface): Option<MappedStatement>
    decreases mapperInterface, 1
  {
    var statementId := StatementId(mapperInterface.name, methodName);
    if statementId in config then Some(config[statementId])
    else if mapperInterface == declaringClass then None
    else ResolveAmongSupers(config, mapperInterface, 0, methodName, declaringClass)
  }

  /** The for loop over the super-interfaces, from index k on. */
  function ResolveAmongSupers(config: map<string, MappedStatement>, mapperInterface: Interface, k: nat,
                              methodName: string, declaringClass: Interface): Option<MappedStatement>
    requires k <= |mapperInterface.supers|
    decreases mapperInterface, 0, |mapperInterface.supers| - k
  {
    if k == |mapperInterface.supers| then None
    else
      var superInterface := mapperInterface.supers[k];
      var ms := if Extends(superInterface, declaringClass)
        then ResolveMappedStatement(config, superInterface, methodName, declaringClass)
        else None;
      if ms.Some? then ms else ResolveAmongSupers(config, mapperInterface, k + 1, methodName, declaringClass)
  }

  /**
   * A resolved statement is the one registered under the default id of
   * the interface or of one of the interfaces it extends; and the
   * interface's own registration, when there is one, is the one found.
   */
  lemma {:induction false} ResolveIsSound(config: map<string, MappedStatement>, i: Interface,
                                          methodName: string, d: Interface)
    decreases i, 1
    ensures var r := ResolveMappedStatement(config, i, methodName, d);
      && (StatementId(i.name, methodName) in config ==> r == Some(config[StatementId(i.name, methodName)]))
      && (r.Some? ==> exists j | j in Ancestors(i) ::
            StatementId(j.name, methodName) in config && config[StatementId(j.name, methodName)] == r.value)
  {
    var id := StatementId(i.name, methodName);
    if id !in config && i != d {
      ResolveAmongSupersIsSound(config, i, 0, methodName, d);
    }
  }

  lemma {:induction false} ResolveAmongSupersIsSound(config: map<string, MappedStatement>, i: Interface, k: nat,
                                                     methodName: string, d: Interface)
    requires k <= |i.supers|
    decreases i, 0, |i.supers| - k
    ensures var r := ResolveAmongSupers(config, i, k, methodName, d);
      r.Some? ==> exists j | j in Ancestors(i) ::
        StatementId(j.name, methodName) in config && config[StatementId(j.name, methodName)] == r.value
  {
    if k < |i.supers| {
      var s := i.supers[k];
      AncestorsFromContains(i, k);
      if Extends(s, d) {
        ResolveIsSound(config, s, methodName, d);
      }
      ResolveAmongSupersIsSound(config, i, k + 1, methodName, d);
    }
  }

  /** Every ancestor of the k-th super-interface, and of the later ones, is an ancestor of `i`. */
  lemma {:induction false} AncestorsFromContains(i: Interface, k: nat)
    requires k < |i.supers|
    ensures Ancestors(i.supers[k]) <= Ancestors(i)
    ensures AncestorsFrom(i, k + 1) <= Ancestors(i)
  {
    AncestorsFromTail(i, 0, k);
  }

  lemma {:induction false} AncestorsFromTail(i: Interface, j: nat, k: nat)
    requires j <= k < |i.supers|
    decreases k - j
    ensures Ancestors(i.supers[k]) + AncestorsFrom(i, k + 1) <= AncestorsFrom(i, j)
  {
    if j < k {
      AncestorsFromTail(i, j + 1, k);
    }
  }

  /**
   * The search over super-interfaces returns the statement of the first
   * super-interface, from index k on, that extends the declaring class and
   * resolves to a statement; none when there is no such super-interface.
   */
  lemma {:induction false} ResolveAmongSupersFirstHit(config: map<string, MappedStatement>, i: Interface, k: nat,
                                                      methodName: string, d: Interface)
    requires k <= |i.supers|
    decreases |i.supers| - k
    ensures var r := ResolveAmongSupers(config, i, k, methodName, d);
      && (r.None? <==> forall n | k <= n < |i.supers| ::
            !(Extends(i.supers[n], d) && ResolveMappedStatement(config, i.supers[n], methodName, d).Some?))
      && (r.Some? ==> exists n | k <= n < |i.supers| ::
            && Extends(i.supers[n], d) && r == ResolveMappedStatement(config, i.supers[n], methodName, d)
            && forall n' | k <= n' < n ::
                 !(Extends(i.supers[n'], d) && ResolveMappedStatement(config, i.supers[n'], methodName, d).Some?))
  {
    if k < |i.supers| {
      ResolveAmongSupersFirstHit(config, i, k + 1, methodName, d);
    }
  }

  /**
   * Completeness: when some interface that `i` extends, and that extends
   * the declaring class, has a statement registered under its default id,
   * resolution finds a statement.
   */
  lemma {:induction false} ResolveIsComplete(config: map<string, MappedStatement>, i: Interface,
                                             methodName: string, d: Interface, j: Interface)
    requires j in Ancestors(i) && Extends(j, d) && StatementId(j.name, methodName) in config
    decreases i
    ensures ResolveMappedStatement(config, i, methodName, d).Some?
  {
    if StatementId(i.name, methodName) !in config {
      assert j != i;
      AncestorsAreExtended(i, j);
      ExtendsTransitive(i, j, d);
      if i == d {
        ExtendsAntisymmetric(i, j);
        assert false;
      }
      AncestorsFromExtended(i, 0, j);
      var n :| 0 <= n < |i.supers| && Extends(i.supers[n], j);
      AncestorsAreExtended(i.supers[n], j);
      ExtendsTransitive(i.supers[n], j, d);
      ResolveIsComplete(config, i.supers[n], methodName, d, j);
      ResolveAmongSupersFirstHit(config, i, 0, methodName, d);
    }
  }

  /** `j` is among the ancestors of `i` exactly when `i` extends `j`. */
  lemma {:induction false} AncestorsAreExtended(i: Interface, j: Interface)
    decreases i, 1
    ensures j in Ancestors(i) <==> Extends(i, j)
  {
    AncestorsFromExtended(i, 0, j);
  }

  lemma {:induction false} AncestorsFromExtended(i: Interface, k: nat, j: Interface)
    requires k <= |i.supers|
    decreases i, 0, |i.supers| - k
    ensures j in AncestorsFrom(i, k) <==> exists n | k <= n < |i.supers| :: Extends(i.supers[n], j)
  {
    if k < |i.supers| {
      AncestorsAreExtended(i.supers[k], j);
      AncestorsFromExtended(i, k + 1, j);
    }
  }

  lemma {:induction false} ExtendsTransitive(a: Interface, b: Interface, c: Interface)
    requires Extends(a, b) && Extends(b, c)
    decreases a
    ensures Extends(a, c)
  {
    if a != b {
      var n :| 0 <= n < |a.supers| && Extends(a.supers[n], b);
      ExtendsTransitive(a.supers[n], b, c);
    }
  }

  /** The length of the longest chain of super-interfaces above `i`. */
  function Depth(i: Interface): nat
    decreases i, 1
  {
    1 + DepthFrom(i, 0)
  }

  function DepthFrom(i: Interface, k: nat): nat
    requires k <= |i.supers|
    decreases i, 0, |i.supers| - k
  {
    if k == |i.supers| then 0
    else
      var here, rest := Depth(i.supers[k]), DepthFrom(i, k + 1);
      if here < rest then rest else here
  }

  lemma {:induction false} DepthFromBound(i: Interface, k: nat, n: nat)
    requires k <= n < |i.supers|
    decreases n - k
    ensures Depth(i.supers[n]) <= DepthFrom(i, k)
  {
    if k < n {
      DepthFromBound(i, k + 1, n);
    }
  }

  /** An interface is deeper than every interface it extends, other than itself. */
  lemma {:induction false} ExtendsDeeper(a: Interface, b: Interface)
    requires Extends(a, b)
    decreases a
    ensures a != b ==> Depth(b) < Depth(a)
  {
    if a != b {
      var n :| 0 <= n < |a.supers| && Extends(a.supers[n], b);
      ExtendsDeeper(a.supers[n], b);
      DepthFromBound(a, 0, n);
    }
  }

  /** No two distinct interfaces extend each other. */
  lemma ExtendsAntisymmetric(a: Interface, b: Interface)
    requires Extends(a, b) && Extends(b, a)
    ensures a == b
  {
    ExtendsDeeper(a, b);
    ExtendsDeeper(b, a);
  }

  /** The declaring interface without a statement of its own yields no statement. */
  lemma DeclaringWithoutStatement(config: map<string, MappedStatement>, i: Interface, methodName: string)
    requires StatementId(i.name, methodName) !in config
    ensures ResolveMappedStatement(config, i, methodName, i).None?
  {
  }

  datatype SqlCommand = SqlCommand(name: Option<string>, commandType: SqlCommandType)

  /**
   * The SqlCommand constructor: without a statement, a method carrying
   * @Flush becomes a FLUSH command with a null name and any other method is
   * an error; a statement of type UNKNOWN is an error; otherwise the command
   * takes the statement's id and type.
   */
  function NewSqlCommand(config: map<string, MappedStatement>, mapperInterface: Interface, methodName: string,
                         declaringClass: Interface, hasFlush: bool): (r: Result<SqlCommand, BindingException>)
    ensures var ms := ResolveMappedStatement(config, mapperInterface, methodName, declaringClass);
      && (ms.None? && hasFlush <==> r == Ok(SqlCommand(None, FLUSH)))
      && (ms.None? && !hasFlush <==> r == Err(StatementNotFound(StatementId(mapperInterface.name, methodName))))
      && (ms.Some? ==> (r.Err? <==> ms.value.sqlCommandType == UNKNOWN))
      && (ms.Some? && r.Err? ==> r.error == UnknownExecutionMethod(ms.value.id))
      && (ms.Some? && r.Ok? ==> r.value == SqlCommand(Some(ms.value.id), ms.value.sqlCommandType))
      && (r.Ok? ==> r.value.commandType != UNKNOWN)
  {
    var ms := ResolveMappedStatement(config, mapperInterface, methodName, declaringClass);
    if ms.None? then
      if hasFlush then Ok(SqlCommand(None, FLUSH))
      else Err(StatementNotFound(StatementId(mapperInterface.name, methodName)))
    else if ms.value.sqlCommandType == UNKNOWN then Err(UnknownExecutionMethod(ms.value.id))
    else Ok(SqlCommand(Some(ms.value.id), ms.value.sqlCommandType))
  }

  // ---------------------------------------------------------------------
  // MethodSignature

  /** A parameter's class: its name and the names of all its supertypes. */
  datatype ParamClass = ParamClass(name: string, supertypes: set<string>)

  /** `paramType.isAssignableFrom(c)`. */
  predicate IsAssignableFrom(paramType: string, c: ParamClass)
  {
    c.name == paramType || paramType in c.supertypes
  }

  const ROW_BOUNDS: string := "org.apache.ibatis.session.RowBounds"
  const RESULT_HANDLER: string := "org.apache.ibatis.session.ResultHandler"

  /**
   * getUniqueParamIndex: the position of the only parameter assignable to
   * `paramType`, null when there is none, an error when there are two.
   */
  method GetUniqueParamIndex(methodName: string, argTypes: seq<ParamClass>, paramType: string)
    returns (r: Result<Option<nat>, BindingException>)
    ensures r.Err? <==> exists i, j | 0 <= i < j < |argTypes| ::
      IsAssignableFrom(paramType, argTypes[i]) && IsAssignableFrom(paramType, argTypes[j])
    ensures r.Err? ==> r.error == MultipleParameters(methodName, paramType)
    ensures r == Ok(None) <==> forall i | 0 <= i < |argTypes| :: !IsAssignableFrom(paramType, argTypes[i])
    ensures r.Ok? && r.value.Some? ==>
      && r.value.value < |argTypes| && IsAssignableFrom(paramType, argTypes[r.value.value])
      && forall j | 0 <= j < |argTypes| && j != r.value.value :: !IsAssignableFrom(paramType, argTypes[j])
  {
    var index: Option<nat> := None;
    var i := 0;
    while i < |argTypes|
      invariant 0 <= i <= |argTypes|
      invariant index.None? ==> forall j | 0 <= j < i :: !IsAssignableFrom(paramType, argTypes[j])
      invariant index.Some? ==> index.value < i && IsAssignableFrom(paramType, argTypes[index.value])
      invariant index.Some? ==> forall j | 0 <= j < i && j != index.value :: !IsAssignableFrom(paramType, argTypes[j])
    {
      if IsAssignableFrom(paramType, argTypes[i]) {
        if index.None? {
          index := Some(i);
        } else {
          return Err(MultipleParameters(methodName, paramType));
        }
      }
      i := i + 1;
    }
    return Ok(index);
  }

  /** The parts of a java.lang.reflect.Method these rules read. */
  datatype MethodInfo = MethodInfo(
    name: string,
    returnType: ReturnType,
    paramTypes: seq<ParamClass>,
    mapKeyAnnotation: Option<string>)

  /** getMapKey: the @MapKey value, read only when the return type is a Map. */
  function GetMapKey(m: MethodInfo): (r: Option<string>)
    ensures r.Some? <==> IsMap(m.returnType) && m.mapKeyAnnotation.Some?
    ensures r.Some? ==> r == m.mapKeyAnnotation
  {
    if IsMap(m.returnType) && m.mapKeyAnnotation.Some? then m.mapKeyAnnotation else None
  }

  datatype MethodSignature = MethodSignature(
    returnType: ReturnType,
    returnsVoid: bool,
    returnsMap: bool,
    mapKey: Option<string>,
    rowBoundsIndex: Option<nat>,
    resultHandlerIndex: Option<nat>)

  /**
   * The MethodSignature constructor: returnsMap exactly when there is a map
   * key, and the RowBounds and ResultHandler positions are those of the
   * unique parameters of those types; a duplicate of either is an error.
   */
  method NewMethodSignature(m: MethodInfo) returns (r: Result<MethodSignature, BindingException>)
    ensures r.Ok? ==>
      && r.value.returnType == m.returnType
      && (r.value.returnsVoid <==> m.returnType.VoidType?)
      && (r.value.returnsMap <==> r.value.mapKey.Some?)
      && r.value.mapKey == GetMapKey(m)
      && (r.value.returnsMap ==> IsMap(m.returnType))
    ensures r.Ok? && r.value.rowBoundsIndex.Some? ==>
      r.value.rowBoundsIndex.value < |m.paramTypes| && IsAssignableFrom(ROW_BOUNDS, m.paramTypes[r.value.rowBoundsIndex.value])
    ensures r.Ok? && r.value.resultHandlerIndex.Some? ==>
      r.value.resultHandlerIndex.value < |m.paramTypes|
      && IsAssignableFrom(RESULT_HANDLER, m.paramTypes[r.value.resultHandlerIndex.value])
    ensures r.Ok? && r.value.rowBoundsIndex.None? ==>
      forall i | 0 <= i < |m.paramTypes| :: !IsAssignableFrom(ROW_BOUNDS, m.paramTypes[i])
    ensures r.Ok? && r.value.resultHandlerIndex.None? ==>
      forall i | 0 <= i < |m.paramTypes| :: !IsAssignableFrom(RESULT_HANDLER, m.paramTypes[i])
    ensures r.Err? <==>
      || (exists i, j | 0 <= i < j < |m.paramTypes| ::
            IsAssignableFrom(ROW_BOUNDS, m.paramTypes[i]) && IsAssignableFrom(ROW_BOUNDS, m.paramTypes[j]))
      || (exists i, j | 0 <= i < j < |m.paramTypes| ::
            IsAssignableFrom(RESULT_HANDLER, m.paramTypes[i]) && IsAssignableFrom(RESULT_HANDLER, m.paramTypes[j]))
  {
    var mapKey := GetMapKey(m);
    var rowBoundsIndex := GetUniqueParamIndex(m.name, m.paramTypes, ROW_BOUNDS);
    if rowBoundsIndex.Err? {
      return Err(rowBoundsIndex.error);
    }
    var resultHandlerIndex := GetUniqueParamIndex(m.name, m.paramTypes, RESULT_HANDLER);
    if resultHandlerIndex.Err? {
      return Err(resultHandlerIndex.error);
    }
    r := Ok(MethodSignature(m.returnType, m.returnType.VoidType?, mapKey.Some?, mapKey,
                            rowBoundsIndex.value, resultHandlerIndex.value));
  }

  /** extractRowBounds: the argument at the RowBounds position, or null when there is none. */
  function ExtractRowBounds<A>(sig: MethodSignature, args: seq<A>): (r: Option<A>)
    requires sig.rowBoundsIndex.Some? ==> sig.rowBoundsIndex.value < |args|
    ensures r.None? <==> sig.rowBoundsIndex.None?
    ensures r.Some? ==> r.value == args[sig.rowBoundsIndex.value]
  {
    if sig.rowBoundsIndex.Some? then Some(args[sig.rowBoundsIndex.value]) else None
  }

  /** extractResultHandler: the argument at the ResultHandler position, or null when there is none. */
  function ExtractResultHandler<A>(sig: MethodSignature, args: seq<A>): (r: Option<A>)
    requires sig.resultHandlerIndex.Some? ==> sig.resultHandlerIndex.value < |args|
    ensures r.None? <==> sig.resultHandlerIndex.None?
    ensures r.Some? ==> r.value == args[sig.resultHandlerIndex.value]
  {
    if sig.resultHandlerIndex.Some? then Some(args[sig.resultHandlerIndex.value]) else None
  }
}
