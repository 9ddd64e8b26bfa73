/**
 * MapperRegistry: the table from mapper interfaces to the factories that
 * build their proxies. Adding a mapper registers it before its annotations
 * are parsed and takes it out again when parsing fails.
 *
 * Parsing (MapperAnnotationBuilder.parse), proxy creation
 * (MapperProxyFactory.newInstance) and class-path scanning (ResolverUtil)
 * are external: their outcomes are inputs.
 */
module MapperRegistry {
  import opened Wrappers
  import opened Collections

  /** A class handed to the registry: its name and whether it is an interface. */
  datatype MapperClass = MapperClass(name: string, isInterface: bool)

  datatype MapperProxyFactory = MapperProxyFactory(mapperInterface: MapperClass)

  /** The proxy getMapper returns, bound to one SqlSession. */
  datatype MapperProxy = MapperProxy(mapperInterface: MapperClass, sqlSession: nat)

  datatype BindingException =
    | NotKnown(t: MapperClass)
    | AlreadyKnown(t: MapperClass)
    | InstanceFailed(t: MapperClass)

  /**
   * addMapper on a plain map of known mappers: a non-interface is ignored,
   * a known interface is refused, and a new interface stays registered
   * only if its parse succeeds.
   */
  function AddMapperTo(known: map<MapperClass, MapperProxyFactory>, t: MapperClass, parses: bool)
    : (map<MapperClass, MapperProxyFactory>, Outcome)
  {
    if !t.isInterface then (known, Done)
    else if t in known then (known, Failed(AlreadyKnown(t)))
    else if parses then (known[t := MapperProxyFactory(t)], Done)
    else (known, ParserThrew(t))
  }

  /**
   * How an addMapper call ends: normally, with a BindingException of the
   * registry, or with whatever exception the annotation parser threw for
   * `t`, which propagates unchanged.
   */
  datatype Outcome = Done | Failed(error: BindingException) | ParserThrew(t: MapperClass)

  /** addMappers: addMapper for each class found, in order, stopping at the first exception. */
  function AddAllTo(known: map<MapperClass, MapperProxyFactory>, found: seq<MapperClass>, parses: seq<bool>)
    : (r: (map<MapperClass, MapperProxyFactory>, Outcome))
    requires |parses| == |found|
    decreases |found|
    ensures r.1.Failed? ==> exists i | 0 <= i < |found| ::
      r.1.error == AlreadyKnown(found[i]) && (found[i] in known || found[i] in found[..i])
    ensures r.1.ParserThrew? ==> exists i | 0 <= i < |found| :: r.1.t == found[i] && !parses[i]
  {
    if found == [] then (known, Done)
    else
      var (k1, o1) := AddMapperTo(known, found[0], parses[0]);
      if !o1.Done? then (k1, o1)
      else
        var r := AddAllTo(k1, found[1..], parses[1..]);
        assert r.1.Failed? ==> exists i | 0 <= i < |found| ::
          r.1.error == AlreadyKnown(found[i]) && (found[i] in known || found[i] in found[..i]) by {
          if r.1.Failed? {
            var j :| 0 <= j < |found[1..]| && r.1.error == AlreadyKnown(found[1..][j])
                     && (found[1..][j] in k1 || found[1..][j] in found[1..][..j]);
            assert found[j + 1] == found[1..][j];
            assert found[1..][..j] == found[1..j + 1];
            assert found[j + 1] in known || found[j + 1] in found[..j + 1];
          }
        }
        assert r.1.ParserThrew? ==> exists i | 0 <= i < |found| :: r.1.t == found[i] && !parses[i] by {
          if r.1.ParserThrew? {
            var j :| 0 <= j < |found[1..]| && r.1.t == found[1..][j] && !parses[1..][j];
            assert found[j + 1] == found[1..][j] && parses[j + 1] == parses[1..][j];
          }
        }
        r
  }

  /**
   * addMappers never drops a mapper that was known; when it completes,
   * every interface found is known, each with its own factory, and nothing
   * else was added.
   */
  lemma {:induction false} AddAllRegistersEveryInterface(
    known: map<MapperClass, MapperProxyFactory>, found: seq<MapperClass>, parses: seq<bool>)
    requires |parses| == |found|
    decreases |found|
    ensures var (k, o) := AddAllTo(known, found, parses);
      && (forall t | t in known :: t in k && k[t] == known[t])
      && (forall t | t in k && t !in known :: t in found && k[t] == MapperProxyFactory(t))
      && (o.Done? ==> forall i | 0 <= i < |found| && found[i].isInterface :: found[i] in k)
  {
    if found != [] {
      var (k1, o1) := AddMapperTo(known, found[0], parses[0]);
      if o1.Done? {
        AddAllRegistersEveryInterface(k1, found[1..], parses[1..]);
        var (k, o) := AddAllTo(k1, found[1..], parses[1..]);
        forall i | 0 <= i < |found| && found[i].isInterface && o.Done?
          ensures found[i] in k
        {
          if i > 0 { assert found[1..][i - 1] == found[i]; }
        }
        forall t | t in k && t !in known
          ensures t in found
        {
          if t !in k1 {
            var j :| 0 <= j < |found[1..]| && found[1..][j] == t;
            assert found[j + 1] == t;
          }
        }
      }
    }
  }

  /** A set of distinct interfaces that are all new and all parse is registered without failure. */
  lemma {:induction false} AddAllFreshSucceeds(
    known: map<MapperClass, MapperProxyFactory>, found: seq<MapperClass>, parses: seq<bool>)
    requires |parses| == |found| && Distinct(found)
    requires forall i | 0 <= i < |found| :: found[i] !in known && parses[i]
    decreases |found|
    ensures AddAllTo(known, found, parses).1 == Done
  {
    if found != [] {
      var (k1, o1) := AddMapperTo(known, found[0], parses[0]);
      forall i | 0 <= i < |found[1..]|
        ensures found[1..][i] !in k1 && parses[1..][i]
      {
        assert found[1..][i] == found[i + 1] != found[0];
      }
      assert Distinct(found[1..]);
      AddAllFreshSucceeds(k1, found[1..], parses[1..]);
    }
  }

  class MapperRegistry {
    var knownMappers: map<MapperClass, MapperProxyFactory>

    /** Every known mapper is an interface with its own factory. */
    ghost predicate Valid()
      reads this
    {
      forall t | t in knownMappers :: t.isInterface && knownMappers[t] == MapperProxyFactory(t)
    }

    constructor ()
      ensures Valid() && knownMappers == map[]
    {
      knownMappers := map[];
    }

    /** getMapper: an unknown type is an error; otherwise the factory's proxy for the session. */
    function GetMapper(t: MapperClass, sqlSession: nat, instantiates: bool): (r: Result<MapperProxy, BindingException>)
      reads this
      requires Valid()
      ensures r.Ok? <==> t in knownMappers && instantiates
      ensures t !in knownMappers ==> r == Err(NotKnown(t))
      ensures r.Ok? ==> r.value == MapperProxy(t, sqlSession) && t.isInterface
    {
      if t !in knownMappers then Err(NotKnown(t))
      else if !instantiates then Err(InstanceFailed(t))
      else Ok(MapperProxy(knownMappers[t].mapperInterface, sqlSession))
    }

    /** hasMapper: true exactly for the types getMapper can bind, which are all interfaces. */
    function HasMapper(t: MapperClass): (r: bool)
      reads this
      requires Valid()
      ensures forall sqlSession: nat :: r <==> GetMapper(t, sqlSession, true).Ok?
      ensures r ==> t.isInterface
    {
      t in knownMappers
    }

    /** getMappers: the known types, exactly those hasMapper accepts. */
    function GetMappers(): (r: set<MapperClass>)
      reads this
      requires Valid()
      ensures forall t | t in r :: HasMapper(t) && t.isInterface
      ensures forall t | HasMapper(t) :: t in r
    {
      knownMappers.Keys
    }

    /**
     * addMapper: the factory is put in the map before the parser runs and
     * removed again if the parse does not complete.
     */
    method AddMapper(t: MapperClass, parses: bool) returns (r: Outcome)
      requires Valid()
      modifies this
      ensures Valid()
      ensures (knownMappers, r) == AddMapperTo(old(knownMappers), t, parses)
    {
      r := Done;
      if t.isInterface {
        if HasMapper(t) {
          return Failed(AlreadyKnown(t));
        }
        var loadCompleted := false;
        knownMappers := knownMappers[t := MapperProxyFactory(t)];
        if parses {
          loadCompleted := true;
        } else {
          r := ParserThrew(t);
        }
        if !loadCompleted {
          knownMappers := knownMappers - {t};
          assert knownMappers == old(knownMappers);
        }
      }
    }

    /** addMappers: addMapper for every class found, stopping at the first exception. */
    method AddMappers(found: seq<MapperClass>, parses: seq<bool>) returns (r: Outcome)
      requires Valid() && |parses| == |found| && Distinct(found)
      modifies this
      ensures Valid()
      ensures (knownMappers, r) == AddAllTo(old(knownMappers), found, parses)
    {
      var i := 0;
      r := Done;
      while i < |found|
        invariant 0 <= i <= |found| && Valid() && r == Done
        invariant AddAllTo(old(knownMappers), found, parses) == AddAllTo(knownMappers, found[i..], parses[i..])
      {
        assert found[i..][1..] == found[i + 1..] && parses[i..][1..] == parses[i + 1..];
        assert found[i..][0] == found[i] && parses[i..][0] == parses[i];
        ghost var before := knownMappers;
        r := AddMapper(found[i], parses[i]);
        if !r.Done? {
          assert AddAllTo(before, found[i..], parses[i..]) == (knownMappers, r);
          return;
        }
        i := i + 1;
      }
      assert found[i..] == [];
    }
  }

  /** A type added successfully is known afterwards, and the other entries are unchanged. */
  lemma AddMapperEffect(known: map<MapperClass, MapperProxyFactory>, t: MapperClass, parses: bool)
    ensures var (k, o) := AddMapperTo(known, t, parses);
      && (o.Done? && t.isInterface ==> t in k)
      && (forall u | u != t :: (u in k <==> u in known) && (u in k ==> k[u] == known[u]))
      && (!o.Done? ==> k == known)
      && (!t.isInterface ==> o.Done? && k == known)
  {
  }
}
