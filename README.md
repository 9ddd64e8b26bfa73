# MyBatis core bookkeeping, modelled in Dafny

This project models the parts of MyBatis 3 that keep state or make
decisions on plain data:

- **the connection pool** (`PooledDataSource`), which lends wrapped JDBC
  connections and takes them back. It keeps an idle list and an active list
  and can reclaim overdue connections. It validates connections with an
  optional ping and keeps the pool statistics;
- **the cache family**:
  - `PerpetualCache`, a plain map with an identifier;
  - `LruCache`, which evicts the least recently used key from the cache it
    decorates;
  - `SoftCache` and `WeakCache`, which hold values behind references the
    garbage collector may clear and keep a bounded deque of hard links;
- **`CacheKey`**, the incremental key with its `int` hash code, its `long`
  checksum, its count and its ordered list of objects;
- **`MapperRegistry`**, the table of mapper interfaces. A mapper is added
  before parsing and rolled back when parsing fails;
- **`ReuseExecutor`**'s cache of prepared statements, keyed by SQL text;
- **`MapperMethod`**'s decision rules:
  - how a mapper method finds its mapped statement;
  - how a row count becomes the declared return type;
  - the unique-parameter search of `MethodSignature`;
  - the `ParamMap` lookup;
  - the null-for-primitive check.

Each source file is one Dafny module. Two shared modules come first:
- `JavaInt` writes out Java's `int` and `long` wrap-around and
  `String.hashCode`, which runs over the UTF-16 code units of a string
  (a character outside the Basic Multilingual Plane is two units).
- `Wrappers` and `Collections` hold `Option`, `Result` and
  "no duplicates".

Where the Java code updates objects in place, the model is a class with
`modifies` clauses. Each method's postcondition states the new state in
terms of the old one, and the invariant of the class (`Valid`) is preserved.

Everything outside the JVM is an input, never a call:
- the clock;
- the JDBC driver's answers (whether a connection opens, `isClosed`, the ping
  query);
- the garbage collector (whether a reference was cleared, which keys the
  reference queue yields);
- which key or value, if any, stands for Java's `null`: the caches are
  generic, so `LruCache` is given its null key and `SoftCache` and
  `WeakCache` their null value when they are built;
- the annotation parser's outcome;
- whether a statement's connection is closed.

In the connection pool:
- A wrapper (`PooledConnection`) is a record.
- Its valid flag is kept by the pool as the set of invalidated wrappers.
- Closing a real connection adds it to the set of closed connections.
- `popConnection`'s loop runs over a sequence of `Tick`s. Each tick gives the
  time and the outside answers of one pass. Running out of ticks is reported
  as still waiting.

The pool's invariant (`PooledDataSource.PooledDataSource.Valid`) states the
following, and every operation keeps it:
- idle and active wrappers are distinct and wrap distinct real connections;
- none of them is invalidated, and no real connection they wrap is closed;
- at most `poolMaximumActiveConnections` wrappers are pooled in all;
- at most `poolMaximumIdleConnections` of them are idle.

## Model

| member | source | states |
|---|---|---|
| JavaInt.Wrap32 | src/main/java/org/apache/ibatis/cache/CacheKey.java:76-88 | the `int` a value wraps to is congruent to it modulo 2^32 and equals it when it is in range |
| JavaInt.Wrap64 | src/main/java/org/apache/ibatis/cache/CacheKey.java:79-82 | the `long` a value wraps to is congruent to it modulo 2^64 and equals it when it is in range |
| JavaInt.CodeUnits | src/main/java/org/apache/ibatis/cache/impl/PerpetualCache.java:103 | a character below U+10000 is one code unit, not a surrogate, equal to the character; any other is a high surrogate followed by a low surrogate that together encode it |
| JavaInt.Utf16Units | src/main/java/org/apache/ibatis/cache/impl/PerpetualCache.java:103 | a string of n characters has between n and 2n code units, each a 16-bit value; without supplementary characters the units are the characters themselves |
| JavaInt.UnitsHashCodeIsWrappedPolynomial | src/main/java/org/apache/ibatis/cache/impl/PerpetualCache.java:103 | the hash loop over code units, wrapping after every step, gives the documented polynomial u[0]*31^(n-1)+...+u[n-1] wrapped once |
| JavaInt.StringHashCode | src/main/java/org/apache/ibatis/cache/impl/PerpetualCache.java:103 | String.hashCode runs over the UTF-16 code units of the string and equals the documented polynomial over them, wrapped once to an `int` |
| JavaInt.BasicPlaneHashCode | src/main/java/org/apache/ibatis/cache/impl/PerpetualCache.java:103 | for a string without supplementary characters the hash code is the polynomial over its characters |
| JavaInt.SupplementaryCharacterHash | src/main/java/org/apache/ibatis/cache/impl/PerpetualCache.java:103 | U+1F600 is hashed as its surrogate pair D83D DE00, giving 31*0xD83D+0xDE00 = 1772899 |
| PerpetualCache.Lookup | src/main/java/org/apache/ibatis/cache/impl/PerpetualCache.java:60-62 | a lookup gives a value exactly when the key is present, and that value is the stored one |
| PerpetualCache.PutSize | src/main/java/org/apache/ibatis/cache/impl/PerpetualCache.java:55-57 | a put grows the size by one exactly when the key was absent |
| PerpetualCache.RemoveSize | src/main/java/org/apache/ibatis/cache/impl/PerpetualCache.java:65-67 | a remove shrinks the size by one exactly when the key was present |
| PerpetualCache.PerpetualCache.constructor | src/main/java/org/apache/ibatis/cache/impl/PerpetualCache.java:40-42 | a new cache has the given id and no entries |
| PerpetualCache.PerpetualCache.GetId | src/main/java/org/apache/ibatis/cache/impl/PerpetualCache.java:45-47 | the identifier given at construction |
| PerpetualCache.PerpetualCache.GetSize | src/main/java/org/apache/ibatis/cache/impl/PerpetualCache.java:50-52 | the size is the number of distinct keys stored |
| PerpetualCache.PerpetualCache.PutObject | src/main/java/org/apache/ibatis/cache/impl/PerpetualCache.java:55-57 | the key maps to the new value and every other key is unchanged |
| PerpetualCache.PerpetualCache.GetObject | src/main/java/org/apache/ibatis/cache/impl/PerpetualCache.java:60-62 | the stored value, or null when the key is absent |
| PerpetualCache.PerpetualCache.RemoveObject | src/main/java/org/apache/ibatis/cache/impl/PerpetualCache.java:65-67 | returns the previous value (null if none); the key is absent afterwards and nothing else changes |
| PerpetualCache.PerpetualCache.Clear | src/main/java/org/apache/ibatis/cache/impl/PerpetualCache.java:70-72 | no entries remain and the size is 0 |
| PerpetualCache.PerpetualCache.Equals | src/main/java/org/apache/ibatis/cache/impl/PerpetualCache.java:83-96 | throws exactly when this cache has no id; otherwise false for null and for an object that is not a Cache, true for this cache itself, and for any other Cache (a decorator included) true exactly when its id equals this id |
| PerpetualCache.PerpetualCache.HashCode | src/main/java/org/apache/ibatis/cache/impl/PerpetualCache.java:99-104 | throws exactly when there is no id; otherwise the id's String.hashCode over its UTF-16 code units |
| PerpetualCache.EqualCachesHashAlike | src/main/java/org/apache/ibatis/cache/impl/PerpetualCache.java:83-104 | equal caches have equal (non-failing) hash codes, and the equality holds the other way round too |
| LruCache.Without | src/main/java/org/apache/ibatis/cache/decorators/LruCache.java:84-88 | removing a key from the access order keeps exactly the other keys |
| LruCache.WithoutDistinct | src/main/java/org/apache/ibatis/cache/decorators/LruCache.java:84-88 | removing a key from a duplicate-free order keeps it duplicate-free and shortens it by one exactly when the key was there |
| LruCache.WithoutAbsent | src/main/java/org/apache/ibatis/cache/decorators/LruCache.java:84-88 | removing a key that is not there leaves the order as it is |
| LruCache.WithoutSplices | src/main/java/org/apache/ibatis/cache/decorators/LruCache.java:84-88 | removing a key from a duplicate-free order splices it out: the keys before it and after it keep their places and their order |
| LruCache.TouchKeepsKeys | src/main/java/org/apache/ibatis/cache/decorators/LruCache.java:84-88 | an access (`Touch`, LinkedHashMap.get in access order) keeps the same distinct keys; a present key moves to the most recently used end while the other keys keep their order; an absent key changes nothing |
| LruCache.PutKeyBounded | src/main/java/org/apache/ibatis/cache/decorators/LruCache.java:60-70 | after keyMap.put (`PutKey`) the map holds at most `size` distinct keys; a present key moves to the end with the others in order and nothing is evicted; a new key is appended and, exactly when that takes the map past `size`, removeEldestEntry drops the least recently used key, the others keeping their order |
| LruCache.LruCache.constructor | src/main/java/org/apache/ibatis/cache/decorators/LruCache.java:41-45 | the key map starts empty with capacity 1024 |
| LruCache.Evicted | src/main/java/org/apache/ibatis/cache/decorators/LruCache.java:106-115 | the delegate loses at most the eldest key, and loses nothing exactly when there is no eldest key or the eldest key is null, since the eldest-key field cannot tell a null key from none |
| LruCache.NullEldestStays | src/main/java/org/apache/ibatis/cache/decorators/LruCache.java:106-115 | with a bound of 1, putting the null key and then another key drops the null key from the key map while the delegate keeps it; a non-null key in the same place would be removed |
| LruCache.LruCache.GetId | src/main/java/org/apache/ibatis/cache/decorators/LruCache.java:47-50 | the id is the delegate's id |
| LruCache.LruCache.GetSize | src/main/java/org/apache/ibatis/cache/decorators/LruCache.java:52-55 | the size is the number of keys the delegate stores, not the key map's |
| LruCache.LruCache.SetSize | src/main/java/org/apache/ibatis/cache/decorators/LruCache.java:57-72 | a negative size is an IllegalArgumentException and the key map and its bound stay as they were; otherwise the key map is replaced by an empty one bounded by the new size |
| LruCache.LruCache.PutObject | src/main/java/org/apache/ibatis/cache/decorators/LruCache.java:77-81 | the delegate stores the pair, then loses the evicted eldest key if there is one and it is not null; an evicted null key stays in the delegate; the key map is the result of keyMap.put |
| LruCache.LruCache.KeyMapPut | src/main/java/org/apache/ibatis/cache/decorators/LruCache.java:60-70 | the key map is updated by put and the eldest key is remembered exactly when removeEldestEntry fires |
| LruCache.LruCache.CycleKeyList | src/main/java/org/apache/ibatis/cache/decorators/LruCache.java:106-115 | the evicted eldest key is removed from the delegate unless it is null, in which case the delegate is unchanged; the eldest key is then forgotten |
| LruCache.LruCache.GetObject | src/main/java/org/apache/ibatis/cache/decorators/LruCache.java:84-88 | the key is touched in the access order and the delegate's value is returned |
| LruCache.LruCache.RemoveObject | src/main/java/org/apache/ibatis/cache/decorators/LruCache.java:91-93 | only the delegate changes; the key map is left as it is |
| LruCache.LruCache.Clear | src/main/java/org/apache/ibatis/cache/decorators/LruCache.java:96-99 | both the delegate and the key map are empty |
| ReferenceCache.PushHardLinkBounded | src/main/java/org/apache/ibatis/cache/decorators/SoftCache.java:104-113 | a read hit (`PushHardLink`) puts the value at the front of the deque, the old links keep their order, at most one leaves the back, exactly when the deque outgrows numberOfHardLinks, and a bound of numberOfHardLinks is preserved |
| ReferenceCache.RemoveKeys | src/main/java/org/apache/ibatis/cache/decorators/SoftCache.java:143-149 | draining the reference queue removes exactly the queued keys and keeps every other entry |
| ReferenceCache.RemoveKeysStep | src/main/java/org/apache/ibatis/cache/decorators/WeakCache.java:113-118 | each polled entry removes its key from what is left |
| SoftCache.SoftCache.constructor | src/main/java/org/apache/ibatis/cache/decorators/SoftCache.java:59-64 | 256 hard links and an empty deque |
| SoftCache.SoftCache.GetId | src/main/java/org/apache/ibatis/cache/decorators/SoftCache.java:66-69 | the id is the delegate's id |
| SoftCache.SoftCache.SetSize | src/main/java/org/apache/ibatis/cache/decorators/SoftCache.java:78-80 | only numberOfHardLinks changes |
| SoftCache.SoftCache.RemoveGarbageCollectedItems | src/main/java/org/apache/ibatis/cache/decorators/SoftCache.java:143-149 | the delegate loses exactly the keys the queue yields |
| SoftCache.SoftCache.GetSize | src/main/java/org/apache/ibatis/cache/decorators/SoftCache.java:72-75 | the queue is drained first and the delegate's remaining size is returned |
| SoftCache.SoftCache.PutObject | src/main/java/org/apache/ibatis/cache/decorators/SoftCache.java:83-88 | the queue is drained, then a SoftEntry of key and value is stored under the key |
| SoftCache.SoftCache.GetObject | src/main/java/org/apache/ibatis/cache/decorators/SoftCache.java:91-117 | absent key: null, nothing changes; a reference that reads null, because the collector cleared it or the stored value was null: null and the key is removed; otherwise the value, pushed on the hard-link deque; a value that is returned is never null |
| SoftCache.SoftCache.RemoveObject | src/main/java/org/apache/ibatis/cache/decorators/SoftCache.java:120-124 | the queue is drained, then the key is removed and its previous entry returned |
| SoftCache.SoftCache.Clear | src/main/java/org/apache/ibatis/cache/decorators/SoftCache.java:127-136 | the hard-link deque and the delegate are empty |
| WeakCache.WeakCache.constructor | src/main/java/org/apache/ibatis/cache/decorators/WeakCache.java:48-53 | 256 hard links and an empty deque |
| WeakCache.WeakCache.GetId | src/main/java/org/apache/ibatis/cache/decorators/WeakCache.java:55-58 | the id is the delegate's id |
| WeakCache.WeakCache.SetSize | src/main/java/org/apache/ibatis/cache/decorators/WeakCache.java:66-68 | only numberOfHardLinks changes |
| WeakCache.WeakCache.RemoveGarbageCollectedItems | src/main/java/org/apache/ibatis/cache/decorators/WeakCache.java:113-118 | the delegate loses exactly the keys the queue yields |
| WeakCache.WeakCache.GetSize | src/main/java/org/apache/ibatis/cache/decorators/WeakCache.java:61-64 | the queue is drained first and the delegate's remaining size is returned |
| WeakCache.WeakCache.PutObject | src/main/java/org/apache/ibatis/cache/decorators/WeakCache.java:71-74 | the queue is drained, then a WeakEntry of key and value is stored under the key |
| WeakCache.WeakCache.GetObject | src/main/java/org/apache/ibatis/cache/decorators/WeakCache.java:77-93 | absent key: null, nothing changes; a reference that reads null, because the collector cleared it or the stored value was null: null and the key is removed; otherwise the value, pushed on the hard-link deque; a value that is returned is never null |
| WeakCache.WeakCache.RemoveObject | src/main/java/org/apache/ibatis/cache/decorators/WeakCache.java:96-99 | the queue is drained, then the key is removed and its previous entry returned |
| WeakCache.WeakCache.Clear | src/main/java/org/apache/ibatis/cache/decorators/WeakCache.java:102-106 | the hard-link deque and the delegate are empty |
| CacheKey.ChecksumIsWrappedSum | src/main/java/org/apache/ibatis/cache/CacheKey.java:76-88 | the running `long` checksum is the sum of all base hashes wrapped once |
| CacheKey.AppendStepHash | src/main/java/org/apache/ibatis/cache/CacheKey.java:76-88 | the hash code of a key (`HashAfter`) advances per appended object by 37*hashcode + base hash * position, with `int` wrap-around; the base hash (`BaseHash`) is 1 for null and the object's own hashCode otherwise |
| CacheKey.AppendStepChecksum | src/main/java/org/apache/ibatis/cache/CacheKey.java:76-82 | the checksum of a key (`ChecksumAfter`) advances per appended object by its base hash, with `long` wrap-around |
| CacheKey.CacheKey.constructor | src/main/java/org/apache/ibatis/cache/CacheKey.java:60-65 | a fresh key has hash code 17, count 0, checksum 0 and no objects |
| CacheKey.CacheKey.FromObjects | src/main/java/org/apache/ibatis/cache/CacheKey.java:67-70 | a key built from an array holds exactly those objects, with hash, checksum and count to match |
| CacheKey.CacheKey.GetUpdateCount | src/main/java/org/apache/ibatis/cache/CacheKey.java:72-74 | the update count is `count` and the length of the update list |
| CacheKey.CacheKey.Update | src/main/java/org/apache/ibatis/cache/CacheKey.java:76-88 | count +1, checksum + base hash, hashcode = 37*hashcode + base*count with `int` wrap-around, object appended; the invariant tying them to the list is kept |
| CacheKey.CacheKey.UpdateAll | src/main/java/org/apache/ibatis/cache/CacheKey.java:90-94 | the same as updating with each object in order |
| CacheKey.CacheKey.Equals | src/main/java/org/apache/ibatis/cache/CacheKey.java:101-135 | true for the key itself; false for null and for anything that is not a CacheKey; for another key true exactly when it holds the same ordered objects, and then hash code, checksum and count agree |
| CacheKey.CacheKey.HashCode | src/main/java/org/apache/ibatis/cache/CacheKey.java:138-140 | the hash code is the one determined by the ordered objects |
| CacheKey.CacheKey.Clone | src/main/java/org/apache/ibatis/cache/CacheKey.java:152-156 | a fresh key with the same state and objects |
| CacheKey.UpdateClone | src/main/java/org/apache/ibatis/cache/CacheKey.java:152-156 | updating a clone leaves the original key unchanged; with the list as a value this holds by value semantics, not by the ArrayList copy |
| MapperRegistry.AddAllRegistersEveryInterface | src/main/java/org/apache/ibatis/binding/MapperRegistry.java:111-118 | addMappers (`AddAllTo`) never drops a known mapper, adds only interfaces it found with their own factories, and when it completes every interface found is known |
| MapperRegistry.AddAllTo | src/main/java/org/apache/ibatis/binding/MapperRegistry.java:111-118 | an AlreadyKnown exception names a class found that was known before or found earlier in the list; a parser exception names a class found whose parse failed |
| MapperRegistry.AddAllFreshSucceeds | src/main/java/org/apache/ibatis/binding/MapperRegistry.java:111-118 | distinct new interfaces that all parse are registered without an exception |
| MapperRegistry.AddMapperEffect | src/main/java/org/apache/ibatis/binding/MapperRegistry.java:73-98 | addMapper on a map (`AddMapperTo`): a non-interface is a no-op; a failed add (a BindingException or the parser's own exception) leaves the registry as it was; a successful add makes the type known and leaves the other entries unchanged |
| MapperRegistry.MapperRegistry.constructor | src/main/java/org/apache/ibatis/binding/MapperRegistry.java:47-49 | no mapper is known |
| MapperRegistry.MapperRegistry.GetMapper | src/main/java/org/apache/ibatis/binding/MapperRegistry.java:53-65 | an unknown type is a BindingException; a known one yields a proxy of that interface for the session, unless instantiation fails |
| MapperRegistry.MapperRegistry.HasMapper | src/main/java/org/apache/ibatis/binding/MapperRegistry.java:68-70 | true exactly for the types getMapper binds (for any session, when instantiation succeeds); such a type is an interface |
| MapperRegistry.MapperRegistry.GetMappers | src/main/java/org/apache/ibatis/binding/MapperRegistry.java:104-106 | exactly the types hasMapper accepts, all interfaces |
| MapperRegistry.MapperRegistry.AddMapper | src/main/java/org/apache/ibatis/binding/MapperRegistry.java:73-98 | the registry and outcome are those of `AddMapperTo`: a non-interface is ignored, a known interface is refused with a BindingException, a failing parse rolls the registration back and its exception propagates unchanged |
| MapperRegistry.MapperRegistry.AddMappers | src/main/java/org/apache/ibatis/binding/MapperRegistry.java:111-118 | the registry and outcome are those of adding each class found in order, stopping at the first exception |
| ReuseExecutor.ImagesOfAllKeys | src/main/java/org/apache/ibatis/executor/ReuseExecutor.java:85-89 | listing every key of the statement map once lists every cached statement once |
| ReuseExecutor.DistinctCardinality | src/main/java/org/apache/ibatis/executor/ReuseExecutor.java:85-89 | a duplicate-free listing of a set's elements has the set's size |
| ReuseExecutor.ReuseExecutor.constructor | src/main/java/org/apache/ibatis/executor/ReuseExecutor.java:51-53 | no statement is cached |
| ReuseExecutor.ReuseExecutor.HasStatementFor | src/main/java/org/apache/ibatis/executor/ReuseExecutor.java:120-126 | true exactly when the SQL is cached and its connection answers that it is open; an exception counts as false |
| ReuseExecutor.ReuseExecutor.GetStatement | src/main/java/org/apache/ibatis/executor/ReuseExecutor.java:128-130 | null for an SQL text that is not cached; otherwise a statement this executor prepared for exactly that text and has not closed |
| ReuseExecutor.ReuseExecutor.PutStatement | src/main/java/org/apache/ibatis/executor/ReuseExecutor.java:132-134 | the statement is stored under the SQL text, replacing any earlier one |
| ReuseExecutor.ReuseExecutor.PrepareStatement | src/main/java/org/apache/ibatis/executor/ReuseExecutor.java:96-118 | a live cached statement is reused with the timeout applied and the map untouched; otherwise a new statement is prepared and cached under the SQL; parameterize runs on both paths |
| ReuseExecutor.ReuseExecutor.DoFlushStatements | src/main/java/org/apache/ibatis/executor/ReuseExecutor.java:85-94 | every cached statement is closed exactly once, the map is emptied, and the result is an empty list |
| ReuseExecutor.ReuseExecutor.CloseEach | src/main/java/org/apache/ibatis/executor/ReuseExecutor.java:87-89 | closeStatement is called once for each cached statement |
| MapperMethod.RowCountResult | src/main/java/org/apache/ibatis/binding/MapperMethod.java:121-144 | void gives null; int/Integer the count as an `int`; long/Long the count as a `long`; boolean/Boolean `count > 0`; every other return type is a BindingException naming the statement |
| MapperMethod.CheckResult | src/main/java/org/apache/ibatis/binding/MapperMethod.java:111-114 | a null result is refused exactly for a primitive return type other than void; otherwise the result passes unchanged |
| MapperMethod.RowCountPassesCheck | src/main/java/org/apache/ibatis/binding/MapperMethod.java:111-144 | a converted row count always passes the null-for-primitive check |
| MapperMethod.ParamMapGet | src/main/java/org/apache/ibatis/binding/MapperMethod.java:242-248 | a missing key is a BindingException naming it; otherwise the stored value |
| MapperMethod.ResolveIsSound | src/main/java/org/apache/ibatis/binding/MapperMethod.java:293-318 | a resolved statement is the one registered under the default id of the interface or one of its ancestors, and the interface's own registration wins |
| MapperMethod.ResolveIsComplete | src/main/java/org/apache/ibatis/binding/MapperMethod.java:293-318 | when the mapper interface or any interface it extends is assignable to the declaring class and has a statement under its default id, resolveMappedStatement (`ResolveMappedStatement`) finds a statement |
| MapperMethod.ResolveAmongSupersFirstHit | src/main/java/org/apache/ibatis/binding/MapperMethod.java:305-316 | the search over super-interfaces (`ResolveAmongSupers`) finds nothing exactly when no super-interface that extends the declaring class resolves the statement; otherwise it returns the result of the first such super-interface in declaration order |
| MapperMethod.AncestorsAreExtended | src/main/java/org/apache/ibatis/binding/MapperMethod.java:305-306 | an interface is among the ancestors of another exactly when the other is assignable to it |
| MapperMethod.ExtendsTransitive | src/main/java/org/apache/ibatis/binding/MapperMethod.java:305-306 | assignability between interfaces is transitive |
| MapperMethod.ExtendsAntisymmetric | src/main/java/org/apache/ibatis/binding/MapperMethod.java:305-306 | two interfaces each assignable to the other are the same interface |
| MapperMethod.ResolveAmongSupersIsSound | src/main/java/org/apache/ibatis/binding/MapperMethod.java:305-316 | the search over super-interfaces only finds statements of ancestors |
| MapperMethod.AncestorsFromContains | src/main/java/org/apache/ibatis/binding/MapperMethod.java:305-316 | the ancestors of a super-interface are ancestors of the interface |
| MapperMethod.AncestorsFromTail | src/main/java/org/apache/ibatis/binding/MapperMethod.java:305-316 | the super-interfaces searched later are ancestors too |
| MapperMethod.DeclaringWithoutStatement | src/main/java/org/apache/ibatis/binding/MapperMethod.java:301-304 | when the interface declares the method and has no statement for it, there is none |
| MapperMethod.NewSqlCommand | src/main/java/org/apache/ibatis/binding/MapperMethod.java:258-283 | without a statement, @Flush gives a FLUSH command with a null name and anything else is an error; an UNKNOWN statement is an error; otherwise the statement's id and type |
| MapperMethod.GetUniqueParamIndex | src/main/java/org/apache/ibatis/binding/MapperMethod.java:420-433 | an error exactly when two parameters are assignable; null exactly when none is; otherwise the index of the only assignable one |
| MapperMethod.GetMapKey | src/main/java/org/apache/ibatis/binding/MapperMethod.java:435-444 | the @MapKey value, present exactly when the return type is a Map and the annotation is there |
| MapperMethod.NewMethodSignature | src/main/java/org/apache/ibatis/binding/MapperMethod.java:353-370 | returnsMap exactly when there is a map key; the RowBounds and ResultHandler positions are the unique assignable parameters; a duplicate of either is an error |
| MapperMethod.ExtractRowBounds | src/main/java/org/apache/ibatis/binding/MapperMethod.java:380-382 | null when there is no RowBounds parameter, otherwise the argument at its position |
| MapperMethod.ExtractResultHandler | src/main/java/org/apache/ibatis/binding/MapperMethod.java:388-390 | null when there is no ResultHandler parameter, otherwise the argument at its position |
| PooledDataSource.AssembleConnectionTypeCode | src/main/java/org/apache/ibatis/datasource/pooled/PooledDataSource.java:384-386 | the type code is String.hashCode, over UTF-16 code units, of url, username and password concatenated, each null written "null" |
| PooledDataSource.TypeCodeSeesOnlyTheConcatenation | src/main/java/org/apache/ibatis/datasource/pooled/PooledDataSource.java:384-386 | the type code cannot tell a null username from "null", nor where the url ends and the username begins |
| PooledDataSource.PingConnection | src/main/java/org/apache/ibatis/datasource/pooled/PooledDataSource.java:605-658 | unusable when the connection reports closed or isClosed throws; the ping runs only when enabled, the threshold is not negative and the connection has been unused longer than it; a failing ping closes the real connection and makes it unusable |
| PooledDataSource.IndexOfReal | src/main/java/org/apache/ibatis/datasource/pooled/PooledDataSource.java:398 | the first position of a wrapper of the given real connection, or the length when there is none |
| PooledDataSource.RemoveFirstRealAt | src/main/java/org/apache/ibatis/datasource/pooled/PooledDataSource.java:398 | List.remove (`RemoveFirstReal`) takes out exactly the first wrapper of the same real connection, if there is one, and keeps the others in order |
| PooledDataSource.ClaimStepFacts | src/main/java/org/apache/ibatis/datasource/pooled/PooledDataSource.java:462-540 | a claim leaves requestCount and badConnectionCount alone and counts the first wait of a call only; it ends in an interrupt only after an interrupted wait, in a driver failure only when the driver fails to connect, in get(0) on an empty list only when the cap is at most 0, and in the wait's IllegalArgumentException only when poolTimeToWait is negative (after the wait is counted); no other exception is thrown |
| PooledDataSource.CheckoutStepCounts | src/main/java/org/apache/ibatis/datasource/pooled/PooledDataSource.java:542-581 | a checkout counts a request exactly when it acquires the candidate and a bad connection exactly when it does not |
| PooledDataSource.PopCounts | src/main/java/org/apache/ibatis/datasource/pooled/PooledDataSource.java:453-595 | in a call to popConnection the wait is counted at most once, and only if no wait was counted yet; the request count goes up by one exactly when a connection is acquired |
| PooledDataSource.PopBadCount | src/main/java/org/apache/ibatis/datasource/pooled/PooledDataSource.java:568-579 | a call counts at most threshold + 1 bad connections, the threshold being tolerance + maxIdle wrapped as an `int` and taken as 0 when negative, and fails for want of a good connection exactly when it has counted that many |
| PooledDataSource.PopAcquiredIsLastActive | src/main/java/org/apache/ibatis/datasource/pooled/PooledDataSource.java:550-557 | an acquired connection is the last active one and carries the type code of url and the given credentials |
| PooledDataSource.PopFailureCauses | src/main/java/org/apache/ibatis/datasource/pooled/PooledDataSource.java:453-595 | an UnknownSevereError needs an interrupted wait; a driver failure needs a pass where the driver did not connect; get(0) on an empty list needs a cap of at most 0; the wait's IllegalArgumentException needs a negative poolTimeToWait; the only other error is the want of a good connection; a call still waiting has counted no request |
| PooledDataSource.PopDecidedByPrefix | src/main/java/org/apache/ibatis/datasource/pooled/PooledDataSource.java:453-595 | once a call has ended, further passes do not change its outcome or its effect on the pool |
| PooledDataSource.PopTakesGoodIdleHead | src/main/java/org/apache/ibatis/datasource/pooled/PooledDataSource.java:462-466 | with an idle connection that is valid and passes the ping, the first pass acquires it, with the type code of url and credentials and fresh timestamps |
| PooledDataSource.PooledDataSource.constructor | src/main/java/org/apache/ibatis/datasource/pooled/PooledDataSource.java:89-95 | default configuration, empty lists, and an expected type code of 0 |
| PooledDataSource.PooledDataSource.WithDriver | src/main/java/org/apache/ibatis/datasource/pooled/PooledDataSource.java:97-115 | default configuration, empty lists, and the expected type code of url, username and password |
| PooledDataSource.PooledDataSource.ForceCloseAll | src/main/java/org/apache/ibatis/datasource/pooled/PooledDataSource.java:339-378 | both lists are empty, every wrapper that was pooled is invalidated and its real connection closed, the statistics and counters are kept, and the expected type code is that of the current url, username and password |
| PooledDataSource.PooledDataSource.RecomputeTypeCode | src/main/java/org/apache/ibatis/datasource/pooled/PooledDataSource.java:343 | the expected type code becomes that of the current url, username and password, and nothing else changes |
| PooledDataSource.PooledDataSource.CloseAll | src/main/java/org/apache/ibatis/datasource/pooled/PooledDataSource.java:344-374 | the active and then the idle wrappers are removed, invalidated and their real connections closed; the empty pool left behind keeps the invariant |
| PooledDataSource.PooledDataSource.CloseActive | src/main/java/org/apache/ibatis/datasource/pooled/PooledDataSource.java:344-358 | the active wrappers are removed from the back, invalidated and their real connections closed |
| PooledDataSource.PooledDataSource.CloseIdle | src/main/java/org/apache/ibatis/datasource/pooled/PooledDataSource.java:360-374 | the idle wrappers are removed from the back, invalidated and their real connections closed |
| PooledDataSource.PooledDataSource.SetDriver | src/main/java/org/apache/ibatis/datasource/pooled/PooledDataSource.java:152-155 | the driver changes and then forceCloseAll takes full effect: both lists are empty, every wrapper that was pooled is invalidated and its real connection closed, statistics and counters are kept, and the expected type code is recomputed from url, username and password |
| PooledDataSource.PooledDataSource.SetUrl | src/main/java/org/apache/ibatis/datasource/pooled/PooledDataSource.java:157-160 | the url changes and then forceCloseAll takes full effect: both lists are empty, every wrapper that was pooled is invalidated and its real connection closed, statistics and counters are kept, and the expected type code is recomputed from url, username and password |
| PooledDataSource.PooledDataSource.SetUsername | src/main/java/org/apache/ibatis/datasource/pooled/PooledDataSource.java:162-165 | the username changes and then forceCloseAll takes full effect: both lists are empty, every wrapper that was pooled is invalidated and its real connection closed, statistics and counters are kept, and the expected type code is recomputed from url, username and password |
| PooledDataSource.PooledDataSource.SetPassword | src/main/java/org/apache/ibatis/datasource/pooled/PooledDataSource.java:167-170 | the password changes and then forceCloseAll takes full effect: both lists are empty, every wrapper that was pooled is invalidated and its real connection closed, statistics and counters are kept, and the expected type code is recomputed from url, username and password |
| PooledDataSource.PooledDataSource.SetDefaultAutoCommit | src/main/java/org/apache/ibatis/datasource/pooled/PooledDataSource.java:172-175 | the auto-commit default changes and then forceCloseAll takes full effect: both lists are empty, every wrapper that was pooled is invalidated and its real connection closed, statistics and counters are kept, and the expected type code is recomputed from url, username and password |
| PooledDataSource.PooledDataSource.SetDefaultTransactionIsolationLevel | src/main/java/org/apache/ibatis/datasource/pooled/PooledDataSource.java:177-180 | the isolation level changes and then forceCloseAll takes full effect: both lists are empty, every wrapper that was pooled is invalidated and its real connection closed, statistics and counters are kept, and the expected type code is recomputed from url, username and password |
| PooledDataSource.PooledDataSource.SetDriverProperties | src/main/java/org/apache/ibatis/datasource/pooled/PooledDataSource.java:182-185 | the driver properties change and then forceCloseAll takes full effect: both lists are empty, every wrapper that was pooled is invalidated and its real connection closed, statistics and counters are kept, and the expected type code is recomputed from url, username and password |
| PooledDataSource.PooledDataSource.SetPoolMaximumActiveConnections | src/main/java/org/apache/ibatis/datasource/pooled/PooledDataSource.java:192-195 | the cap changes and then forceCloseAll takes full effect: both lists are empty, every wrapper that was pooled is invalidated and its real connection closed, statistics and counters are kept, and the expected type code is recomputed from url, username and password |
| PooledDataSource.PooledDataSource.SetPoolMaximumIdleConnections | src/main/java/org/apache/ibatis/datasource/pooled/PooledDataSource.java:202-205 | the idle cap changes and then forceCloseAll takes full effect: both lists are empty, every wrapper that was pooled is invalidated and its real connection closed, statistics and counters are kept, and the expected type code is recomputed from url, username and password |
| PooledDataSource.PooledDataSource.SetPoolMaximumLocalBadConnectionTolerance | src/main/java/org/apache/ibatis/datasource/pooled/PooledDataSource.java:216-219 | only the tolerance changes; the pooled connections stay |
| PooledDataSource.PooledDataSource.SetPoolMaximumCheckoutTime | src/main/java/org/apache/ibatis/datasource/pooled/PooledDataSource.java:227-230 | the checkout limit changes and then forceCloseAll takes full effect: both lists are empty, every wrapper that was pooled is invalidated and its real connection closed, statistics and counters are kept, and the expected type code is recomputed from url, username and password |
| PooledDataSource.PooledDataSource.SetPoolTimeToWait | src/main/java/org/apache/ibatis/datasource/pooled/PooledDataSource.java:237-240 | the wait time changes and then forceCloseAll takes full effect: both lists are empty, every wrapper that was pooled is invalidated and its real connection closed, statistics and counters are kept, and the expected type code is recomputed from url, username and password |
| PooledDataSource.PooledDataSource.SetPoolPingQuery | src/main/java/org/apache/ibatis/datasource/pooled/PooledDataSource.java:247-250 | the ping query changes and then forceCloseAll takes full effect: both lists are empty, every wrapper that was pooled is invalidated and its real connection closed, statistics and counters are kept, and the expected type code is recomputed from url, username and password |
| PooledDataSource.PooledDataSource.SetPoolPingEnabled | src/main/java/org/apache/ibatis/datasource/pooled/PooledDataSource.java:257-260 | pinging is switched and then forceCloseAll takes full effect: both lists are empty, every wrapper that was pooled is invalidated and its real connection closed, statistics and counters are kept, and the expected type code is recomputed from url, username and password |
| PooledDataSource.PooledDataSource.SetPoolPingConnectionsNotUsedFor | src/main/java/org/apache/ibatis/datasource/pooled/PooledDataSource.java:268-271 | the ping threshold changes and then forceCloseAll takes full effect: both lists are empty, every wrapper that was pooled is invalidated and its real connection closed, statistics and counters are kept, and the expected type code is recomputed from url, username and password |
| PooledDataSource.PooledDataSource.PushConnection | src/main/java/org/apache/ibatis/datasource/pooled/PooledDataSource.java:393-448 | the wrapper leaves the active list; valid with room and the expected type code: a new wrapper of its real connection, with the old timestamps, joins the idle list and the old one is invalidated; valid otherwise: its real connection is closed and it is invalidated; invalid: the bad count moves, and if a failing ping made it invalid, that ping has closed its real connection; the wrapper id counter moves only for the new idle wrapper and the real-connection counter never |
| PooledDataSource.PooledDataSource.KeepIdle | src/main/java/org/apache/ibatis/datasource/pooled/PooledDataSource.java:404-425 | checkout time added up, the real connection rewrapped at the back of the idle list, the old wrapper invalidated |
| PooledDataSource.PooledDataSource.CloseReturned | src/main/java/org/apache/ibatis/datasource/pooled/PooledDataSource.java:428-440 | checkout time added up, the real connection closed, the wrapper invalidated |
| PooledDataSource.PooledDataSource.RemoveFromActive | src/main/java/org/apache/ibatis/datasource/pooled/PooledDataSource.java:398 | the first active wrapper of the same real connection leaves; an active wrapper then has no trace left in the pool and its place is free |
| PooledDataSource.PooledDataSource.AddIdle | src/main/java/org/apache/ibatis/datasource/pooled/PooledDataSource.java:417 | a fresh wrapper appended to the idle list keeps the pool's invariant |
| PooledDataSource.PooledDataSource.AddActive | src/main/java/org/apache/ibatis/datasource/pooled/PooledDataSource.java:557 | a fresh wrapper appended to the active list keeps the pool's invariant |
| PooledDataSource.PooledDataSource.ClaimCandidate | src/main/java/org/apache/ibatis/datasource/pooled/PooledDataSource.java:462-540 | the new pool state and claim are those of `ClaimStep`: the idle head if any; else a new connection while below the cap, or the driver's failure; else the error of get(0) on an empty list; else the overdue oldest wrapper is reclaimed (invalidated, statistics updated, its real connection rewrapped); else a wait, counted once per call, which throws IllegalArgumentException when poolTimeToWait is negative; a candidate may always join the pool |
| PooledDataSource.PooledDataSource.TakeIdle | src/main/java/org/apache/ibatis/datasource/pooled/PooledDataSource.java:464-466 | the idle head leaves the idle list and may rejoin the pool |
| PooledDataSource.PooledDataSource.OpenNew | src/main/java/org/apache/ibatis/datasource/pooled/PooledDataSource.java:474-477 | a new wrapper of a new real connection, stamped with the current time |
| PooledDataSource.PooledDataSource.ReclaimOldest | src/main/java/org/apache/ibatis/datasource/pooled/PooledDataSource.java:483-513 | the overdue count goes up by one and both checkout accumulators by its checkout time; the oldest wrapper leaves the active list and is invalidated; its real connection comes back in a new wrapper with the old timestamps |
| PooledDataSource.PooledDataSource.Checkout | src/main/java/org/apache/ibatis/datasource/pooled/PooledDataSource.java:542-581 | the new pool state is that of `CheckoutStep`: a candidate that is valid and passes pingConnection gets the type code of url and the given credentials and fresh timestamps, is appended to the active list and counted as a request; any other only counts as bad; a failing ping closes its real connection |
| PooledDataSource.PooledDataSource.PopConnection | src/main/java/org/apache/ibatis/datasource/pooled/PooledDataSource.java:453-595 | the new pool state and outcome are those of `PopSpec`, the passes of the loop run one after another over the ticks; with PopCounts, PopBadCount and PopAcquiredIsLastActive applied: the wait is counted at most once, an acquired wrapper is the last active one and carries the type code of url and the given credentials, the request count moves exactly on success, and the call fails for want of a good connection exactly when the bad count has grown by the threshold + 1 |
| PooledDataSource.PooledDataSource.PassLoop | src/main/java/org/apache/ibatis/datasource/pooled/PooledDataSource.java:458-583 | the while loop of popConnection: each pass is a claim followed, for a candidate, by a checkout, exactly as `PopSpec` runs them |
| PooledDataSource.PooledDataSource.GetConnection | src/main/java/org/apache/ibatis/datasource/pooled/PooledDataSource.java:123-125 | popConnection (`PopSpec`) with the data source's own username and password; when the expected type code is current, an acquired connection carries it |

## Left out

- PooledConnection.java, PoolState.java and UnpooledDataSource.java are not part of this model. The model makes these assumptions about them:
  - a new PooledConnection has type code 0 and checkout timestamp 0, and is created and last used "now";
  - isValid is the valid flag together with pingConnection;
  - `List.remove` finds a wrapper through PooledConnection.equals, which compares real connections;
  - the statistics are PoolState's counters as unbounded integers, so `long` overflow of the counters is not modelled.
- Threads, `synchronized`, `wait` and `notifyAll` are left out. The pool is sequential, and a wait is one pass of the loop whose length is an input.
- Rollbacks of real connections on return, on reclaim, in a ping and in forceCloseAll are left out. So is a close that fails in forceCloseAll. These are JDBC calls whose failures are either swallowed or not modelled: the model treats a rollback as succeeding and a close as taking effect.
- PooledDataSource.PooledDataSource.PushConnection: specified for a wrapper that is in the active list or already invalidated. A live wrapper can drop out of the active list when a stale wrapper of the same real connection is returned. Such a wrapper is outside the contract.
- PooledDataSource.PooledDataSource.PopConnection: the loop runs over a finite sequence of passes. Running out of them is reported as still waiting rather than looping on.
- The getters, `unwrapConnection` (a proxy check), `finalize` (garbage collection), `getPoolState`, `unwrap`, `isWrapperFor`, `getParentLogger`, and the login timeout and log writer are left out. They are plain reads or belong to the JVM.
- LruCache, SoftCache and WeakCache decorate a PerpetualCache here, rather than any Cache. `getReadWriteLock` is left out.
- CacheKey: `toString` is left out. ArrayUtil is not part of this model. Objects are null, strings, `int`s or booleans, with their own hashCode and equals.
- MapperRegistry: class-path scanning (ResolverUtil) is an input list of found classes. The one-argument `addMappers` is the same rule with Object as the supertype. The MapperAnnotationBuilder parse and MapperProxyFactory.newInstance are inputs that succeed or fail.
- ReuseExecutor: `doUpdate`, `doQuery` and `doQueryCursor` are left out; they hand the statement to a StatementHandler. BaseExecutor and BatchResult are not part of this model. A stale statement replaced in the cache is not closed by `prepareStatement`, as in the source.
- MapperMethod: `execute`'s dispatch to SqlSession, `executeForMany`/`executeForMap`/`executeForCursor`, and the collection and array conversions are left out. These are reflection and SqlSession calls. `convertArgsToSqlCommandParam` belongs to ParamNameResolver, which is not part of this model.
- Return types, parameter classes and interfaces are plain data in place of Java reflection.
