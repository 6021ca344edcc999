# dbus-udisks2: the managed-object cache

A Dafny model of the `UDisks2` handle of the `dbus-udisks2` Rust crate
(`src/lib.rs`). The handle keeps one piece of state, `cache`: the whole
managed-object graph last fetched from the `org.freedesktop.UDisks2` service,
a map from D-Bus object path to the object's interfaces, each with its
property map. `update` replaces that graph wholesale. `get_drive` and
`get_block` look up one path. `get_drives` and `get_blocks` scan the whole
graph. Every query parses its records from the cached graph when it runs.

Files:

- `wrappers.dfy` (module `Wrappers`): `Option` and `Result`.
- `managed_objects.dfy` (module `ManagedObjects`): the graph types. It holds the
  two scans the queries are built from, `ScanFind` for the point lookup and
  `ScanParse` for a listing, and the lemmas about them.
- `udisks2.dfy` (module `Cache`): the class `UDisks2` with its `cache` field.
  It has the constructor, `New`, `Update` and the four queries.

What sits outside `src/lib.rs` becomes an input:

- A record parser, `Drive::parse_from` or `Block::parse_from`, becomes a
  function-valued input `Parser<V, R> = (Path, InterfaceBag<V>) -> Option<R>`.
  No property of it is assumed. The record types are the type parameters `D`
  and `B`.
- A property value (`Variant<Box<RefArg>>`) is the type parameter `V`.
- `GetManagedObjects` becomes the input `fetched: Result<Graph<V>, E>` of
  `Update`. `Connection::new_system` becomes the input
  `connection: Result<(), E>` of `New`. `E` stands for `dbus::Error`.
- A `HashMap` is iterated in an order the program cannot see. Each query takes
  that order as an input `order: seq<Path>`. `IsIterationOrder(order, cache)`
  requires it to visit every key exactly once. The lemmas show that a query's
  result does not depend on the order: the lookup's value is fixed, and the
  listing is fixed as a multiset.

## Model

| member | source | states |
|---|---|---|
| Cache.UDisks2.constructor | src/lib.rs:31-34 | a new handle starts with an empty cache |
| Cache.UDisks2.New | src/lib.rs:30-38 | if connecting fails, its error is returned; otherwise if the first update fails, its error is returned and no handle is produced; otherwise a fresh handle is returned whose cache is exactly the fetched graph |
| Cache.UDisks2.Update | src/lib.rs:45-49 | on a successful fetch, returns `Ok(())` and the cache becomes exactly the fetched graph (replace, not merge); on a failed fetch, returns that error and the cache is unchanged |
| Cache.UDisks2.GetObject | src/lib.rs:51-62 | for a cached path, the result is the parser applied to that object's interfaces; for an uncached path it is `None`; this holds for every iteration order |
| Cache.UDisks2.GetDrive | src/lib.rs:64-67 | the point lookup with the drive parser: the drive parsed from the cached object at `path`, or `None` when `path` is not cached |
| Cache.UDisks2.GetDrives | src/lib.rs:69-74 | each drive `d` occurs exactly as many times as there are cached objects that parse to `d`; there are at most as many drives as cached objects |
| Cache.UDisks2.GetBlock | src/lib.rs:76-79 | the point lookup with the block parser: the block parsed from the cached object at `path`, or `None` when `path` is not cached |
| Cache.UDisks2.GetBlocks | src/lib.rs:81-86 | each block `b` occurs exactly as many times as there are cached objects that parse to `b`; there are at most as many blocks as cached objects |
| Cache.UDisks2.DrivesAgreeWithGetDrive | src/lib.rs:64-74 | `d` is among `get_drives()` if and only if `get_drive(p)` is `Some(d)` for some cached path `p` |
| Cache.UDisks2.BlocksAgreeWithGetBlock | src/lib.rs:76-86 | `b` is among `get_blocks()` if and only if `get_block(p)` is `Some(b)` for some cached path `p` |
| ManagedObjects.ScanParse | src/lib.rs:71-73 | the `flat_map` over the visited objects never yields more records than objects visited |
| ManagedObjects.ScanFind | src/lib.rs:52-61 | the `flat_map(...).next()` scan only ever returns a record for an object it visited whose path equals `path`, and that record is the parse of that object |
| ManagedObjects.IterationOrderExists | src/lib.rs:52-53 | every cached graph can be iterated, visiting each key once, so the queries' requirement on `order` can always be met |
| ManagedObjects.ScanFindVisited | src/lib.rs:52-61 | on a duplicate-free visit order, the first match of the scan is the parse of `path` if `path` was visited, and `None` otherwise |
| ManagedObjects.ScanFindIsLookup | src/lib.rs:52-61 | keys are unique, so on any iteration order the scan returns the direct lookup of `path`; the result is `None` exactly when `path` is absent or its object does not parse, so those two cases cannot be told apart |
| ManagedObjects.ScanParseCountIn | src/lib.rs:71-73 | on a duplicate-free visit order, the number of copies of `x` in the listing is the number of visited objects that parse to `x` |
| ManagedObjects.ScanParseCount | src/lib.rs:71-73 | on an iteration order, the number of copies of `x` in the listing is the number of objects in the graph that parse to `x` |
| ManagedObjects.ScanParseOrderIndependent | src/lib.rs:70-74 | two iteration orders of the same graph give the same multiset of records, so listing twice between updates gives the same records |
| ManagedObjects.ScanParseBounded | src/lib.rs:82-85 | a listing never has more records than the graph has objects |
| ManagedObjects.ScanParseMember | src/lib.rs:82-85 | a record is listed if and only if some object of the graph parses to it; after an update, an object that is no longer in the graph contributes nothing |
| ManagedObjects.FoundIsListed | src/lib.rs:65-74 | whatever the point lookup returns for a path is in the listing made with the same parser |
| ManagedObjects.ListedIsFound | src/lib.rs:76-86 | every listed record is what the point lookup returns for some object of the graph |
| ManagedObjects.IterationOrderLength | src/lib.rs:26 | the keys of the map are unique, so an iteration order is exactly as long as the graph has objects |

## Left out

- D-Bus transport: the connection, the proxy that `path()` builds with the
  `DEST`/`PATH` constants and the 3000 ms timeout, and the
  `GetManagedObjects` call are external I/O. They become the inputs
  `connection` and `fetched`.
- The `conn` field of the struct is not modelled. Only `cache` is state.
- `Drive::parse_from`, `Block::parse_from`, the `ParseFrom` trait and the
  value accessors in `utils` live in files that are not part of this model.
  The parsers are function-valued inputs, and nothing is assumed about their
  fields or their interface gates.
- The disk-topology module re-exported by `lib.rs` is not part of this model.
  `lib.rs` has no query for it.
- `HashMap::iter` is abstracted by `IsIterationOrder`: any sequence that
  visits each key exactly once. Which such order the map uses is not modelled.
- Iterator laziness is not modelled. A listing is a finished sequence, and
  only its multiset is specified, not its order.
- The type-erased property values are an opaque type parameter.
