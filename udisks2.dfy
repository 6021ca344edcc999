/**
 * The `UDisks2` handle: a cache of the managed-object graph, replaced
 * wholesale by `update`, and the typed queries that parse records out of it
 * on demand.
 *
 * The D-Bus side is not modelled: connecting to the system bus becomes the
 * input `connection` of `New`, and `GetManagedObjects` becomes the input
 * `fetched` of `Update`. The record parsers (`Drive::parse_from`,
 * `Block::parse_from`) are function-valued inputs of the queries, and the
 * `HashMap`'s iteration order is the input `order`.
 */
module Cache {
  import opened Wrappers
  import opened ManagedObjects

  class UDisks2<V> {
    /** The last graph fetched from the service, keyed by object path. */
    var cache: Graph<V>

    /** The struct literal in `new`: a handle with an empty cache. */
    constructor ()
      ensures cache == map[]
    {
      cache := map[];
    }

    /**
     * `UDisks2::new`: connect, start from an empty cache and run one update.
     * A failure of either step is returned and no handle is produced.
     */
    static method New<E>(connection: Result<(), E>, fetched: Result<Graph<V>, E>) returns (r: Result<UDisks2<V>, E>)
      ensures connection.Err? ==> r == Err(connection.error)
      ensures connection.Ok? && fetched.Err? ==> r == Err(fetched.error)
      ensures connection.Ok? && fetched.Ok? ==>
                r.Ok? && fresh(r.value) && r.value.cache == fetched.value
    {
      if connection.Err? {
        return Err(connection.error);
      }
      var udisks2 := new UDisks2<V>();
      var updated := udisks2.Update(fetched);
      if updated.Err? {
        return Err(updated.error);
      }
      return Ok(udisks2);
    }

    /**
     * `update`: on a successful fetch the cache becomes exactly the fetched
     * graph (nothing of the old one is merged in); on a failed fetch the
     * error is returned and the cache is left as it was.
     */
    method Update<E>(fetched: Result<Graph<V>, E>) returns (r: Result<(), E>)
      modifies this
      ensures fetched.Ok? ==> r == Ok(()) && cache == fetched.value
      ensures fetched.Err? ==> r == Err(fetched.error) && cache == old(cache)
    {
      match fetched
      case Err(e) =>
        return Err(e);
      case Ok(g) =>
        cache := g;
        return Ok(());
    }

    /**
     * `get_object`: the record the object at `path` parses to. A path that is
     * not cached and a cached object that does not parse both give `None`.
     */
    function GetObject<R>(parse: Parser<V, R>, path: Path, order: seq<Path>): (r: Option<R>)
      reads this
      requires IsIterationOrder(order, cache)
      ensures path in cache ==> r == parse(path, cache[path])
      ensures path !in cache ==> r == None
    {
      ScanFindIsLookup(cache, parse, path, order);
      ScanFind(cache, parse, path, order)
    }

    /** `get_drive`: the point lookup with the drive parser. */
    function GetDrive<D>(parseDrive: Parser<V, D>, path: Path, order: seq<Path>): (r: Option<D>)
      reads this
      requires IsIterationOrder(order, cache)
      ensures path in cache ==> r == parseDrive(path, cache[path])
      ensures path !in cache ==> r == None
    {
      GetObject(parseDrive, path, order)
    }

    /**
     * `get_drives`: one drive per cached object that parses as a drive, and
     * nothing else (`d` occurs as often as there are objects parsing to `d`);
     * never more drives than cached objects.
     */
    function GetDrives<D(!new)>(parseDrive: Parser<V, D>, order: seq<Path>): (r: seq<D>)
      reads this
      requires IsIterationOrder(order, cache)
      ensures |r| <= |cache|
      ensures forall d :: multiset(r)[d] == |Sources(cache, parseDrive, d)|
    {
      ScanParseBounded(cache, parseDrive, order);
      ScanParseCounts(cache, parseDrive, order);
      ScanParse(cache, parseDrive, order)
    }

    /** `get_block`: the point lookup with the block parser. */
    function GetBlock<B>(parseBlock: Parser<V, B>, path: Path, order: seq<Path>): (r: Option<B>)
      reads this
      requires IsIterationOrder(order, cache)
      ensures path in cache ==> r == parseBlock(path, cache[path])
      ensures path !in cache ==> r == None
    {
      GetObject(parseBlock, path, order)
    }

    /**
     * `get_blocks`: one block per cached object that parses as a block, and
     * nothing else; never more blocks than cached objects.
     */
    function GetBlocks<B(!new)>(parseBlock: Parser<V, B>, order: seq<Path>): (r: seq<B>)
      reads this
      requires IsIterationOrder(order, cache)
      ensures |r| <= |cache|
      ensures forall b :: multiset(r)[b] == |Sources(cache, parseBlock, b)|
    {
      ScanParseBounded(cache, parseBlock, order);
      ScanParseCounts(cache, parseBlock, order);
      ScanParse(cache, parseBlock, order)
    }

    /** A drive is listed by `get_drives` exactly when `get_drive` finds it at some cached path. */
    lemma DrivesAgreeWithGetDrive<D(!new)>(parseDrive: Parser<V, D>, order: seq<Path>, d: D)
      requires IsIterationOrder(order, cache)
      ensures d in GetDrives(parseDrive, order) <==> exists p :: p in cache && GetDrive(parseDrive, p, order) == Some(d)
    {
      ScanParseMember(cache, parseDrive, order, d);
      if d in GetDrives(parseDrive, order) {
        var p :| p in cache && Lookup(cache, parseDrive, p) == Some(d);
        assert GetDrive(parseDrive, p, order) == Some(d);
      }
      if exists p :: p in cache && GetDrive(parseDrive, p, order) == Some(d) {
        var p :| p in cache && GetDrive(parseDrive, p, order) == Some(d);
        assert Lookup(cache, parseDrive, p) == Some(d);
      }
    }

    /** A block is listed by `get_blocks` exactly when `get_block` finds it at some cached path. */
    lemma BlocksAgreeWithGetBlock<B(!new)>(parseBlock: Parser<V, B>, order: seq<Path>, b: B)
      requires IsIterationOrder(order, cache)
      ensures b in GetBlocks(parseBlock, order) <==> exists p :: p in cache && GetBlock(parseBlock, p, order) == Some(b)
    {
      ScanParseMember(cache, parseBlock, order, b);
      if b in GetBlocks(parseBlock, order) {
        var p :| p in cache && Lookup(cache, parseBlock, p) == Some(b);
        assert GetBlock(parseBlock, p, order) == Some(b);
      }
      if exists p :: p in cache && GetBlock(parseBlock, p, order) == Some(b) {
        var p :| p in cache && GetBlock(parseBlock, p, order) == Some(b);
        assert Lookup(cache, parseBlock, p) == Some(b);
      }
    }
  }
}
