/**
 * The managed-object graph that UDisks2 returns from
 * `org.freedesktop.DBus.ObjectManager.GetManagedObjects`, and the two scans
 * the cache runs over it: the point lookup behind `get_object` and the
 * listing behind `get_drives` / `get_blocks`.
 *
 * A `HashMap` is iterated in an order the program does not control. The scans
 * therefore take that order as an input, `order`, which `IsIterationOrder`
 * ties to the graph (every key exactly once), and the lemmas below show that
 * what the scans produce does not depend on it.
 */
module ManagedObjects {
  import opened Wrappers

  /** A D-Bus object path, compared as a string. */
  type Path = string

  /** Property name to property value; `V` stands for the type-erased variant. */
  type PropertyBag<V> = map<string, V>

  /** Interface name to that interface's properties. */
  type InterfaceBag<V> = map<string, PropertyBag<V>>

  /** Object path to the interfaces the object exposes. */
  type Graph<V> = map<Path, InterfaceBag<V>>

  /** `ParseFrom::parse_from`: build a record from one object, or fail. */
  type Parser<!V, R> = (Path, InterfaceBag<V>) -> Option<R>

  ghost predicate Distinct(s: seq<Path>)
  {
    forall i, j | 0 <= i < j < |s| :: s[i] != s[j]
  }

  /** Every element of `order` is a key of `g`. */
  ghost predicate Within<V>(order: seq<Path>, g: Graph<V>)
  {
    forall i | 0 <= i < |order| :: order[i] in g
  }

  /** `order` visits every key of `g` exactly once, as `g.iter()` does. */
  ghost predicate IsIterationOrder<V>(order: seq<Path>, g: Graph<V>)
  {
    && Distinct(order)
    && Within(order, g)
    && forall p | p in g :: p in order
  }

  // ---------------------------------------------------------------------
  // Reference definitions: what the scans mean, without any order.

  /** The record the object at `path` parses to, or `None` if there is no such object. */
  function Lookup<V, R>(g: Graph<V>, parse: Parser<V, R>, path: Path): Option<R>
  {
    if path in g then parse(path, g[path]) else None
  }

  /** The objects of `g` that parse to exactly `x`. */
  ghost function Sources<V, R>(g: Graph<V>, parse: Parser<V, R>, x: R): set<Path>
  {
    set p | p in g && parse(p, g[p]) == Some(x)
  }

  /** The objects listed in `order` that parse to exactly `x`. */
  ghost function SourcesIn<V, R>(g: Graph<V>, parse: Parser<V, R>, order: seq<Path>, x: R): set<Path>
    requires Within(order, g)
  {
    set p | p in order && p in g && parse(p, g[p]) == Some(x)
  }

  // ---------------------------------------------------------------------
  // The scans, as the iterator chains in the cache write them.

  /**
   * `iter().flat_map(|object| parse(object.0, object.1))`: one record for each
   * object that parses, in iteration order. There are never more records than
   * objects visited.
   */
  function ScanParse<V, R>(g: Graph<V>, parse: Parser<V, R>, order: seq<Path>): (r: seq<R>)
    requires Within(order, g)
    ensures |r| <= |order|
  {
    if order == [] then []
    else
      var rest := ScanParse(g, parse, order[1..]);
      match parse(order[0], g[order[0]])
      case Some(x) => [x] + rest
      case None => rest
  }

  /**
   * `iter().flat_map(|object| if object.0 == path { parse(..) } else { None }).next()`:
   * the first record produced by an object whose path equals `path`.
   */
  function ScanFind<V, R>(g: Graph<V>, parse: Parser<V, R>, path: Path, order: seq<Path>): (r: Option<R>)
    requires Within(order, g)
    ensures r.Some? ==> path in order && r == parse(path, g[path])
  {
    if order == [] then None
    else
      var hit := if order[0] == path then parse(order[0], g[order[0]]) else None;
      if hit.Some? then hit else ScanFind(g, parse, path, order[1..])
  }

  // ---------------------------------------------------------------------
  // Point lookup.

  /** On a duplicate-free order, the scan finds the record of `path` if `path` was visited. */
  lemma {:induction false} ScanFindVisited<V, R>(g: Graph<V>, parse: Parser<V, R>, path: Path, order: seq<Path>)
    requires Within(order, g) && Distinct(order)
    ensures ScanFind(g, parse, path, order) == if path in order then parse(path, g[path]) else None
  {
    if order != [] {
      var tail := order[1..];
      DistinctTail(order);
      ScanFindVisited(g, parse, path, tail);
      if order[0] != path {
        assert path in order <==> path in tail by {
          assert order == [order[0]] + tail;
        }
      }
    }
  }

  /**
   * Keys are unique, so at most one object matches and the scan's result is
   * the direct lookup, whatever the iteration order. A missing object and an
   * object that does not parse both give `None`.
   */
  lemma ScanFindIsLookup<V, R>(g: Graph<V>, parse: Parser<V, R>, path: Path, order: seq<Path>)
    requires IsIterationOrder(order, g)
    ensures ScanFind(g, parse, path, order) == Lookup(g, parse, path)
    ensures ScanFind(g, parse, path, order).None? <==> (path !in g || parse(path, g[path]).None?)
  {
    ScanFindVisited(g, parse, path, order);
  }

  // ---------------------------------------------------------------------
  // Listing.

  /** The tail of a duplicate-free sequence is duplicate-free and misses the head. */
  lemma DistinctTail(s: seq<Path>)
    requires Distinct(s) && s != []
    ensures Distinct(s[1..]) && s[0] !in s[1..]
  {
  }

  /** The objects parsing to `x` among `order`: the head if it does, plus those of the tail. */
  lemma SourcesInCons<V, R>(g: Graph<V>, parse: Parser<V, R>, order: seq<Path>, x: R)
    requires Within(order, g) && order != []
    ensures Within(order[1..], g)
    ensures SourcesIn(g, parse, order, x)
         == (if parse(order[0], g[order[0]]) == Some(x) then {order[0]} else {}) + SourcesIn(g, parse, order[1..], x)
  {
  }

  /** On a duplicate-free order, `x` occurs once per visited object that parses to `x`. */
  lemma {:induction false} ScanParseCountIn<V, R>(g: Graph<V>, parse: Parser<V, R>, order: seq<Path>, x: R)
    requires Within(order, g) && Distinct(order)
    ensures multiset(ScanParse(g, parse, order))[x] == |SourcesIn(g, parse, order, x)|
  {
    if order == [] {
      assert SourcesIn(g, parse, order, x) == {};
    } else {
      var h, tail := order[0], order[1..];
      DistinctTail(order);
      SourcesInCons(g, parse, order, x);
      ScanParseCountIn(g, parse, tail, x);
      var here: set<Path> := if parse(h, g[h]) == Some(x) then {h} else {};
      var front: seq<R> := if parse(h, g[h]).Some? then [parse(h, g[h]).value] else [];
      assert ScanParse(g, parse, order) == front + ScanParse(g, parse, tail);
      assert multiset(front)[x] == |here|;
      assert here !! SourcesIn(g, parse, tail, x);
    }
  }

  /** On an iteration order the visited objects are all the objects. */
  lemma SourcesInOrder<V, R>(g: Graph<V>, parse: Parser<V, R>, order: seq<Path>, x: R)
    requires IsIterationOrder(order, g)
    ensures SourcesIn(g, parse, order, x) == Sources(g, parse, x)
  {
  }

  /**
   * The listing holds exactly one record per object that parses, and nothing
   * else: the number of copies of `x` is the number of objects parsing to `x`.
   */
  lemma ScanParseCount<V, R>(g: Graph<V>, parse: Parser<V, R>, order: seq<Path>, x: R)
    requires IsIterationOrder(order, g)
    ensures multiset(ScanParse(g, parse, order))[x] == |Sources(g, parse, x)|
  {
    ScanParseCountIn(g, parse, order, x);
    SourcesInOrder(g, parse, order, x);
  }

  /** `ScanParseCount`, for every record at once. */
  lemma ScanParseCounts<V, R>(g: Graph<V>, parse: Parser<V, R>, order: seq<Path>)
    requires IsIterationOrder(order, g)
    ensures forall x :: multiset(ScanParse(g, parse, order))[x] == |Sources(g, parse, x)|
  {
    forall x ensures multiset(ScanParse(g, parse, order))[x] == |Sources(g, parse, x)| {
      ScanParseCount(g, parse, order, x);
    }
  }

  /** The listing, as a multiset, does not depend on the iteration order. */
  lemma ScanParseOrderIndependent<V, R>(g: Graph<V>, parse: Parser<V, R>, order1: seq<Path>, order2: seq<Path>)
    requires IsIterationOrder(order1, g) && IsIterationOrder(order2, g)
    ensures multiset(ScanParse(g, parse, order1)) == multiset(ScanParse(g, parse, order2))
  {
    var m1, m2 := multiset(ScanParse(g, parse, order1)), multiset(ScanParse(g, parse, order2));
    forall x ensures m1[x] == m2[x] {
      ScanParseCount(g, parse, order1, x);
      ScanParseCount(g, parse, order2, x);
    }
    MultisetExt(m1, m2);
  }

  /** Multisets with the same multiplicities are equal. */
  lemma MultisetExt<R>(m1: multiset<R>, m2: multiset<R>)
    requires forall x :: m1[x] == m2[x]
    ensures m1 == m2
  {
  }

  /** A duplicate-free sequence has as many elements as its set. */
  lemma {:induction false} DistinctCard(s: seq<Path>)
    requires Distinct(s)
    ensures |set p | p in s| == |s|
  {
    if s != [] {
      var tail := s[1..];
      DistinctTail(s);
      DistinctCard(tail);
      assert (set p | p in s) == {s[0]} + (set p | p in tail) by {
        assert s == [s[0]] + tail;
      }
    }
  }

  /** Every graph has an iteration order: `HashMap::iter` visits each key once. */
  lemma {:induction false} IterationOrderExists<V>(g: Graph<V>)
    ensures exists order :: IsIterationOrder(order, g)
    decreases |g|
  {
    if g == map[] {
      assert IsIterationOrder([], g);
    } else {
      var k :| k in g;
      var rest := g - {k};
      assert |rest| < |g| by {
        assert rest.Keys == g.Keys - {k};
      }
      IterationOrderExists(rest);
      var o :| IsIterationOrder(o, rest);
      assert IsIterationOrder([k] + o, g) by {
        forall p | p in g ensures p in [k] + o {
          if p != k {
            assert p in rest;
          }
        }
      }
    }
  }

  /** An iteration order is exactly as long as the graph has objects. */
  lemma IterationOrderLength<V>(order: seq<Path>, g: Graph<V>)
    requires IsIterationOrder(order, g)
    ensures |order| == |g|
  {
    DistinctCard(order);
    assert (set p | p in order) == g.Keys;
  }

  /** The listing has at most one record per object of the graph. */
  lemma ScanParseBounded<V, R>(g: Graph<V>, parse: Parser<V, R>, order: seq<Path>)
    requires IsIterationOrder(order, g)
    ensures |ScanParse(g, parse, order)| <= |g|
  {
    IterationOrderLength(order, g);
  }

  /** A record is listed if and only if some object of the graph parses to it. */
  lemma ScanParseMember<V, R>(g: Graph<V>, parse: Parser<V, R>, order: seq<Path>, x: R)
    requires IsIterationOrder(order, g)
    ensures x in ScanParse(g, parse, order) <==> exists p :: p in g && Lookup(g, parse, p) == Some(x)
  {
    ScanParseCount(g, parse, order, x);
    assert x in ScanParse(g, parse, order) <==> Sources(g, parse, x) != {} by {
      assert x in ScanParse(g, parse, order) <==> x in multiset(ScanParse(g, parse, order));
    }
    if Sources(g, parse, x) != {} {
      var p :| p in Sources(g, parse, x);
      assert Lookup(g, parse, p) == Some(x);
    }
    if exists p :: p in g && Lookup(g, parse, p) == Some(x) {
      var p :| p in g && Lookup(g, parse, p) == Some(x);
      assert p in Sources(g, parse, x);
    }
  }

  // ---------------------------------------------------------------------
  // Point lookup against listing.

  /** What the point lookup finds is in the listing. */
  lemma FoundIsListed<V, R>(g: Graph<V>, parse: Parser<V, R>, order: seq<Path>, path: Path, x: R)
    requires IsIterationOrder(order, g)
    requires ScanFind(g, parse, path, order) == Some(x)
    ensures x in ScanParse(g, parse, order)
  {
    ScanFindIsLookup(g, parse, path, order);
    ScanParseMember(g, parse, order, x);
  }

  /** Every listed record is what the point lookup finds for some object of the graph. */
  lemma ListedIsFound<V, R>(g: Graph<V>, parse: Parser<V, R>, order: seq<Path>, x: R)
    requires IsIterationOrder(order, g)
    requires x in ScanParse(g, parse, order)
    ensures exists p :: p in g && ScanFind(g, parse, p, order) == Some(x)
  {
    ScanParseMember(g, parse, order, x);
    var p :| p in g && Lookup(g, parse, p) == Some(x);
    ScanFindIsLookup(g, parse, p, order);
  }
}
