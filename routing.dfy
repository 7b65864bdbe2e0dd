/**
  The registration rules of `Experiment`: which connection writes each
  destination group every step (`update_experiment_output`), and whether a
  connection reads from an input placeholder (`add_connection`).
*/
module Routing {
  import opened Entities
  import opened OrderedDict

  /** The connection-per-destination map, `experiment_output`. */
  type Output = Dict<Node, Connection>

  /**
    `update_experiment_output(c)`: a source that was a destination loses its
    entry when the destination is new, then the destination is (re)bound to
    `c`. Deleting the source entry is an eviction.
  */
  function Route(out: Output, c: Connection): (r: Output)
    requires Valid(out)
    ensures Valid(r)
    ensures Contains(r, c.toGroup) && Get(r, c.toGroup) == c
  {
    var kept := if Contains(out, c.fromGroup) && !Contains(out, c.toGroup)
                then Without(out, {c.fromGroup}) else out;
    WithoutKeys(out, {c.fromGroup});
    Put(kept, c.toGroup, c)
  }

  /**
    After `Route`, the destination is bound to `c`; the source entry is gone
    exactly when it was there and the destination was new; every other entry
    keeps its key, its value and its place in iteration order, and a new
    destination is iterated last.
  */
  lemma RouteSpec(out: Output, c: Connection)
    requires Valid(out)
    ensures var r := Route(out, c);
      && Valid(r)
      && Contains(r, c.toGroup) && Get(r, c.toGroup) == c
      && (forall g :: g != c.toGroup ==>
            (Contains(r, g) <==> Contains(out, g)
                                 && !(g == c.fromGroup && !Contains(out, c.toGroup))))
      && (forall g :: g != c.toGroup && Contains(r, g) ==> Get(r, g) == Get(out, g))
      && Without(r, {c.toGroup})
         == Without(out, if Contains(out, c.toGroup) then {c.toGroup} else {c.toGroup, c.fromGroup})
      && (Contains(out, c.toGroup) ==> Keys(r) == Keys(out))
      && (!Contains(out, c.toGroup) ==> r[|r| - 1] == Entry(c.toGroup, c))
  {
    var r := Route(out, c);
    if Contains(out, c.fromGroup) && !Contains(out, c.toGroup) {
      var kept := Without(out, {c.fromGroup});
      WithoutKeys(out, {c.fromGroup});
      assert !Contains(kept, c.toGroup);
      assert r == Put(kept, c.toGroup, c);
      PutWithout(kept, c.toGroup, c);
      WithoutTwice(out, {c.fromGroup}, {c.toGroup});
      assert {c.fromGroup} + {c.toGroup} == {c.toGroup, c.fromGroup};
    } else {
      assert r == Put(out, c.toGroup, c);
      PutWithout(out, c.toGroup, c);
      if !Contains(out, c.toGroup) {
        WithoutAbsent(out, c.fromGroup, {c.toGroup});
        assert {c.toGroup} + {c.fromGroup} == {c.toGroup, c.fromGroup};
      }
    }
  }

  /** Deleting a key that is not there is no deletion. */
  lemma {:induction false} WithoutAbsent(d: Output, k: Node, ks: set<Node>)
    requires !Contains(d, k)
    ensures Without(d, ks + {k}) == Without(d, ks)
  {
    if |d| > 0 {
      assert Keys(d) == [d[0].key] + Keys(d[1..]);
      WithoutAbsent(d[1..], k, ks);
    }
  }

  /**
    `name.split(":")[0]`: the longest prefix of `name` without a colon, which
    stops at the first colon or at the end of the name.
  */
  function NameBeforeColon(name: string): (p: string)
    ensures p <= name
    ensures ':' !in p
    ensures |p| == |name| || name[|p|] == ':'
  {
    if |name| == 0 || name[0] == ':' then ""
    else [name[0]] + NameBeforeColon(name[1..])
  }

  /**
    A colon-free prefix of `name` that ends at a colon or at the end of
    `name` is `name.split(":")[0]` and nothing else.
  */
  lemma ColonPrefixUnique(name: string, n: string)
    requires n <= name && ':' !in n && (|n| == |name| || name[|n|] == ':')
    ensures n == NameBeforeColon(name)
  {
    var p := NameBeforeColon(name);
    assert |n| == |p|;
  }

  /** The test in `add_connection`: does the connection read from a registered input? */
  predicate FromInput(c: Connection, inputNames: seq<string>)
  {
    NameBeforeColon(c.fromGroup.name) in inputNames
  }

  /**
    A connection reads from a registered input exactly when some input name
    is the part of the source's name before its first colon (the whole name
    when it has none).
  */
  lemma FromInputSpec(c: Connection, inputNames: seq<string>)
    ensures FromInput(c, inputNames)
        <==> exists n :: n in inputNames && n <= c.fromGroup.name && ':' !in n
                         && (|n| == |c.fromGroup.name| || c.fromGroup.name[|n|] == ':')
  {
    var name := c.fromGroup.name;
    forall n | n in inputNames && n <= name && ':' !in n && (|n| == |name| || name[|n|] == ':')
      ensures n == NameBeforeColon(name)
    {
      ColonPrefixUnique(name, n);
    }
  }
}
