/** Selecting endpoints from a list, and what removing one endpoint does to a selection. */
module EndpointSelection {
  import opened EndpointOwnership

  /** The endpoints of the list that satisfy keep, in order. */
  function Select(list: seq<Endpoint>, keep: Endpoint -> bool): seq<Endpoint> {
    if list == [] then []
    else Select(list[..|list| - 1], keep) + if keep(list[|list| - 1]) then [list[|list| - 1]] else []
  }

  function Listed(names: set<string>): Endpoint -> bool {
    (e: Endpoint) => e.ifaceName in names
  }

  function Unlisted(names: set<string>): Endpoint -> bool {
    (e: Endpoint) => e.ifaceName !in names
  }

  /** Not listed, but part of the topology. */
  function Stale(names: set<string>): Endpoint -> bool {
    (e: Endpoint) => e.ifaceName !in names && !e.runtime
  }

  lemma {:induction false} SelectMembers(list: seq<Endpoint>, keep: Endpoint -> bool)
    ensures forall e :: e in Select(list, keep) ==> e in list && keep(e)
    ensures forall e :: e in list && keep(e) ==> e in Select(list, keep)
  {
    if list != [] {
      var last := list[|list| - 1];
      assert list == list[..|list| - 1] + [last];
      SelectMembers(list[..|list| - 1], keep);
    }
  }

  lemma {:induction false} SelectDistinct(list: seq<Endpoint>, keep: Endpoint -> bool)
    requires Distinct(list)
    ensures Distinct(Select(list, keep))
  {
    if list != [] {
      var rest, last := list[..|list| - 1], list[|list| - 1];
      SelectDistinct(rest, keep);
      SelectMembers(rest, keep);
      assert forall e :: e in Select(rest, keep) ==> e.ifaceName != last.ifaceName;
      DistinctAppend(Select(rest, keep), last);
    }
  }

  lemma SelectNext(list: seq<Endpoint>, keep: Endpoint -> bool, i: nat)
    requires i < |list|
    ensures Select(list[..i + 1], keep) == Select(list[..i], keep) + if keep(list[i]) then [list[i]] else []
  {
    assert list[..i + 1][..i] == list[..i];
  }

  lemma {:induction false} WithoutFrom(a: seq<Endpoint>, b: seq<Endpoint>, e: Endpoint)
    requires e !in a
    ensures Without(a + b, e) == a + Without(b, e)
  {
    if a == [] {
      assert a + b == b;
    } else {
      assert (a + b)[1..] == a[1..] + b;
      WithoutFrom(a[1..], b, e);
    }
  }

  lemma {:induction false} WithoutWithin(a: seq<Endpoint>, b: seq<Endpoint>, e: Endpoint)
    requires e in a
    ensures Without(a + b, e) == Without(a, e) + b
  {
    assert (a + b)[0] == a[0];
    if a[0] == e {
      assert (a + b)[1..] == a[1..] + b;
    } else {
      assert (a + b)[1..] == a[1..] + b;
      WithoutWithin(a[1..], b, e);
    }
  }

  /** Removing an endpoint narrows an unlisted selection by the endpoint's name. */
  lemma {:induction false} UnlistedWithout(list: seq<Endpoint>, names: set<string>, e: Endpoint)
    requires Distinct(list) && e in list && e.ifaceName !in names
    ensures Without(Select(list, Unlisted(names)), e) == Select(list, Unlisted(names + {e.ifaceName}))
  {
    var last := list[|list| - 1];
    var rest := list[..|list| - 1];
    assert list == rest + [last];
    SelectMembers(rest, Unlisted(names));
    if last == e {
      SelectSame(rest, names, e.ifaceName);
      WithoutFrom(Select(rest, Unlisted(names)), [e], e);
    } else {
      assert e in rest;
      UnlistedWithout(rest, names, e);
      WithoutWithin(Select(rest, Unlisted(names)), if Unlisted(names)(last) then [last] else [], e);
    }
  }

  lemma {:induction false} SelectSame(list: seq<Endpoint>, names: set<string>, n: string)
    requires NameFree(list, n)
    ensures Select(list, Unlisted(names + {n})) == Select(list, Unlisted(names))
  {
    if list != [] {
      SelectSame(list[..|list| - 1], names, n);
    }
  }
}
