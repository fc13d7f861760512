/** What a batch of moves does to the kernel, as relations between two states of its interfaces. */
module CarriedLinks {
  import opened EndpointOwnership

  predicate Touched(l: Loc, names: set<string>, from: string, to: string) {
    l.name in names && (l.ns == from || l.ns == to)
  }

  /** An interface after a move: it kept its kind and carries the altname. */
  predicate Landed(before: Link, after: Link) {
    after.kind == before.kind && after.altName
  }

  /** b is a after exactly the named interfaces went from one namespace to the other. */
  ghost predicate Carried(a: Links, b: Links, names: set<string>, from: string, to: string) {
    && (forall n :: n in names ==> Loc(from, n) in a && Loc(to, n) !in a)
    && (forall n :: n in names ==> Loc(from, n) !in b && Loc(to, n) in b)
    && (forall n :: n in names ==> Landed(a[Loc(from, n)], b[Loc(to, n)]))
    && Aside(a, b, names, from, to)
  }

  /** Nothing happened to any interface but the named ones in the two namespaces. */
  ghost predicate Aside(a: Links, b: Links, names: set<string>, from: string, to: string) {
    forall l :: !Touched(l, names, from, to) ==> (l in b <==> l in a) && (l in a ==> b[l] == a[l])
  }

  /** The named interfaces are in the namespace and up, or all down. */
  ghost predicate AllUp(links: Links, names: set<string>, ns: string, up: bool) {
    forall n :: n in names ==> Loc(ns, n) in links && links[Loc(ns, n)].up == up
  }

  /** b is a, except that the named interfaces of the namespace may be worn. */
  ghost predicate Resettled(a: Links, b: Links, names: set<string>, ns: string) {
    && (forall n :: n in names ==> (Loc(ns, n) in b <==> Loc(ns, n) in a))
    && (forall n :: n in names && Loc(ns, n) in a ==> Worn(a[Loc(ns, n)], b[Loc(ns, n)]))
    && Aside(a, b, names, ns, ns)
  }

  lemma CarryOne(a: Links, b: Links, c: Links, names: set<string>, n: string, from: string, to: string)
    requires from != to && n !in names
    requires Carried(a, b, names, from, to)
    requires Transferred(b, c, Loc(from, n), to)
    ensures Carried(a, c, names + {n}, from, to)
    ensures forall up :: AllUp(b, names, to, up) ==> AllUp(c, names, to, up)
    ensures AllUp(b, names, to, false) ==> AllUp(c, names + {n}, to, false)
  {
    assert !Touched(Loc(from, n), names, from, to) && !Touched(Loc(to, n), names, from, to);
  }

  lemma RaiseOne(a: Links, b: Links, c: Links, names: set<string>, n: string, from: string, to: string)
    requires n in names && Carried(a, b, names, from, to) && Raised(b, c, Loc(to, n))
    ensures Carried(a, c, names, from, to)
    ensures AllUp(b, names - {n}, to, true) ==> AllUp(c, names, to, true)
  {
  }

  /** A batch of which `moved` went from one namespace to the other before `culprit` was refused: either
      its move was, or it had been moved and could not be activated. */
  ghost predicate Halfway(links: Links, before: Links, now: Links, moved: set<string>, culprit: string,
                          from: string, to: string)
  {
    && Carried(links, before, moved, from, to)
    && (if culprit in moved then now == before else Shaken(before, now, Loc(from, culprit)))
  }

  /** A batch moved away, a refused interface shaken on the way, the batch moved back. */
  lemma CarriedBack(a: Links, b: Links, c: Links, d: Links, names: set<string>, culprit: string,
                    ns: string, other: string)
    requires ns != other && Halfway(a, b, c, names, culprit, ns, other)
    requires Carried(c, d, names, other, ns)
    ensures Resettled(a, d, names + {culprit}, ns)
  {
    hide Aside;
    forall n | n in names ensures Loc(ns, n) in d && Worn(a[Loc(ns, n)], d[Loc(ns, n)]) {
      assert c[Loc(other, n)] == b[Loc(other, n)];
    }
    AsideCulprit(a, b, c, d, names, culprit, ns, other);
    AsideBack(a, b, c, d, names, culprit, ns, other);
  }

  lemma AsideCulprit(a: Links, b: Links, c: Links, d: Links, names: set<string>, culprit: string,
                     ns: string, other: string)
    requires ns != other && Halfway(a, b, c, names, culprit, ns, other)
    requires Carried(c, d, names, other, ns)
    ensures culprit !in names ==> (Loc(ns, culprit) in d <==> Loc(ns, culprit) in a)
    ensures culprit !in names && Loc(ns, culprit) in a ==>
              Worn(a[Loc(ns, culprit)], d[Loc(ns, culprit)])
  {
    assert culprit !in names ==> !Touched(Loc(ns, culprit), names, ns, other);
  }

  lemma AsideBack(a: Links, b: Links, c: Links, d: Links, names: set<string>, culprit: string,
                  ns: string, other: string)
    requires ns != other && Halfway(a, b, c, names, culprit, ns, other)
    requires Carried(c, d, names, other, ns)
    ensures Aside(a, d, names + {culprit}, ns, ns)
  {
    forall l | !Touched(l, names + {culprit}, ns, ns)
      ensures (l in d <==> l in a) && (l in a ==> d[l] == a[l])
    {
      if Touched(l, names, ns, other) {
        assert l.ns == other;
      }
    }
  }

  lemma ResettledWider(a: Links, b: Links, some: set<string>, names: set<string>, ns: string)
    requires Resettled(a, b, some, ns) && some <= names
    ensures Resettled(a, b, names, ns)
  {
    forall n | n in names && n !in some ensures !Touched(Loc(ns, n), some, ns, ns) {
    }
  }

  /** No interface went down, except perhaps the one at loc. */
  ghost predicate StillUp(a: Links, b: Links, loc: Loc) {
    forall l :: l in a && l in b && a[l].up && l != loc ==> b[l].up
  }

  lemma BroughtBackUp(a: Links, b: Links, c: Links, d: Links, names: set<string>, culprit: string,
                      ns: string, other: string)
    requires ns != other && Halfway(a, b, c, names, culprit, ns, other)
    requires Carried(c, d, names, other, ns) && AllUp(d, names, ns, true)
    ensures StillUp(a, d, Loc(ns, culprit))
  {
    forall l | l in a && l in d && a[l].up && l != Loc(ns, culprit) ensures d[l].up {
      if Touched(l, names, ns, other) {
        assert l.ns == ns && AllUp(d, names, ns, true);
      }
    }
  }
}
