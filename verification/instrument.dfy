/**
 * `instrument_versioned_classes`: collecting the classes to version into
 * the manager's pending list as the mapper instruments them.
 */
module Instrumentation {
  import opened Wrappers
  import opened Seqs
  import opened Classes
  import opened VersioningManager

  /** Versioning is on globally and the class has `__versioned__` without a `"class"` entry. */
  predicate Collectable(h: Hierarchy, opts: Options, cls: ClassId)
  {
    opts.versioning && h(cls).versionedArgs.Some? && !h(cls).versionedArgs.value.hasClass
  }

  /**
   * Appends `cls` to the pending list when it is collectable and not yet
   * pending, recording its metadata; otherwise changes nothing.
   */
  function InstrumentVersionedClasses(h: Hierarchy, opts: Options, m: Manager, cls: ClassId): (r: Manager)
    ensures r.(pending := m.pending, metadata := m.metadata) == m
    ensures m.pending <= r.pending && |r.pending| <= |m.pending| + 1
    ensures forall c :: c in r.pending <==> c in m.pending || (c == cls && Collectable(h, opts, cls))
    ensures NoDup(m.pending) ==> NoDup(r.pending)
    ensures r.pending != m.pending ==> r.metadata == Some(h(cls).metadata)
    ensures r.pending == m.pending ==> r == m
  {
    if !opts.versioning then m
    else if h(cls).versionedArgs.Some? && !h(cls).versionedArgs.value.hasClass && cls !in m.pending then
      AppendFreshKeepsNoDup(m.pending, cls);
      m.(pending := m.pending + [cls], metadata := Some(h(cls).metadata))
    else m
  }

  /** The instrumentation of `discovered`, in that order. */
  function InstrumentAll(h: Hierarchy, opts: Options, m: Manager, discovered: seq<ClassId>): (r: Manager)
  {
    if |discovered| == 0 then m
    else InstrumentVersionedClasses(h, opts, InstrumentAll(h, opts, m, discovered[..|discovered| - 1]), discovered[|discovered| - 1])
  }

  /** Every element of `p` was discovered, and `p` lists them in order of first discovery. */
  predicate DiscoveryOrdered(p: seq<ClassId>, discovered: seq<ClassId>)
  {
    && (forall c :: c in p ==> c in discovered)
    && forall i, j :: 0 <= i < j < |p| ==> IndexOf(discovered, p[i]) < IndexOf(discovered, p[j])
  }

  lemma IndexOfExtended(d: seq<ClassId>, x: ClassId, c: ClassId)
    requires c in d
    ensures c in d + [x] && IndexOf(d + [x], c) == IndexOf(d, c)
  {
    var i := IndexOf(d, c);
    assert forall j :: 0 <= j <= i ==> (d + [x])[j] == d[j];
  }

  /** Discovering one more class keeps the order of what was already collected. */
  lemma DiscoveryOrderExtends(p: seq<ClassId>, d: seq<ClassId>, x: ClassId, collect: bool)
    requires DiscoveryOrdered(p, d)
    requires collect ==> x !in d
    ensures DiscoveryOrdered(if collect then p + [x] else p, d + [x])
  {
    forall c | c in p ensures c in d + [x] && IndexOf(d + [x], c) == IndexOf(d, c) {
      IndexOfExtended(d, x, c);
    }
    if collect {
      var q := p + [x];
      assert IndexOf(d + [x], x) == |d|;
      forall i, j | 0 <= i < j < |q|
        ensures IndexOf(d + [x], q[i]) < IndexOf(d + [x], q[j])
      {
        assert q[i] == p[i] && q[i] in p;
        if j < |p| {
          assert q[j] == p[j];
        }
      }
    }
  }

  /**
   * Starting from an empty manager, the pending list holds exactly the
   * collectable classes discovered, each once, in order of first discovery.
   */
  lemma {:induction false} PendingInDiscoveryOrder(h: Hierarchy, opts: Options, discovered: seq<ClassId>)
    ensures var p := InstrumentAll(h, opts, Initial, discovered).pending;
            && NoDup(p)
            && (forall c :: c in p <==> c in discovered && Collectable(h, opts, c))
            && DiscoveryOrdered(p, discovered)
  {
    var n := |discovered|;
    if n > 0 {
      var d' := discovered[..n - 1];
      var last := discovered[n - 1];
      PendingInDiscoveryOrder(h, opts, d');
      var p' := InstrumentAll(h, opts, Initial, d').pending;
      var p := InstrumentAll(h, opts, Initial, discovered).pending;
      assert discovered == d' + [last];
      DiscoveryOrderExtends(p', d', last, p != p');
      if p != p' {
        assert p == p' + [last];
      }
    }
  }
}
