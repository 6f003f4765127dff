/**
 * `build_transaction_class`, `build_models`, `build_relationships` and the
 * finishing passes. The model, relationship and transaction builders are
 * foreign; what they are given and when they run is recorded in the log.
 */
module ModelBuilding {
  import opened Wrappers
  import opened Seqs
  import opened Classes
  import opened VersioningManager
  import opened TableBuilding

  /** The hook fired by `build_transaction_class`: none when nothing is pending. */
  function TransactionEvents(h: Hierarchy, pending: seq<ClassId>): seq<Event>
  {
    if |pending| > 0 then [AfterBuildTxClass(TransactionClass(h(pending[0]).base))] else []
  }

  /**
   * `build_transaction_class`: with classes pending, the transaction class is
   * created on the declarative base of the first pending class; with none,
   * nothing happens.
   */
  function BuildTransactionClass(h: Hierarchy, m: Manager): (r: Manager)
    ensures |m.pending| == 0 ==> r == m
    ensures |m.pending| > 0 ==>
              && r.declarativeBase == Some(h(m.pending[0]).base)
              && r.transactionClass == Some(TransactionClass(h(m.pending[0]).base))
    ensures r.pending == m.pending && r.tables == m.tables && r.metadata == m.metadata
    ensures r.log == m.log + TransactionEvents(h, m.pending)
  {
    if |m.pending| > 0 then
      var base := h(m.pending[0]).base;
      m.(declarativeBase := Some(base),
         transactionClass := Some(TransactionClass(base)),
         log := m.log + [AfterBuildTxClass(TransactionClass(base))])
    else
      assert m.log + [] == m.log;
      m
  }

  /** The `after_version_class_built` hooks of the loop in `build_models`. */
  function VersionClassEvents(h: Hierarchy, tables: TableMap, tx: Option<TransactionClass>, classes: seq<ClassId>): (es: seq<Event>)
    ensures forall e :: e in es ==>
              && e.AfterVersionClassBuilt?
              && e.model in classes
              && h(e.model).versioning
              && ClosestMatchingTable(h, tables, e.model) == Some(e.versionClass.table)
              && e.versionClass == VersionClass(e.model, e.versionClass.table, tx)
    ensures forall c :: c in classes && h(c).versioning && ClosestMatchingTable(h, tables, c).Some? ==>
              AfterVersionClassBuilt(c, VersionClass(c, ClosestMatchingTable(h, tables, c).value, tx)) in es
    ensures |es| <= |classes|
  {
    if |classes| == 0 then []
    else
      var cls := classes[0];
      var rest := VersionClassEvents(h, tables, tx, classes[1..]);
      if !h(cls).versioning then rest
      else
        match ClosestMatchingTable(h, tables, cls)
        case None => rest
        case Some(t) => [AfterVersionClassBuilt(cls, VersionClass(cls, t, tx))] + rest
  }

  /** Each versioned class with a resolvable table gets exactly one version class; others none. */
  lemma {:induction false} OneVersionClassPerClass(h: Hierarchy, tables: TableMap, tx: Option<TransactionClass>, classes: seq<ClassId>, c: ClassId)
    requires NoDup(classes)
    ensures Builds(VersionClassEvents(h, tables, tx, classes), c) ==
              if c in classes && h(c).versioning && ClosestMatchingTable(h, tables, c).Some? then 1 else 0
  {
    if |classes| > 0 {
      var cls := classes[0];
      var rest := VersionClassEvents(h, tables, tx, classes[1..]);
      assert NoDup(classes[1..]);
      OneVersionClassPerClass(h, tables, tx, classes[1..], c);
      if h(cls).versioning && ClosestMatchingTable(h, tables, cls).Some? {
        var e := AfterVersionClassBuilt(cls, VersionClass(cls, ClosestMatchingTable(h, tables, cls).value, tx));
        BuildsConcat([e], rest, c);
        if cls == c {
          assert c !in classes[1..];
        }
      } else if c == cls {
        assert c !in classes[1..];
      }
    }
  }

  /** All hooks fired by `build_models`: none at all when nothing is pending. */
  function ModelEvents(h: Hierarchy, tables: TableMap, tx: Option<TransactionClass>, pending: seq<ClassId>): (es: seq<Event>)
    ensures |pending| == 0 <==> es == []
    ensures |pending| > 0 ==> |es| > 0 && es[|es| - 1] == AfterBuildModels
    ensures forall i :: 0 <= i < |es| - 1 ==> es[i].AfterVersionClassBuilt?
    ensures InPhaseOrder(es) && PhasesBetween(es, VersionClassStep, AfterModelsStep)
  {
    if |pending| == 0 then []
    else
      var vs := VersionClassEvents(h, tables, tx, pending);
      var es := vs + [AfterBuildModels];
      assert forall i :: 0 <= i < |es| - 1 ==> es[i] == vs[i] && es[i] in vs;
      es
  }

  /**
   * `build_models`: only the log changes; every pending versioned class
   * that resolves to a table gets its version class, built on that table
   * and the current transaction class.
   */
  function BuildModels(h: Hierarchy, m: Manager): (r: Manager)
    ensures r.(log := m.log) == m
    ensures r.log == m.log + ModelEvents(h, m.tables, m.transactionClass, m.pending)
    ensures forall c :: c in m.pending && h(c).versioning && ClosestMatchingTable(h, m.tables, c).Some? ==>
              AfterVersionClassBuilt(c, VersionClass(c, ClosestMatchingTable(h, m.tables, c).value, m.transactionClass)) in r.log
  {
    m.(log := m.log + ModelEvents(h, m.tables, m.transactionClass, m.pending))
  }

  /** The relationship builds for one class: every mapper property except `versions`. */
  function PropertyEvents(cls: ClassId, props: seq<string>): (es: seq<Event>)
    ensures forall e :: e in es <==> e.RelationshipBuilderRun? && e.model == cls && e.prop in props && e.prop != "versions"
  {
    if |props| == 0 then []
    else
      var rest := PropertyEvents(cls, props[1..]);
      assert forall p :: p in props <==> p == props[0] || p in props[1..];
      if props[0] == "versions" then rest else [RelationshipBuilderRun(cls, props[0])] + rest
  }

  /** The relationship builds of `build_relationships`: non-versioned classes are skipped. */
  function RelationshipEvents(h: Hierarchy, classes: seq<ClassId>): (es: seq<Event>)
    ensures forall e :: e in es <==>
              && e.RelationshipBuilderRun?
              && e.model in classes
              && h(e.model).versioning
              && e.prop in h(e.model).props
              && e.prop != "versions"
  {
    if |classes| == 0 then []
    else
      var cls := classes[0];
      var rest := RelationshipEvents(h, classes[1..]);
      assert forall c :: c in classes <==> c == cls || c in classes[1..];
      if !h(cls).versioning then rest else PropertyEvents(cls, h(cls).props) + rest
  }

  /**
   * `build_relationships`: only the log changes; the relationship builder
   * runs for every property other than `versions` of every versioned class
   * of the list.
   */
  function BuildRelationships(h: Hierarchy, classes: seq<ClassId>, m: Manager): (r: Manager)
    ensures r.(log := m.log) == m
    ensures r.log == m.log + RelationshipEvents(h, classes)
    ensures forall c, p :: c in classes && h(c).versioning && p in h(c).props && p != "versions" ==>
              RelationshipBuilderRun(c, p) in r.log
  {
    m.(log := m.log + RelationshipEvents(h, classes))
  }

  /** The event of finishing step `k` for class `c`. */
  function FinishingStep(k: nat, c: ClassId): (e: Event)
    requires ActiveHistoryStep <= k <= HybridPropertyStep
    ensures Phase(e) == k
  {
    if k == ActiveHistoryStep then ActiveHistoryEnabled(c)
    else if k == ColumnAliasStep then ColumnAliasesCreated(c)
    else if k == AssociationProxyStep then AssociationProxiesCreated(c)
    else HybridPropertiesCreated(c)
  }

  /** One finishing step: a loop over all classes. */
  function StepEvents(k: nat, classes: seq<ClassId>): (es: seq<Event>)
    requires ActiveHistoryStep <= k <= HybridPropertyStep
    ensures |es| == |classes|
    ensures forall i :: 0 <= i < |classes| ==> es[i] == FinishingStep(k, classes[i])
    ensures InPhaseOrder(es) && PhasesBetween(es, k, k)
  {
    seq(|classes|, i requires 0 <= i < |classes| => FinishingStep(k, classes[i]))
  }

  /**
   * The four finishing passes, each a loop over all classes: active
   * history, column aliases, association proxies, hybrid properties.
   */
  function FinishingEvents(classes: seq<ClassId>): (es: seq<Event>)
    ensures |es| == 4 * |classes|
    ensures forall i :: 0 <= i < |classes| ==>
              && es[i] == ActiveHistoryEnabled(classes[i])
              && es[|classes| + i] == ColumnAliasesCreated(classes[i])
              && es[2 * |classes| + i] == AssociationProxiesCreated(classes[i])
              && es[3 * |classes| + i] == HybridPropertiesCreated(classes[i])
    ensures InPhaseOrder(es) && PhasesBetween(es, ActiveHistoryStep, HybridPropertyStep)
  {
    var a := StepEvents(ActiveHistoryStep, classes);
    var b := StepEvents(ColumnAliasStep, classes);
    var c := StepEvents(AssociationProxyStep, classes);
    var d := StepEvents(HybridPropertyStep, classes);
    ConcatInPhaseOrder(a, b, ActiveHistoryStep, ActiveHistoryStep, ColumnAliasStep);
    ConcatInPhaseOrder(a + b, c, ActiveHistoryStep, ColumnAliasStep, AssociationProxyStep);
    ConcatInPhaseOrder(a + b + c, d, ActiveHistoryStep, AssociationProxyStep, HybridPropertyStep);
    a + b + c + d
  }

  /**
   * `enable_active_history`, `create_column_aliases`,
   * `create_association_proxies`, `create_hybrid_properties` in turn: only
   * the log changes, and each of the four steps reaches every class.
   */
  function FinishingPasses(classes: seq<ClassId>, m: Manager): (r: Manager)
    ensures r.(log := m.log) == m
    ensures r.log == m.log + FinishingEvents(classes)
    ensures forall c :: c in classes ==>
              && ActiveHistoryEnabled(c) in r.log && ColumnAliasesCreated(c) in r.log
              && AssociationProxiesCreated(c) in r.log && HybridPropertiesCreated(c) in r.log
  {
    FinishingStepsReachEveryClass(classes);
    m.(log := m.log + FinishingEvents(classes))
  }

  lemma FinishingStepsReachEveryClass(classes: seq<ClassId>)
    ensures forall c :: c in classes ==>
              var es := FinishingEvents(classes);
              && ActiveHistoryEnabled(c) in es && ColumnAliasesCreated(c) in es
              && AssociationProxiesCreated(c) in es && HybridPropertiesCreated(c) in es
  {
    var es := FinishingEvents(classes);
    var n := |classes|;
    forall c | c in classes
      ensures && ActiveHistoryEnabled(c) in es && ColumnAliasesCreated(c) in es
              && AssociationProxiesCreated(c) in es && HybridPropertiesCreated(c) in es
    {
      var i :| 0 <= i < n && classes[i] == c;
      assert es[i] == ActiveHistoryEnabled(c) && es[n + i] == ColumnAliasesCreated(c);
      assert es[2 * n + i] == AssociationProxiesCreated(c) && es[3 * n + i] == HybridPropertiesCreated(c);
    }
  }
}
