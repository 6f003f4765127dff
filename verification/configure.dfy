/**
 * `configure_versioned_classes`: the configuration pass run on every mapper
 * configuration, behind the reentry guard.
 */
module Configuration {
  import opened Wrappers
  import opened Seqs
  import opened OrderedMap
  import opened Classes
  import opened VersioningManager
  import opened TableBuilding
  import opened ModelBuilding
  import opened Reentry

  /**
   * The body of `configure_versioned_classes`. Tables, then the transaction
   * class; without `create_models` the pending list is emptied and the pass
   * ends; otherwise models are built, the pending list is copied and
   * emptied, and relationships and the finishing passes run over the copy.
   */
  function ConfigurePass(h: Hierarchy, opts: Options, m: Manager): (r: Manager)
    ensures !opts.versioning ==> r == m
    ensures opts.versioning ==> r.pending == []
    ensures Keys(m.tables) <= Keys(r.tables)
    ensures m.log <= r.log
    ensures Valid(m) ==> Valid(r)
  {
    if !opts.versioning then m
    else
      var m1 := BuildTables(h, m);
      var m2 := BuildTransactionClass(h, m1);
      if !opts.createModels then m2.(pending := [])
      else
        var m3 := BuildModels(h, m2);
        var snapshot := m3.pending;
        var m4 := m3.(pending := []);
        var m5 := BuildRelationships(h, snapshot, m4);
        FinishingPasses(snapshot, m5)
  }

  /**
   * The events one pass appends to the log: the transaction hook for the
   * pending list as it was on entry, and, with `create_models`, the model
   * hooks for the tables and transaction class just built, then
   * relationships and the finishing passes over that same list.
   */
  function PassEvents(h: Hierarchy, opts: Options, m: Manager): seq<Event>
  {
    if !opts.versioning then []
    else
      var built := BuildTransactionClass(h, BuildTables(h, m));
      var tx := TransactionEvents(h, m.pending);
      if !opts.createModels then tx
      else
        tx + ModelEvents(h, built.tables, built.transactionClass, m.pending)
        + RelationshipEvents(h, m.pending) + FinishingEvents(m.pending)
  }

  /**
   * The pass appends exactly `PassEvents`: relationships and the finishing
   * passes run over the pending list as it was on entry, although the
   * pending list itself ends empty.
   */
  lemma PassRunsOverEntryList(h: Hierarchy, opts: Options, m: Manager)
    ensures ConfigurePass(h, opts, m).log == m.log + PassEvents(h, opts, m)
  {
    if opts.versioning {
      var m2 := BuildTransactionClass(h, BuildTables(h, m));
      TablesAndTransactionLog(h, m);
      if opts.createModels {
        var tx := TransactionEvents(h, m.pending);
        var me := ModelEvents(h, m2.tables, m2.transactionClass, m.pending);
        var re := RelationshipEvents(h, m.pending);
        var fe := FinishingEvents(m.pending);
        ModelsAndLaterLog(h, m2, m.pending);
        assert ConfigurePass(h, opts, m) == FinishingPasses(m.pending, BuildRelationships(h, m.pending, BuildModels(h, m2).(pending := [])));
        ConcatAssoc(m.log, tx + me + re, fe);
        ConcatAssoc(m.log, tx + me, re);
        ConcatAssoc(m.log, tx, me);
      }
    }
  }

  lemma TablesAndTransactionLog(h: Hierarchy, m: Manager)
    ensures var m2 := BuildTransactionClass(h, BuildTables(h, m));
            m2.log == m.log + TransactionEvents(h, m.pending) && m2.pending == m.pending
  {
    var m1 := BuildTables(h, m);
    assert m1.log == m.log && m1.pending == m.pending;
  }

  lemma ModelsAndLaterLog(h: Hierarchy, m2: Manager, p: seq<ClassId>)
    requires m2.pending == p
    ensures var r := FinishingPasses(p, BuildRelationships(h, p, BuildModels(h, m2).(pending := [])));
            r.log == m2.log + ModelEvents(h, m2.tables, m2.transactionClass, p) + RelationshipEvents(h, p) + FinishingEvents(p)
  {
  }

  /**
   * The steps run in their fixed order: transaction class, version classes,
   * `after_build_models`, relationships, active history, column aliases,
   * association proxies, hybrid properties.
   */
  lemma PassEventsInStepOrder(h: Hierarchy, opts: Options, m: Manager)
    ensures InPhaseOrder(PassEvents(h, opts, m))
  {
    if opts.versioning {
      var built := BuildTransactionClass(h, BuildTables(h, m));
      var tx := TransactionEvents(h, m.pending);
      if opts.createModels {
        var me := ModelEvents(h, built.tables, built.transactionClass, m.pending);
        var re := RelationshipEvents(h, m.pending);
        var fe := FinishingEvents(m.pending);
        RelationshipStepPhase(h, m.pending);
        assert InPhaseOrder(tx) && PhasesBetween(tx, TxClassStep, TxClassStep);
        ConcatInPhaseOrder(tx, me, TxClassStep, VersionClassStep, AfterModelsStep);
        ConcatInPhaseOrder(tx + me, re, TxClassStep, RelationshipStep, RelationshipStep);
        ConcatInPhaseOrder(tx + me + re, fe, TxClassStep, ActiveHistoryStep, HybridPropertyStep);
      }
    }
  }

  /** The events of a pass after the transaction hook. */
  function LaterEvents(h: Hierarchy, opts: Options, m: Manager): seq<Event>
  {
    if !opts.createModels then []
    else
      var built := BuildTransactionClass(h, BuildTables(h, m));
      ModelEvents(h, built.tables, built.transactionClass, m.pending)
      + RelationshipEvents(h, m.pending) + FinishingEvents(m.pending)
  }

  lemma PassEventsSplit(h: Hierarchy, opts: Options, m: Manager)
    requires opts.versioning
    ensures PassEvents(h, opts, m) == TransactionEvents(h, m.pending) + LaterEvents(h, opts, m)
  {
    if opts.createModels {
      var built := BuildTransactionClass(h, BuildTables(h, m));
      var tx := TransactionEvents(h, m.pending);
      var me := ModelEvents(h, built.tables, built.transactionClass, m.pending);
      var re := RelationshipEvents(h, m.pending);
      var fe := FinishingEvents(m.pending);
      ConcatAssoc(tx + me, re, fe);
      ConcatAssoc(tx, me, re);
      ConcatAssoc(tx, me + re, fe);
    }
  }

  lemma LaterEventsPhases(h: Hierarchy, opts: Options, m: Manager)
    ensures PhasesBetween(LaterEvents(h, opts, m), VersionClassStep, HybridPropertyStep)
  {
    if opts.createModels {
      var built := BuildTransactionClass(h, BuildTables(h, m));
      var me := ModelEvents(h, built.tables, built.transactionClass, m.pending);
      RelationshipStepPhase(h, m.pending);
      ConcatInPhaseOrder(me, RelationshipEvents(h, m.pending), VersionClassStep, AfterModelsStep, RelationshipStep);
      ConcatInPhaseOrder(me + RelationshipEvents(h, m.pending), FinishingEvents(m.pending), VersionClassStep, RelationshipStep, HybridPropertyStep);
    }
  }

  /**
   * `after_build_tx_class` fires at most once per pass: exactly when classes
   * are pending, as the first event of the pass, with the transaction class
   * of the first pending class's declarative base.
   */
  lemma TransactionHookFirstAndOnly(h: Hierarchy, opts: Options, m: Manager)
    ensures var es := PassEvents(h, opts, m);
            && (opts.versioning && |m.pending| > 0 ==>
                  |es| > 0 && es[0] == AfterBuildTxClass(TransactionClass(h(m.pending[0]).base)))
            && forall i :: 0 <= i < |es| && es[i].AfterBuildTxClass? ==>
                  i == 0 && opts.versioning && |m.pending| > 0
  {
    if opts.versioning {
      PassEventsSplit(h, opts, m);
      LaterEventsPhases(h, opts, m);
    }
  }

  lemma RelationshipStepPhase(h: Hierarchy, classes: seq<ClassId>)
    ensures InPhaseOrder(RelationshipEvents(h, classes)) && PhasesBetween(RelationshipEvents(h, classes), RelationshipStep, RelationshipStep)
  {
    var re := RelationshipEvents(h, classes);
    assert forall e :: e in re ==> e.RelationshipBuilderRun?;
    SinglePhase(re, RelationshipStep);
  }

  lemma {:induction false} BuildsNone(es: seq<Event>, c: ClassId)
    requires forall e :: e in es ==> !e.AfterVersionClassBuilt?
    ensures Builds(es, c) == 0
  {
    if |es| > 0 {
      assert es[0] in es;
      BuildsNone(es[1..], c);
    }
  }

  /**
   * With models enabled, every pending class with `versioning` and
   * `create_tables` on gets exactly one `after_version_class_built`, and a
   * class that was not pending gets none.
   */
  lemma EligiblePendingClassBuiltOnce(h: Hierarchy, opts: Options, m: Manager, c: ClassId)
    requires Valid(m) && opts.versioning && opts.createModels
    ensures c in m.pending && Eligible(h, c) ==> Builds(PassEvents(h, opts, m), c) == 1
    ensures c !in m.pending ==> Builds(PassEvents(h, opts, m), c) == 0
  {
    var built := BuildTransactionClass(h, BuildTables(h, m));
    var tx := TransactionEvents(h, m.pending);
    PassEventsSplit(h, opts, m);
    BuildsNone(tx, c);
    BuildsConcat(tx, LaterEvents(h, opts, m), c);
    LaterBuilds(h, opts, m, c);
    ModelStepBuilds(h, built.tables, built.transactionClass, m.pending, c);
  }

  /** Of the events after the transaction hook, only the model step builds version classes. */
  lemma LaterBuilds(h: Hierarchy, opts: Options, m: Manager, c: ClassId)
    requires opts.createModels
    ensures var built := BuildTransactionClass(h, BuildTables(h, m));
            Builds(LaterEvents(h, opts, m), c) == Builds(ModelEvents(h, built.tables, built.transactionClass, m.pending), c)
  {
    var built := BuildTransactionClass(h, BuildTables(h, m));
    var me := ModelEvents(h, built.tables, built.transactionClass, m.pending);
    var re := RelationshipEvents(h, m.pending);
    var fe := FinishingEvents(m.pending);
    BuildsNone(re, c);
    BuildsNone(fe, c);
    BuildsConcat(me, re, c);
    BuildsConcat(me + re, fe, c);
  }

  /** `build_models` over a duplicate-free list builds one version class for each versioned class that resolves. */
  lemma ModelStepBuilds(h: Hierarchy, tables: TableMap, tx: Option<TransactionClass>, pending: seq<ClassId>, c: ClassId)
    requires NoDup(pending)
    ensures Builds(ModelEvents(h, tables, tx, pending), c) ==
              if c in pending && h(c).versioning && ClosestMatchingTable(h, tables, c).Some? then 1 else 0
  {
    if |pending| > 0 {
      var vs := VersionClassEvents(h, tables, tx, pending);
      OneVersionClassPerClass(h, tables, tx, pending, c);
      BuildsConcat(vs, [AfterBuildModels], c);
      BuildsNone([AfterBuildModels], c);
    }
  }

  /**
   * Without `create_models`, tables and the transaction class are still
   * built, no version class is, and the pending list ends empty.
   */
  lemma PassWithoutModels(h: Hierarchy, opts: Options, m: Manager)
    requires opts.versioning && !opts.createModels
    ensures var r := ConfigurePass(h, opts, m);
            && r.pending == []
            && r.tables == BuildTables(h, m).tables
            && (|m.pending| > 0 ==> r.transactionClass == Some(TransactionClass(h(m.pending[0]).base)))
            && PassEvents(h, opts, m) == TransactionEvents(h, m.pending)
  {
    PassRunsOverEntryList(h, opts, m);
  }

  /** With nothing pending a pass adds no table, builds no transaction class and fires no hook. */
  lemma NothingPendingIsNoOp(h: Hierarchy, opts: Options, m: Manager)
    requires m.pending == []
    ensures ConfigurePass(h, opts, m) == m
  {
    if opts.versioning {
      assert BuildTables(h, m) == m;
      assert BuildTransactionClass(h, m) == m;
      if opts.createModels {
        assert m.log + ModelEvents(h, m.tables, m.transactionClass, []) == m.log;
        assert m.log + RelationshipEvents(h, []) == m.log;
        assert m.log + FinishingEvents([]) == m.log;
      }
    }
  }

  /** A second pass straight after a first changes nothing. */
  lemma PassIdempotent(h: Hierarchy, opts: Options, m: Manager)
    ensures ConfigurePass(h, opts, ConfigurePass(h, opts, m)) == ConfigurePass(h, opts, m)
  {
    if opts.versioning {
      NothingPendingIsNoOp(h, opts, ConfigurePass(h, opts, m));
    }
  }

  /** The handler the guard wraps. */
  function PassHandler(h: Hierarchy, opts: Options): Handler<Manager>
  {
    (flag: bool, s: Manager) => (ConfigurePass(h, opts, s), Returned)
  }

  /** `configure_versioned_classes` as called: the pass behind the reentry guard. */
  function ConfigureVersionedClasses(h: Hierarchy, opts: Options, inHandler: bool, m: Manager): (r: Call<Manager>)
    ensures inHandler ==> !r.invoked && r.state == m
    ensures !inHandler ==> r.invoked && !r.inHandler && r.state == ConfigurePass(h, opts, m)
  {
    CheckReentry(inHandler, m, PassHandler(h, opts))
  }

  /**
   * The pass with a plugin calling `configure_versioned_classes` again from
   * `after_build_models`, the nested call seeing flag `nestedFlag`: the rest
   * of the pass then runs over whatever the nested call left pending.
   */
  function NestedPass(h: Hierarchy, opts: Options, nestedFlag: bool, s: Manager): Manager
  {
    if !opts.versioning then s
    else
      var m2 := BuildTransactionClass(h, BuildTables(h, s));
      if !opts.createModels then m2.(pending := [])
      else
        var m3 := ConfigureVersionedClasses(h, opts, nestedFlag, BuildModels(h, m2)).state;
        var snapshot := m3.pending;
        FinishingPasses(snapshot, BuildRelationships(h, snapshot, m3.(pending := [])))
  }

  /** `NestedPass` as the handler the guard wraps: the nested call sees the flag the wrapper holds. */
  function PassWithNestedCall(h: Hierarchy, opts: Options): Handler<Manager>
  {
    (flag: bool, s: Manager) => (NestedPass(h, opts, flag, s), Returned)
  }

  /**
   * A call arriving while a pass runs sees the flag the wrapper set, so it
   * does nothing: the outer call has exactly the effect of a pass without
   * it, and the flag is clear again once the outer pass returns.
   */
  lemma NestedCallDuringPassDropped(h: Hierarchy, opts: Options, m: Manager)
    ensures var outer := CheckReentry(false, m, PassWithNestedCall(h, opts));
            outer.state == ConfigurePass(h, opts, m) && !outer.inHandler
  {
    assert CheckReentry(false, m, PassWithNestedCall(h, opts)).state == NestedPass(h, opts, true, m);
  }

  /**
   * Had the nested call found the flag clear, as it would without the
   * guard, it would run a whole pass of its own over the still pending
   * classes: a pending class with `versioning` and `create_tables` on would
   * get a second version class.
   */
  lemma UnguardedNestedCallBuildsTwice(h: Hierarchy, opts: Options, m: Manager, c: ClassId)
    requires Valid(m) && opts.versioning && opts.createModels
    requires c in m.pending && Eligible(h, c)
    ensures Builds(NestedPass(h, opts, false, m).log, c) >= 2
  {
    var m3 := BuildModels(h, BuildTransactionClass(h, BuildTables(h, m)));
    OuterLogIsNestedPassLog(h, opts, m);
    FirstBuildBeforeNestedCall(h, m, c);
    NestedPassBuildsAgain(h, opts, m3, c);
  }

  /** Without the guard the nested call empties the pending list, so the rest of the outer pass adds nothing. */
  lemma OuterLogIsNestedPassLog(h: Hierarchy, opts: Options, m: Manager)
    requires opts.versioning && opts.createModels
    ensures NestedPass(h, opts, false, m).log ==
            ConfigurePass(h, opts, BuildModels(h, BuildTransactionClass(h, BuildTables(h, m)))).log
  {
    var m3 := BuildModels(h, BuildTransactionClass(h, BuildTables(h, m)));
    var nested := ConfigureVersionedClasses(h, opts, false, m3).state;
    assert NestedPass(h, opts, false, m) == FinishingPasses(nested.pending, BuildRelationships(h, nested.pending, nested.(pending := [])));
    TailOverNothing(h, nested);
  }

  lemma TailOverNothing(h: Hierarchy, n: Manager)
    ensures FinishingPasses([], BuildRelationships(h, [], n.(pending := []))).log == n.log
  {
    assert RelationshipEvents(h, []) == [] && FinishingEvents([]) == [];
    assert n.log + [] + [] == n.log;
  }

  /** The outer `build_models` has already built the version class of an eligible pending class. */
  lemma FirstBuildBeforeNestedCall(h: Hierarchy, m: Manager, c: ClassId)
    requires Valid(m) && c in m.pending && Eligible(h, c)
    ensures Builds(BuildModels(h, BuildTransactionClass(h, BuildTables(h, m))).log, c) >= 1
  {
    var m2 := BuildTransactionClass(h, BuildTables(h, m));
    var tx := TransactionEvents(h, m.pending);
    var vs := VersionClassEvents(h, m2.tables, m2.transactionClass, m.pending);
    var me := ModelEvents(h, m2.tables, m2.transactionClass, m.pending);
    assert me == vs + [AfterBuildModels];
    BuildsConcat(m.log + tx, me, c);
    BuildsConcat(vs, [AfterBuildModels], c);
    OneVersionClassPerClass(h, m2.tables, m2.transactionClass, m.pending, c);
  }

  /** A pass over a manager whose pending list still holds `c` builds its version class once more. */
  lemma NestedPassBuildsAgain(h: Hierarchy, opts: Options, m3: Manager, c: ClassId)
    requires Valid(m3) && opts.versioning && opts.createModels
    requires c in m3.pending && Eligible(h, c)
    ensures Builds(ConfigurePass(h, opts, m3).log, c) == Builds(m3.log, c) + 1
  {
    PassRunsOverEntryList(h, opts, m3);
    EligiblePendingClassBuiltOnce(h, opts, m3, c);
    BuildsConcat(m3.log, PassEvents(h, opts, m3), c);
  }

  /** Two top-level calls in a row have the effect of one. */
  lemma ConfigureIdempotent(h: Hierarchy, opts: Options, m: Manager)
    ensures var first := ConfigureVersionedClasses(h, opts, false, m);
            var second := ConfigureVersionedClasses(h, opts, first.inHandler, first.state);
            second.state == first.state && !second.inHandler
  {
    PassIdempotent(h, opts, m);
  }
}
