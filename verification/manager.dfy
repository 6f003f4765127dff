/**
 * The manager state the builder reads and writes, and the log of the
 * foreign calls and plugin hooks it triggers.
 */
module VersioningManager {
  import opened Wrappers
  import opened Seqs
  import opened OrderedMap
  import opened Classes

  /** A version table as produced by the table builder for `model` over the
      physical table `source`, optionally extending an inherited version table. */
  datatype ShadowTable =
    | Fresh(model: ClassId, source: TableId)
    | Merged(model: ClassId, source: TableId, inherited: ShadowTable)

  /** The transaction class created on a declarative base. */
  datatype TransactionClass = TransactionClass(base: BaseId)

  /** The version class the model builder creates for `model`. */
  datatype VersionClass = VersionClass(model: ClassId, table: ShadowTable, transaction: Option<TransactionClass>)

  /** `manager.tables`: class to version table, in insertion order. */
  type TableMap = OMap<ClassId, ShadowTable>

  /** Plugin hooks fired and foreign builders invoked, in call order. */
  datatype Event =
    | AfterBuildTxClass(transaction: TransactionClass)
    | AfterVersionClassBuilt(model: ClassId, versionClass: VersionClass)
    | AfterBuildModels
    // The relationship builder applied to one mapper property, columns included.
    | RelationshipBuilderRun(model: ClassId, prop: string)
    | ActiveHistoryEnabled(model: ClassId)
    | ColumnAliasesCreated(model: ClassId)
    | AssociationProxiesCreated(model: ClassId)
    | HybridPropertiesCreated(model: ClassId)

  /** The steps of a configuration pass, numbered in the order they run. */
  const TxClassStep: nat := 1
  const VersionClassStep: nat := 2
  const AfterModelsStep: nat := 3
  const RelationshipStep: nat := 4
  const ActiveHistoryStep: nat := 5
  const ColumnAliasStep: nat := 6
  const AssociationProxyStep: nat := 7
  const HybridPropertyStep: nat := 8

  /** The step of the configuration pass each kind of event belongs to. */
  function Phase(e: Event): nat
  {
    match e
    case AfterBuildTxClass(_) => TxClassStep
    case AfterVersionClassBuilt(_, _) => VersionClassStep
    case AfterBuildModels => AfterModelsStep
    case RelationshipBuilderRun(_, _) => RelationshipStep
    case ActiveHistoryEnabled(_) => ActiveHistoryStep
    case ColumnAliasesCreated(_) => ColumnAliasStep
    case AssociationProxiesCreated(_) => AssociationProxyStep
    case HybridPropertiesCreated(_) => HybridPropertyStep
  }

  /** Events appear in the order of the steps that produce them. */
  predicate InPhaseOrder(es: seq<Event>)
  {
    forall i, j :: 0 <= i < j < |es| ==> Phase(es[i]) <= Phase(es[j])
  }

  /** Every event of `es` belongs to a step between `lo` and `hi`. */
  predicate PhasesBetween(es: seq<Event>, lo: nat, hi: nat)
  {
    forall i :: 0 <= i < |es| ==> lo <= Phase(es[i]) <= hi
  }

  lemma ConcatInPhaseOrder(a: seq<Event>, b: seq<Event>, lo: nat, mid: nat, hi: nat)
    requires lo <= mid <= hi
    requires InPhaseOrder(a) && PhasesBetween(a, lo, mid)
    requires InPhaseOrder(b) && PhasesBetween(b, mid, hi)
    ensures InPhaseOrder(a + b) && PhasesBetween(a + b, lo, hi)
  {
    forall i, j | 0 <= i < j < |a + b|
      ensures Phase((a + b)[i]) <= Phase((a + b)[j])
    {
      if j < |a| {
      } else if i >= |a| {
        assert (a + b)[i] == b[i - |a|] && (a + b)[j] == b[j - |a|];
      } else {
        assert (a + b)[i] == a[i] && (a + b)[j] == b[j - |a|];
      }
    }
    forall i | 0 <= i < |a + b|
      ensures lo <= Phase((a + b)[i]) <= hi
    {
      if i >= |a| {
        assert (a + b)[i] == b[i - |a|];
      } else {
        assert (a + b)[i] == a[i];
      }
    }
  }

  lemma SinglePhase(es: seq<Event>, k: nat)
    requires forall e :: e in es ==> Phase(e) == k
    ensures InPhaseOrder(es) && PhasesBetween(es, k, k)
  {
    assert forall i :: 0 <= i < |es| ==> es[i] in es;
  }

  /** The number of version classes built for `c` in `es`. */
  function Builds(es: seq<Event>, c: ClassId): nat
  {
    if |es| == 0 then 0
    else (if es[0].AfterVersionClassBuilt? && es[0].model == c then 1 else 0) + Builds(es[1..], c)
  }

  lemma {:induction false} BuildsConcat(a: seq<Event>, b: seq<Event>, c: ClassId)
    ensures Builds(a + b, c) == Builds(a, c) + Builds(b, c)
  {
    if |a| > 0 {
      assert (a + b)[1..] == a[1..] + b;
      BuildsConcat(a[1..], b, c);
    } else {
      assert a + b == b;
    }
  }

  /**
   * The manager: `pending_classes`, `tables`, `declarative_base`,
   * `transaction_cls` and `metadata`, plus the log of what was triggered.
   */
  datatype Manager = Manager(
    pending: seq<ClassId>,
    tables: TableMap,
    declarativeBase: Option<BaseId>,
    transactionClass: Option<TransactionClass>,
    metadata: Option<MetadataId>,
    log: seq<Event>)

  const Initial := Manager([], [], None, None, None, [])

  /** The pending list has no duplicates and the table map no repeated key. */
  predicate Valid(m: Manager)
  {
    NoDup(m.pending) && NoDup(Keys(m.tables))
  }
}
