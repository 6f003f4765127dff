/**
 * What the builder reads from the mapped classes and the manager's
 * configuration. Classes, physical tables, declarative bases and metadata
 * objects are opaque identifiers; the facts the builder consults about a
 * class are collected in a `ClassInfo`.
 */
module Classes {
  import opened Wrappers

  datatype ClassId = ClassId(name: string)
  datatype TableId = TableId(name: string)
  datatype BaseId = BaseId(name: string)
  datatype MetadataId = MetadataId(name: string)

  /** The `__versioned__` dictionary of a class; `hasClass` is true when its
      `"class"` entry is present and truthy (the version class has already
      been built); an entry holding `None` counts as absent. */
  datatype VersionedArgs = VersionedArgs(hasClass: bool)

  /**
   * Per-class facts:
   * - `mro`: the method resolution order, the class itself first;
   * - `table`: the physical `__table__` the class is mapped to;
   * - `versionedArgs`: `__versioned__`, `None` when the attribute is absent;
   * - `versioning`, `createTables`: the manager's resolved per-class options;
   * - `props`: the keys of the mapper's properties, in mapper order;
   * - `base`: the declarative base the class derives from;
   * - `metadata`: the class's `metadata`.
   */
  datatype ClassInfo = ClassInfo(
    mro: seq<ClassId>,
    table: TableId,
    versionedArgs: Option<VersionedArgs>,
    versioning: bool,
    createTables: bool,
    props: seq<string>,
    base: BaseId,
    metadata: MetadataId)

  /** The class graph the builder runs over. */
  type Hierarchy = ClassId -> ClassInfo

  /** Python's `issubclass(a, b)`: every class is a subclass of itself. */
  predicate IsSubclass(h: Hierarchy, a: ClassId, b: ClassId)
  {
    a == b || b in h(a).mro
  }

  /** The manager's global options read by the builder. */
  datatype Options = Options(versioning: bool, createModels: bool)
}
