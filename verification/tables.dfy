/**
 * `Builder.build_tables` and `Builder.closest_matching_table`: maintaining
 * the map from versioned class to version table, merging a subclass that
 * shares its parent's physical table into the parent's entry, and resolving
 * a class to the version table of its nearest keyed ancestor.
 */
module TableBuilding {
  import opened Wrappers
  import opened Seqs
  import opened OrderedMap
  import opened Classes
  import opened VersioningManager

  /** `issubclass(cls, key) and cls.__table__ == key.__table__`. */
  predicate SharesTable(h: Hierarchy, cls: ClassId, key: ClassId)
  {
    IsSubclass(h, cls, key) && h(cls).table == h(key).table
  }

  /** Both per-class options `build_tables` consults are on. */
  predicate Eligible(h: Hierarchy, cls: ClassId)
  {
    h(cls).versioning && h(cls).createTables
  }

  /** The first key, in map order, whose version table `cls` inherits. */
  function FirstInheritedKey(h: Hierarchy, keys: seq<ClassId>, cls: ClassId): (r: Option<ClassId>)
    ensures r.Some? ==> exists i :: 0 <= i < |keys| && keys[i] == r.value && SharesTable(h, cls, keys[i])
                                    && forall j :: 0 <= j < i ==> !SharesTable(h, cls, keys[j])
    ensures r.None? <==> forall k :: k in keys ==> !SharesTable(h, cls, k)
  {
    if |keys| == 0 then None
    else if SharesTable(h, cls, keys[0]) then Some(keys[0])
    else
      var r := FirstInheritedKey(h, keys[1..], cls);
      assert forall i :: 1 <= i < |keys| ==> keys[i] == keys[1..][i - 1];
      r
  }

  /** One iteration of the loop in `build_tables`, for the pending class `cls`. */
  function StoreTable(h: Hierarchy, m: Manager, cls: ClassId): (r: Manager)
    ensures r.(tables := m.tables) == m
    ensures !Eligible(h, cls) ==> r == m
    ensures Eligible(h, cls) && FirstInheritedKey(h, Keys(m.tables), cls).Some? ==>
              var k := FirstInheritedKey(h, Keys(m.tables), cls).value;
              && Keys(r.tables) == Keys(m.tables)
              && Get(r.tables, k) == Some(Merged(cls, h(cls).table, Get(m.tables, k).value))
              && forall c :: c != k ==> Get(r.tables, c) == Get(m.tables, c)
    ensures Eligible(h, cls) && FirstInheritedKey(h, Keys(m.tables), cls).None? ==>
              && Keys(r.tables) == Keys(m.tables) + [cls]
              && Get(r.tables, cls) == Some(Fresh(cls, h(cls).table))
              && forall c :: c != cls ==> Get(r.tables, c) == Get(m.tables, c)
    ensures NoDup(Keys(m.tables)) ==> NoDup(Keys(r.tables))
  {
    if !h(cls).versioning || !h(cls).createTables then m
    else
      match FirstInheritedKey(h, Keys(m.tables), cls)
      case Some(k) =>
        var t := Merged(cls, h(cls).table, Get(m.tables, k).value);
        PutKeys(m.tables, k, t);
        PutGet(m.tables, k, t);
        PutKeepsKeysDistinct(m.tables, k, t);
        forall c | c != k ensures Get(Put(m.tables, k, t), c) == Get(m.tables, c) {
          PutLeavesOthers(m.tables, k, t, c);
        }
        m.(tables := Put(m.tables, k, t))
      case None =>
        var t := Fresh(cls, h(cls).table);
        assert SharesTable(h, cls, cls);
        PutKeys(m.tables, cls, t);
        PutGet(m.tables, cls, t);
        PutKeepsKeysDistinct(m.tables, cls, t);
        forall c | c != cls ensures Get(Put(m.tables, cls, t), c) == Get(m.tables, c) {
          PutLeavesOthers(m.tables, cls, t, c);
        }
        m.(tables := Put(m.tables, cls, t))
  }

  /** The loop of `build_tables` over `classes`. */
  function BuildTablesOver(h: Hierarchy, classes: seq<ClassId>, m: Manager): (r: Manager)
    ensures r.(tables := m.tables) == m
    ensures Keys(m.tables) <= Keys(r.tables)
    ensures NoDup(Keys(m.tables)) ==> NoDup(Keys(r.tables))
  {
    if |classes| == 0 then m
    else BuildTablesOver(h, classes[1..], StoreTable(h, m, classes[0]))
  }

  /**
   * `build_tables`: runs over the pending classes, changing only the table
   * map; existing keys stay in place, and afterwards every pending class
   * with `versioning` and `create_tables` on resolves to a version table.
   */
  function BuildTables(h: Hierarchy, m: Manager): (r: Manager)
    ensures r.(tables := m.tables) == m
    ensures Keys(m.tables) <= Keys(r.tables)
    ensures NoDup(Keys(m.tables)) ==> NoDup(Keys(r.tables))
    ensures forall c :: c in m.pending && Eligible(h, c) ==> ClosestMatchingTable(h, r.tables, c).Some?
  {
    EligibleClassesResolve(h, m.pending, m);
    BuildTablesOver(h, m.pending, m)
  }

  /**
   * `closest_matching_table`: the model's own entry if it is a key; otherwise
   * the entry of the first class in the model's resolution order that is a
   * key; otherwise `None`.
   */
  function ClosestMatchingTable(h: Hierarchy, tables: TableMap, model: ClassId): (r: Option<ShadowTable>)
    ensures model in Keys(tables) ==> r == Get(tables, model)
    ensures model !in Keys(tables) ==>
              (r.Some? <==> exists c :: c in h(model).mro && c in Keys(tables))
    ensures model !in Keys(tables) && r.Some? ==>
              exists i :: 0 <= i < |h(model).mro| && h(model).mro[i] in Keys(tables)
                          && r == Get(tables, h(model).mro[i])
                          && forall j :: 0 <= j < i ==> h(model).mro[j] !in Keys(tables)
  {
    if model in Keys(tables) then Get(tables, model)
    else
      var subclasses := Filter(Keys(tables), (c: ClassId) => IsSubclass(h, model, c));
      var ordered := Filter(h(model).mro, (c: ClassId) => c in subclasses);
      if |ordered| > 0 then
        FilterHead(h(model).mro, (c: ClassId) => c in subclasses);
        Get(tables, ordered[0])
      else
        assert forall c :: c in h(model).mro && c in Keys(tables) ==> c in ordered;
        None
  }

  /** A class resolves to a table exactly when it or one of its ancestors is a key. */
  predicate Resolvable(h: Hierarchy, tables: TableMap, cls: ClassId)
  {
    cls in Keys(tables) || exists c :: c in h(cls).mro && c in Keys(tables)
  }

  lemma ResolvableIffClosestFound(h: Hierarchy, tables: TableMap, cls: ClassId)
    ensures Resolvable(h, tables, cls) <==> ClosestMatchingTable(h, tables, cls).Some?
  {
  }

  /** Once a class resolves it keeps resolving as keys are added. */
  lemma ResolvableGrows(h: Hierarchy, t: TableMap, t': TableMap, cls: ClassId)
    requires Keys(t) <= Keys(t')
    requires Resolvable(h, t, cls)
    ensures Resolvable(h, t', cls)
  {
    if cls !in Keys(t) {
      var c :| c in h(cls).mro && c in Keys(t);
      assert c in Keys(t');
    }
  }

  /**
   * After `build_tables`, every pending class with `versioning` and
   * `create_tables` on resolves to a version table, so the model-building
   * step will build its version class.
   */
  lemma {:induction false} EligibleClassesResolve(h: Hierarchy, classes: seq<ClassId>, m: Manager)
    ensures forall c :: c in classes && Eligible(h, c) ==>
              ClosestMatchingTable(h, BuildTablesOver(h, classes, m).tables, c).Some?
  {
    if |classes| > 0 {
      var c0 := classes[0];
      var m1 := StoreTable(h, m, c0);
      var r := BuildTablesOver(h, classes, m);
      assert r == BuildTablesOver(h, classes[1..], m1);
      EligibleClassesResolve(h, classes[1..], m1);
      if Eligible(h, c0) {
        match FirstInheritedKey(h, Keys(m.tables), c0) {
        case Some(k) =>
          assert k in Keys(m1.tables);
          assert Resolvable(h, m1.tables, c0);
        case None =>
          assert c0 in Keys(m1.tables);
        }
        ResolvableGrows(h, m1.tables, r.tables, c0);
        ResolvableIffClosestFound(h, r.tables, c0);
      }
      forall c | c in classes && Eligible(h, c)
        ensures ClosestMatchingTable(h, r.tables, c).Some?
      {
        if c != c0 {
          assert c in classes[1..];
        }
      }
    }
  }

  /**
   * `build_tables` only adds keys for eligible classes it was run over; the
   * existing keys keep their order, and a subclass merged into an ancestor's
   * entry adds no key of its own.
   */
  lemma {:induction false} NewKeysAreEligibleClasses(h: Hierarchy, classes: seq<ClassId>, m: Manager)
    ensures forall k :: k in Keys(BuildTablesOver(h, classes, m).tables) && k !in Keys(m.tables) ==>
              k in classes && Eligible(h, k)
  {
    if |classes| > 0 {
      var m1 := StoreTable(h, m, classes[0]);
      NewKeysAreEligibleClasses(h, classes[1..], m1);
      forall k | k in Keys(BuildTablesOver(h, classes, m).tables) && k !in Keys(m.tables)
        ensures k in classes && Eligible(h, k)
      {
        if k in Keys(m1.tables) {
          assert k == classes[0];
        } else {
          assert k in classes[1..];
        }
      }
    }
  }

  /**
   * A class that shares its physical table with a class already keyed is
   * merged into an existing entry: running `build_tables` over classes that
   * all do adds no key.
   */
  lemma {:induction false} NoKeyAddedWhenAncestorKeyed(h: Hierarchy, classes: seq<ClassId>, m: Manager)
    requires forall c :: c in classes ==> exists k :: k in Keys(m.tables) && SharesTable(h, c, k)
    ensures Keys(BuildTablesOver(h, classes, m).tables) == Keys(m.tables)
  {
    if |classes| > 0 {
      var m1 := StoreTable(h, m, classes[0]);
      assert classes[0] in classes;
      assert Keys(m1.tables) == Keys(m.tables);
      forall c | c in classes[1..]
        ensures exists k :: k in Keys(m1.tables) && SharesTable(h, c, k)
      {
        assert c in classes;
      }
      NoKeyAddedWhenAncestorKeyed(h, classes[1..], m1);
    }
  }

  /**
   * A table-sharing hierarchy whose root is handled before its subclasses
   * gets exactly one version table, keyed by the root, whatever the order of
   * the subclasses.
   */
  lemma HierarchyGetsOneEntry(h: Hierarchy, root: ClassId, rest: seq<ClassId>, m: Manager)
    requires Eligible(h, root)
    requires forall k :: k in Keys(m.tables) ==> !SharesTable(h, root, k)
    requires forall c :: c in rest ==> SharesTable(h, c, root)
    ensures Keys(BuildTablesOver(h, [root] + rest, m).tables) == Keys(m.tables) + [root]
  {
    var m1 := StoreTable(h, m, root);
    assert Keys(m1.tables) == Keys(m.tables) + [root];
    assert ([root] + rest)[1..] == rest;
    assert BuildTablesOver(h, [root] + rest, m) == BuildTablesOver(h, rest, m1);
    forall c | c in rest
      ensures exists k :: k in Keys(m1.tables) && SharesTable(h, c, k)
    {
      assert root in Keys(m1.tables);
    }
    NoKeyAddedWhenAncestorKeyed(h, rest, m1);
  }

  /** Classes with `versioning` or `create_tables` off leave no trace: skipping them changes nothing. */
  lemma {:induction false} IneligibleClassesIgnored(h: Hierarchy, classes: seq<ClassId>, m: Manager)
    ensures BuildTablesOver(h, classes, m) == BuildTablesOver(h, Filter(classes, (c: ClassId) => Eligible(h, c)), m)
  {
    if |classes| > 0 {
      var p := (c: ClassId) => Eligible(h, c);
      IneligibleClassesIgnored(h, classes[1..], StoreTable(h, m, classes[0]));
      if !Eligible(h, classes[0]) {
        assert Filter(classes, p) == Filter(classes[1..], p);
      } else {
        var f := Filter(classes, p);
        assert f == [classes[0]] + Filter(classes[1..], p);
        assert f[1..] == Filter(classes[1..], p);
      }
    }
  }
}
