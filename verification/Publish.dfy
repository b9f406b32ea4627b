/**
 Registering evaluation suites over shared reference catalogs, and the publish
 manifest assembled from those catalogs (pluginkit/publish_manifest.go:57-134,
 pluginkit/evaluation_orchestrator.go:131-227).
 */
module Publish {
  import opened Wrappers
  import opened Ordering
  import opened Codec
  import opened Coordinate

  datatype Control = Control(id: string, title: string)

  /** An import: the catalog it refers to and the ids of the controls it takes. */
  datatype Import = Import(referenceId: string, entries: seq<string>)

  datatype CatalogState = CatalogState(
    id: string, version: string, authorId: string, controls: seq<Control>, imports: seq<Import>)

  type Catalogs = map<string, CatalogState>

  // ---------------------------------------------------------------------
  // Imported controls

  function FirstWithId(controls: seq<Control>, id: string): (r: Option<Control>)
    ensures r.Some? ==> r.value in controls && r.value.id == id
    ensures r.None? <==> forall c :: c in controls ==> c.id != id
  {
    if controls == [] then None
    else if controls[0].id == id then Some(controls[0])
    else
      var rest := FirstWithId(controls[1..], id);
      assert forall c :: c in controls ==> c == controls[0] || c in controls[1..];
      rest
  }

  function Taken(controls: seq<Control>, entries: seq<string>): seq<Control>
  {
    if entries == [] then []
    else
      var n := |entries| - 1;
      Taken(controls, entries[..n]) +
      match FirstWithId(controls, entries[n]) case Some(c) => [c] case None => []
  }

  function Imported(imports: seq<Import>, catalogs: Catalogs): seq<Control>
  {
    if imports == [] then []
    else
      var n := |imports| - 1;
      Imported(imports[..n], catalogs) +
      if imports[n].referenceId in catalogs then Taken(catalogs[imports[n].referenceId].controls, imports[n].entries)
      else []
  }

  lemma {:induction false} TakenMembers(controls: seq<Control>, entries: seq<string>, c: Control)
    ensures c in Taken(controls, entries) <==> c.id in entries && FirstWithId(controls, c.id) == Some(c)
  {
    if entries != [] {
      var n := |entries| - 1;
      TakenMembers(controls, entries[..n], c);
      assert entries == entries[..n] + [entries[n]];
    }
  }

  /** What one import gives: nothing when its catalog is not known. */
  function OfImport(i: Import, catalogs: Catalogs): seq<Control>
  {
    if i.referenceId in catalogs then Taken(catalogs[i.referenceId].controls, i.entries) else []
  }

  lemma ImportedLast(imports: seq<Import>, catalogs: Catalogs)
    requires imports != []
    ensures Imported(imports, catalogs) ==
      Imported(imports[..|imports| - 1], catalogs) + OfImport(imports[|imports| - 1], catalogs)
  {
  }

  /** Imports are taken one after the other and, within one, its ids in their order. */
  lemma {:induction false} ImportedInOrder(a: seq<Import>, b: seq<Import>, catalogs: Catalogs)
    ensures Imported(a + b, catalogs) == Imported(a, catalogs) + Imported(b, catalogs)
  {
    if b == [] {
      assert a + b == a;
    } else {
      var n := |b| - 1;
      ImportedInOrder(a, b[..n], catalogs);
      assert (a + b)[..|a + b| - 1] == a + b[..n] && (a + b)[|a + b| - 1] == b[n];
      ImportedLast(a + b, catalogs);
      ImportedLast(b, catalogs);
      var x, y, z := Imported(a, catalogs), Imported(b[..n], catalogs), OfImport(b[n], catalogs);
      assert (x + y) + z == x + (y + z);
    }
  }

  lemma {:induction false} TakenInOrder(controls: seq<Control>, a: seq<string>, b: seq<string>)
    ensures Taken(controls, a + b) == Taken(controls, a) + Taken(controls, b)
  {
    if b == [] {
      assert a + b == a;
    } else {
      var n := |b| - 1;
      TakenInOrder(controls, a, b[..n]);
      assert (a + b)[..|a + b| - 1] == a + b[..n];
    }
  }

  predicate ImportsFrom(i: Import, catalogs: Catalogs, c: Control)
  {
    i.referenceId in catalogs && c.id in i.entries && FirstWithId(catalogs[i.referenceId].controls, c.id) == Some(c)
  }

  /** Exactly the first control of each listed id in each known catalog referred to. */
  lemma {:induction false} ImportedMembers(imports: seq<Import>, catalogs: Catalogs, c: Control)
    ensures c in Imported(imports, catalogs) <==> exists i :: i in imports && ImportsFrom(i, catalogs, c)
  {
    if imports != [] {
      var n := |imports| - 1;
      ImportedMembers(imports[..n], catalogs, c);
      assert forall i :: i in imports <==> i in imports[..n] || i == imports[n];
      if imports[n].referenceId in catalogs {
        TakenMembers(catalogs[imports[n].referenceId].controls, imports[n].entries, c);
      }
      assert c in Imported(imports, catalogs) <==>
        c in Imported(imports[..n], catalogs) || ImportsFrom(imports[n], catalogs, c);
    }
  }

  // ---------------------------------------------------------------------
  // The manifest

  /** The ids of the controls: not empty, each once, in the order they first come. */
  function OwnIds(controls: seq<Control>): seq<string>
  {
    if controls == [] then []
    else
      var n := |controls| - 1;
      var before := OwnIds(controls[..n]);
      if controls[n].id == "" || controls[n].id in before then before else before + [controls[n].id]
  }

  predicate HasId(controls: seq<Control>, id: string)
  {
    id != "" && exists i :: 0 <= i < |controls| && controls[i].id == id
  }

  ghost predicate Distinct<T>(s: seq<T>)
  {
    forall i, j :: 0 <= i < j < |s| ==> s[i] != s[j]
  }

  lemma {:induction false} OwnIdsMembers(controls: seq<Control>, id: string)
    ensures Distinct(OwnIds(controls))
    ensures id in OwnIds(controls) <==> HasId(controls, id)
  {
    if controls != [] {
      var n := |controls| - 1;
      OwnIdsMembers(controls[..n], id);
      if HasId(controls, id) && controls[n].id != id {
        var i :| 0 <= i < |controls| && controls[i].id == id;
        assert controls[..n][i].id == id;
      }
      if HasId(controls[..n], id) {
        var i :| 0 <= i < n && controls[..n][i].id == id;
        assert controls[i].id == id;
      }
    }
  }

  function RequirementIds(controls: seq<Control>): seq<string>
  {
    Sort(StringLe, OwnIds(controls))
  }

  /** The published ids are sorted, distinct, and exactly the ids of the catalog's own controls. */
  lemma RequirementIdsAreOwn(controls: seq<Control>, id: string)
    ensures Sorted(StringLe, RequirementIds(controls)) && Distinct(RequirementIds(controls))
    ensures id in RequirementIds(controls) <==> HasId(controls, id)
  {
    StringLeIsTotalPreorder();
    SortSorted(StringLe, OwnIds(controls));
    OwnIdsMembers(controls, id);
    StillDistinct(OwnIds(controls), RequirementIds(controls));
    InPermutation(OwnIds(controls), RequirementIds(controls), id);
  }

  /** The override when there is one, else the catalog's author; no blank namespace and none with '/'. */
  function NamespaceOf(id: string, c: CatalogState, overrides: map<string, string>): Option<string>
  {
    var ns := TrimSpace(if id in overrides then overrides[id] else c.authorId);
    if ns == "" || '/' in ns then None else Some(ns)
  }

  predicate Publishable(id: string, c: CatalogState, overrides: map<string, string>)
  {
    TrimSpace(c.version) != "" && OwnIds(c.controls) != [] && NamespaceOf(id, c, overrides).Some?
  }

  datatype Inputs = Inputs(
    publisher: string, pluginName: string, license: string, catalogs: Catalogs, overrides: map<string, string>)

  datatype PublishManifest = PublishManifest(coordinate: string, license: string, evaluates: seq<Evaluate>)

  datatype Error =
    | NoPublisher
    | NoPluginName
    | Slash
    | NoLicense
    | NoCatalogs
    | NoVersion(id: string)
    | NoControls(id: string)
    | NoNamespace(id: string)

  predicate CatalogLe(a: Evaluate, b: Evaluate)
  {
    StringLe(a.catalog, b.catalog)
  }

  lemma CatalogLeIsTotalPreorder()
    ensures TotalPreorder(CatalogLe)
  {
    StringLeIsTotalPreorder();
    forall x: Evaluate, y: Evaluate ensures CatalogLe(x, y) || CatalogLe(y, x) {
      StringLeTotal(x.catalog, y.catalog);
    }
    forall x: Evaluate, y: Evaluate, z: Evaluate | CatalogLe(x, y) && CatalogLe(y, z) ensures CatalogLe(x, z) {
      StringLeTransitive(x.catalog, y.catalog, z.catalog);
    }
  }

  /** The entry of one catalog. */
  function Entry(v: Inputs, id: string): Evaluate
    requires id in v.catalogs
  {
    var c := v.catalogs[id];
    var ns := match NamespaceOf(id, c, v.overrides) case Some(owner) => owner case None => "";
    Evaluate(ns + "/" + id, TrimSpace(c.version), RequirementIds(c.controls))
  }

  ghost predicate IsEntry(v: Inputs, e: Evaluate)
  {
    exists id :: id in v.catalogs && e == Entry(v, id)
  }

  /** One entry per catalog, in the order of their names. */
  ghost predicate DeclaresAll(v: Inputs, evals: seq<Evaluate>)
  {
    && Sorted(CatalogLe, evals) && Distinct(evals)
    && (forall id :: id in v.catalogs ==> Entry(v, id) in evals)
    && forall e :: e in evals ==> IsEntry(v, e)
  }

  predicate Complete(v: Inputs)
  {
    var publisher, pluginId := TrimSpace(v.publisher), TrimSpace(v.pluginName);
    publisher != "" && pluginId != "" && '/' !in publisher && '/' !in pluginId && TrimSpace(v.license) != "" &&
      v.catalogs != map[]
  }

  predicate AllPublishable(v: Inputs)
  {
    forall id :: id in v.catalogs ==> Publishable(id, v.catalogs[id], v.overrides)
  }

  predicate CanPublish(v: Inputs)
  {
    Complete(v) && AllPublishable(v)
  }

  /** A result of publishing. */
  ghost predicate IsPublished(v: Inputs, r: Result<PublishManifest, Error>)
  {
    && (r.Ok? <==> CanPublish(v))
    && (r.Ok? ==>
         && r.value.coordinate == TrimSpace(v.publisher) + "/" + TrimSpace(v.pluginName)
         && r.value.license == TrimSpace(v.license)
         && DeclaresAll(v, r.value.evaluates))
  }

  // ---------------------------------------------------------------------
  // There is only one result

  lemma {:induction false} DistinctCounts<T>(s: seq<T>, x: T)
    requires Distinct(s)
    ensures multiset(s)[x] == if x in s then 1 else 0
  {
    if s != [] {
      var n := |s| - 1;
      assert s == s[..n] + [s[n]];
      DistinctCounts(s[..n], x);
      assert s[n] !in s[..n];
    }
  }

  lemma SameMultiset<T>(a: seq<T>, b: seq<T>)
    requires Distinct(a) && Distinct(b) && forall x :: x in a <==> x in b
    ensures multiset(a) == multiset(b)
  {
    forall x ensures multiset(a)[x] == multiset(b)[x] {
      DistinctCounts(a, x);
      DistinctCounts(b, x);
    }
  }

  /** A name tells its catalog: a namespace has no '/'. */
  lemma NameTellsCatalog(ns: string, id: string, ns': string, id': string)
    requires '/' !in ns && '/' !in ns' && ns + "/" + id == ns' + "/" + id'
    ensures ns == ns' && id == id'
  {
    assert ns + ['/'] + id == ns + "/" + id == ns' + "/" + id' == ns' + ['/'] + id';
    CutAround(ns, id, '/');
    CutAround(ns', id', '/');
  }

  /** No two catalogs publish under one name. */
  lemma OneEntryPerName(v: Inputs, id: string, id': string)
    requires CanPublish(v) && id in v.catalogs && id' in v.catalogs && Entry(v, id).catalog == Entry(v, id').catalog
    ensures id == id'
  {
    NameTellsCatalog(NamespaceOf(id, v.catalogs[id], v.overrides).value, id,
                     NamespaceOf(id', v.catalogs[id'], v.overrides).value, id');
  }

  /**
   Whatever order the map is visited in, and however its sort treats ties,
   publishing fails or succeeds alike, and when it succeeds gives one result.
   */
  lemma PublishIsDeterministic(v: Inputs, r: Result<PublishManifest, Error>, r': Result<PublishManifest, Error>)
    requires IsPublished(v, r) && IsPublished(v, r')
    ensures r.Ok? == r'.Ok?
    ensures r.Ok? ==> r == r'
  {
    if r.Ok? {
      var a, b := r.value.evaluates, r'.value.evaluates;
      forall e ensures e in a <==> e in b {
        assert e in a ==> IsEntry(v, e);
        assert e in b ==> IsEntry(v, e);
      }
      SameMultiset(a, b);
      CatalogLeIsTotalPreorder();
      forall x, y | x in a && y in a && Equivalent(CatalogLe, x, y) ensures x == y {
        TiesAreOne(v, x, y);
      }
      SortedUnique(CatalogLe, a, b);
    }
  }

  lemma TiesAreOne(v: Inputs, x: Evaluate, y: Evaluate)
    requires CanPublish(v) && IsEntry(v, x) && IsEntry(v, y) && Equivalent(CatalogLe, x, y)
    ensures x == y
  {
    StringLeTotal(x.catalog, y.catalog);
    var id :| id in v.catalogs && x == Entry(v, id);
    var id' :| id' in v.catalogs && y == Entry(v, id');
    OneEntryPerName(v, id, id');
  }

  // ---------------------------------------------------------------------
  // What is published, and why nothing is

  /** The namespace a catalog is published under: the override when there is one, and only else the author. */
  ghost predicate OwnedBy(v: Inputs, id: string, ns: string)
    requires id in v.catalogs
  {
    && (id in v.overrides ==> ns == TrimSpace(v.overrides[id]))
    && (id !in v.overrides ==> ns == TrimSpace(v.catalogs[id].authorId))
  }

  predicate ValidNamespace(ns: string)
  {
    ns != "" && '/' !in ns
  }

  /** What a catalog must have to be published. */
  ghost predicate Ready(v: Inputs, id: string)
    requires id in v.catalogs
  {
    && TrimSpace(v.catalogs[id].version) != ""
    && (exists x :: HasId(v.catalogs[id].controls, x))
    && exists ns :: OwnedBy(v, id, ns) && ValidNamespace(ns)
  }

  /** The entry declares this catalog: its owner's name for it, its version and its own ids, sorted. */
  ghost predicate Declares(v: Inputs, id: string, e: Evaluate)
  {
    && id in v.catalogs
    && (exists ns :: OwnedBy(v, id, ns) && e.catalog == ns + "/" + id)
    && e.catalogVersion == TrimSpace(v.catalogs[id].version)
    && Sorted(StringLe, e.requirementIds) && Distinct(e.requirementIds)
    && forall x :: x in e.requirementIds <==> HasId(v.catalogs[id].controls, x)
  }

  lemma EntryDeclares(v: Inputs, id: string)
    requires id in v.catalogs && Publishable(id, v.catalogs[id], v.overrides)
    ensures Declares(v, id, Entry(v, id))
  {
    var c := v.catalogs[id];
    var ns := NamespaceOf(id, c, v.overrides).value;
    assert OwnedBy(v, id, ns);
    forall x ensures x in RequirementIds(c.controls) <==> HasId(c.controls, x) {
      RequirementIdsAreOwn(c.controls, x);
    }
    RequirementIdsAreOwn(c.controls, "");
  }

  lemma ReadyIsPublishable(v: Inputs, id: string)
    requires id in v.catalogs
    ensures Ready(v, id) <==> Publishable(id, v.catalogs[id], v.overrides)
  {
    var c := v.catalogs[id];
    var ns := TrimSpace(if id in v.overrides then v.overrides[id] else c.authorId);
    assert OwnedBy(v, id, ns);
    HasOwnIds(c.controls);
  }

  lemma HasOwnIds(controls: seq<Control>)
    ensures OwnIds(controls) != [] <==> exists x :: HasId(controls, x)
  {
    if OwnIds(controls) != [] {
      OwnIdsMembers(controls, OwnIds(controls)[0]);
    }
    if x :| HasId(controls, x) {
      OwnIdsMembers(controls, x);
    }
  }

  /** Exactly when something can be published. */
  lemma CanPublishIff(v: Inputs)
    ensures CanPublish(v) <==>
      && TrimSpace(v.publisher) != "" && '/' !in TrimSpace(v.publisher)
      && TrimSpace(v.pluginName) != "" && '/' !in TrimSpace(v.pluginName)
      && TrimSpace(v.license) != "" && v.catalogs != map[]
      && forall id :: id in v.catalogs ==> Ready(v, id)
  {
    forall id | id in v.catalogs ensures Ready(v, id) <==> Publishable(id, v.catalogs[id], v.overrides) {
      ReadyIsPublishable(v, id);
    }
  }

  /** What a successful publication says: every entry declares a catalog. */
  lemma PublishedDeclares(v: Inputs, r: Result<PublishManifest, Error>, e: Evaluate) returns (id: string)
    requires IsPublished(v, r) && r.Ok? && e in r.value.evaluates
    ensures Declares(v, id, e)
  {
    assert IsEntry(v, e);
    id :| id in v.catalogs && e == Entry(v, id);
    EntryDeclares(v, id);
  }

  /** The entries are in the order of their names. */
  lemma PublishedInOrder(v: Inputs, r: Result<PublishManifest, Error>, i: nat, j: nat)
    requires IsPublished(v, r) && r.Ok? && i < j < |r.value.evaluates|
    ensures StringLe(r.value.evaluates[i].catalog, r.value.evaluates[j].catalog)
  {
    assert CatalogLe(r.value.evaluates[i], r.value.evaluates[j]);
  }

  /** And every catalog is declared by exactly one of them. */
  lemma PublishedOnce(v: Inputs, r: Result<PublishManifest, Error>, id: string) returns (i: nat)
    requires IsPublished(v, r) && r.Ok? && id in v.catalogs
    ensures i < |r.value.evaluates| && Declares(v, id, r.value.evaluates[i])
    ensures forall j :: 0 <= j < |r.value.evaluates| && Declares(v, id, r.value.evaluates[j]) ==> j == i
  {
    var evals := r.value.evaluates;
    assert Entry(v, id) in evals;
    i :| 0 <= i < |evals| && evals[i] == Entry(v, id);
    EntryDeclares(v, id);
    forall j | 0 <= j < |evals| && Declares(v, id, evals[j]) ensures j == i {
      OneDeclaration(v, evals, id, j, i);
    }
  }

  lemma OneDeclaration(v: Inputs, evals: seq<Evaluate>, id: string, i: nat, j: nat)
    requires CanPublish(v) && DeclaresAll(v, evals) && i < |evals| && j < |evals|
    requires Declares(v, id, evals[i]) && Declares(v, id, evals[j])
    ensures i == j
  {
    assert evals[i] in evals && evals[j] in evals;
    var a :| a in v.catalogs && evals[i] == Entry(v, a);
    var b :| b in v.catalogs && evals[j] == Entry(v, b);
    assert evals[i].catalog == evals[j].catalog;
    OneEntryPerName(v, a, b);
  }

  /**
   Why nothing was published: the field checks in their order, and a catalog that is not
   ready, with what it lacks.
   */
  ghost predicate Explains(v: Inputs, e: Error)
  {
    var publisher, pluginId := TrimSpace(v.publisher), TrimSpace(v.pluginName);
    match e
    case NoPublisher => publisher == ""
    case NoPluginName => publisher != "" && pluginId == ""
    case Slash => publisher != "" && pluginId != "" && ('/' in publisher || '/' in pluginId)
    case NoLicense => publisher != "" && pluginId != "" && '/' !in publisher && '/' !in pluginId
                      && TrimSpace(v.license) == ""
    case NoCatalogs => publisher != "" && pluginId != "" && '/' !in publisher && '/' !in pluginId
                       && TrimSpace(v.license) != "" && v.catalogs == map[]
    case NoVersion(id) => Complete(v) && id in v.catalogs && TrimSpace(v.catalogs[id].version) == ""
    case NoControls(id) => Complete(v) && id in v.catalogs && TrimSpace(v.catalogs[id].version) != ""
                           && forall x :: !HasId(v.catalogs[id].controls, x)
    case NoNamespace(id) => Complete(v) && id in v.catalogs && TrimSpace(v.catalogs[id].version) != ""
                            && (exists x :: HasId(v.catalogs[id].controls, x))
                            && forall ns :: OwnedBy(v, id, ns) ==> !ValidNamespace(ns)
  }

  /** The entries gathered over the map. */
  ghost predicate Gathered(v: Inputs, ids: seq<string>, evals: seq<Evaluate>)
  {
    && |ids| == |evals| && Distinct(ids)
    && forall i :: 0 <= i < |ids| ==> ids[i] in v.catalogs && evals[i] == Entry(v, ids[i])
  }

  lemma GatherOne(v: Inputs, ids: seq<string>, evals: seq<Evaluate>, id: string)
    requires Gathered(v, ids, evals) && id in v.catalogs && id !in ids
    ensures Gathered(v, ids + [id], evals + [Entry(v, id)])
  {
  }

  /** Put in order. */
  lemma SortedDeclaresAll(v: Inputs, ids: seq<string>, evals: seq<Evaluate>, sorted: seq<Evaluate>)
    requires CanPublish(v) && Gathered(v, ids, evals) && forall id :: id in v.catalogs ==> id in ids
    requires Sorted(CatalogLe, sorted) && multiset(sorted) == multiset(evals)
    ensures DeclaresAll(v, sorted)
  {
    forall i, j | 0 <= i < j < |evals| ensures evals[i] != evals[j] {
      if evals[i] == evals[j] {
        OneEntryPerName(v, ids[i], ids[j]);
      }
    }
    StillDistinct(evals, sorted);
    forall id | id in v.catalogs ensures Entry(v, id) in sorted {
      var i :| 0 <= i < |ids| && ids[i] == id;
      InPermutation(sorted, evals, evals[i]);
    }
    forall e | e in sorted ensures IsEntry(v, e) {
      InPermutation(sorted, evals, e);
      var i :| 0 <= i < |evals| && evals[i] == e;
    }
  }

  lemma StillDistinct<T>(a: seq<T>, b: seq<T>)
    requires Distinct(a) && multiset(a) == multiset(b)
    ensures Distinct(b)
  {
    forall i, j | 0 <= i < j < |b| ensures b[i] != b[j] {
      DistinctCounts(a, b[i]);
      assert b == b[..j] + b[j..];
      assert b[i] in multiset(b[..j]) && b[j] in multiset(b[j..]);
      assert multiset(b) == multiset(b[..j]) + multiset(b[j..]);
    }
  }

  // ---------------------------------------------------------------------
  // The objects

  /** A catalog, shared by every suite that evaluates it and by the manifest. */
  class Catalog {
    var id: string
    var version: string
    var authorId: string
    var controls: seq<Control>
    var imports: seq<Import>

    function State(): CatalogState
      reads this
    {
      CatalogState(id, version, authorId, controls, imports)
    }

    constructor (c: CatalogState)
      ensures State() == c
    {
      id, version, authorId, controls, imports := c.id, c.version, c.authorId, c.controls, c.imports;
    }
  }

  datatype Suite = Suite(catalogId: string, catalog: Catalog)

  datatype RegistrationError = BadCatalog

  class Orchestrator {
    var publisher: string
    var pluginName: string
    var license: string
    var catalogNamespaces: map<string, string>
    var referenceCatalogs: map<string, Catalog>
    var possibleSuites: seq<Suite>

    function View(): Inputs
      reads this`publisher, this`pluginName, this`license, this`catalogNamespaces, this`referenceCatalogs,
        referenceCatalogs.Values
    {
      Inputs(publisher, pluginName, license, map k | k in referenceCatalogs ::
        referenceCatalogs[k].State(), catalogNamespaces)
    }

    /** The inner loop, over the ids of one reference. */
    method AddEntries(before: seq<Control>, controls: seq<Control>, entries: seq<string>) returns (found: seq<Control>)
      ensures found == before + Taken(controls, entries)
    {
      found := before;
      for j := 0 to |entries|
        invariant found == before + Taken(controls, entries[..j])
      {
        assert entries[..j + 1][..j] == entries[..j];
        var c := FindControl(controls, entries[j]);
        found := found + match c case Some(control) => [control] case None => [];
      }
      assert entries[..|entries|] == entries;
    }

    method GetImportedControls(catalog: Catalog) returns (found: seq<Control>)
      ensures found == Imported(catalog.imports, View().catalogs)
    {
      found := [];
      ghost var catalogs := View().catalogs;
      for i := 0 to |catalog.imports|
        invariant found == Imported(catalog.imports[..i], catalogs)
      {
        assert catalog.imports[..i + 1][..i] == catalog.imports[..i];
        var entry := catalog.imports[i];
        if entry.referenceId !in referenceCatalogs {
          continue;
        }
        var controls := referenceCatalogs[entry.referenceId].controls;
        found := AddEntries(found, controls, entry.entries);
      }
      assert catalog.imports[..|catalog.imports|] == catalog.imports;
    }

    method FindControl(controls: seq<Control>, id: string) returns (r: Option<Control>)
      ensures r == FirstWithId(controls, id)
    {
      for k := 0 to |controls|
        invariant FirstWithId(controls[k..], id) == FirstWithId(controls, id)
      {
        assert controls[k..][1..] == controls[k + 1..];
        if controls[k].id == id {
          return Some(controls[k]);
        }
      }
      r := None;
    }

    ghost predicate Registered(id: string)
      reads this`possibleSuites
    {
      exists i :: 0 <= i < |possibleSuites| && possibleSuites[i].catalogId == id
    }

    /** A suite evaluates its catalog's own controls and then the imported ones. */
    ghost predicate Evaluates(s: Suite, c: CatalogState, catalogs: Catalogs)
      reads s.catalog
    {
      s.catalogId == c.id && s.catalog.State() == c.(controls := c.controls + Imported(c.imports, catalogs))
    }

    /**
     Register a catalog's suite once. Only the list of suites changes: imported
     controls go into a copy, and a catalog without imports is shared as it is.
     */
    method Register(catalog: Catalog)
      modifies this`possibleSuites
      ensures old(Registered(catalog.id)) ==> possibleSuites == old(possibleSuites)
      ensures !old(Registered(catalog.id)) ==>
        && |possibleSuites| == |old(possibleSuites)| + 1
        && possibleSuites[..|old(possibleSuites)|] == old(possibleSuites)
        && Evaluates(possibleSuites[|old(possibleSuites)|], catalog.State(), View().catalogs)
        && catalog.controls <= possibleSuites[|old(possibleSuites)|].catalog.controls
        && (if Imported(catalog.imports, View().catalogs) == [] then possibleSuites[|old(possibleSuites)|].catalog ==
          catalog
            else fresh(possibleSuites[|old(possibleSuites)|].catalog))
    {
      for i := 0 to |possibleSuites|
        invariant possibleSuites == old(possibleSuites)
        invariant forall j :: 0 <= j < i ==> possibleSuites[j].catalogId != catalog.id
      {
        if possibleSuites[i].catalogId == catalog.id {
          return;
        }
      }
      var suiteCatalog := SuiteCatalog(catalog);
      possibleSuites := possibleSuites + [Suite(catalog.id, suiteCatalog)];
    }

    /** The catalog as it is, or a copy with what it imports. */
    method SuiteCatalog(catalog: Catalog) returns (suiteCatalog: Catalog)
      ensures Evaluates(Suite(catalog.id, suiteCatalog), catalog.State(), View().catalogs)
      ensures if Imported(catalog.imports, View().catalogs) == [] then suiteCatalog == catalog else fresh(suiteCatalog)
    {
      var importedControls := GetImportedControls(catalog);
      suiteCatalog := catalog;
      if |importedControls| > 0 {
        suiteCatalog := new Catalog(catalog.State().(controls := catalog.controls + importedControls));
      } else {
        assert catalog.controls + importedControls == catalog.controls;
      }
    }

    method AddEvaluationSuite(catalogId: string) returns (r: Result<(), RegistrationError>)
      modifies this`possibleSuites
      ensures r.Ok? <==> catalogId != "" && catalogId in View().catalogs
                         && View().catalogs[catalogId].controls != [] && View().catalogs[catalogId].id != ""
      ensures r.Err? ==> possibleSuites == old(possibleSuites)
      ensures r.Ok? ==> Registered(View().catalogs[catalogId].id)
      ensures old(possibleSuites) <= possibleSuites && View() == old(View())
    {
      if catalogId == "" {
        return Err(BadCatalog);
      }
      if catalogId in referenceCatalogs {
        var catalog := referenceCatalogs[catalogId];
        if |catalog.controls| == 0 {
          return Err(BadCatalog);
        }
        if catalog.id == "" {
          return Err(BadCatalog);
        }
        Register(catalog);
        return Ok(());
      }
      r := Err(BadCatalog);
    }

    /** Any sequence of registrations, failing or not, leaves the manifest's inputs alone. */
    method RegisterAll(catalogIds: seq<string>)
      modifies this`possibleSuites
      ensures View() == old(View()) && old(possibleSuites) <= possibleSuites
    {
      for i := 0 to |catalogIds|
        invariant View() == old(View()) && old(possibleSuites) <= possibleSuites
      {
        var _ := AddEvaluationSuite(catalogIds[i]);
      }
    }

    method SortedIds(controls: seq<Control>) returns (reqs: seq<string>)
      ensures reqs == RequirementIds(controls)
    {
      var seen: set<string> := {};
      reqs := [];
      for i := 0 to |controls|
        invariant reqs == OwnIds(controls[..i]) && forall x :: x in seen <==> x in reqs
      {
        assert controls[..i + 1][..i] == controls[..i];
        if controls[i].id != "" && controls[i].id !in seen {
          seen := seen + {controls[i].id};
          reqs := reqs + [controls[i].id];
        }
      }
      assert controls[..|controls|] == controls;
      reqs := Sort(StringLe, reqs);
    }

    /** These are the catalogs and the overrides. */
    ghost predicate Holds(v: Inputs)
      reads this`catalogNamespaces, this`referenceCatalogs, referenceCatalogs.Values
    {
      && v.overrides == catalogNamespaces && v.catalogs.Keys == referenceCatalogs.Keys
      && forall id :: id in referenceCatalogs ==> v.catalogs[id] == referenceCatalogs[id].State()
    }

    method Declare(id: string, catalog: Catalog, ghost v: Inputs) returns (e: Result<Evaluate, Error>)
      requires v.overrides == catalogNamespaces && id in v.catalogs && v.catalogs[id] == catalog.State()
      ensures e.Ok? <==> Publishable(id, v.catalogs[id], v.overrides)
      ensures e.Ok? ==> e.value == Entry(v, id)
      ensures e.Err? && Complete(v) ==> Explains(v, e.error)
    {
      HasOwnIds(v.catalogs[id].controls);
      var version := TrimSpace(catalog.version);
      if version == "" {
        return Err(NoVersion(id));
      }
      var reqs := SortedIds(catalog.controls);
      if |reqs| == 0 {
        return Err(NoControls(id));
      }
      var ns := TrimSpace(catalog.authorId);
      if id in catalogNamespaces {
        var override := TrimSpace(catalogNamespaces[id]);
        if override == "" || '/' in override {
          return Err(NoNamespace(id));
        }
        ns := override;
      }
      if ns == "" || '/' in ns {
        return Err(NoNamespace(id));
      }
      e := Ok(Evaluate(ns + "/" + id, version, reqs));
    }

    /** Ranging over the catalogs in whatever order, up to the first that cannot be published. */
    method Gather(ghost v: Inputs) returns (r: Result<seq<Evaluate>, Error>, ghost ids: seq<string>)
      requires Holds(v)
      ensures r.Ok? <==> AllPublishable(v)
      ensures r.Err? && Complete(v) ==> Explains(v, r.error)
      ensures r.Ok? ==> Gathered(v, ids, r.value) && forall id :: id in v.catalogs ==> id in ids
    {
      var evals: seq<Evaluate> := [];
      ids := [];
      var pending := referenceCatalogs.Keys;
      while pending != {}
        invariant pending <= referenceCatalogs.Keys && Gathered(v, ids, evals)
        invariant forall id :: id in v.catalogs ==> (id in pending <==> id !in ids)
        invariant forall id :: id in ids ==> Publishable(id, v.catalogs[id], v.overrides)
        decreases pending
      {
        var id :| id in pending;
        pending := pending - {id};
        var e := Declare(id, referenceCatalogs[id], v);
        if e.Err? {
          return Err(e.error), ids;
        }
        GatherOne(v, ids, evals, id);
        evals, ids := evals + [e.value], ids + [id];
      }
      r := Ok(evals);
    }

    /** What can be checked before any catalog is read: the coordinate and the license. */
    method CheckFields(ghost v: Inputs) returns (r: Result<(string, string), Error>)
      requires v.publisher == publisher && v.pluginName == pluginName && v.license == license
      requires v.catalogs.Keys == referenceCatalogs.Keys
      ensures r.Ok? <==> Complete(v)
      ensures r.Err? ==> Explains(v, r.error)
      ensures r.Ok? ==> r.value == (TrimSpace(v.publisher) + "/" + TrimSpace(v.pluginName), TrimSpace(v.license))
    {
      var publisherId := TrimSpace(publisher);
      if publisherId == "" {
        return Err(NoPublisher);
      }
      var pluginId := TrimSpace(pluginName);
      if pluginId == "" {
        return Err(NoPluginName);
      }
      if '/' in publisherId || '/' in pluginId {
        return Err(Slash);
      }
      var licenseId := TrimSpace(license);
      if licenseId == "" {
        return Err(NoLicense);
      }
      if |referenceCatalogs| == 0 {
        return Err(NoCatalogs);
      }
      r := Ok((publisherId + "/" + pluginId, licenseId));
    }

    /** `v` names what the orchestrator holds. */
    method Publish(ghost v: Inputs) returns (r: Result<PublishManifest, Error>)
      requires v == View()
      ensures IsPublished(v, r)
      ensures r.Err? ==> Explains(v, r.error)
    {
      var fields := CheckFields(v);
      if fields.Err? {
        return Err(fields.error);
      }
      var evals;
      ghost var ids;
      evals, ids := Gather(v);
      if evals.Err? {
        return Err(evals.error);
      }
      CatalogLeIsTotalPreorder();
      var sorted := SortFunc(CatalogLe, evals.value);
      SortedDeclaresAll(v, ids, evals.value, sorted);
      r := Ok(PublishManifest(fields.value.0, fields.value.1, sorted));
    }
  }

  method PublishOnce(v: Orchestrator, ghost inputs: Inputs) returns (r: Result<PublishManifest, Error>)
    requires inputs == v.View()
    ensures IsPublished(inputs, r)
  {
    r := v.Publish(inputs);
  }

  /**
   Publishing before and after any registrations gives the same: both succeed
   with one manifest, or both fail.
   */
  method PublishAroundRegistrations(v: Orchestrator, catalogIds: seq<string>)
      returns (before: Result<PublishManifest, Error>, after: Result<PublishManifest, Error>)
    modifies v`possibleSuites
    ensures before.Ok? == after.Ok? && (before.Ok? ==> before == after)
    ensures IsPublished(old(v.View()), before)
  {
    ghost var inputs := v.View();
    before := PublishOnce(v, inputs);
    v.RegisterAll(catalogIds);
    after := PublishOnce(v, inputs);
    PublishIsDeterministic(inputs, before, after);
  }
}
