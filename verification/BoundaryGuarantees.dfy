/** What an empty report of the package-boundary check means, and that the report does not depend
    on the order in which directories were read. */
module BoundaryGuarantees {
  import opened OrderedMap
  import opened ModuleSpecifiers
  import opened SortedLines
  import opened PackageBoundaries

  /** Package directories are entries of `apps` or `packages`: two levels below the root and
      pairwise different. Names are not checked by the source; they are unique here. */
  ghost predicate WellFormed(ws: Workspace) {
    && (forall i :: 0 <= i < |ws.packages| ==> |ws.packages[i].owner.dir| == |ws.root| + 2)
    && (forall i, j :: 0 <= i < j < |ws.packages| ==> ws.packages[i].owner.dir != ws.packages[j].owner.dir)
    && (forall i, j :: 0 <= i < j < |ws.packages| ==> ws.packages[i].owner.manifest.name != ws.packages[j].owner.manifest.name)
  }

  ghost predicate HasOwner(packages: seq<Entry>, o: Owner) {
    exists i :: 0 <= i < |packages| && packages[i].owner == o
  }

  /** Some file of the list at this path has this specifier. */
  ghost predicate Imports(files: seq<File>, file: Path, raw: string) {
    exists i :: 0 <= i < |files| && files[i].path == file && raw in files[i].specifiers
  }

  // ------------------------------------------------------------ lookups

  lemma {:induction false} OwnerForPathFinds(file: Path, packages: seq<Entry>)
    ensures OwnerForPath(file, packages).Some? ==>
      var o := OwnerForPath(file, packages).value;
      HasOwner(packages, o) && o.dir <= file
    ensures OwnerForPath(file, packages).None? ==> forall o :: HasOwner(packages, o) ==> !(o.dir <= file)
  {
    if packages != [] {
      OwnerForPathFinds(file, packages[1..]);
      HasOwnerHead(packages);
    }
  }

  lemma HasOwnerHead(packages: seq<Entry>)
    requires packages != []
    ensures forall o :: HasOwner(packages, o) <==> o == packages[0].owner || HasOwner(packages[1..], o)
  {
    forall o | HasOwner(packages[1..], o) ensures HasOwner(packages, o) {
      var i :| 0 <= i < |packages[1..]| && packages[1..][i].owner == o;
      assert packages[i + 1].owner == o;
    }
    forall o | HasOwner(packages, o) && o != packages[0].owner ensures HasOwner(packages[1..], o) {
      var i :| 0 <= i < |packages| && packages[i].owner == o;
      assert packages[1..][i - 1].owner == o;
    }
  }

  /** At most one package owns a path. */
  lemma OwnerForPathIff(ws: Workspace, file: Path, o: Owner)
    requires WellFormed(ws)
    ensures OwnerForPath(file, ws.packages) == Some(o) <==> HasOwner(ws.packages, o) && o.dir <= file
  {
    OwnerForPathFinds(file, ws.packages);
    if HasOwner(ws.packages, o) && o.dir <= file {
      var p := OwnerForPath(file, ws.packages).value;
      var i :| 0 <= i < |ws.packages| && ws.packages[i].owner == o;
      var j :| 0 <= j < |ws.packages| && ws.packages[j].owner == p;
      assert o.dir == file[..|ws.root| + 2] == p.dir;
      assert i == j;
    }
  }

  lemma {:induction false} PackageNamedFinds(packages: seq<Entry>, name: string)
    ensures PackageNamed(packages, name).Some? ==>
      HasOwner(packages, PackageNamed(packages, name).value) && PackageNamed(packages, name).value.manifest.name == name
    ensures PackageNamed(packages, name).None? ==> forall o :: HasOwner(packages, o) ==> o.manifest.name != name
  {
    if packages != [] {
      var n := |packages| - 1;
      PackageNamedFinds(packages[..n], name);
      forall o ensures HasOwner(packages, o) <==> HasOwner(packages[..n], o) || o == packages[n].owner {
        if HasOwner(packages[..n], o) {
          var i :| 0 <= i < n && packages[..n][i].owner == o;
          assert packages[i].owner == o;
        }
        if HasOwner(packages, o) && o != packages[n].owner {
          var i :| 0 <= i < |packages| && packages[i].owner == o;
          assert packages[..n][i].owner == o;
        }
      }
    }
  }

  lemma PackageNamedIff(ws: Workspace, name: string, o: Owner)
    requires WellFormed(ws)
    ensures PackageNamed(ws.packages, name) == Some(o) <==> HasOwner(ws.packages, o) && o.manifest.name == name
  {
    PackageNamedFinds(ws.packages, name);
    if HasOwner(ws.packages, o) && o.manifest.name == name {
      var p := PackageNamed(ws.packages, name).value;
      var i :| 0 <= i < |ws.packages| && ws.packages[i].owner == o;
      var j :| 0 <= j < |ws.packages| && ws.packages[j].owner == p;
      assert i == j;
    }
  }

  // ------------------------------------------------------ the declared relation

  /** A relative import stays out of `ee` and inside its own package, if it is in any. */
  ghost predicate RelativeAllowed(ws: Workspace, owner: Owner, path: Path) {
    && !(ws.root + ["ee"] <= path)
    && forall o :: HasOwner(ws.packages, o) && o.dir <= path ==> o == owner
  }

  /** A package import is of a declared dependency other than the package itself, outside the
      database boundary; a workspace target is no app of a package and exports the subpath. */
  ghost predicate BareAllowed(ws: Workspace, owner: Owner, file: Path, specifier: string) {
    var dependency := DependencyName(specifier);
    && !ForbidsDatabaseDependency(ws.root, file, specifier, dependency)
    && dependency != owner.manifest.name
    && dependency in owner.manifest.declared
    && forall o :: HasOwner(ws.packages, o) && o.manifest.name == dependency ==>
         !(owner.kind.PackageKind? && o.kind.AppKind?) && IsExported(o.manifest.exports, Subpath(specifier))
  }

  predicate Bare(raw: string) {
    !IsIgnored(raw) && !StartsWith(CutQuery(raw), ".")
  }

  predicate IsBuiltin(ws: Workspace, specifier: string) {
    StartsWith(specifier, "node:") || specifier in ws.builtins
  }

  ghost predicate Allowed(ws: Workspace, owner: Owner, file: Path, raw: string) {
    || IsIgnored(raw)
    || (StartsWith(CutQuery(raw), ".") && RelativeAllowed(ws, owner, Resolve(file, CutQuery(raw))))
    || (Bare(raw) && (IsBuiltin(ws, CutQuery(raw)) || BareAllowed(ws, owner, file, CutQuery(raw))))
  }

  ghost predicate DependencyAllowed(ws: Workspace, owner: Owner, dependency: string) {
    && !ForbidsWorkspaceDependency(owner.manifest.name, dependency)
    && forall o :: HasOwner(ws.packages, o) && o.manifest.name == dependency ==> !(owner.kind.PackageKind? && o.kind.AppKind?)
  }

  /** The boundary relation holds on every manifest and every specifier. */
  ghost predicate BoundariesHold(ws: Workspace) {
    forall i :: 0 <= i < |ws.packages| ==> EntryAllowed(ws, ws.packages[i])
  }

  ghost predicate EntryAllowed(ws: Workspace, entry: Entry) {
    && (forall d :: d in entry.owner.manifest.declared ==> DependencyAllowed(ws, entry.owner, d))
    && forall file, raw :: Imports(entry.files, file, raw) ==> Allowed(ws, entry.owner, file, raw)
  }

  lemma RelativeDecides(ws: Workspace, owner: Owner, file: Path, raw: string)
    requires WellFormed(ws)
    ensures RelativeViolation(ws, owner, file, raw).None? <==> RelativeAllowed(ws, owner, Resolve(file, CutQuery(raw)))
  {
    var path := Resolve(file, CutQuery(raw));
    OwnerForPathFinds(path, ws.packages);
    forall o ensures OwnerForPath(path, ws.packages) == Some(o) <==> HasOwner(ws.packages, o) && o.dir <= path {
      OwnerForPathIff(ws, path, o);
    }
  }

  lemma BareDecides(ws: Workspace, owner: Owner, file: Path, raw: string)
    requires WellFormed(ws)
    ensures BareViolation(ws, owner, file, raw).None? <==>
      IsBuiltin(ws, CutQuery(raw)) || BareAllowed(ws, owner, file, CutQuery(raw))
  {
    var dependency := DependencyName(CutQuery(raw));
    PackageNamedFinds(ws.packages, dependency);
    forall o ensures PackageNamed(ws.packages, dependency) == Some(o) <==> HasOwner(ws.packages, o) && o.manifest.name == dependency {
      PackageNamedIff(ws, dependency, o);
    }
  }

  lemma SpecifierDecides(ws: Workspace, owner: Owner, file: Path, raw: string)
    requires WellFormed(ws)
    ensures SpecifierViolation(ws, owner, file, raw).None? <==> Allowed(ws, owner, file, raw)
  {
    RelativeDecides(ws, owner, file, raw);
    BareDecides(ws, owner, file, raw);
  }

  lemma DependencyDecides(ws: Workspace, owner: Owner, dependency: string)
    requires WellFormed(ws)
    ensures ManifestViolations(ws, owner, dependency) == [] <==> DependencyAllowed(ws, owner, dependency)
  {
    PackageNamedFinds(ws.packages, dependency);
    forall o ensures PackageNamed(ws.packages, dependency) == Some(o) <==> HasOwner(ws.packages, o) && o.manifest.name == dependency {
      PackageNamedIff(ws, dependency, o);
    }
  }

  // ----------------------------------------------------- what the loops collect

  lemma {:induction false} DeclaredCollects(ws: Workspace, owner: Owner, declared: seq<string>, v: Violation)
    ensures v in DeclaredViolations(ws, owner, declared) <==>
      exists d :: d in declared && v in ManifestViolations(ws, owner, d)
  {
    if declared != [] {
      var n := |declared| - 1;
      DeclaredCollects(ws, owner, declared[..n], v);
      assert declared == declared[..n] + [declared[n]];
    }
  }

  lemma {:induction false} FileCollects(ws: Workspace, owner: Owner, file: Path, specifiers: seq<string>, v: Violation)
    ensures v in FileViolations(ws, owner, file, specifiers) <==>
      exists raw :: raw in specifiers && SpecifierViolation(ws, owner, file, raw) == Some(v)
  {
    if specifiers != [] {
      var n := |specifiers| - 1;
      FileCollects(ws, owner, file, specifiers[..n], v);
      FileStep(FileViolations(ws, owner, file, specifiers[..n]), SpecifierViolation(ws, owner, file, specifiers[n]), v);
      assert specifiers == specifiers[..n] + [specifiers[n]];
    }
  }

  lemma FileStep(before: seq<Violation>, last: Option<Violation>, v: Violation)
    ensures v in before + (if last.Some? then [last.value] else []) <==> v in before || last == Some(v)
  {
  }

  /** Some import of the files is answered with `v`. */
  ghost predicate FileFinding(ws: Workspace, owner: Owner, files: seq<File>, v: Violation) {
    exists file, raw :: Imports(files, file, raw) && SpecifierViolation(ws, owner, file, raw) == Some(v)
  }

  lemma {:induction false} FilesCollect(ws: Workspace, owner: Owner, files: seq<File>, v: Violation)
    ensures v in FilesViolations(ws, owner, files) <==> FileFinding(ws, owner, files, v)
  {
    if files != [] {
      var n := |files| - 1;
      FilesCollect(ws, owner, files[..n], v);
      FileCollects(ws, owner, files[n].path, files[n].specifiers, v);
      ImportsLast(files);
    }
  }

  lemma ImportsLast(files: seq<File>)
    requires files != []
    ensures forall file, raw :: Imports(files, file, raw) <==>
      Imports(files[..|files| - 1], file, raw) || (file == files[|files| - 1].path && raw in files[|files| - 1].specifiers)
  {
    var n := |files| - 1;
    forall file, raw | Imports(files[..n], file, raw) ensures Imports(files, file, raw) {
      var i :| 0 <= i < n && files[..n][i].path == file && raw in files[..n][i].specifiers;
      assert files[i].path == file && raw in files[i].specifiers;
    }
    forall file, raw | Imports(files, file, raw) && !(file == files[n].path && raw in files[n].specifiers)
      ensures Imports(files[..n], file, raw)
    {
      var i :| 0 <= i < |files| && files[i].path == file && raw in files[i].specifiers;
      assert files[..n][i].path == file && raw in files[..n][i].specifiers;
    }
  }

  ghost predicate EntryFinding(ws: Workspace, entry: Entry, v: Violation) {
    || (exists d :: d in entry.owner.manifest.declared && v in ManifestViolations(ws, entry.owner, d))
    || FileFinding(ws, entry.owner, entry.files, v)
  }

  lemma EntryCollects(ws: Workspace, entry: Entry, v: Violation)
    ensures EntryFinding(ws, entry, v) <==>
      v in DeclaredViolations(ws, entry.owner, entry.owner.manifest.declared) + FilesViolations(ws, entry.owner, entry.files)
  {
    DeclaredCollects(ws, entry.owner, entry.owner.manifest.declared, v);
    FilesCollect(ws, entry.owner, entry.files, v);
  }

  lemma {:induction false} PackagesCollect(ws: Workspace, packages: seq<Entry>, v: Violation)
    ensures v in AllViolations(ws, packages) <==> exists i :: 0 <= i < |packages| && EntryFinding(ws, packages[i], v)
  {
    if packages != [] {
      var n := |packages| - 1;
      PackagesCollect(ws, packages[..n], v);
      EntryCollects(ws, packages[n], v);
      assert forall i :: 0 <= i < n ==> packages[..n][i] == packages[i];
    }
  }

  // --------------------------------------------------------------- the decision

  ghost predicate Finds(ws: Workspace, v: Violation) {
    exists i :: 0 <= i < |ws.packages| && EntryFinding(ws, ws.packages[i], v)
  }

  lemma ReportMeans(ws: Workspace)
    ensures Report(ws) == [] <==> forall v :: !Finds(ws, v)
  {
    var all := AllViolations(ws, ws.packages);
    ReportEmptyIff(ws);
    ViolationsHead(all);
    forall v ensures v in all <==> Finds(ws, v) {
      PackagesCollect(ws, ws.packages, v);
    }
  }

  lemma ReportEmptyIff(ws: Workspace)
    ensures Report(ws) == [] <==> AllViolations(ws, ws.packages) == []
  {
    var lines := Lines(ws.root, AllViolations(ws, ws.packages));
    SortUniqueSorts(lines);
    HeadIsLine(lines);
    HeadIsLine(SortUnique(lines));
  }

  lemma ViolationsHead(violations: seq<Violation>)
    ensures violations == [] || violations[0] in violations
  {
  }

  /** Nothing is found in the entry: its manifest and all its imports are in order. */
  lemma CleanEntry(ws: Workspace, entry: Entry)
    ensures (forall v :: !EntryFinding(ws, entry, v)) <==>
      && (forall d :: d in entry.owner.manifest.declared ==> ManifestViolations(ws, entry.owner, d) == [])
      && forall file, raw :: Imports(entry.files, file, raw) ==> SpecifierViolation(ws, entry.owner, file, raw).None?
  {
    var owner, declared := entry.owner, entry.owner.manifest.declared;
    if forall v :: !EntryFinding(ws, entry, v) {
      forall d | d in declared ensures ManifestViolations(ws, owner, d) == [] {
        var found := ManifestViolations(ws, owner, d);
        assert forall v :: v in found ==> EntryFinding(ws, entry, v);
        ViolationsHead(found);
      }
      forall file, raw | Imports(entry.files, file, raw) ensures SpecifierViolation(ws, owner, file, raw).None? {
        var found := SpecifierViolation(ws, owner, file, raw);
        assert found.Some? ==> EntryFinding(ws, entry, found.value);
      }
    }
  }

  lemma EntryDecides(ws: Workspace, entry: Entry)
    requires WellFormed(ws)
    ensures (forall v :: !EntryFinding(ws, entry, v)) <==> EntryAllowed(ws, entry)
  {
    CleanEntry(ws, entry);
    forall d ensures ManifestViolations(ws, entry.owner, d) == [] <==> DependencyAllowed(ws, entry.owner, d) {
      DependencyDecides(ws, entry.owner, d);
    }
    forall file, raw ensures SpecifierViolation(ws, entry.owner, file, raw).None? <==> Allowed(ws, entry.owner, file, raw) {
      SpecifierDecides(ws, entry.owner, file, raw);
    }
  }

  /** The check decides the boundary relation: its report is empty if and only if the relation
      holds on every manifest entry and every import. */
  lemma CheckDecides(ws: Workspace)
    requires WellFormed(ws)
    ensures Report(ws) == [] <==> BoundariesHold(ws)
  {
    ReportMeans(ws);
    forall i | 0 <= i < |ws.packages| ensures (forall v :: !EntryFinding(ws, ws.packages[i], v)) <==> EntryAllowed(ws, ws.packages[i]) {
      EntryDecides(ws, ws.packages[i]);
    }
    if BoundariesHold(ws) {
      forall v ensures !Finds(ws, v) {
      }
    }
    if forall v :: !Finds(ws, v) {
      forall i | 0 <= i < |ws.packages| ensures EntryAllowed(ws, ws.packages[i]) {
        assert forall v :: EntryFinding(ws, ws.packages[i], v) ==> Finds(ws, v);
      }
    }
  }

  // ---------------------------------------------------------- order independence

  ghost predicate SameEntries(a: seq<Entry>, b: seq<Entry>) {
    forall x :: x in a ==> HasEntry(b, x)
  }

  ghost predicate HasEntry(b: seq<Entry>, x: Entry) {
    exists j :: 0 <= j < |b| && SameEntry(x, b[j])
  }

  /** The same package, its files and specifiers listed in any order. */
  ghost predicate SameEntry(a: Entry, b: Entry) {
    a.owner == b.owner && forall file, raw :: Imports(a.files, file, raw) <==> Imports(b.files, file, raw)
  }

  ghost predicate Rearranged(a: Workspace, b: Workspace) {
    && WellFormed(a) && WellFormed(b)
    && a.root == b.root && a.builtins == b.builtins
    && SameEntries(a.packages, b.packages) && SameEntries(b.packages, a.packages)
  }

  lemma SameOwners(a: seq<Entry>, b: seq<Entry>, o: Owner)
    requires SameEntries(a, b) && HasOwner(a, o)
    ensures HasOwner(b, o)
  {
    var i :| 0 <= i < |a| && a[i].owner == o;
    assert HasEntry(b, a[i]);
  }

  /** The same packages at the same place, whatever their files. */
  ghost predicate SamePackages(a: Workspace, b: Workspace) {
    && WellFormed(a) && WellFormed(b)
    && a.root == b.root && a.builtins == b.builtins
    && forall o :: HasOwner(a.packages, o) <==> HasOwner(b.packages, o)
  }

  lemma RearrangedHaveSamePackages(a: Workspace, b: Workspace)
    requires Rearranged(a, b)
    ensures SamePackages(a, b)
  {
    forall o ensures HasOwner(a.packages, o) <==> HasOwner(b.packages, o) {
      if HasOwner(a.packages, o) { SameOwners(a.packages, b.packages, o); }
      if HasOwner(b.packages, o) { SameOwners(b.packages, a.packages, o); }
    }
  }

  lemma SameOwnerForPath(a: Workspace, b: Workspace, file: Path)
    requires SamePackages(a, b)
    ensures OwnerForPath(file, a.packages) == OwnerForPath(file, b.packages)
  {
    forall o ensures OwnerForPath(file, a.packages) == Some(o) <==> OwnerForPath(file, b.packages) == Some(o) {
      OwnerForPathIff(a, file, o);
      OwnerForPathIff(b, file, o);
    }
    OptionsEqual(OwnerForPath(file, a.packages), OwnerForPath(file, b.packages));
  }

  lemma SamePackageNamed(a: Workspace, b: Workspace, name: string)
    requires SamePackages(a, b)
    ensures PackageNamed(a.packages, name) == PackageNamed(b.packages, name)
  {
    forall o ensures PackageNamed(a.packages, name) == Some(o) <==> PackageNamed(b.packages, name) == Some(o) {
      PackageNamedIff(a, name, o);
      PackageNamedIff(b, name, o);
    }
    OptionsEqual(PackageNamed(a.packages, name), PackageNamed(b.packages, name));
  }

  lemma OptionsEqual(x: Option<Owner>, y: Option<Owner>)
    requires forall o :: x == Some(o) <==> y == Some(o)
    ensures x == y
  {
    assert x.Some? ==> x == Some(x.value);
    assert y.Some? ==> y == Some(y.value);
  }

  lemma SameAnswers(a: Workspace, b: Workspace, owner: Owner, file: Path, raw: string)
    requires SamePackages(a, b)
    ensures SpecifierViolation(a, owner, file, raw) == SpecifierViolation(b, owner, file, raw)
  {
    SameOwnerForPath(a, b, Resolve(file, CutQuery(raw)));
    assert RelativeViolation(a, owner, file, raw) == RelativeViolation(b, owner, file, raw);
    SameBareAnswers(a, b, owner, file, raw);
  }

  lemma SameBareAnswers(a: Workspace, b: Workspace, owner: Owner, file: Path, raw: string)
    requires SamePackages(a, b)
    ensures BareViolation(a, owner, file, raw) == BareViolation(b, owner, file, raw)
  {
    SamePackageNamed(a, b, DependencyName(CutQuery(raw)));
  }

  lemma SameManifestAnswers(a: Workspace, b: Workspace, owner: Owner, dependency: string)
    requires SamePackages(a, b)
    ensures ManifestViolations(a, owner, dependency) == ManifestViolations(b, owner, dependency)
  {
    SamePackageNamed(a, b, dependency);
  }

  lemma FindingCarriesOver(a: Workspace, b: Workspace, x: Entry, y: Entry, v: Violation)
    requires SamePackages(a, b) && SameEntry(x, y) && EntryFinding(a, x, v)
    ensures EntryFinding(b, y, v)
  {
    var owner := x.owner;
    if FileFinding(a, owner, x.files, v) {
      var file, raw :| Imports(x.files, file, raw) && SpecifierViolation(a, owner, file, raw) == Some(v);
      SameAnswers(a, b, owner, file, raw);
      assert Imports(y.files, file, raw) && SpecifierViolation(b, owner, file, raw) == Some(v);
    } else {
      var d :| d in owner.manifest.declared && v in ManifestViolations(a, owner, d);
      SameManifestAnswers(a, b, owner, d);
      assert v in ManifestViolations(b, owner, d);
    }
  }

  lemma FindingsCarryOver(a: Workspace, b: Workspace, v: Violation)
    requires SamePackages(a, b) && SameEntries(a.packages, b.packages) && Finds(a, v)
    ensures Finds(b, v)
  {
    var i :| 0 <= i < |a.packages| && EntryFinding(a, a.packages[i], v);
    assert HasEntry(b.packages, a.packages[i]);
    var j :| 0 <= j < |b.packages| && SameEntry(a.packages[i], b.packages[j]);
    FindingCarriesOver(a, b, a.packages[i], b.packages[j], v);
  }

  /** The report is the same list for every order of packages, files and specifiers. */
  lemma OrderIndependent(a: Workspace, b: Workspace)
    requires Rearranged(a, b)
    ensures Report(a) == Report(b)
  {
    var left, right := AllViolations(a, a.packages), AllViolations(b, b.packages);
    forall v ensures v in left <==> v in right {
      SameFindings(a, b, v);
    }
    SameLines(a.root, left, right);
    SameLines(a.root, right, left);
    SortUniqueSorts(Lines(a.root, left));
    SortUniqueSorts(Lines(a.root, right));
    SortedIsCanonical(Report(a), Report(b));
  }

  lemma SameFindings(a: Workspace, b: Workspace, v: Violation)
    requires Rearranged(a, b)
    ensures v in AllViolations(a, a.packages) <==> v in AllViolations(b, b.packages)
  {
    PackagesCollect(a, a.packages, v);
    PackagesCollect(b, b.packages, v);
    RearrangedHaveSamePackages(a, b);
    if Finds(a, v) { FindingsCarryOver(a, b, v); }
    if Finds(b, v) { FindingsCarryOver(b, a, v); }
  }

  lemma SameLines(root: Path, a: seq<Violation>, b: seq<Violation>)
    requires forall v :: v in a ==> v in b
    ensures forall line :: line in Lines(root, a) ==> line in Lines(root, b)
  {
    forall line | line in Lines(root, a) ensures line in Lines(root, b) {
      var i :| 0 <= i < |a| && Lines(root, a)[i] == line;
      assert a[i] in b;
      var j :| 0 <= j < |b| && b[j] == a[i];
      assert Lines(root, b)[j] == line;
    }
  }

  // ----------------------------------------------------------- reachability

  /** A file of `p` imports into `q`. */
  ghost predicate ImportEdge(ws: Workspace, p: Owner, q: Owner) {
    exists i, file, raw ::
      && 0 <= i < |ws.packages| && ws.packages[i].owner == p
      && Imports(ws.packages[i].files, file, raw) && LeadsTo(ws, file, raw, q)
  }

  predicate LeadsTo(ws: Workspace, file: Path, raw: string, q: Owner) {
    && !IsIgnored(raw)
    && if StartsWith(CutQuery(raw), ".") then OwnerForPath(Resolve(file, CutQuery(raw)), ws.packages) == Some(q)
       else !IsBuiltin(ws, CutQuery(raw)) && PackageNamed(ws.packages, DependencyName(CutQuery(raw))) == Some(q)
  }

  lemma CleanImport(ws: Workspace, p: Owner, file: Path, raw: string, q: Owner)
    requires SpecifierViolation(ws, p, file, raw).None? && LeadsTo(ws, file, raw, q)
    ensures p == q || (q.manifest.name in p.manifest.declared && !(p.kind.PackageKind? && q.kind.AppKind?))
  {
    PackageNamedFinds(ws.packages, DependencyName(CutQuery(raw)));
  }

  /** One import of a clean workspace: within the package, or to a declared dependency. */
  lemma CleanEdge(ws: Workspace, p: Owner, q: Owner)
    requires Report(ws) == [] && ImportEdge(ws, p, q)
    ensures p == q || (q.manifest.name in p.manifest.declared && !(p.kind.PackageKind? && q.kind.AppKind?))
    ensures forall d :: d in p.manifest.declared ==> ManifestViolations(ws, p, d) == []
  {
    var i, file, raw :| 0 <= i < |ws.packages| && ws.packages[i].owner == p
                        && Imports(ws.packages[i].files, file, raw) && LeadsTo(ws, file, raw, q);
    ReportMeans(ws);
    assert forall v :: EntryFinding(ws, ws.packages[i], v) ==> Finds(ws, v);
    CleanEntry(ws, ws.packages[i]);
    CleanImport(ws, p, file, raw, q);
  }

  ghost predicate Chain(ws: Workspace, chain: seq<Owner>) {
    forall i :: 0 < i < |chain| ==> ImportEdge(ws, chain[i - 1], chain[i])
  }

  /** With an empty report no chain of imports, however long, leads from a reusable package to an
      app. */
  lemma {:induction false} NoAppReachable(ws: Workspace, chain: seq<Owner>)
    requires Report(ws) == [] && Chain(ws, chain) && chain != [] && chain[0].kind.PackageKind?
    ensures chain[|chain| - 1].kind.PackageKind?
  {
    if |chain| > 1 {
      var n := |chain| - 1;
      NoAppReachable(ws, chain[..n]);
      CleanEdge(ws, chain[n - 1], chain[n]);
    }
  }

  /** With an empty report no file of the control plane imports the node agent, or the reverse,
      although only manifests are compared for that pair. */
  lemma PairStaysApart(ws: Workspace, p: Owner, q: Owner)
    requires Report(ws) == [] && ForbidsWorkspaceDependency(p.manifest.name, q.manifest.name)
    ensures !ImportEdge(ws, p, q)
  {
    if ImportEdge(ws, p, q) {
      CleanEdge(ws, p, q);
    }
  }

  // -------------------------------------------------- names that are not unique

  /** Two packages named alike, one of them an app, and a package that depends on the name. */
  function Ambiguous(root: Path, appLast: bool): Workspace {
    var user := Entry(Owner(PackageKind, root + ["packages", "user"], Manifest("user", ["shared"], Undefined)), []);
    var app := Entry(Owner(AppKind, root + ["apps", "shared"], Manifest("shared", [], Undefined)), []);
    var package := Entry(Owner(PackageKind, root + ["packages", "shared"], Manifest("shared", [], Undefined)), []);
    Workspace(root, {}, if appLast then [user, package, app] else [user, app, package])
  }

  /** Counterexample: without unique names the report depends on the order. */
  lemma OrderMattersForSharedNames(root: Path)
    ensures Report(Ambiguous(root, false)) == [] && Report(Ambiguous(root, true)) != []
  {
    AmbiguousReport(root, false);
    AmbiguousReport(root, true);
  }

  lemma AmbiguousReport(root: Path, appLast: bool)
    ensures Report(Ambiguous(root, appLast)) == [] <==> !appLast
  {
    var ws := Ambiguous(root, appLast);
    var last := ws.packages[2].owner;
    assert PackageNamed(ws.packages, "shared") == Some(last);
    ReportEmptyIff(ws);
    var user := ws.packages[0].owner;
    assert ["shared"][..0] == [];
    assert DeclaredViolations(ws, user, ["shared"]) == ManifestViolations(ws, user, "shared");
    assert ws.packages[..2][..1] == ws.packages[..1] && ws.packages[..1][..0] == [];
    assert AllViolations(ws, ws.packages[..1]) == ManifestViolations(ws, user, "shared");
    assert AllViolations(ws, ws.packages[..2]) == AllViolations(ws, ws.packages[..1]);
    assert AllViolations(ws, ws.packages) == AllViolations(ws, ws.packages[..2]);
  }
}
