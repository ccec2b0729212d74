/** What the package-boundary check answers to one import, in terms of package names, paths and
    export keys as an author of the workspace writes them. */
module BoundaryAnswers {
  import opened OrderedMap
  import opened ModuleSpecifiers
  import opened SortedLines
  import opened PackageBoundaries
  import opened BoundaryGuarantees

  // ------------------------------------------------------------ relative imports

  /** A path segment that is a proper name. */
  predicate IsName(segment: string) {
    segment != "" && segment != "." && segment != ".." && '/' !in segment
  }

  predicate AllNames(path: Path) {
    forall s :: s in path ==> IsName(s)
  }

  function Ups(n: nat): (parts: seq<string>)
    ensures |parts| == n && forall p :: p in parts ==> p == ".."
  {
    if n == 0 then [] else [".."] + Ups(n - 1)
  }

  /** "./" or "../" as often as it takes, then the way down. */
  function RelativeSpecifier(ups: nat, down: Path): string {
    Join(["."] + Ups(ups) + down, '/')
  }

  lemma {:induction false} SplitJoin(parts: seq<string>)
    requires parts != [] && forall p :: p in parts ==> '/' !in p
    ensures Split(Join(parts, '/'), '/') == parts
  {
    assert '/' !in parts[0];
    if |parts| == 1 {
      SplitNone(parts[0], '/');
    } else {
      assert forall p :: p in parts[1..] ==> p in parts;
      SplitJoin(parts[1..]);
      SplitOnce(parts[0], Join(parts[1..], '/'), '/');
    }
  }

  lemma {:induction false} WalkInTurn(at: Path, a: seq<string>, b: seq<string>)
    ensures Walk(at, a + b) == Walk(Walk(at, a), b)
    decreases |a|
  {
    if a == [] {
      assert a + b == b;
    } else {
      assert (a + b)[1..] == a[1..] + b;
      WalkInTurn(if a[0] == "" || a[0] == "." then at
                 else if a[0] == ".." then if at == [] then [] else at[..|at| - 1]
                 else at + [a[0]], a[1..], b);
    }
  }

  lemma {:induction false} WalkUp(at: Path, n: nat)
    requires n <= |at|
    ensures Walk(at, Ups(n)) == at[..|at| - n]
  {
    if n > 0 {
      assert Ups(n)[1..] == Ups(n - 1);
      WalkUp(at[..|at| - 1], n - 1);
      assert at[..|at| - 1][..|at| - n] == at[..|at| - n];
    }
  }

  lemma {:induction false} WalkDown(at: Path, down: Path)
    requires AllNames(down)
    ensures Walk(at, down) == at + down
    decreases |down|
  {
    if down != [] {
      assert IsName(down[0]) && forall s :: s in down[1..] ==> s in down;
      WalkDown(at + [down[0]], down[1..]);
      assert at + [down[0]] + down[1..] == at + down;
    }
  }

  /** A relative specifier leads from the file's directory up and down to exactly that path; so every
      path can be written, and with enough steps up from everywhere. */
  lemma RelativeResolves(dir: Path, file: string, ups: nat, down: Path)
    requires ups <= |dir| && AllNames(down)
    ensures Resolve(dir + [file], RelativeSpecifier(ups, down)) == dir[..|dir| - ups] + down
  {
    var parts := ["."] + Ups(ups) + down;
    forall p | p in parts ensures '/' !in p {
      assert p in down ==> IsName(p);
    }
    SplitJoin(parts);
    assert (dir + [file])[..|dir|] == dir;
    assert parts == ["."] + (Ups(ups) + down) && parts[1..] == Ups(ups) + down;
    WalkInTurn(dir, Ups(ups), down);
    WalkUp(dir, ups);
    WalkDown(dir[..|dir| - ups], down);
  }

  /** An answer to a relative import: `ee` first, then another package's directory. */
  lemma RelativeAnswer(ws: Workspace, owner: Owner, file: Path, raw: string, target: Path)
    requires WellFormed(ws) && !IsIgnored(raw) && StartsWith(CutQuery(raw), ".") && Resolve(file, CutQuery(raw)) == target
    ensures var answer := SpecifierViolation(ws, owner, file, raw);
      && (answer == Some(ImportsEnterprise(file, raw)) <==> ws.root + ["ee"] <= target)
      && (forall o :: HasOwner(ws.packages, o) && o.dir <= target && o != owner && !(ws.root + ["ee"] <= target) ==>
            answer == Some(CrossesInto(file, o.manifest.name, raw)))
      && (answer == None <==>
            !(ws.root + ["ee"] <= target) && forall o :: HasOwner(ws.packages, o) && o.dir <= target ==> o == owner)
  {
    RelativeDecides(ws, owner, file, raw);
    forall o | HasOwner(ws.packages, o) && o.dir <= target ensures OwnerForPath(target, ws.packages) == Some(o) {
      OwnerForPathIff(ws, target, o);
    }
  }

  // ------------------------------------------------------------- package imports

  /** A package of the workspace has the name and satisfies nothing more. */
  ghost predicate Named(ws: Workspace, o: Owner, name: string) {
    HasOwner(ws.packages, o) && o.manifest.name == name
  }

  /** The part of a specifier behind the package's name, as an exports map writes it. */
  function PathBelow(specifier: string, name: string): string
    requires Names(specifier, name)
  {
    if specifier == name then "." else "." + specifier[|name|..]
  }

  ghost predicate NamedApp(ws: Workspace, name: string) {
    exists o :: Named(ws, o, name) && o.kind.AppKind?
  }

  /** A package of the workspace has the name and does not export the path. */
  ghost predicate NamedHides(ws: Workspace, name: string, path: string) {
    exists o :: Named(ws, o, name) && !IsExported(o.manifest.exports, path)
  }

  lemma NamedIs(ws: Workspace, name: string)
    requires WellFormed(ws)
    ensures forall o :: PackageNamed(ws.packages, name) == Some(o) <==> Named(ws, o, name)
  {
    forall o ensures PackageNamed(ws.packages, name) == Some(o) <==> Named(ws, o, name) {
      PackageNamedIff(ws, name, o);
    }
  }

  lemma SubpathIs(specifier: string, name: string)
    requires IsPackageName(name) && Names(specifier, name)
    ensures Subpath(specifier) == PathBelow(specifier, name)
  {
    DependencyIff(specifier, name);
  }

  /** Every answer to an import of a package by its name or a path below it, each exactly: the
      database boundary first, then the package itself, undeclared names, apps, and at last paths
      that are not exported. */
  lemma PackageAnswer(ws: Workspace, owner: Owner, file: Path, raw: string, name: string)
    requires WellFormed(ws) && Bare(raw) && !IsBuiltin(ws, CutQuery(raw)) && IsPackageName(name) && Names(CutQuery(raw), name)
    requires !ForbidsDatabaseDependency(ws.root, file, CutQuery(raw), name)
    ensures var answer := SpecifierViolation(ws, owner, file, raw);
      var declared := name != owner.manifest.name && name in owner.manifest.declared;
      var app := owner.kind.PackageKind? && NamedApp(ws, name);
      && (answer == Some(InternalImport(file, raw)) <==> name == owner.manifest.name)
      && (answer == Some(Undeclared(file, name)) <==> name != owner.manifest.name && name !in owner.manifest.declared)
      && (answer == Some(ImportsApp(file, name)) <==> declared && app)
      && (answer == Some(NotExported(file, raw, name)) <==>
            declared && !app && NamedHides(ws, name, PathBelow(CutQuery(raw), name)))
      && (answer == None <==> declared && !app && !NamedHides(ws, name, PathBelow(CutQuery(raw), name)))
  {
    DependencyIff(CutQuery(raw), name);
    SubpathIs(CutQuery(raw), name);
    NamedIs(ws, name);
    var target := PackageNamed(ws.packages, name);
    if target.Some? {
      assert Named(ws, target.value, name);
      forall o | Named(ws, o, name) ensures o == target.value {
      }
    }
  }

  lemma DatabaseAnswer(ws: Workspace, owner: Owner, file: Path, raw: string, name: string)
    requires Bare(raw) && !IsBuiltin(ws, CutQuery(raw)) && IsPackageName(name) && Names(CutQuery(raw), name)
    ensures SpecifierViolation(ws, owner, file, raw) == Some(ForbiddenDatabase(file, raw)) <==>
            ForbidsDatabaseDependency(ws.root, file, CutQuery(raw), name)
  {
    DependencyIff(CutQuery(raw), name);
  }

  /** In particular a declared package is never answered as undeclared, nor as another one. */
  lemma DeclaredIsFound(ws: Workspace, owner: Owner, file: Path, raw: string, name: string)
    requires WellFormed(ws) && Bare(raw) && IsPackageName(name) && Names(CutQuery(raw), name)
    requires name in owner.manifest.declared && name != owner.manifest.name
    ensures forall d :: SpecifierViolation(ws, owner, file, raw) != Some(Undeclared(file, d))
  {
    DependencyIff(CutQuery(raw), name);
  }

  // ---------------------------------------------------------- declared dependencies

  /** What is found in a manifest: the pair that must stay apart, both ways, and apps below reusable
      packages. */
  lemma ManifestAnswer(ws: Workspace, owner: Owner, dependency: string)
    requires WellFormed(ws)
    ensures var found := ManifestViolations(ws, owner, dependency);
      && (ForbiddenDependency(owner.dir, owner.manifest.name, dependency) in found <==>
            || (owner.manifest.name == "@task-handoff/control-plane" && dependency == "@task-handoff/node-agent")
            || (owner.manifest.name == "@task-handoff/node-agent" && dependency == "@task-handoff/control-plane"))
      && (DependsOnApp(owner.dir, dependency) in found <==> owner.kind.PackageKind? && NamedApp(ws, dependency))
      && forall v :: v in found ==>
           v == ForbiddenDependency(owner.dir, owner.manifest.name, dependency) || v == DependsOnApp(owner.dir, dependency)
  {
    NamedIs(ws, dependency);
    var target := PackageNamed(ws.packages, dependency);
    if target.Some? {
      assert Named(ws, target.value, dependency);
      forall o | Named(ws, o, dependency) ensures o == target.value {
      }
    }
  }

  // ------------------------------------------------------------- the tables

  lemma PairStarts(raw: string, pair: string)
    requires |raw| >= 2 && |pair| == 2
    ensures StartsWith(raw, pair) <==> raw[0] == pair[0] && raw[1] == pair[1]
  {
    assert raw[0] == pair[0] && raw[1] == pair[1] ==> raw[..2] == pair;
  }

  lemma OneStarts(raw: string, one: string)
    requires |raw| >= 1 && |one| == 1
    ensures StartsWith(raw, one) <==> raw[0] == one[0]
  {
    assert raw[0] == one[0] ==> raw[..1] == one;
  }

  /** What is not looked at: the application's aliases, fragments, and addresses. */
  lemma WhatIsIgnored(raw: string)
    ensures IsIgnored(raw) <==>
      || |raw| == 0 || raw[0] == '#'
      || (|raw| >= 2 && (raw[0] == '@' || raw[0] == '~' || raw[0] == '/') && raw[1] == '/')
      || "data:" <= raw || "http://" <= raw || "https://" <= raw
  {
    if |raw| >= 1 {
      OneStarts(raw, "#");
    }
    if |raw| >= 2 {
      PairStarts(raw, "@/");
      PairStarts(raw, "~/");
      PairStarts(raw, "//");
    }
  }

  /** A path is below its directories, and not below itself. */
  lemma BelowMeans(dir: Path, rest: Path)
    ensures Below(dir + rest, dir) <==> rest != []
  {
    assert (dir + rest)[..|dir|] == dir;
    if rest == [] {
      assert dir + rest == dir;
    }
  }

  /** Below `packages/node-agent/src` the database packages are exactly these ... */
  lemma NodeAgentDatabases(root: Path, below: Path, specifier: string, name: string)
    requires below != []
    ensures ForbidsDatabaseDependency(root, root + ["packages", "node-agent", "src"] + below, specifier, name) <==>
      || name == "better-sqlite3" || name == "node-gyp" || name == "pg" || name == "sqlite3"
      || specifier == "drizzle-orm/node-postgres" || specifier == "drizzle-orm/pg-core"
  {
    assert Below(root + ["packages", "node-agent", "src"] + below, root + ["packages", "node-agent", "src"]);
  }

  /** ... below the runtime that is shared with it, and below the controlled instance, these. */
  lemma RuntimeDatabases(root: Path, below: Path, dir: Path, specifier: string, name: string)
    requires below != []
    requires dir == ["packages", "runtime-shared", "src"] || dir == ["packages", "controlled-instance"]
             || dir == ["apps", "controlled-instance-image"]
    ensures ForbidsDatabaseDependency(root, root + dir + below, specifier, name) <==> name == "drizzle-orm" || name == "pg"
  {
    var file, agent := root + dir + below, root + ["packages", "node-agent", "src"];
    assert Below(file, root + dir);
    assert file[|root|] == dir[0] && file[|root| + 1] == dir[1];
    assert agent[|root|] == "packages" && agent[|root| + 1] == "node-agent";
    assert !Below(file, agent);
  }

  /** ... and anywhere else in the packages none. */
  lemma NoOtherDatabases(root: Path, kind: string, package: string, below: Path, specifier: string, name: string)
    requires package != "node-agent" && package != "runtime-shared" && package != "controlled-instance"
             && package != "controlled-instance-image"
    ensures !ForbidsDatabaseDependency(root, root + [kind, package] + below, specifier, name)
  {
    var file := root + [kind, package] + below;
    assert file[|root| + 1] == package;
    forall dir: Path | |dir| >= 2 && dir[1] != package ensures !Below(file, root + dir) {
      assert (root + dir)[|root| + 1] == dir[1];
    }
    assert ["packages", "node-agent", "src"][1] == "node-agent" && ["packages", "runtime-shared", "src"][1] == "runtime-shared";
    assert ["packages", "controlled-instance"][1] == "controlled-instance";
    assert ["apps", "controlled-instance-image"][1] == "controlled-instance-image";
  }

  // ---------------------------------------------------------- queries and keys

  /** The query and the fragment of an import do not count. */
  lemma {:induction false} QueryIsCut(path: string, mark: char, rest: string)
    requires '?' !in path && '#' !in path && (mark == '?' || mark == '#')
    ensures CutQuery(path + [mark] + rest) == path && CutQuery(path) == path
  {
    if path != "" {
      assert path[0] in path && forall c :: c in path[1..] ==> c in path;
      assert (path + [mark] + rest)[1..] == path[1..] + [mark] + rest;
      QueryIsCut(path[1..], mark, rest);
      assert [path[0]] + path[1..] == path;
    }
  }

  /** What an exports map with paths offers: its keys without a star as they are, and those with one
      star for whatever takes the star's place. */
  lemma KeysOffer(keys: seq<string>, prefix: string, middle: string, suffix: string)
    requires '*' !in prefix && '*' !in suffix && StartsWith(prefix, ".")
    ensures prefix in keys ==> IsExported(Keys(keys), prefix)
    ensures prefix + "*" + suffix in keys ==> IsExported(Keys(keys), prefix + middle + suffix)
  {
    OneStarKey(prefix, suffix, prefix + middle + suffix);
    assert Substitutes(prefix, suffix, prefix + middle + suffix);
    if prefix + "*" + suffix in keys {
      var i :| 0 <= i < |keys| && keys[i] == prefix + "*" + suffix;
      assert keys[i][..|prefix|] == prefix && StartsWith(keys[i], ".");
    }
    if prefix in keys {
      var i :| 0 <= i < |keys| && keys[i] == prefix;
      assert StartsWith(keys[i], ".");
    }
  }

  /** An exports map whose keys hold no star offers its keys and nothing else; one without paths, a
      string and a list offer the package itself. */
  lemma PlainKeysOffer(keys: seq<string>, path: string)
    requires forall k :: k in keys ==> '*' !in k
    ensures IsExported(Keys(keys), path) <==>
      if exists k :: k in keys && StartsWith(k, ".") then path in keys else path == "."
    ensures IsExported(SingleOrList, path) <==> path == "."
    ensures IsExported(Undefined, path) <==> path == "."
    ensures !IsExported(Falsy, path)
  {
    assert forall i :: 0 <= i < |keys| ==> keys[i] in keys;
  }

  // ---------------------------------------------------------------- the report

  /** The report holds a line for each finding and no other. */
  lemma ReportHolds(ws: Workspace, line: string)
    ensures line in Report(ws) <==> exists v :: Finds(ws, v) && Line(ws.root, v) == line
  {
    var all := AllViolations(ws, ws.packages);
    SortUniqueSorts(Lines(ws.root, all));
    forall v ensures v in all <==> Finds(ws, v) {
      PackagesCollect(ws, ws.packages, v);
    }
    LinesHold(ws.root, all, line);
  }

  lemma LinesHold(root: Path, violations: seq<Violation>, line: string)
    ensures line in Lines(root, violations) <==> exists v :: v in violations && Line(root, v) == line
  {
    if line in Lines(root, violations) {
      var i :| 0 <= i < |violations| && Lines(root, violations)[i] == line;
      assert violations[i] in violations;
    }
    if v :| v in violations && Line(root, v) == line {
      var i :| 0 <= i < |violations| && violations[i] == v;
      assert Lines(root, violations)[i] == line;
    }
  }

  /** Files are named relative to the root, with slashes. */
  lemma {:induction false} SlashedMeans(path: Path)
    ensures Slashed(path) == Join(path, '/')
  {
    if |path| > 1 {
      SlashedMeans(path[1..]);
    }
  }

  lemma NamedRelatively(root: Path, path: Path)
    ensures Relative(root, root + path) == Join(path, '/')
  {
    assert (root + path)[|root|..] == path;
    SlashedMeans(path);
  }
}
