/** `checkWorkspace` of bin/check-package-boundaries.js. The directory walk and the extraction of
    specifiers are given: a workspace lists its packages, their files and the files' specifiers
    in whatever order the directories were read. */
module PackageBoundaries {
  import opened OrderedMap
  import opened ModuleSpecifiers
  import opened SortedLines

  /** An absolute path, segment by segment. */
  type Path = seq<string>

  datatype Kind = AppKind | PackageKind

  /** `declared` are the names in the four dependency tables. */
  datatype Manifest = Manifest(name: string, declared: seq<string>, exports: Exports)

  datatype Owner = Owner(kind: Kind, dir: Path, manifest: Manifest)

  datatype File = File(path: Path, specifiers: seq<string>)

  datatype Entry = Entry(owner: Owner, files: seq<File>)

  datatype Workspace = Workspace(root: Path, builtins: set<string>, packages: seq<Entry>)

  datatype Violation =
    | ForbiddenDependency(dir: Path, name: string, dependency: string)
    | DependsOnApp(dir: Path, dependency: string)
    | ImportsEnterprise(file: Path, raw: string)
    | CrossesInto(file: Path, name: string, raw: string)
    | ForbiddenDatabase(file: Path, raw: string)
    | InternalImport(file: Path, raw: string)
    | Undeclared(file: Path, dependency: string)
    | ImportsApp(file: Path, dependency: string)
    | NotExported(file: Path, raw: string, dependency: string)

  const CONTROL_PLANE := "@task-handoff/control-plane"
  const NODE_AGENT := "@task-handoff/node-agent"

  predicate ForbidsWorkspaceDependency(ownerName: string, dependency: string) {
    (ownerName == CONTROL_PLANE && dependency == NODE_AGENT) || (ownerName == NODE_AGENT && dependency == CONTROL_PLANE)
  }

  predicate Below(file: Path, dir: Path) {
    dir < file
  }

  predicate ForbidsDatabaseDependency(root: Path, file: Path, specifier: string, dependency: string) {
    if Below(file, root + ["packages", "node-agent", "src"]) then
      || dependency in {"better-sqlite3", "node-gyp", "pg", "sqlite3"}
      || specifier in {"drizzle-orm/node-postgres", "drizzle-orm/pg-core"}
    else
      && (|| Below(file, root + ["packages", "runtime-shared", "src"])
          || Below(file, root + ["packages", "controlled-instance"])
          || Below(file, root + ["apps", "controlled-instance-image"]))
      && dependency in {"drizzle-orm", "pg"}
  }

  predicate IsIgnored(specifier: string) {
    || specifier == "" || StartsWith(specifier, "@/") || StartsWith(specifier, "~/") || StartsWith(specifier, "#")
    || StartsWith(specifier, "data:") || StartsWith(specifier, "http://") || StartsWith(specifier, "https://")
    || StartsWith(specifier, "//")
  }

  /** The specifier up to its first `?` or `#`. */
  function CutQuery(raw: string): string {
    if raw == "" || raw[0] == '?' || raw[0] == '#' then "" else [raw[0]] + CutQuery(raw[1..])
  }

  function Walk(at: Path, parts: seq<string>): Path
    decreases |parts|
  {
    if parts == [] then at
    else if parts[0] == "" || parts[0] == "." then Walk(at, parts[1..])
    else if parts[0] == ".." then Walk(if at == [] then [] else at[..|at| - 1], parts[1..])
    else Walk(at + [parts[0]], parts[1..])
  }

  /** `path.resolve(path.dirname(file), specifier)` for a relative specifier. */
  function Resolve(file: Path, specifier: string): Path {
    Walk(if file == [] then [] else file[..|file| - 1], Split(specifier, '/'))
  }

  function OwnerForPath(file: Path, packages: seq<Entry>): Option<Owner> {
    if packages == [] then None
    else if packages[0].owner.dir <= file then Some(packages[0].owner)
    else OwnerForPath(file, packages[1..])
  }

  /** `new Map` by name: the last package of a name wins. */
  function PackageNamed(packages: seq<Entry>, name: string): Option<Owner> {
    if packages == [] then None
    else if packages[|packages| - 1].owner.manifest.name == name then Some(packages[|packages| - 1].owner)
    else PackageNamed(packages[..|packages| - 1], name)
  }

  // ---------------------------------------------------------- what is pushed

  function ManifestViolations(ws: Workspace, owner: Owner, dependency: string): seq<Violation> {
    var target := PackageNamed(ws.packages, dependency);
    (if ForbidsWorkspaceDependency(owner.manifest.name, dependency)
     then [ForbiddenDependency(owner.dir, owner.manifest.name, dependency)] else [])
    + (if owner.kind.PackageKind? && target.Some? && target.value.kind.AppKind?
       then [DependsOnApp(owner.dir, dependency)] else [])
  }

  function RelativeViolation(ws: Workspace, owner: Owner, file: Path, raw: string): Option<Violation> {
    var path := Resolve(file, CutQuery(raw));
    var target := OwnerForPath(path, ws.packages);
    if ws.root + ["ee"] <= path then Some(ImportsEnterprise(file, raw))
    else if target.Some? && target.value != owner then Some(CrossesInto(file, target.value.manifest.name, raw))
    else None
  }

  function BareViolation(ws: Workspace, owner: Owner, file: Path, raw: string): Option<Violation> {
    var specifier := CutQuery(raw);
    var dependency := DependencyName(specifier);
    var target := PackageNamed(ws.packages, dependency);
    if StartsWith(specifier, "node:") || specifier in ws.builtins then None
    else if ForbidsDatabaseDependency(ws.root, file, specifier, dependency) then Some(ForbiddenDatabase(file, raw))
    else if dependency == owner.manifest.name then Some(InternalImport(file, raw))
    else if dependency !in owner.manifest.declared then Some(Undeclared(file, dependency))
    else if owner.kind.PackageKind? && target.Some? && target.value.kind.AppKind? then Some(ImportsApp(file, dependency))
    else if target.Some? && !IsExported(target.value.manifest.exports, Subpath(specifier))
    then Some(NotExported(file, raw, dependency))
    else None
  }

  function Subpath(specifier: string): string {
    DependencyIsHead(specifier);
    ImportSubpath(specifier, DependencyName(specifier))
  }

  function SpecifierViolation(ws: Workspace, owner: Owner, file: Path, raw: string): Option<Violation> {
    if IsIgnored(raw) then None
    else if StartsWith(CutQuery(raw), ".") then RelativeViolation(ws, owner, file, raw)
    else BareViolation(ws, owner, file, raw)
  }

  function DeclaredViolations(ws: Workspace, owner: Owner, declared: seq<string>): seq<Violation> {
    if declared == [] then []
    else DeclaredViolations(ws, owner, declared[..|declared| - 1]) + ManifestViolations(ws, owner, declared[|declared| - 1])
  }

  function FileViolations(ws: Workspace, owner: Owner, file: Path, specifiers: seq<string>): seq<Violation> {
    if specifiers == [] then []
    else
      var last := SpecifierViolation(ws, owner, file, specifiers[|specifiers| - 1]);
      FileViolations(ws, owner, file, specifiers[..|specifiers| - 1]) + if last.Some? then [last.value] else []
  }

  function FilesViolations(ws: Workspace, owner: Owner, files: seq<File>): seq<Violation> {
    if files == [] then []
    else
      var last := files[|files| - 1];
      FilesViolations(ws, owner, files[..|files| - 1]) + FileViolations(ws, owner, last.path, last.specifiers)
  }

  function AllViolations(ws: Workspace, packages: seq<Entry>): seq<Violation> {
    if packages == [] then []
    else
      var last := packages[|packages| - 1];
      AllViolations(ws, packages[..|packages| - 1])
      + DeclaredViolations(ws, last.owner, last.owner.manifest.declared) + FilesViolations(ws, last.owner, last.files)
  }

  function Slashed(path: Path): string {
    if path == [] then "" else if |path| == 1 then path[0] else path[0] + "/" + Slashed(path[1..])
  }

  function Relative(root: Path, path: Path): string {
    Slashed(if root <= path then path[|root|..] else path)
  }

  function Line(root: Path, v: Violation): string {
    match v
    case ForbiddenDependency(dir, name, dependency) =>
      Relative(root, dir) + "/package.json: " + name + " must not depend on " + dependency
    case DependsOnApp(dir, dependency) =>
      Relative(root, dir) + "/package.json: reusable packages must not depend on app " + dependency
    case ImportsEnterprise(file, raw) =>
      Relative(root, file) + ": open-source workspace must not import ignored EE source: " + raw
    case CrossesInto(file, name, raw) => Relative(root, file) + ": relative import crosses into " + name + ": " + raw
    case ForbiddenDatabase(file, raw) =>
      Relative(root, file) + ": database dependency is forbidden in this runtime boundary: " + raw
    case InternalImport(file, raw) => Relative(root, file) + ": package-internal imports must be relative: " + raw
    case Undeclared(file, dependency) => Relative(root, file) + ": imports undeclared dependency " + dependency
    case ImportsApp(file, dependency) => Relative(root, file) + ": reusable packages must not import app " + dependency
    case NotExported(file, raw, dependency) => Relative(root, file) + ": " + raw + " is not exported by " + dependency
  }

  function Lines(root: Path, violations: seq<Violation>): (lines: seq<string>)
    ensures |lines| == |violations|
    ensures forall i :: 0 <= i < |lines| ==> lines[i] == Line(root, violations[i])
  {
    seq(|violations|, i requires 0 <= i < |violations| => Line(root, violations[i]))
  }

  function Report(ws: Workspace): seq<string> {
    SortUnique(Lines(ws.root, AllViolations(ws, ws.packages)))
  }

  // ---------------------------------------------------------- implementation

  method CheckWorkspace(ws: Workspace) returns (report: seq<string>)
    ensures report == Report(ws)
  {
    var violations: seq<Violation> := [];
    for i := 0 to |ws.packages|
      invariant violations == AllViolations(ws, ws.packages[..i])
    {
      var owner := ws.packages[i].owner;
      var inManifest := CheckDeclared(ws, owner);
      var inFiles := CheckFiles(ws, owner, ws.packages[i].files);
      violations := violations + inManifest + inFiles;
      assert ws.packages[..i + 1][..i] == ws.packages[..i];
    }
    assert ws.packages[..|ws.packages|] == ws.packages;
    report := SortUnique(Lines(ws.root, violations));
  }

  method CheckDeclared(ws: Workspace, owner: Owner) returns (violations: seq<Violation>)
    ensures violations == DeclaredViolations(ws, owner, owner.manifest.declared)
  {
    violations := [];
    var declared := owner.manifest.declared;
    for i := 0 to |declared|
      invariant violations == DeclaredViolations(ws, owner, declared[..i])
    {
      ghost var before := violations;
      var target := PackageNamed(ws.packages, declared[i]);
      if ForbidsWorkspaceDependency(owner.manifest.name, declared[i]) {
        violations := violations + [ForbiddenDependency(owner.dir, owner.manifest.name, declared[i])];
      }
      if owner.kind.PackageKind? && target.Some? && target.value.kind.AppKind? {
        violations := violations + [DependsOnApp(owner.dir, declared[i])];
      }
      assert violations == before + ManifestViolations(ws, owner, declared[i]);
      assert declared[..i + 1][..i] == declared[..i];
    }
    assert declared[..|declared|] == declared;
  }

  method CheckFiles(ws: Workspace, owner: Owner, files: seq<File>) returns (violations: seq<Violation>)
    ensures violations == FilesViolations(ws, owner, files)
  {
    violations := [];
    for i := 0 to |files|
      invariant violations == FilesViolations(ws, owner, files[..i])
    {
      var found := CheckFile(ws, owner, files[i].path, files[i].specifiers);
      violations := violations + found;
      assert files[..i + 1][..i] == files[..i];
    }
    assert files[..|files|] == files;
  }

  method CheckFile(ws: Workspace, owner: Owner, file: Path, specifiers: seq<string>) returns (violations: seq<Violation>)
    ensures violations == FileViolations(ws, owner, file, specifiers)
  {
    violations := [];
    for i := 0 to |specifiers|
      invariant violations == FileViolations(ws, owner, file, specifiers[..i])
    {
      var found := CheckSpecifier(ws, owner, file, specifiers[i]);
      if found.Some? {
        violations := violations + [found.value];
      }
      assert specifiers[..i + 1][..i] == specifiers[..i];
    }
    assert specifiers[..|specifiers|] == specifiers;
  }

  /** One round of the innermost loop; each `continue` of the source returns. */
  method CheckSpecifier(ws: Workspace, owner: Owner, file: Path, raw: string) returns (found: Option<Violation>)
    ensures found == SpecifierViolation(ws, owner, file, raw)
  {
    if IsIgnored(raw) {
      return None;
    }
    var specifier := CutQuery(raw);
    if StartsWith(specifier, ".") {
      var path := Resolve(file, specifier);
      if ws.root + ["ee"] <= path {
        return Some(ImportsEnterprise(file, raw));
      }
      var owning := OwnerForPath(path, ws.packages);
      if owning.Some? && owning.value != owner {
        return Some(CrossesInto(file, owning.value.manifest.name, raw));
      }
      return None;
    }
    if StartsWith(specifier, "node:") || specifier in ws.builtins {
      return None;
    }
    var dependency := DependencyName(specifier);
    var target := PackageNamed(ws.packages, dependency);
    if ForbidsDatabaseDependency(ws.root, file, specifier, dependency) {
      return Some(ForbiddenDatabase(file, raw));
    }
    if dependency == owner.manifest.name {
      return Some(InternalImport(file, raw));
    }
    if dependency !in owner.manifest.declared {
      return Some(Undeclared(file, dependency));
    }
    if owner.kind.PackageKind? && target.Some? && target.value.kind.AppKind? {
      return Some(ImportsApp(file, dependency));
    }
    if target.Some? && !IsExported(target.value.manifest.exports, Subpath(specifier)) {
      return Some(NotExported(file, raw, dependency));
    }
    found := None;
  }
}
