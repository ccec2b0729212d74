/** The string helpers of bin/check-package-boundaries.js: splitting a module specifier into its
    package and subpath, and matching a subpath against the keys of an exports map. */
module ModuleSpecifiers {

  predicate StartsWith(s: string, prefix: string) {
    prefix <= s
  }

  predicate EndsWith(s: string, suffix: string) {
    |suffix| <= |s| && s[|s| - |suffix|..] == suffix
  }

  /** `String.split` with a one-character separator. */
  function Split(s: string, sep: char): (parts: seq<string>)
    ensures |parts| >= 1
  {
    if s == "" then [""]
    else if s[0] == sep then [""] + Split(s[1..], sep)
    else
      var rest := Split(s[1..], sep);
      [[s[0]] + rest[0]] + rest[1..]
  }

  /** `Array.join`. */
  function Join(parts: seq<string>, sep: char): string {
    if parts == [] then ""
    else if |parts| == 1 then parts[0]
    else parts[0] + [sep] + Join(parts[1..], sep)
  }

  function Take(parts: seq<string>, n: nat): seq<string> {
    if |parts| <= n then parts else parts[..n]
  }

  function DependencyName(specifier: string): string {
    if StartsWith(specifier, "@") then Join(Take(Split(specifier, '/'), 2), '/')
    else Split(specifier, '/')[0]
  }

  function ImportSubpath(specifier: string, packageName: string): string
    requires packageName <= specifier
  {
    if specifier == packageName then "." else "." + specifier[|packageName|..]
  }

  /** The destructuring keeps the first two pieces and drops any further ones. */
  predicate MatchesExport(exportKey: string, subpath: string) {
    if '*' !in exportKey then exportKey == subpath
    else
      var pieces := Split(exportKey, '*');
      StartsWith(subpath, pieces[0]) && EndsWith(subpath, if |pieces| > 1 then pieces[1] else "")
  }

  /** The shapes of `exports` that the checker tells apart; `Falsy` stands for null and the like. */
  datatype Exports = Undefined | SingleOrList | Falsy | Keys(keys: seq<string>)

  predicate IsExported(exports: Exports, subpath: string) {
    match exports
    case Undefined => subpath == "."
    case SingleOrList => subpath == "."
    case Falsy => false
    case Keys(keys) =>
      if !(exists i :: 0 <= i < |keys| && StartsWith(keys[i], ".")) then subpath == "."
      else exists i :: 0 <= i < |keys| && MatchesExport(keys[i], subpath)
  }

  // ------------------------------------------------------------ splitting

  /** The first pieces, joined, are the specifier up to a separator, or all of it. */
  lemma {:induction false} TakeJoins(s: string, sep: char, n: nat)
    requires n >= 1
    ensures var head := Join(Take(Split(s, sep), n), sep);
      head <= s && (head == s || s[|head|] == sep)
  {
    if s != "" {
      var rest := Split(s[1..], sep);
      if s[0] == sep {
        if n > 1 {
          TakeJoins(s[1..], sep, n - 1);
          assert Take([""] + rest, n) == [""] + Take(rest, n - 1);
        } else {
          assert Take([""] + rest, n) == [""];
        }
      } else {
        TakeJoins(s[1..], sep, n);
        var parts := [[s[0]] + rest[0]] + rest[1..];
        JoinFirst(Take(rest, n), s[0], sep);
        assert Take(parts, n) == [[s[0]] + rest[0]] + Take(rest, n)[1..];
      }
    }
  }

  lemma JoinFirst(parts: seq<string>, c: char, sep: char)
    requires parts != []
    ensures Join([[c] + parts[0]] + parts[1..], sep) == [c] + Join(parts, sep)
  {
    var longer := [[c] + parts[0]] + parts[1..];
    assert longer[1..] == parts[1..];
  }

  lemma DependencyIsHead(specifier: string)
    ensures var dependency := DependencyName(specifier);
      dependency <= specifier && (dependency == specifier || specifier[|dependency|] == '/')
  {
    if StartsWith(specifier, "@") {
      TakeJoins(specifier, '/', 2);
    } else {
      TakeJoins(specifier, '/', 1);
      assert Take(Split(specifier, '/'), 1) == [Split(specifier, '/')[0]];
    }
  }

  /** The dependency followed by the tail of the subpath is the specifier again, and the subpath
      is the package itself or a path below it. */
  lemma SpecifierRebuilt(specifier: string)
    ensures DependencyName(specifier) <= specifier
    ensures var subpath := ImportSubpath(specifier, DependencyName(specifier));
      && DependencyName(specifier) + subpath[1..] == specifier
      && (subpath == "." || StartsWith(subpath, "./"))
  {
    DependencyIsHead(specifier);
    var dependency := DependencyName(specifier);
    var rest := specifier[|dependency|..];
    assert dependency + rest == specifier;
    if dependency != specifier {
      assert rest[0] == '/';
      assert ("." + rest)[1..] == rest && ("." + rest)[..2] == "./";
    }
  }

  lemma {:induction false} SplitOnce(prefix: string, rest: string, sep: char)
    requires sep !in prefix
    ensures Split(prefix + [sep] + rest, sep) == [prefix] + Split(rest, sep)
  {
    if prefix == "" {
      assert prefix + [sep] + rest == [sep] + rest;
    } else {
      var s := prefix + [sep] + rest;
      assert s[1..] == prefix[1..] + [sep] + rest;
      SplitOnce(prefix[1..], rest, sep);
      assert [prefix[0]] + prefix[1..] == prefix;
      assert ([prefix[1..]] + Split(rest, sep))[1..] == Split(rest, sep);
    }
  }

  lemma {:induction false} SplitNone(s: string, sep: char)
    requires sep !in s
    ensures Split(s, sep) == [s]
  {
    if s != "" {
      SplitNone(s[1..], sep);
      assert [s[0]] + s[1..] == s && [s[1..]][1..] == [];
    }
  }

  // ------------------------------------------------------------ package names

  /** "name", or "@scope/name". */
  ghost predicate IsPackageName(name: string) {
    if StartsWith(name, "@") then exists scope, rest :: name == "@" + scope + "/" + rest && '/' !in scope && '/' !in rest
    else '/' !in name
  }

  /** The specifier is that of the package itself, or of a path below it. */
  predicate Names(specifier: string, name: string) {
    specifier == name || StartsWith(specifier, name + "/")
  }

  lemma ScopedSegments(scope: string, name: string, tail: string)
    requires '/' !in scope && '/' !in name
    ensures DependencyName("@" + scope + "/" + name) == "@" + scope + "/" + name
    ensures DependencyName("@" + scope + "/" + name + "/" + tail) == "@" + scope + "/" + name
  {
    var head, whole := "@" + scope, "@" + scope + "/" + name;
    assert whole == head + ['/'] + name && whole[0] == '@';
    SplitOnce(head, name, '/');
    SplitNone(name, '/');
    assert Split(whole, '/') == [head, name];
    JoinTwo(head, name);
    var longer := whole + "/" + tail;
    assert longer == head + ['/'] + (name + ['/'] + tail) && longer[0] == '@';
    SplitOnce(head, name + ['/'] + tail, '/');
    SplitOnce(name, tail, '/');
    assert Split(longer, '/') == [head, name] + Split(tail, '/');
    assert Take(Split(longer, '/'), 2) == [head, name];
  }

  lemma JoinTwo(a: string, b: string)
    ensures Join([a, b], '/') == a + "/" + b
  {
    assert [a, b][1..] == [b];
  }

  lemma PlainSegment(name: string, tail: string)
    requires '/' !in name && !StartsWith(name, "@")
    ensures DependencyName(name) == name
    ensures DependencyName(name + "/" + tail) == name
  {
    SplitNone(name, '/');
    SplitOnce(name, tail, '/');
    var longer := name + "/" + tail;
    assert longer == name + ['/'] + tail;
    assert longer[0] == if name == "" then '/' else name[0];
    assert name != "" ==> name[..1] == [name[0]];
    assert longer[..1] == [longer[0]];
  }

  /** A specifier belongs to a package exactly when it is the package's name or a path below it. */
  lemma DependencyIff(specifier: string, name: string)
    requires IsPackageName(name)
    ensures DependencyName(specifier) == name <==> Names(specifier, name)
  {
    if Names(specifier, name) {
      var tail := if specifier == name then "" else specifier[|name| + 1..];
      assert specifier != name ==> specifier == name + "/" + tail;
      if StartsWith(name, "@") {
        var scope, rest :| name == "@" + scope + "/" + rest && '/' !in scope && '/' !in rest;
        ScopedSegments(scope, rest, tail);
      } else {
        PlainSegment(name, tail);
      }
    } else {
      DependencyIsHead(specifier);
    }
  }

  /** Without a scope only the first segment is the package. */
  lemma PlainHasNoSlash(specifier: string)
    requires !StartsWith(specifier, "@")
    ensures '/' !in DependencyName(specifier)
  {
    FirstPieceIsClean(specifier, '/');
  }

  lemma {:induction false} FirstPieceIsClean(s: string, sep: char)
    ensures sep !in Split(s, sep)[0]
  {
    if s != "" && s[0] != sep {
      FirstPieceIsClean(s[1..], sep);
    }
  }

  // ------------------------------------------------------------ export keys

  /** `subpath` is the key with something put in for its star. */
  ghost predicate Substitutes(prefix: string, suffix: string, subpath: string) {
    exists middle :: subpath == prefix + middle + suffix
  }

  lemma OneStarPieces(prefix: string, suffix: string, subpath: string)
    requires '*' !in prefix && '*' !in suffix
    ensures MatchesExport(prefix + "*" + suffix, subpath) <==> StartsWith(subpath, prefix) && EndsWith(subpath, suffix)
  {
    assert (prefix + "*" + suffix)[|prefix|] == '*';
    SplitOnce(prefix, suffix, '*');
    SplitNone(suffix, '*');
  }

  /** A one-star key accepts every true substitution, and of the subpaths that are long enough
      for its two ends no others. */
  lemma OneStarKey(prefix: string, suffix: string, subpath: string)
    requires '*' !in prefix && '*' !in suffix
    ensures Substitutes(prefix, suffix, subpath) <==>
      MatchesExport(prefix + "*" + suffix, subpath) && |subpath| >= |prefix| + |suffix|
  {
    OneStarPieces(prefix, suffix, subpath);
    if StartsWith(subpath, prefix) && EndsWith(subpath, suffix) && |subpath| >= |prefix| + |suffix| {
      assert subpath == prefix + subpath[|prefix|..|subpath| - |suffix|] + suffix;
    }
    if Substitutes(prefix, suffix, subpath) {
      var middle :| subpath == prefix + middle + suffix;
      assert subpath[..|prefix|] == prefix && subpath[|subpath| - |suffix|..] == suffix;
    }
  }

  /** Counterexample: the ends may overlap. */
  lemma OverlapAccepted()
    ensures MatchesExport("./a*a", "./a") && !Substitutes("./a", "a", "./a")
  {
    OneStarPieces("./a", "a", "./a");
    OneStarKey("./a", "a", "./a");
    assert "./a" + "*" + "a" == "./a*a";
    assert "./a"[2..] == "a";
  }

  /** Counterexample: what follows a second star is not compared at all. */
  lemma SecondStarIgnored(prefix: string, suffix: string, ignored: string, middle: string)
    requires '*' !in prefix && '*' !in suffix
    ensures MatchesExport(prefix + "*" + (suffix + "*" + ignored), prefix + middle + suffix)
  {
    var key, subpath := prefix + "*" + (suffix + "*" + ignored), prefix + middle + suffix;
    assert key[|prefix|] == '*';
    SplitOnce(prefix, suffix + "*" + ignored, '*');
    SplitOnce(suffix, ignored, '*');
    assert subpath[|subpath| - |suffix|..] == suffix;
  }
}
