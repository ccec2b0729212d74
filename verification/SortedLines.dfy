/** `[...new Set(lines)].sort()`: a list of lines without repeats, in dictionary order. */
module SortedLines {
  import opened OrderedMap

  predicate Less(a: string, b: string) {
    if b == "" then false
    else if a == "" then true
    else a[0] < b[0] || (a[0] == b[0] && Less(a[1..], b[1..]))
  }

  lemma {:induction false} LessTotal(a: string, b: string)
    ensures Less(a, b) || a == b || Less(b, a)
    ensures !(Less(a, b) && Less(b, a)) && !Less(a, a)
    decreases |a|
  {
    if a != "" {
      LessTotal(a[1..], a[1..]);
      if b != "" {
        LessTotal(a[1..], b[1..]);
        assert a == [a[0]] + a[1..] && b == [b[0]] + b[1..];
      }
    }
  }

  /** Dictionary order: the first difference decides, and a line comes before its extensions. */
  lemma {:induction false} LessMeans(common: string, a: string, b: string)
    ensures a == "" && b != "" ==> Less(common + a, common + b)
    ensures a != "" && b != "" && a[0] < b[0] ==> Less(common + a, common + b)
  {
    if common == "" {
      assert common + a == a && common + b == b;
    } else {
      LessMeans(common[1..], a, b);
      assert (common + a)[1..] == common[1..] + a && (common + b)[1..] == common[1..] + b;
    }
  }

  lemma {:induction false} LessTransitive(a: string, b: string, c: string)
    requires Less(a, b) && Less(b, c)
    ensures Less(a, c)
    decreases |a|
  {
    if a != "" && a[0] == b[0] && b[0] == c[0] {
      LessTransitive(a[1..], b[1..], c[1..]);
    }
  }

  ghost predicate StrictlySorted(lines: seq<string>) {
    forall i, j :: 0 <= i < j < |lines| ==> Less(lines[i], lines[j])
  }

  function Insert(lines: seq<string>, line: string): seq<string> {
    if lines == [] || Less(line, lines[0]) then [line] + lines
    else if lines[0] == line then lines
    else [lines[0]] + Insert(lines[1..], line)
  }

  function SortUnique(lines: seq<string>): seq<string> {
    if lines == [] then [] else Insert(SortUnique(lines[1..]), lines[0])
  }

  lemma {:induction false} InsertSorts(lines: seq<string>, line: string)
    requires StrictlySorted(lines)
    ensures StrictlySorted(Insert(lines, line))
    ensures forall x :: x in Insert(lines, line) <==> x in lines || x == line
  {
    if lines != [] {
      LessTotal(line, lines[0]);
      if Less(line, lines[0]) {
        forall j | 0 < j < |lines| ensures Less(line, lines[j]) {
          LessTransitive(line, lines[0], lines[j]);
        }
      } else {
        assert lines == [lines[0]] + lines[1..];
        if lines[0] != line {
          InsertSorts(lines[1..], line);
          var rest := Insert(lines[1..], line);
          assert forall j :: 0 <= j < |rest| ==> rest[j] in rest;
          forall x | x in rest ensures Less(lines[0], x) {
            if x != line {
              var j :| 0 <= j < |lines[1..]| && lines[1..][j] == x;
              assert x == lines[j + 1];
            }
          }
        }
      }
    }
  }

  /** Sorting keeps exactly the lines, once each, in order. */
  lemma {:induction false} SortUniqueSorts(lines: seq<string>)
    ensures StrictlySorted(SortUnique(lines))
    ensures forall x :: x in SortUnique(lines) <==> x in lines
  {
    if lines != [] {
      SortUniqueSorts(lines[1..]);
      InsertSorts(SortUnique(lines[1..]), lines[0]);
      assert lines == [lines[0]] + lines[1..];
    }
  }

  /** A sorted list is determined by its lines. */
  lemma {:induction false} SortedIsCanonical(a: seq<string>, b: seq<string>)
    requires StrictlySorted(a) && StrictlySorted(b)
    requires forall x :: x in a <==> x in b
    ensures a == b
  {
    HeadIsLine(a);
    HeadIsLine(b);
    if a != [] {
      SameHead(a, b);
      TailMembers(a);
      TailMembers(b);
      SortedIsCanonical(a[1..], b[1..]);
      assert a == [a[0]] + a[1..] && b == [b[0]] + b[1..];
    }
  }

  lemma HeadIsLine(lines: seq<string>)
    ensures lines == [] || lines[0] in lines
  {
  }

  lemma SameHead(a: seq<string>, b: seq<string>)
    requires StrictlySorted(a) && StrictlySorted(b) && a != [] && b != []
    requires a[0] in b && b[0] in a
    ensures a[0] == b[0]
  {
    LessTotal(a[0], b[0]);
    var i :| 0 <= i < |b| && b[i] == a[0];
    var j :| 0 <= j < |a| && a[j] == b[0];
  }

  lemma TailMembers(lines: seq<string>)
    requires StrictlySorted(lines) && lines != []
    ensures forall x :: x in lines[1..] <==> x in lines && x != lines[0]
  {
    LessTotal(lines[0], lines[0]);
    forall x | x in lines && x != lines[0] ensures x in lines[1..] {
      var i :| 0 <= i < |lines| && lines[i] == x;
      assert lines[1..][i - 1] == x;
    }
  }
}
