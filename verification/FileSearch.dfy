/** Searching a directory tree for file names or lines, with an early cut-off at a number of matches. */
module FileSearch {
  import opened Results
  import opened Sequences

  const MAX_READ_BYTES: nat := 256 * 1024
  const SKIPPED: set<string> := {".git", "target", "node_modules", ".next", "dist"}
  const PREVIEW_CHARS: nat := 240

  /** A finite tree as the search sees it; what cannot be read or listed is unreadable. */
  datatype Node =
    | Unreadable
    | Special
    | File(size: nat, content: Option<string>)
    | Directory(entries: seq<Entry>)

  datatype Entry = Entry(name: string, node: Node)

  /** Entries of these names are passed over. */
  predicate Skipped(name: string) {
    name in SKIPPED
  }

  datatype Mode = Files | Content

  datatype Query = Query(text: string, mode: Mode)

  datatype Found =
    | NameFound(path: string)
    | LineFound(path: string, relativePath: string, line: nat, preview: string)

  /** Where a node is: its path, its path below the root of the search, and its own name. */
  datatype Place = Place(path: string, relativePath: string, name: string)

  function Below(place: Place, name: string): Place {
    Place(
      if place.path != [] && place.path[|place.path| - 1] == '/' then place.path + name else place.path + "/" + name,
      if place.relativePath == [] then name else place.relativePath + "/" + name,
      name)
  }

  predicate Contains(s: string, part: string) {
    exists i | 0 <= i <= |s| :: part <= s[i..]
  }

  function FirstLine(s: string): (n: nat)
    ensures n <= |s| && (s != [] ==> n > 0)
  {
    if s == [] then 0 else if s[0] == '\n' then 1 else 1 + FirstLine(s[1..])
  }

  /** A line without its line feed and the carriage return before that. */
  function WithoutEnd(line: string): string {
    if line == [] || line[|line| - 1] != '\n' then line
    else if |line| > 1 && line[|line| - 2] == '\r' then line[..|line| - 2]
    else line[..|line| - 1]
  }

  function Lines(s: string): seq<string> {
    if s == [] then [] else [WithoutEnd(s[..FirstLine(s)])] + Lines(s[FirstLine(s)..])
  }

  function LineMatch(place: Place, line: string, number: nat): Found {
    LineFound(place.path, place.relativePath, number, if |line| <= PREVIEW_CHARS then line else line[..PREVIEW_CHARS])
  }

  // ---------- the search without a limit ----------

  function LineMatches(query: string, place: Place, lines: seq<string>, before: nat): seq<Found> {
    if lines == [] then []
    else
      (if Contains(lines[0], query) then [LineMatch(place, lines[0], before + 1)] else [])
      + LineMatches(query, place, lines[1..], before + 1)
  }

  /** The matches in one file: its name or path, or its lines. */
  function FileMatches(query: Query, place: Place, size: nat, content: Option<string>): seq<Found> {
    if size > MAX_READ_BYTES then []
    else if query.mode == Files then
      (if Contains(place.name, query.text) || Contains(place.path, query.text) then [NameFound(place.path)] else [])
    else if content.None? then []
    else LineMatches(query.text, place, Lines(content.value), 0)
  }

  function Matches(query: Query, place: Place, node: Node): seq<Found>
    decreases node, 1
  {
    match node
    case Unreadable => []
    case Special => []
    case File(size, content) => FileMatches(query, place, size, content)
    case Directory(entries) => EntryMatches(query, place, entries)
  }

  function EntryMatches(query: Query, place: Place, entries: seq<Entry>): seq<Found>
    decreases entries, 0
  {
    if entries == [] then []
    else
      (if Skipped(entries[0].name) then [] else Matches(query, Below(place, entries[0].name), entries[0].node))
      + EntryMatches(query, place, entries[1..])
  }

  // ---------- the limit ----------

  /** What has been collected, extended by the further matches as far as the limit allows. */
  function UpTo(collected: seq<Found>, more: seq<Found>, limit: nat): seq<Found> {
    if |collected| >= limit then collected
    else if |collected + more| <= limit then collected + more
    else (collected + more)[..limit]
  }

  /** Collecting up to the limit in two goes is collecting up to it at once. */
  lemma UpToTwice(collected: seq<Found>, a: seq<Found>, b: seq<Found>, limit: nat)
    ensures UpTo(UpTo(collected, a, limit), b, limit) == UpTo(collected, a + b, limit)
  {
    assert collected + (a + b) == (collected + a) + b;
    if |collected| < limit < |collected + a| {
      assert (collected + a + b)[..limit] == (collected + a)[..limit];
    }
  }

  lemma UpToNothing(collected: seq<Found>, limit: nat)
    ensures UpTo(collected, [], limit) == collected
  {
    assert collected + [] == collected;
  }

  /** The matches found so far. */
  class Collector {
    var matches: seq<Found>

    constructor ()
      ensures matches == []
    {
      matches := [];
    }
  }

  lemma LineMatchesStep(query: string, place: Place, lines: seq<string>, before: nat)
    requires lines != []
    ensures LineMatches(query, place, lines, before)
            == (if Contains(lines[0], query) then [LineMatch(place, lines[0], before + 1)] else [])
               + LineMatches(query, place, lines[1..], before + 1)
  {
  }

  /** The lines of a file, up to the limit. */
  method VisitLines(query: string, place: Place, content: string, limit: nat, out: Collector)
    modifies out
    ensures out.matches == UpTo(old(out.matches), LineMatches(query, place, Lines(content), 0), limit)
  {
    if |out.matches| >= limit {
      return;
    }
    var lines := Lines(content);
    ghost var start, all := out.matches, LineMatches(query, place, lines, 0);
    assert lines[0..] == lines;
    for index := 0 to |lines|
      invariant |out.matches| < limit
      invariant out.matches + LineMatches(query, place, lines[index..], index) == start + all
    {
      ghost var rest := LineMatches(query, place, lines[index + 1..], index + 1);
      assert lines[index..][1..] == lines[index + 1..];
      LineMatchesStep(query, place, lines[index..], index);
      if Contains(lines[index], query) {
        ghost var before := out.matches;
        out.matches := out.matches + [LineMatch(place, lines[index], index + 1)];
        Regroup(before, [LineMatch(place, lines[index], index + 1)], rest);
        if |out.matches| >= limit {
          assert (start + all)[..limit] == out.matches;
          return;
        }
      } else {
        assert [] + rest == rest;
      }
    }
    assert out.matches + [] == out.matches;
  }

  lemma EntryMatchesStep(query: Query, place: Place, entries: seq<Entry>, i: nat)
    requires i < |entries|
    ensures EntryMatches(query, place, entries[i..]) ==
            if Skipped(entries[i].name) then EntryMatches(query, place, entries[i + 1..])
            else Matches(query, Below(place, entries[i].name), entries[i].node) + EntryMatches(query, place, entries[i + 1..])
  {
    var rest := EntryMatches(query, place, entries[i + 1..]);
    assert entries[i..][1..] == entries[i + 1..];
    assert [] + rest == rest;
  }

  /**
   The search of one node with its early exits. It collects exactly the first matches of the unlimited search, in the
   same order, after what was collected before.
   */
  method Visit(query: Query, place: Place, node: Node, limit: nat, out: Collector)
    modifies out
    ensures out.matches == UpTo(old(out.matches), Matches(query, place, node), limit)
    decreases node
  {
    if |out.matches| >= limit {
      return;
    }
    ghost var start := out.matches;
    match node {
      case Directory(entries) =>
        var i := 0;
        assert entries[..0] == [];
        while i < |entries|
          invariant 0 <= i <= |entries|
          invariant |out.matches| < limit
          invariant UpTo(out.matches, EntryMatches(query, place, entries[i..]), limit)
                 == UpTo(start, EntryMatches(query, place, entries), limit)
        {
          ghost var rest := EntryMatches(query, place, entries[i + 1..]);
          EntryMatchesStep(query, place, entries, i);
          var name := entries[i].name;
          if Skipped(name) {
            i := i + 1;
            continue;
          }
          ghost var before := out.matches;
          Visit(query, Below(place, name), entries[i].node, limit, out);
          UpToTwice(before, Matches(query, Below(place, name), entries[i].node), rest, limit);
          if |out.matches| >= limit {
            return;
          }
          i := i + 1;
        }
        UpToNothing(out.matches, limit);
      case File(size, content) =>
        if size > MAX_READ_BYTES {
          UpToNothing(start, limit);
          return;
        }
        if query.mode == Files {
          if Contains(place.name, query.text) || Contains(place.path, query.text) {
            out.matches := out.matches + [NameFound(place.path)];
          } else {
            UpToNothing(start, limit);
          }
          return;
        }
        if content.None? {
          UpToNothing(start, limit);
          return;
        }
        VisitLines(query.text, place, content.value, limit, out);
      case _ =>
        UpToNothing(start, limit);
    }
  }

  function Limit(requested: Option<nat>): nat {
    var wanted := if requested.Some? then requested.value else 50;
    if wanted < 200 then wanted else 200
  }

  /** A search from the root returns a prefix of the unlimited search, all of it when that has no more than the limit. */
  method Search(root: Place, tree: Node, query: Query, requested: Option<nat>) returns (found: seq<Found>)
    ensures found <= Matches(query, root, tree)
    ensures |found| == if |Matches(query, root, tree)| < Limit(requested) then |Matches(query, root, tree)| else Limit(requested)
  {
    var out := new Collector();
    Visit(query, root, tree, Limit(requested), out);
    found := out.matches;
    assert [] + Matches(query, root, tree) == Matches(query, root, tree);
  }

  // ---------- what the search finds ----------

  /** The file that a path of entry positions leads to, through no skipped name. */
  function FileAt(place: Place, node: Node, path: seq<nat>): Option<(Place, Node)>
    decreases path
  {
    match node
    case File(_, _) => if path == [] then Some((place, node)) else None
    case Directory(entries) =>
      if path != [] && path[0] < |entries| && !Skipped(entries[path[0]].name) then
        FileAt(Below(place, entries[path[0]].name), entries[path[0]].node, path[1..])
      else None
    case _ => None
  }

  predicate FoundAt(query: Query, place: Place, node: Node, path: seq<nat>, f: Found) {
    match FileAt(place, node, path)
    case None => false
    case Some((at, file)) => file.File? && f in FileMatches(query, at, file.size, file.content)
  }

  lemma FirstEntryOrLater(query: Query, place: Place, entries: seq<Entry>, f: Found)
    requires entries != []
    ensures f in EntryMatches(query, place, entries)
            <==> InEntry(query, place, entries[0], f) || f in EntryMatches(query, place, entries[1..])
  {
  }

  /** The entry is not passed over and the match is one of those below it. */
  predicate InEntry(query: Query, place: Place, entry: Entry, f: Found) {
    !Skipped(entry.name) && f in Matches(query, Below(place, entry.name), entry.node)
  }

  lemma EntryMember(query: Query, place: Place, entries: seq<Entry>, f: Found)
    ensures f in EntryMatches(query, place, entries) <==> exists i | 0 <= i < |entries| :: InEntry(query, place, entries[i], f)
  {
    var holds := (es: seq<Entry>) => f in EntryMatches(query, place, es);
    var first := (e: Entry) => InEntry(query, place, e, f);
    forall es: seq<Entry> | es != [] ensures holds(es) <==> first(es[0]) || holds(es[1..]) {
      FirstEntryOrLater(query, place, es, f);
    }
    SomeElement(holds, first, entries);
    if i :| 0 <= i < |entries| && first(entries[i]) {
      assert InEntry(query, place, entries[i], f);
    }
    if i :| 0 <= i < |entries| && InEntry(query, place, entries[i], f) {
      assert first(entries[i]);
    }
  }

  lemma {:induction false} PathToMatch(query: Query, place: Place, node: Node, f: Found) returns (path: seq<nat>)
    requires f in Matches(query, place, node)
    ensures FoundAt(query, place, node, path, f)
    decreases node
  {
    if node.File? {
      path := [];
    } else {
      EntryMember(query, place, node.entries, f);
      var i :| 0 <= i < |node.entries| && InEntry(query, place, node.entries[i], f);
      var rest := PathToMatch(query, Below(place, node.entries[i].name), node.entries[i].node, f);
      path := [i] + rest;
      assert path[1..] == rest;
    }
  }

  lemma {:induction false} MatchOnPath(query: Query, place: Place, node: Node, path: seq<nat>, f: Found)
    requires FoundAt(query, place, node, path, f)
    ensures f in Matches(query, place, node)
    decreases path
  {
    if node.Directory? {
      var entry := node.entries[path[0]];
      MatchOnPath(query, Below(place, entry.name), entry.node, path[1..], f);
      EntryMember(query, place, node.entries, f);
    }
  }

  /** The unlimited search finds exactly the matches of the files that can be reached without a skipped directory. */
  lemma FindsEveryReachableMatch(query: Query, place: Place, node: Node, f: Found)
    ensures f in Matches(query, place, node) <==> exists path :: FoundAt(query, place, node, path, f)
  {
    if f in Matches(query, place, node) {
      var path := PathToMatch(query, place, node, f);
    }
    if path :| FoundAt(query, place, node, path, f) {
      MatchOnPath(query, place, node, path, f);
    }
  }

  /** In a file's text the search finds each line that contains the query, under its number, and nothing else. */
  lemma {:induction false} LineMatchesComplete(query: string, place: Place, lines: seq<string>, before: nat, f: Found)
    ensures f in LineMatches(query, place, lines, before)
            <==> exists i | 0 <= i < |lines| :: Contains(lines[i], query) && f == LineMatch(place, lines[i], before + i + 1)
  {
    if lines != [] {
      LineMatchesComplete(query, place, lines[1..], before + 1, f);
      if f in LineMatches(query, place, lines, before) {
        if !(Contains(lines[0], query) && f == LineMatch(place, lines[0], before + 1)) {
          var i :| 0 <= i < |lines[1..]| && Contains(lines[1..][i], query) && f == LineMatch(place, lines[1..][i], before + 1 + i + 1);
          assert lines[i + 1] == lines[1..][i];
        }
      }
      if i :| 0 <= i < |lines| && Contains(lines[i], query) && f == LineMatch(place, lines[i], before + i + 1) {
        assert i > 0 ==> lines[1..][i - 1] == lines[i];
      }
    }
  }

  // ---------- what counts as a match, spelled out ----------

  /** One text contains another as a piece. */
  lemma ContainsIff(s: string, part: string)
    ensures Contains(s, part) <==> exists before, after :: s == before + part + after
  {
    if i :| 0 <= i <= |s| && part <= s[i..] {
      assert s == s[..i] + part + s[i..][|part|..];
    }
    if before, after :| s == before + part + after {
      assert s[|before|..] == part + after;
      assert part <= s[|before|..];
    }
  }

  lemma SkippedIs(name: string)
    ensures Skipped(name) <==>
            name == ".git" || name == "target" || name == "node_modules" || name == ".next" || name == "dist"
  {
  }

  /** 50 matches when nothing is said, and never more than 200. */
  lemma LimitIs(requested: Option<nat>)
    ensures requested == None ==> Limit(requested) == 50
    ensures requested.Some? && requested.value <= 200 ==> Limit(requested) == requested.value
    ensures requested.Some? && requested.value > 200 ==> Limit(requested) == 200
  {
  }

  /** The name search finds a file by its name or path, unless it is larger than 256 KiB. */
  lemma NameMatchIs(text: string, place: Place, size: nat, content: Option<string>, f: Found)
    ensures f in FileMatches(Query(text, Files), place, size, content) <==>
            size <= 262144 && f == NameFound(place.path)
            && ((exists before, after :: place.name == before + text + after)
                || (exists before, after :: place.path == before + text + after))
  {
    ContainsIff(place.name, text);
    ContainsIff(place.path, text);
  }

  lemma {:induction false} LineIsMatched(query: string, place: Place, lines: seq<string>, before: nat, i: nat, f: Found)
    requires i < |lines| && Contains(lines[i], query) && f == LineMatch(place, lines[i], before + i + 1)
    ensures f in LineMatches(query, place, lines, before)
  {
    if i > 0 {
      LineIsMatched(query, place, lines[1..], before + 1, i - 1, f);
    }
  }

  lemma {:induction false} MatchedLine(query: string, place: Place, lines: seq<string>, before: nat, f: Found) returns (i: nat)
    requires f in LineMatches(query, place, lines, before)
    ensures i < |lines| && Contains(lines[i], query) && f == LineMatch(place, lines[i], before + i + 1)
  {
    i := 0;
    if !(Contains(lines[0], query) && f == LineMatch(place, lines[0], before + 1)) {
      i := MatchedLine(query, place, lines[1..], before + 1, f);
      i := i + 1;
    }
  }

  /** What the content search finds is a line of a readable text file of at most 256 KiB that contains the query. */
  lemma ContentMatchIs(text: string, place: Place, size: nat, content: Option<string>, f: Found) returns (i: nat)
    requires f in FileMatches(Query(text, Content), place, size, content)
    ensures size <= 262144 && content.Some? && i < |Lines(content.value)|
    ensures Contains(Lines(content.value)[i], text) && f == LineMatch(place, Lines(content.value)[i], i + 1)
  {
    i := MatchedLine(text, place, Lines(content.value), 0, f);
  }

  /** It finds every such line. */
  lemma EveryLineIsFound(text: string, place: Place, size: nat, content: string, i: nat)
    requires size <= 262144 && i < |Lines(content)| && Contains(Lines(content)[i], text)
    ensures LineMatch(place, Lines(content)[i], i + 1) in FileMatches(Query(text, Content), place, size, Some(content))
  {
    LineIsMatched(text, place, Lines(content), 0, i, LineMatch(place, Lines(content)[i], i + 1));
  }

  /** What is reported of a line: where it stands, its number, and its first 240 characters. */
  lemma LineMatchIs(place: Place, line: string, number: nat)
    ensures |line| <= 240 ==> LineMatch(place, line, number) == LineFound(place.path, place.relativePath, number, line)
    ensures |line| > 240 ==> LineMatch(place, line, number) == LineFound(place.path, place.relativePath, number, line[..240])
  {
  }

  /** Where an entry of a directory stands. */
  lemma BelowIs(place: Place, name: string)
    ensures Below(place, name).name == name
    ensures Below(place, name).path ==
            place.path + (if place.path != [] && place.path[|place.path| - 1] == '/' then "" else "/") + name
    ensures Below(place, name).relativePath == if place.relativePath == "" then name else place.relativePath + "/" + name
  {
  }

  lemma {:induction false} FirstLineOf(line: string, rest: string)
    requires '\n' !in line
    ensures FirstLine(line + "\n" + rest) == |line| + 1
  {
    var s := line + "\n" + rest;
    if line != [] {
      assert s[0] == line[0] && line[0] in line && s[1..] == line[1..] + "\n" + rest;
      FirstLineOf(line[1..], rest);
    }
  }

  /** The lines of a text are what stands between its line feeds, without a carriage return at the end. */
  lemma LinesAre(line: string, rest: string)
    requires '\n' !in line
    ensures Lines(line + "\n" + rest)
            == [if line != "" && line[|line| - 1] == '\r' then line[..|line| - 1] else line] + Lines(rest)
  {
    var s := line + "\n" + rest;
    FirstLineOf(line, rest);
    var whole := line + "\n";
    assert s[..|line| + 1] == whole && s[|line| + 1..] == rest;
    assert whole[|whole| - 1] == '\n' && whole[..|whole| - 1] == line;
    if line != [] {
      assert whole[|whole| - 2] == line[|line| - 1] && whole[..|whole| - 2] == line[..|line| - 1];
    }
  }

  lemma {:induction false} FirstLineIsAll(line: string)
    requires '\n' !in line
    ensures FirstLine(line) == |line|
  {
    if line != [] {
      assert line[0] in line;
      FirstLineIsAll(line[1..]);
    }
  }

  /** A last line without a line feed counts as it is; an empty rest is no line. */
  lemma LastLineIs(line: string)
    requires '\n' !in line
    ensures Lines(line) == if line == "" then [] else [line]
  {
    FirstLineIsAll(line);
    if line != [] {
      assert line[|line| - 1] in line;
      assert line[..|line|] == line && line[|line|..] == [];
    }
  }
}
