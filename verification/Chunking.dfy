/** Line-exact chunking of documents and source files. Lines are numbered from 1. */
module Chunking {
  import opened Wrappers
  import ChatHistory

  datatype Chunk = Chunk(symbol: string, start: nat, end: int, language: string, content: string)

  // ------------------------------------------------------------ text

  function Join(lines: seq<string>): string {
    if lines == [] then "" else if |lines| == 1 then lines[0] else Join(lines[..|lines|-1]) + "\n" + lines[|lines|-1]
  }

  /** Nothing is left of it after strip(). */
  predicate Blank(text: string) { forall i | 0 <= i < |text| :: ChatHistory.IsSpace(text[i]) }

  predicate IsHeading(line: string) { line != "" && line[0] == '#' }

  function DropHashes(s: string): string { if s != "" && s[0] == '#' then DropHashes(s[1..]) else s }
  function TrimLeft(s: string): string { if s != "" && ChatHistory.IsSpace(s[0]) then TrimLeft(s[1..]) else s }
  function TrimRight(s: string): string { if s != "" && ChatHistory.IsSpace(s[|s|-1]) then TrimRight(s[..|s|-1]) else s }

  function HeadingText(line: string, path: string): string {
    var text := TrimRight(TrimLeft(DropHashes(line)));
    if text == "" then path else text
  }

  /** The symbol of a section that starts with this line. */
  function Title(line: string, path: string): string { if IsHeading(line) then HeadingText(line, path) else "" }

  predicate Hashes(s: string) { forall i | 0 <= i < |s| :: s[i] == '#' }

  lemma {:induction false} CutHashes(s: string) returns (hashes: string, rest: string)
    ensures s == hashes + rest && Hashes(hashes) && rest == DropHashes(s) && (rest != "" ==> rest[0] != '#')
    decreases |s|
  {
    if s != "" && s[0] == '#' {
      hashes, rest := CutHashes(s[1..]);
      hashes := "#" + hashes;
    } else {
      hashes, rest := "", s;
    }
  }

  lemma {:induction false} CutLeft(s: string) returns (left: string, rest: string)
    ensures s == left + rest && Blank(left) && rest == TrimLeft(s) && (rest != "" ==> !ChatHistory.IsSpace(rest[0]))
    decreases |s|
  {
    if s != "" && ChatHistory.IsSpace(s[0]) {
      left, rest := CutLeft(s[1..]);
      left := [s[0]] + left;
    } else {
      left, rest := "", s;
    }
  }

  lemma {:induction false} CutRight(s: string) returns (rest: string, right: string)
    ensures s == rest + right && Blank(right) && rest == TrimRight(s) && (rest != "" ==> !ChatHistory.IsSpace(rest[|rest|-1]))
    decreases |s|
  {
    if s != "" && ChatHistory.IsSpace(s[|s|-1]) {
      rest, right := CutRight(s[..|s|-1]);
      right := right + [s[|s|-1]];
    } else {
      rest, right := s, "";
    }
  }

  /** `text` is `s` without the white space at either end. */
  ghost predicate Trimmed(s: string, left: string, text: string, right: string) {
    && s == left + text + right && Blank(left) && Blank(right)
    && (text != "" ==> !ChatHistory.IsSpace(text[0]) && !ChatHistory.IsSpace(text[|text|-1]))
  }

  lemma CutBoth(s: string) returns (left: string, text: string, right: string)
    ensures Trimmed(s, left, text, right) && text == TrimRight(TrimLeft(s))
  {
    var rest;
    left, rest := CutLeft(s);
    text, right := CutRight(rest);
    assert left + (text + right) == left + text + right;
    if text != "" { assert text[0] == rest[0]; }
  }

  /** A heading is its line without the leading hashes and without white space at either end, or the path when
      nothing is left. */
  lemma HeadingMeans(line: string, path: string) returns (hashes: string, rest: string, left: string, text: string, right: string)
    ensures line == hashes + rest && Hashes(hashes) && (rest != "" ==> rest[0] != '#')
    ensures Trimmed(rest, left, text, right) && HeadingText(line, path) == if text == "" then path else text
  {
    hashes, rest := CutHashes(line);
    left, text, right := CutBoth(rest);
  }

  lemma JoinSnoc(lines: seq<string>, line: string)
    ensures Join(lines + [line]) == if lines == [] then line else Join(lines) + "\n" + line
  {
    assert (lines + [line])[..|lines|] == lines;
  }

  lemma {:induction false} JoinConcat(a: seq<string>, b: seq<string>)
    requires a != [] && b != []
    ensures Join(a + b) == Join(a) + "\n" + Join(b)
    decreases |b|
  {
    var n := |b| - 1;
    assert b == b[..n] + [b[n]] && a + b == (a + b[..n]) + [b[n]];
    JoinSnoc(a + b[..n], b[n]);
    JoinSnoc(b[..n], b[n]);
    if n == 0 { assert a + b[..n] == a; } else { JoinConcat(a, b[..n]); }
  }

  lemma BlankParts(x: string, y: string)
    ensures Blank(x + "\n" + y) <==> Blank(x) && Blank(y)
  {
    var t := x + "\n" + y;
    assert t[|x|] == '\n';
    if Blank(t) {
      forall i | 0 <= i < |x| ensures ChatHistory.IsSpace(x[i]) { assert t[i] == x[i]; }
      forall i | 0 <= i < |y| ensures ChatHistory.IsSpace(y[i]) { assert t[|x| + 1 + i] == y[i]; }
    }
  }

  /** A joined text is blank exactly when every line is. */
  lemma {:induction false} JoinBlank(lines: seq<string>)
    ensures Blank(Join(lines)) <==> forall i | 0 <= i < |lines| :: Blank(lines[i])
    decreases |lines|
  {
    if lines != [] {
      var n := |lines| - 1;
      JoinBlank(lines[..n]);
      assert lines == lines[..n] + [lines[n]];
      JoinSnoc(lines[..n], lines[n]);
      if n > 0 { BlankParts(Join(lines[..n]), lines[n]); }
      assert forall i | 0 <= i < n :: lines[..n][i] == lines[i];
    }
  }

  // ------------------------------------------------------------ Markdown

  /** A chunk is exactly the lines of its range, named after the heading it starts with; only its first
      line can be a heading. */
  predicate Section(lines: seq<string>, c: Chunk, path: string) {
    && 1 <= c.start <= c.end <= |lines| && c.language == "markdown"
    && c.content == Join(lines[c.start - 1..c.end])
    && c.symbol == Title(lines[c.start - 1], path)
    && forall k | c.start <= k < c.end :: !IsHeading(lines[k])
  }

  /** The chunks are consecutive sections that end at line `last`; every section but the first starts
      at a heading. */
  predicate Sections(lines: seq<string>, chunks: seq<Chunk>, last: int, path: string) {
    chunks == [] ||
    var n := |chunks| - 1;
    && Section(lines, chunks[n], path) && chunks[n].end == last
    && (n > 0 ==> IsHeading(lines[chunks[n].start - 1]))
    && Sections(lines, chunks[..n], chunks[n].start - 1, path)
  }

  /** The lines before the first chunk. */
  function Skipped(chunks: seq<Chunk>, last: int): int { if chunks == [] then last else chunks[0].start - 1 }

  predicate BlankLines(lines: seq<string>, n: int) { n <= |lines| && forall k | 0 <= k < n :: Blank(lines[k]) }

  lemma HeadingIsNotBlank(lines: seq<string>, from: nat, to: nat)
    requires from < to <= |lines| && IsHeading(lines[from])
    ensures !Blank(Join(lines[from..to]))
  {
    JoinBlank(lines[from..to]);
    assert lines[from..to][0] == lines[from];
    assert !ChatHistory.IsSpace(lines[from][0]);
  }

  /** The open section: what has been read since the last flush. */
  predicate OpenSection(lines: seq<string>, start: nat, upTo: nat, current: seq<string>, heading: string, path: string) {
    && 1 <= start <= upTo + 1 && upTo <= |lines| && current == lines[start - 1..upTo]
    && (forall k | start <= k < upTo :: !IsHeading(lines[k]))
    && (current != [] ==> heading == Title(lines[start - 1], path))
  }

  /** Between two flushes the chunks so far end where the open section starts, and if there are none the
      section before it was blank. */
  predicate Flushed(lines: seq<string>, chunks: seq<Chunk>, start: nat, path: string) {
    && 1 <= start <= |lines| + 1
    && Sections(lines, chunks, start - 1, path)
    && BlankLines(lines, Skipped(chunks, start - 1))
    && (start == 1 ==> chunks == [])
  }

  lemma SectionAdded(lines: seq<string>, chunks: seq<Chunk>, start: nat, end: nat, current: seq<string>, heading: string, path: string)
    requires Flushed(lines, chunks, start, path) && OpenSection(lines, start, end, current, heading, path)
    requires current != [] && (start > 1 ==> IsHeading(lines[start - 1]))
    ensures Flushed(lines, chunks + [Chunk(heading, start, end, "markdown", Join(current))], end + 1, path)
  {
    OneMoreSection(lines, chunks, Chunk(heading, start, end, "markdown", Join(current)), path);
  }

  lemma OneMoreSection(lines: seq<string>, chunks: seq<Chunk>, c: Chunk, path: string)
    requires Flushed(lines, chunks, c.start, path) && Section(lines, c, path) && (c.start > 1 ==> IsHeading(lines[c.start - 1]))
    ensures Flushed(lines, chunks + [c], c.end + 1, path)
  {
    var all := chunks + [c];
    assert all[..|chunks|] == chunks && all[|chunks|] == c;
    assert Sections(lines, all, c.end, path);
    assert Skipped(all, c.end) == Skipped(chunks, c.start - 1);
  }

  lemma PreambleDropped(lines: seq<string>, chunks: seq<Chunk>, start: nat, end: nat, current: seq<string>, heading: string, path: string)
    requires Flushed(lines, chunks, start, path) && OpenSection(lines, start, end, current, heading, path)
    requires Blank(Join(current)) && (start > 1 ==> current != [] && IsHeading(lines[start - 1]))
    ensures chunks == [] && start == 1 && BlankLines(lines, end)
  {
    if start > 1 { HeadingIsNotBlank(lines, start - 1, end); }
    JoinBlank(current);
    assert forall k | 0 <= k < end :: current[k] == lines[k];
  }

  /** Closes the open section at line `end`. */
  method Flush(lines: seq<string>, chunks: seq<Chunk>, start: nat, end: nat, current: seq<string>, heading: string, path: string)
    returns (r: seq<Chunk>)
    requires Flushed(lines, chunks, start, path) && OpenSection(lines, start, end, current, heading, path)
    requires start > 1 ==> current != [] && IsHeading(lines[start - 1])
    ensures Flushed(lines, r, end + 1, path)
  {
    var content := Join(current);
    r := chunks;
    if !Blank(content) {
      SectionAdded(lines, chunks, start, end, current, heading, path);
      r := r + [Chunk(heading, start, end, "markdown", content)];
    } else {
      PreambleDropped(lines, chunks, start, end, current, heading, path);
    }
  }

  /** Reading one more line of the open section, or the heading that starts a new one. */
  lemma LineRead(lines: seq<string>, start: nat, i: nat, current: seq<string>, heading: string, path: string)
    requires i < |lines| && OpenSection(lines, start, i, current, heading, path) && (current == [] ==> start == i + 1)
    requires current == [] ==> heading == Title(lines[i], path)
    requires current != [] ==> !IsHeading(lines[i])
    ensures OpenSection(lines, start, i + 1, current + [lines[i]], heading, path)
  {
  }

  /** Chunks a document on its headings: the chunks cover a suffix of the document without gaps or
      overlaps, and only a blank preamble can be missing. */
  method MarkdownChunks(lines: seq<string>, path: string) returns (chunks: seq<Chunk>)
    ensures Sections(lines, chunks, |lines|, path)
    ensures BlankLines(lines, Skipped(chunks, |lines|))
  {
    chunks := [];
    var heading, start, current := "", 1, [];
    for i := 0 to |lines|
      invariant Flushed(lines, chunks, start, path) && OpenSection(lines, start, i, current, heading, path)
      invariant start > 1 ==> current != [] && IsHeading(lines[start - 1])
      invariant current == [] ==> heading == "" && i == 0
    {
      var line := lines[i];
      if IsHeading(line) {
        chunks := Flush(lines, chunks, start, i, current, heading, path);
        current := [];
        heading := HeadingText(line, path);
        start := i + 1;
      }
      LineRead(lines, start, i, current, heading, path);
      current := current + [line];
    }
    chunks := Flush(lines, chunks, start, |lines|, current, heading, path);
  }

  function Contents(chunks: seq<Chunk>): seq<string> {
    if chunks == [] then [] else Contents(chunks[..|chunks|-1]) + [chunks[|chunks|-1].content]
  }

  lemma {:induction false} Upward(lines: seq<string>, chunks: seq<Chunk>, last: nat, path: string)
    requires Sections(lines, chunks, last, path) && chunks != []
    ensures 0 <= Skipped(chunks, last) < last <= |lines|
    decreases |chunks|
  {
    var n := |chunks| - 1;
    assert Section(lines, chunks[n], path);
    if n > 0 { Upward(lines, chunks[..n], chunks[n].start - 1, path); }
  }

  /** Ranges are contiguous and increasing, and each chunk after the first starts at a heading. */
  lemma {:induction false} SectionsAreContiguous(lines: seq<string>, chunks: seq<Chunk>, last: int, path: string, i: nat)
    requires Sections(lines, chunks, last, path) && i < |chunks|
    ensures Section(lines, chunks[i], path)
    ensures if i + 1 < |chunks| then chunks[i+1].start == chunks[i].end + 1 else chunks[i].end == last
    ensures i > 0 ==> IsHeading(lines[chunks[i].start - 1])
    decreases |chunks|
  {
    var n := |chunks| - 1;
    if i < n {
      var earlier := chunks[..n];
      SectionsAreContiguous(lines, earlier, chunks[n].start - 1, path, i);
      assert earlier[i] == chunks[i];
      if i + 1 < n { assert earlier[i+1] == chunks[i+1]; }
    }
  }

  lemma JoinSlices(lines: seq<string>, from: nat, mid: nat, to: nat)
    requires from < mid < to <= |lines|
    ensures Join(lines[from..to]) == Join(lines[from..mid]) + "\n" + Join(lines[mid..to])
  {
    JoinConcat(lines[from..mid], lines[mid..to]);
    assert lines[from..to] == lines[from..mid] + lines[mid..to];
  }

  lemma LastRejoins(lines: seq<string>, contents: seq<string>, content: string, from: nat, mid: nat, last: nat)
    requires contents != [] && from < mid < last <= |lines|
    requires content == Join(lines[mid..last]) && Join(contents) == Join(lines[from..mid])
    ensures Join(contents + [content]) == Join(lines[from..last])
  {
    JoinSnoc(contents, content);
    JoinSlices(lines, from, mid, last);
  }

  /** Joining the chunks gives back the document after its blank preamble. */
  lemma {:induction false} ChunksRejoin(lines: seq<string>, chunks: seq<Chunk>, last: nat, path: string)
    requires Sections(lines, chunks, last, path) && last <= |lines|
    ensures 0 <= Skipped(chunks, last) <= last
    ensures Join(Contents(chunks)) == Join(lines[Skipped(chunks, last)..last])
    decreases |chunks|
  {
    if chunks != [] {
      Upward(lines, chunks, last, path);
      var n := |chunks| - 1;
      var c, earlier := chunks[n], chunks[..n];
      assert Section(lines, c, path);
      if n == 0 {
        assert Contents(chunks) == [c.content];
      } else {
        ChunksRejoin(lines, earlier, c.start - 1, path);
        Upward(lines, earlier, c.start - 1, path);
        LastRejoins(lines, Contents(earlier), c.content, Skipped(earlier, c.start - 1), c.start - 1, last);
      }
    }
  }

  // ------------------------------------------------------------ Python

  /** The part of a syntax tree the walk looks at: definitions, the control flow it enters, and
      everything else. */
  datatype Node = Def(name: string, line: nat, endLine: nat, body: seq<Node>) | Flow(body: seq<Node>) | Other

  /** The line ranges a parser gives definitions of a file of `n` lines. */
  predicate Placed(nodes: seq<Node>, n: nat) {
    forall i | 0 <= i < |nodes| :: PlacedNode(nodes[i], n)
  }

  predicate PlacedNode(node: Node, n: nat) {
    match node
    case Def(_, line, endLine, body) => 1 <= line <= endLine <= n && Placed(body, n)
    case Flow(body) => Placed(body, n)
    case Other => true
  }

  function Definitions(nodes: seq<Node>, prefix: string, lines: seq<string>): seq<Chunk>
    requires Placed(nodes, |lines|)
  {
    if nodes == [] then []
    else NodeDefinitions(nodes[0], prefix, lines) + Definitions(nodes[1..], prefix, lines)
  }

  function NodeDefinitions(node: Node, prefix: string, lines: seq<string>): seq<Chunk>
    requires PlacedNode(node, |lines|)
  {
    match node
    case Def(name, line, endLine, body) =>
      [Chunk(prefix + name, line, endLine, "python", Join(lines[line - 1..endLine]))] + Definitions(body, prefix + name + ".", lines)
    case Flow(body) => Definitions(body, prefix, lines)
    case Other => []
  }

  /** The lines of no definition. */
  function Outside(lines: seq<string>, covered: set<int>): seq<string> {
    if lines == [] then []
    else
      var n := |lines| - 1;
      if n + 1 in covered then Outside(lines[..n], covered) else Outside(lines[..n], covered) + [lines[n]]
  }

  /** Line `k` (from 1) belongs to a definition chunk. */
  predicate Within(chunks: seq<Chunk>, k: int) { exists i :: 0 <= i < |chunks| && chunks[i].start <= k <= chunks[i].end }

  /** The lines a range covers. */
  function Range(first: int, last: int): (s: set<int>)
    ensures forall k :: k in s <==> first <= k <= last
    decreases last - first
  {
    if first > last then {} else {first} + Range(first + 1, last)
  }

  class PythonChunker {
    const lines: seq<string>
    var chunks: seq<Chunk>
    var covered: seq<(int, int)>

    constructor (lines: seq<string>)
      ensures this.lines == lines && chunks == [] && covered == []
    {
      this.lines := lines;
      chunks, covered := [], [];
    }

    /** `covered` lists the ranges of `chunks`. */
    ghost predicate InStep() reads this {
      |covered| == |chunks| && forall i | 0 <= i < |chunks| :: covered[i] == (chunks[i].start as int, chunks[i].end)
    }

    method Visit(nodes: seq<Node>, prefix: string)
      requires InStep() && Placed(nodes, |lines|)
      modifies this
      ensures InStep() && chunks == old(chunks) + Definitions(nodes, prefix, lines)
      decreases nodes
    {
      for i := 0 to |nodes|
        invariant InStep()
        invariant old(chunks) + Definitions(nodes, prefix, lines) == chunks + Definitions(nodes[i..], prefix, lines)
      {
        var child := nodes[i];
        assert PlacedNode(child, |lines|);
        assert nodes[i..][0] == child && nodes[i..][1..] == nodes[i+1..];
        if child.Def? {
          var qualified := prefix + child.name;
          chunks := chunks + [Chunk(qualified, child.line, child.endLine, "python", Join(lines[child.line - 1..child.endLine]))];
          covered := covered + [(child.line as int, child.endLine as int)];
          Visit(child.body, qualified + ".");
        } else if child.Flow? {
          Visit(child.body, prefix);
        }
      }
    }

    /** The set of covered lines, from the ranges. */
    method CoveredLines() returns (s: set<int>)
      ensures forall k :: k in s <==> exists i :: 0 <= i < |covered| && covered[i].0 <= k <= covered[i].1
    {
      s := {};
      for i := 0 to |covered|
        invariant forall k :: k in s <==> exists j :: 0 <= j < i && covered[j].0 <= k <= covered[j].1
      {
        s := s + Range(covered[i].0, covered[i].1);
      }
    }

    /** One chunk per definition the walk finds, then the module chunk: exactly the lines outside all
        of them, unless those are blank. */
    method Run(tree: seq<Node>)
      requires chunks == [] && covered == [] && Placed(tree, |lines|)
      modifies this
      ensures chunks == PythonChunks(tree, lines)
    {
      Visit(tree, "");
      var s := CoveredLines();
      var found := chunks;
      forall k ensures k in s <==> Within(found, k) {
        if k in s {
          var i :| 0 <= i < |covered| && covered[i].0 <= k <= covered[i].1;
          assert found[i].start <= k <= found[i].end;
        }
        if Within(found, k) {
          var i :| 0 <= i < |found| && found[i].start <= k <= found[i].end;
          assert covered[i].0 <= k <= covered[i].1;
        }
      }
      assert found == Definitions(tree, "", lines);
      SameLines(lines, s, CoveredBy(found, |lines|));
      var module_ := Outside(lines, s);
      if module_ != [] {
        var content := Join(module_);
        if !Blank(content) { chunks := chunks + [Chunk("<module>", 1, |lines|, "python", content)]; }
      } else {
        assert Blank(Join(module_));
      }
    }
  }

  function CoveredBy(chunks: seq<Chunk>, n: nat): set<int> { set k | 1 <= k <= n && Within(chunks, k) }

  function PythonChunks(tree: seq<Node>, lines: seq<string>): seq<Chunk>
    requires Placed(tree, |lines|)
  {
    var found := Definitions(tree, "", lines);
    var content := Join(Outside(lines, CoveredBy(found, |lines|)));
    if Blank(content) then found else found + [Chunk("<module>", 1, |lines|, "python", content)]
  }

  lemma {:induction false} SameLines(lines: seq<string>, a: set<int>, b: set<int>)
    requires forall k | 1 <= k <= |lines| :: k in a <==> k in b
    ensures Outside(lines, a) == Outside(lines, b)
    decreases |lines|
  {
    if lines != [] { SameLines(lines[..|lines|-1], a, b); }
  }

  predicate IsItsLines(c: Chunk, lines: seq<string>) {
    1 <= c.start <= c.end <= |lines| && c.content == Join(lines[c.start - 1..c.end])
  }

  /** Every definition chunk is exactly the lines of its range. */
  lemma {:induction false} DefinitionsAreExact(nodes: seq<Node>, prefix: string, lines: seq<string>)
    requires Placed(nodes, |lines|)
    ensures forall c | c in Definitions(nodes, prefix, lines) :: IsItsLines(c, lines)
    decreases nodes
  {
    if nodes != [] {
      var node := nodes[0];
      match node {
        case Def(name, line, endLine, body) => DefinitionsAreExact(body, prefix + name + ".", lines);
        case Flow(body) => DefinitionsAreExact(body, prefix, lines);
        case Other =>
      }
      DefinitionsAreExact(nodes[1..], prefix, lines);
    }
  }

  /** The definition at a place in the tree, as its chunk: the place lists the child index at each level, and
      leads only through definitions, whose names qualify, and control flow. */
  function At(nodes: seq<Node>, place: seq<nat>, prefix: string, lines: seq<string>): Option<Chunk>
    requires Placed(nodes, |lines|)
    decreases nodes
  {
    if place == [] || place[0] >= |nodes| then None
    else
      var node := nodes[place[0]];
      assert PlacedNode(node, |lines|);
      if |place| == 1 then
        if node.Def? then Some(Chunk(prefix + node.name, node.line, node.endLine, "python", Join(lines[node.line - 1..node.endLine])))
        else None
      else
        match node
        case Def(name, _, _, body) => At(body, place[1..], prefix + name + ".", lines)
        case Flow(body) => At(body, place[1..], prefix, lines)
        case Other => None
  }

  function Next(place: seq<nat>): seq<nat> { if place == [] then [] else [place[0] + 1] + place[1..] }

  lemma AtNext(nodes: seq<Node>, place: seq<nat>, prefix: string, lines: seq<string>)
    requires Placed(nodes, |lines|) && nodes != [] && place != []
    ensures At(nodes, Next(place), prefix, lines) == At(nodes[1..], place, prefix, lines)
  {
    assert Next(place)[1..] == place[1..];
  }

  lemma AtInside(nodes: seq<Node>, place: seq<nat>, prefix: string, lines: seq<string>)
    requires Placed(nodes, |lines|) && nodes != [] && place != []
    ensures PlacedNode(nodes[0], |lines|)
    ensures nodes[0].Def? ==> At(nodes, [0] + place, prefix, lines) == At(nodes[0].body, place, prefix + nodes[0].name + ".", lines)
    ensures nodes[0].Flow? ==> At(nodes, [0] + place, prefix, lines) == At(nodes[0].body, place, prefix, lines)
  {
    assert PlacedNode(nodes[0], |lines|);
    assert ([0] + place)[1..] == place;
  }

  /** EVERY DEFINITION IS CHUNKED. Wherever in the tree a definition is, below definitions and control flow of
      any depth, its chunk is there, under its qualified name. */
  lemma {:induction false} EveryDefinitionIsChunked(nodes: seq<Node>, place: seq<nat>, prefix: string, lines: seq<string>)
    requires Placed(nodes, |lines|) && At(nodes, place, prefix, lines).Some?
    ensures At(nodes, place, prefix, lines).value in Definitions(nodes, prefix, lines)
    decreases nodes, |place|, if place == [] then 0 else place[0]
  {
    var node := nodes[0];
    if place[0] > 0 {
      var earlier := [place[0] - 1] + place[1..];
      AtNext(nodes, earlier, prefix, lines);
      assert Next(earlier) == place;
      EveryDefinitionIsChunked(nodes[1..], earlier, prefix, lines);
    } else if |place| > 1 {
      AtInside(nodes, place[1..], prefix, lines);
      assert [0] + place[1..] == place;
      match node
      case Def(name, _, _, body) => EveryDefinitionIsChunked(body, place[1..], prefix + name + ".", lines);
      case Flow(body) => EveryDefinitionIsChunked(body, place[1..], prefix, lines);
    }
  }

  /** And every definition chunk is that of a definition in the tree, found at the place returned. */
  lemma {:induction false} ChunkIsADefinition(nodes: seq<Node>, prefix: string, lines: seq<string>, c: Chunk) returns (place: seq<nat>)
    requires Placed(nodes, |lines|) && c in Definitions(nodes, prefix, lines)
    ensures place != [] && At(nodes, place, prefix, lines) == Some(c)
    decreases nodes
  {
    var node := nodes[0];
    if c in NodeDefinitions(node, prefix, lines) {
      match node
      case Def(name, line, endLine, body) =>
        if c == Chunk(prefix + name, line, endLine, "python", Join(lines[line - 1..endLine])) {
          place := [0];
        } else {
          var inner := ChunkIsADefinition(body, prefix + name + ".", lines, c);
          AtInside(nodes, inner, prefix, lines);
          place := [0] + inner;
        }
      case Flow(body) =>
        var inner := ChunkIsADefinition(body, prefix, lines, c);
        AtInside(nodes, inner, prefix, lines);
        place := [0] + inner;
    } else {
      var later := ChunkIsADefinition(nodes[1..], prefix, lines, c);
      AtNext(nodes, later, prefix, lines);
      place := Next(later);
    }
  }

  /** The module chunk joins no covered line. */
  lemma {:induction false} OutsideIsUncovered(lines: seq<string>, covered: set<int>, i: nat) returns (k: nat)
    requires i < |Outside(lines, covered)|
    ensures k < |lines| && k + 1 !in covered && Outside(lines, covered)[i] == lines[k]
    decreases |lines|
  {
    var n := |lines| - 1;
    if n + 1 !in covered && i == |Outside(lines, covered)| - 1 { k := n; } else { k := OutsideIsUncovered(lines[..n], covered, i); }
  }

  lemma {:induction false} OutsideHolds(lines: seq<string>, covered: set<int>, k: nat)
    requires k < |lines| && k + 1 !in covered
    ensures lines[k] in Outside(lines, covered)
    decreases |lines|
  {
    if k < |lines| - 1 { OutsideHolds(lines[..|lines|-1], covered, k); }
  }

  /** No text is lost: a line that is not blank lies in a definition chunk whose content is its range,
      or is one of the lines the module chunk joins. */
  lemma EveryLineIsChunked(tree: seq<Node>, lines: seq<string>, k: nat)
    requires Placed(tree, |lines|) && k < |lines| && !Blank(lines[k])
    ensures var found := Definitions(tree, "", lines);
      var outside := Outside(lines, CoveredBy(found, |lines|));
      if Within(found, k + 1)
      then exists c :: c in PythonChunks(tree, lines) && c.start <= k + 1 <= c.end && IsItsLines(c, lines)
      else lines[k] in outside && Chunk("<module>", 1, |lines|, "python", Join(outside)) in PythonChunks(tree, lines)
  {
    var found := Definitions(tree, "", lines);
    var outside := Outside(lines, CoveredBy(found, |lines|));
    DefinitionsAreExact(tree, "", lines);
    if Within(found, k + 1) {
      var i :| 0 <= i < |found| && found[i].start <= k + 1 <= found[i].end;
      assert found[i] in found && found[i] in PythonChunks(tree, lines);
    } else {
      OutsideHolds(lines, CoveredBy(found, |lines|), k);
      JoinBlank(outside);
    }
  }
}
