/** The Darknet configuration file: parseConfigFile of yolo.cpp and the trim of utils.cpp. */
module CfgParser {

  type Block = map<string, string>

  // ---------- Trimming ----------

  // isspace in the C locale.
  predicate IsSpace(c: char) { c in {' ', '\t', '\n', 11 as char, 12 as char, '\r'} }

  predicate Blank(s: string) { forall c | c in s :: IsSpace(c) }

  predicate Trimmed(s: string) { s == [] || (!IsSpace(s[0]) && !IsSpace(s[|s| - 1])) }

  function LeftTrim(s: string): (t: string)
    ensures t == [] || !IsSpace(t[0])
  {
    if s != [] && IsSpace(s[0]) then LeftTrim(s[1..]) else s
  }

  function RightTrim(s: string): (t: string)
    ensures t <= s && (t == [] || !IsSpace(t[|t| - 1]))
  {
    if s != [] && IsSpace(s[|s| - 1]) then RightTrim(s[..|s| - 1]) else s
  }

  function Trim(s: string): (t: string)
    ensures Trimmed(t)
  {
    RightTrim(LeftTrim(s))
  }

  lemma {:induction false} LeftTrimDrops(a: string, s: string)
    requires Blank(a)
    ensures LeftTrim(a + s) == LeftTrim(s)
  {
    if a == [] {
      assert a + s == s;
    } else {
      assert a[0] in a && (a + s)[1..] == a[1..] + s;
      LeftTrimDrops(a[1..], s);
    }
  }

  lemma {:induction false} RightTrimDrops(s: string, b: string)
    requires Blank(b)
    ensures RightTrim(s + b) == RightTrim(s)
  {
    if b == [] {
      assert s + b == s;
    } else {
      assert b[|b| - 1] in b && (s + b)[..|s + b| - 1] == s + b[..|b| - 1];
      RightTrimDrops(s, b[..|b| - 1]);
    }
  }

  /** Trim takes off the white space around a trimmed text, all of it and nothing else. */
  lemma TrimStrips(a: string, s: string, b: string)
    requires Blank(a) && Trimmed(s) && Blank(b)
    ensures Trim(a + s + b) == s
  {
    assert a + s + b == a + (s + b);
    LeftTrimDrops(a, s + b);
    if s == [] {
      assert s + b == b && b + [] == b;
      LeftTrimDrops(b, []);
    } else {
      RightTrimDrops(s, b);
    }
  }

  // ---------- Lines ----------

  // The position of the first c, and the length of the text if there is none.
  function Find(s: string, c: char): (i: nat)
    ensures i <= |s| && c !in s[..i] && (i < |s| ==> s[i] == c)
  {
    if s == [] || s[0] == c then 0
    else
      assert s[..1 + Find(s[1..], c)] == [s[0]] + s[1..][..Find(s[1..], c)];
      1 + Find(s[1..], c)
  }

  // What repeated getline reads.
  function Lines(text: string): seq<string> {
    if text == [] then []
    else
      var i := Find(text, '\n');
      if i == |text| then [text] else [text[..i]] + Lines(text[i + 1..])
  }

  function Text(lines: seq<string>): string { if lines == [] then [] else lines[0] + ['\n'] + Text(lines[1..]) }

  lemma FindFirst(a: string, c: char, b: string)
    requires c !in a
    ensures Find(a + [c] + b, c) == |a|
  {
    var s := a + [c] + b;
    assert s[|a|] == c && forall k | 0 <= k < |a| :: s[k] == a[k];
    assert forall k | 0 <= k < Find(s, c) :: s[..Find(s, c)][k] == s[k];
  }

  lemma FirstLine(line: string, tail: string)
    requires '\n' !in line
    ensures Lines(line + ['\n'] + tail) == [line] + Lines(tail)
  {
    var text := line + ['\n'] + tail;
    FindFirst(line, '\n', tail);
    assert text[..|line|] == line && text[|line| + 1..] == tail;
  }

  lemma {:induction false} LinesOfText(lines: seq<string>)
    requires forall l | l in lines :: '\n' !in l
    ensures Lines(Text(lines)) == lines
  {
    if lines != [] {
      LinesOfText(lines[1..]);
      FirstLine(lines[0], Text(lines[1..]));
    }
  }

  lemma TextGrows(lines: seq<string>, last: string)
    requires lines != []
    ensures Text(lines) + last == lines[0] + ['\n'] + (Text(lines[1..]) + last)
  {
  }

  lemma TextOfNone(last: string)
    ensures Text([]) + last == last
  {
  }

  lemma HeadAgain(lines: seq<string>, last: string)
    requires lines != []
    ensures [lines[0]] + (lines[1..] + [last]) == lines + [last]
  {
  }

  lemma OnlyLine(last: string)
    requires '\n' !in last && last != []
    ensures Lines(last) == [last]
  {
  }

  /** The last newline may be missing after a line that is not empty. */
  lemma {:induction false} LinesWithoutLastNewline(lines: seq<string>, last: string)
    requires (forall l | l in lines :: '\n' !in l) && '\n' !in last && last != []
    ensures Lines(Text(lines) + last) == lines + [last]
  {
    hide Lines, Find, Text;
    if lines == [] {
      TextOfNone(last);
      OnlyLine(last);
    } else {
      assert lines[0] in lines;
      TextGrows(lines, last);
      LinesWithoutLastNewline(lines[1..], last);
      FirstLine(lines[0], Text(lines[1..]) + last);
      HeadAgain(lines, last);
    }
  }

  // ---------- The parser ----------

  datatype State = State(blocks: seq<Block>, block: Block)

  const START := State([], map[])

  predicate Skipped(line: string) { line == [] || line[0] == ' ' || line[0] == '#' }

  // std::map::insert keeps the value a key already has.
  function Insert(block: Block, key: string, value: string): Block {
    if key in block then block else block[key := value]
  }

  function Opened(st: State, name: string): State {
    State(if st.block == map[] then st.blocks else st.blocks + [st.block],
          Insert(map[], "type", name))
  }

  // substr(1, size - 2), where the unsigned size - 2 wraps for a single character.
  function Inside(line: string): string
    requires line != []
  {
    if |line| == 1 then [] else line[1..|line| - 1]
  }

  // front() of a text trimmed to nothing reads the terminating zero.
  function StepTrimmed(st: State, line: string): State {
    if line != [] && line[0] == '[' then
      Opened(st, Trim(Inside(line)))
    else
      var i := Find(line, '=');
      if i == |line| then st.(block := Insert(st.block, Trim(line), Trim(line)))
      else st.(block := Insert(st.block, Trim(line[..i]), Trim(line[i + 1..])))
  }

  function Step(st: State, line: string): State { if Skipped(line) then st else StepTrimmed(st, Trim(line)) }

  function Run(st: State, lines: seq<string>): State
    decreases |lines|
  {
    if lines == [] then st else Run(Step(st, lines[0]), lines[1..])
  }

  function Parsed(st: State): seq<Block> { st.blocks + [st.block] }

  function Parse(text: string): seq<Block> { Parsed(Run(START, Lines(text))) }

  method GetLine(text: string) returns (line: string, rest: string)
    requires text != []
    ensures Lines(text) == [line] + Lines(rest) && |rest| < |text|
  {
    hide Find;
    var i := Find(text, '\n');
    line := text[..i];
    rest := if i == |text| then [] else text[i + 1..];
    assert i == |text| ==> line == text;
  }

  method ParseConfigFile(text: string) returns (blocks: seq<Block>)
    ensures blocks == Parse(text)
  {
    hide Lines, Trim, Find;
    blocks := [];
    var block: Block := map[];
    var rest := text;
    NoLines();
    while rest != []
      invariant Run(START, Lines(text)) == Run(State(blocks, block), Lines(rest))
      decreases |rest|
    {
      ghost var was := State(blocks, block);
      ghost var before := Lines(rest);
      var line;
      line, rest := GetLine(rest);
      assert before[1..] == Lines(rest);
      if line == [] || line[0] == ' ' || line[0] == '#' { continue; }
      line := Trim(line);
      if line != [] && line[0] == '[' {
        if |block| > 0 {
          blocks := blocks + [block];
          block := map[];
        }
        block := Insert(block, "type", Trim(Inside(line)));
        assert State(blocks, block) == StepTrimmed(was, line);
      } else {
        var pos := Find(line, '=');
        var key := Trim(if pos == |line| then line else line[..pos]);
        var value := Trim(if pos == |line| then line else line[pos + 1..]);
        block := Insert(block, key, value);
        assert State(blocks, block) == StepTrimmed(was, line);
      }
    }
    blocks := blocks + [block];
  }

  lemma NoLines()
    ensures Lines([]) == []
  {
  }

  // ---------- What the lines of a file mean ----------

  // A line as written: white space around its parts, which means nothing.
  datatype Line =
    | Noise(text: string)
    | Header(a: string, b: string, name: string, c: string, d: string)
    | Entry(a: string, key: string, b: string, c: string, value: string, d: string)
  {
    function Written(): string {
      match this
      case Noise(text) => text
      case Header(a, b, name, c, d) => a + "[" + b + name + c + "]" + d
      case Entry(a, key, b, c, value, d) => a + key + b + "=" + c + value + d
    }

    // A line that starts with a space is skipped, so the white space in front starts with something else.
    predicate Valid() {
      && '\n' !in Written()
      && match this
         case Noise(text) => Skipped(text)
         case Header(a, b, name, c, d) =>
           Blank(a) && Blank(b) && Blank(c) && Blank(d) && (a == [] || a[0] != ' ') && Trimmed(name)
         case Entry(a, key, b, c, value, d) =>
           && Blank(a) && Blank(b) && Blank(c) && Blank(d) && (a == [] || a[0] != ' ')
           && Trimmed(key) && key != [] && '=' !in key && key[0] != '[' && key[0] != '#'
           && Trimmed(value)
    }
  }

  function Entries(body: seq<Line>): Block {
    if body == [] then map[]
    else
      var last := body[|body| - 1];
      if last.Entry? then Entries(body[..|body| - 1])[last.key := last.value] else Entries(body[..|body| - 1])
  }

  datatype Section = Section(header: Line, body: seq<Line>) {
    predicate Valid() {
      && header.Header? && header.Valid()
      && (forall l | l in body :: !l.Header? && l.Valid())
      && (forall l | l in body && l.Entry? :: l.key != "type")
      && (forall i, j | 0 <= i < j < |body| && body[i].Entry? && body[j].Entry? :: body[i].key != body[j].key)
    }

    // The block it stands for.
    function Meaning(): Block
      requires header.Header?
    {
      map["type" := header.name] + Entries(body)
    }

    function Written(): seq<string> { [header.Written()] + AllWritten(body) }
  }

  function AllWritten(lines: seq<Line>): (r: seq<string>)
    ensures |r| == |lines| && forall i | 0 <= i < |lines| :: r[i] == lines[i].Written()
  {
    seq(|lines|, i requires 0 <= i < |lines| => lines[i].Written())
  }

  predicate AllNoise(lines: seq<Line>) { forall l | l in lines :: l.Noise? && l.Valid() }

  function SectionsWritten(sections: seq<Section>): seq<string> {
    if sections == [] then [] else sections[0].Written() + SectionsWritten(sections[1..])
  }

  function Meanings(sections: seq<Section>): (r: seq<Block>)
    requires forall s | s in sections :: s.Valid()
    ensures |r| == |sections|
  {
    if sections == [] then []
    else
      assert sections[0].Valid() by { assert sections[0] in sections; }
      [sections[0].Meaning()] + Meanings(sections[1..])
  }

  // ---------- One line ----------

  lemma StepHeader(st: State, l: Line)
    requires l.Header? && l.Valid()
    ensures Step(st, l.Written()) == Opened(st, l.name)
  {
    hide Trim, Blank, Step, Opened;
    var core := "[" + l.b + l.name + l.c + "]";
    assert l.Written() == l.a + core + l.d;
    StepPadded(st, l.a, core, l.d);
    assert Inside(core) == l.b + l.name + l.c;
    TrimStrips(l.b, l.name, l.c);
  }

  // A line is not skipped when its text is not a comment.
  lemma FirstOf(a: string, core: string, d: string)
    requires Blank(a) && (a == [] || a[0] != ' ') && core != [] && core[0] != ' ' && core[0] != '#'
    ensures !Skipped(a + core + d)
  {
    if a != [] { assert a[0] in a; }
  }

  // A trimmed entry, cut at its equal sign.
  lemma StepCore(st: State, left: string, right: string, key: string, value: string)
    requires '=' !in left && left != [] && left[0] != '[' && Trim(left) == key && Trim(right) == value
    ensures StepTrimmed(st, left + ['='] + right) == st.(block := Insert(st.block, key, value))
  {
    hide Trim, Insert;
    var core := left + ['='] + right;
    FindFirst(left, '=', right);
    assert core[..|left|] == left && core[|left| + 1..] == right;
  }

  lemma StepPadded(st: State, a: string, core: string, d: string)
    requires Blank(a) && (a == [] || a[0] != ' ') && Blank(d)
    requires Trimmed(core) && core != [] && core[0] != '#'
    ensures Step(st, a + core + d) == StepTrimmed(st, core)
  {
    hide StepTrimmed, Trim;
    TrimStrips(a, core, d);
    FirstOf(a, core, d);
  }

  lemma TrimSides(l: Line)
    requires l.Entry? && l.Valid()
    ensures Trim(l.key + l.b) == l.key && Trim(l.c + l.value) == l.value && Trim([]) == []
  {
    hide Trim;
    BlankNothing();
    TrimStrips([], l.key, l.b);
    TrimStrips(l.c, l.value, []);
    TrimStrips([], [], []);
    assert [] + l.key + l.b == l.key + l.b && l.c + l.value + [] == l.c + l.value && "" + "" + "" == "";
  }

  lemma StepEntry(st: State, l: Line)
    requires l.Entry? && l.Valid()
    ensures Step(st, l.Written()) == st.(block := Insert(st.block, l.key, l.value))
  {
    hide Trim, Insert, Blank, Step, StepTrimmed;
    // After an empty value the white space around it is trimmed too.
    var (right, tail) := if l.value == [] then ([], l.c + l.d) else (l.c + l.value, l.d);
    var left := l.key + l.b;
    EntryParts(l);
    BlankJoin(l.c, l.d);
    StepPadded(st, l.a, left + ['='] + right, tail);
    TrimSides(l);
    BlankHasNo(l.b, '=');
    StepCore(st, left, right, l.key, l.value);
  }

  lemma EntryParts(l: Line)
    requires l.Entry?
    ensures var left := l.key + l.b;
      && l.Written() == l.a + (left + ['='] + (l.c + l.value)) + l.d
      && (l.value == [] ==> l.Written() == l.a + (left + ['='] + []) + (l.c + l.d))
  {
  }

  lemma BlankNothing()
    ensures Blank([])
  {
  }

  lemma BlankJoin(c: string, d: string)
    requires Blank(c) && Blank(d)
    ensures Blank(c + d)
  {
  }

  lemma BlankHasNo(b: string, c: char)
    requires Blank(b) && !IsSpace(c)
    ensures c !in b
  {
  }

  // ---------- Lines that are neither headers nor entries as intended ----------

  lemma StepUnskipped(st: State, a: string, core: string, d: string)
    requires Blank(a) && Blank(d) && Trimmed(core) && !Skipped(a + core + d)
    ensures Step(st, a + core + d) == StepTrimmed(st, core)
  {
    hide StepTrimmed, Trim;
    TrimStrips(a, core, d);
  }

  /** A line without an equal sign is its own key and value, white space alone is the empty key, and a line that starts
      with an equal sign has the empty key; a header is the line without its first and last character, closed or not. A
      hash sign after white space starts no comment. */
  lemma StepUnusual(st: State, a: string, core: string, d: string)
    requires Blank(a) && Blank(d) && Trimmed(core) && !Skipped(a + core + d)
    ensures '=' !in core && (core == [] || core[0] != '[') ==>
      Step(st, a + core + d) == st.(block := Insert(st.block, core, core))
    ensures core != [] && core[0] == '=' ==>
      Step(st, a + core + d) == st.(block := Insert(st.block, "", Trim(core[1..])))
    ensures core == "[" ==> Step(st, a + core + d) == Opened(st, "")
    ensures |core| > 1 && core[0] == '[' ==> Step(st, a + core + d) == Opened(st, Trim(core[1..|core| - 1]))
  {
    hide Trim, Insert, Opened, Step;
    StepUnskipped(st, a, core, d);
    TrimSelf(core);
    TrimSelf([]);
    if core != [] && core[0] == '=' { FindFirst([], '=', core[1..]); assert core == [] + ['='] + core[1..]; }
  }

  lemma TrimSelf(s: string)
    requires Trimmed(s)
    ensures Trim(s) == s
  {
    hide Trim;
    BlankNothing();
    TrimStrips([], s, []);
    assert [] + s + [] == s;
  }

  /** Whatever lines follow, the first value of a key stays the value of that key in its block. */
  lemma {:induction false} FirstValueStays(st: State, lines: seq<string>, key: string)
    requires key in st.block
    ensures var blocks := Parsed(Run(st, lines));
      && |blocks| > |st.blocks| && blocks[..|st.blocks|] == st.blocks
      && key in blocks[|st.blocks|] && blocks[|st.blocks|][key] == st.block[key]
    decreases |lines|
  {
    hide Step;
    if lines != [] {
      var next := Step(st, lines[0]);
      StepKeepsValue(st, lines[0], key);
      if next.blocks == st.blocks { FirstValueStays(next, lines[1..], key); } else { BlocksStay(next, lines[1..]); }
    }
  }

  // A line leaves the value alone, or closes the block.
  lemma StepKeepsValue(st: State, line: string, key: string)
    requires key in st.block
    ensures var r := Step(st, line);
      || (r.blocks == st.blocks && key in r.block && r.block[key] == st.block[key])
      || r.blocks == st.blocks + [st.block]
  {
    hide Trim;
  }

  lemma {:induction false} BlocksStay(st: State, lines: seq<string>)
    ensures st.blocks <= Parsed(Run(st, lines))
    decreases |lines|
  {
    hide Trim;
    if lines != [] { BlocksStay(Step(st, lines[0]), lines[1..]); }
  }

  // ---------- Many lines ----------

  lemma {:induction false} RunAppend(st: State, a: seq<string>, b: seq<string>)
    ensures Run(st, a + b) == Run(Run(st, a), b)
    decreases |a|
  {
    hide Step;
    if a == [] {
      assert a + b == b;
    } else {
      assert (a + b)[1..] == a[1..] + b;
      RunAppend(Step(st, a[0]), a[1..], b);
    }
  }

  lemma RunOne(st: State, line: string)
    ensures Run(st, [line]) == Step(st, line)
  {
  }

  /** Empty lines, comments and lines that start with a space mean nothing, wherever they stand. */
  lemma NoiseAnywhere(before: seq<string>, noise: string, after: seq<string>)
    requires Skipped(noise)
    ensures Parsed(Run(START, before + [noise] + after)) == Parsed(Run(START, before + after))
  {
    RunAppend(START, before + [noise], after);
    RunAppend(START, before, [noise]);
    RunAppend(START, before, after);
    RunOne(Run(START, before), noise);
  }

  lemma {:induction false} RunNoise(st: State, lines: seq<Line>)
    requires AllNoise(lines)
    ensures Run(st, AllWritten(lines)) == st
    decreases |lines|
  {
    if lines != [] {
      assert lines[0] in lines;
      assert AllWritten(lines)[1..] == AllWritten(lines[1..]);
      RunNoise(st, lines[1..]);
    }
  }

  // The keys of a block are those of its entries, so a later entry never meets a key of an earlier one.
  lemma {:induction false} EntryKeys(body: seq<Line>, k: string)
    requires k in Entries(body)
    ensures exists i | 0 <= i < |body| :: body[i].Entry? && body[i].key == k
  {
    var n := |body| - 1;
    if body[n].Entry? && body[n].key == k {
    } else {
      EntryKeys(body[..n], k);
      var i :| 0 <= i < n && body[..n][i].Entry? && body[..n][i].key == k;
      assert body[i].Entry? && body[i].key == k;
    }
  }

  lemma FreshKey(s: Section, n: nat)
    requires s.Valid() && n < |s.body| && s.body[n].Entry?
    ensures s.body[n].key !in Entries(s.body[..n]) && s.body[n].key != "type"
  {
    if s.body[n].key in Entries(s.body[..n]) {
      EntryKeys(s.body[..n], s.body[n].key);
    }
    assert s.body[n] in s.body;
  }

  lemma BodyLine(s: Section, n: nat)
    requires s.Valid() && n < |s.body|
    ensures s.body[n].Valid() && !s.body[n].Header?
  {
  }

  lemma EntriesGrow(body: seq<Line>, n: nat)
    requires n < |body|
    ensures Entries(body[..n + 1])
         == if body[n].Entry? then Entries(body[..n])[body[n].key := body[n].value] else Entries(body[..n])
  {
    assert body[..n + 1][..n] == body[..n];
  }

  lemma InsertNew(block: Block, key: string, value: string)
    requires key !in block
    ensures Insert(block, key, value) == block[key := value]
  {
  }

  lemma StepBody(st: State, name: string, s: Section, n: nat)
    requires s.Valid() && n < |s.body| && st.block == map["type" := name] + Entries(s.body[..n])
    ensures Step(st, s.body[n].Written()) == st.(block := map["type" := name] + Entries(s.body[..n + 1]))
  {
    hide Step, Line.Written, Entries, Section.Valid, Insert;
    BodyLine(s, n);
    EntriesGrow(s.body, n);
    if s.body[n].Entry? {
      FreshKey(s, n);
      StepEntry(st, s.body[n]);
      InsertNew(st.block, s.body[n].key, s.body[n].value);
    } else {
      StepNoise(st, s.body[n]);
    }
  }

  lemma {:induction false} RunBody(st: State, s: Section, n: nat)
    requires s.Valid() && n <= |s.body| && st.block == map["type" := s.header.name]
    ensures Run(st, AllWritten(s.body[..n])) == st.(block := map["type" := s.header.name] + Entries(s.body[..n]))
    decreases n
  {
    hide Step, Run, Entries, Line.Written;
    NoEntries(st);
    if n > 0 {
      RunBody(st, s, n - 1);
      assert AllWritten(s.body[..n]) == AllWritten(s.body[..n - 1]) + [s.body[n - 1].Written()];
      RunAppend(st, AllWritten(s.body[..n - 1]), [s.body[n - 1].Written()]);
      var mid := Run(st, AllWritten(s.body[..n - 1]));
      RunOne(mid, s.body[n - 1].Written());
      StepBody(mid, s.header.name, s, n - 1);
    }
  }

  lemma NoEntries(st: State)
    ensures Run(st, []) == st && Entries([]) == map[]
  {
  }

  lemma StepNoise(st: State, l: Line)
    requires l.Noise? && l.Valid()
    ensures Step(st, l.Written()) == st
  {
  }

  lemma RunSection(st: State, s: Section)
    requires s.Valid()
    ensures Run(st, s.Written()) == Opened(st, s.header.name).(block := s.Meaning())
  {
    hide Step;
    var head := [s.header.Written()];
    RunAppend(st, head, AllWritten(s.body));
    RunOne(st, s.header.Written());
    StepHeader(st, s.header);
    assert s.body[..|s.body|] == s.body;
    RunBody(Opened(st, s.header.name), s, |s.body|);
  }

  lemma HasType(s: Section)
    requires s.Valid()
    ensures s.header.Header? && s.Meaning() != map[]
  {
    assert "type" in s.Meaning();
  }

  lemma {:induction false} RunSections(st: State, sections: seq<Section>)
    requires sections != [] && forall s | s in sections :: s.Valid()
    ensures Parsed(Run(st, SectionsWritten(sections))) == Opened(st, "").blocks + Meanings(sections)
    decreases |sections|
  {
    hide Step, Run, Section.Valid, Section.Written;
    var first, others := sections[0], sections[1..];
    assert first in sections;
    RunAppend(st, first.Written(), SectionsWritten(others));
    RunSection(st, first);
    NoEntries(Run(st, first.Written()));
    if others != [] {
      HasType(first);
      RunSections(Run(st, first.Written()), others);
    }
  }

  /** Any list of blocks, written with any white space, comments and skipped lines, is read back. */
  lemma RoundTrip(prelude: seq<Line>, sections: seq<Section>)
    requires AllNoise(prelude) && sections != [] && forall s | s in sections :: s.Valid()
    ensures Parse(Text(AllWritten(prelude) + SectionsWritten(sections))) == Meanings(sections)
  {
    var lines := AllWritten(prelude) + SectionsWritten(sections);
    NoNewlines(sections);
    forall l | l in lines ensures '\n' !in l {
      if l in AllWritten(prelude) {
        var i :| 0 <= i < |prelude| && l == prelude[i].Written();
        assert prelude[i] in prelude;
      }
    }
    LinesOfText(lines);
    RunAppend(START, AllWritten(prelude), SectionsWritten(sections));
    RunNoise(START, prelude);
    RunSections(START, sections);
  }

  lemma {:induction false} NoNewlines(sections: seq<Section>)
    requires forall s | s in sections :: s.Valid()
    ensures forall l | l in SectionsWritten(sections) :: '\n' !in l
  {
    if sections != [] {
      NoNewlines(sections[1..]);
      SectionNoNewlines(sections[0]);
    }
  }

  lemma SectionNoNewlines(s: Section)
    requires s.Valid()
    ensures forall l | l in s.Written() :: '\n' !in l
  {
  }

  // ---------- Every list of blocks is written by some lines ----------

  predicate KeyOk(key: string) {
    && Trimmed(key) && key != [] && '=' !in key && '\n' !in key && key[0] != '[' && key[0] != '#' && key != "type"
  }

  predicate ValueOk(value: string) { Trimmed(value) && '\n' !in value }

  predicate BlockOk(b: Block) {
    "type" in b && forall k | k in b :: ValueOk(b[k]) && (k == "type" || KeyOk(k))
  }

  // Lines for some of the keys of a block.
  lemma {:induction false} EntriesOf(b: Block, keys: set<string>) returns (body: seq<Line>)
    requires BlockOk(b) && forall k | k in keys :: k in b && k != "type"
    ensures Entries(body) == map k | k in keys :: b[k]
    ensures forall l | l in body :: l.Entry? && l.Valid() && l.key in keys
    ensures forall i, j | 0 <= i < j < |body| :: body[i].key != body[j].key
    decreases keys
  {
    hide Trimmed, Entries, Line.Valid, KeyOk, ValueOk;
    body := [];
    NoneWritten();
    if keys != {} {
      var k :| k in keys;
      var init := EntriesOf(b, keys - {k});
      var last := Entry("", k, "", "", b[k], "");
      EntryIsValid(k, b[k]);
      body := init + [last];
      EntriesSnoc(init, last);
      assert forall l | l in body :: l in init || l == last;
    }
  }

  lemma NoneWritten()
    ensures Entries([]) == map[]
  {
  }

  lemma EntriesSnoc(init: seq<Line>, last: Line)
    requires last.Entry?
    ensures Entries(init + [last]) == Entries(init)[last.key := last.value]
  {
    assert (init + [last])[..|init|] == init;
  }

  lemma EntryIsValid(key: string, value: string)
    requires KeyOk(key) && ValueOk(value)
    ensures Entry("", key, "", "", value, "").Valid()
  {
    hide Trimmed;
    assert Entry("", key, "", "", value, "").Written() == key + "=" + value;
  }

  lemma SectionOf(b: Block) returns (s: Section)
    requires BlockOk(b)
    ensures s.Valid() && s.Meaning() == b
  {
    hide Trimmed, Line.Valid, Entries, KeyOk;
    var keys := b.Keys - {"type"};
    var body := EntriesOf(b, keys);
    var header := Header("", "", b["type"], "", "");
    HeaderIsValid(b["type"]);
    s := Section(header, body);
    assert forall k | k in b :: k == "type" || k in keys;
  }

  lemma HeaderIsValid(name: string)
    requires ValueOk(name)
    ensures Header("", "", name, "", "").Valid()
  {
    hide Trimmed;
    assert Header("", "", name, "", "").Written() == "[" + name + "]";
  }

  lemma {:induction false} SectionsOf(blocks: seq<Block>) returns (sections: seq<Section>)
    requires forall b | b in blocks :: BlockOk(b)
    ensures |sections| == |blocks| && (forall s | s in sections :: s.Valid()) && Meanings(sections) == blocks
  {
    hide Section.Valid, BlockOk, Section.Meaning;
    sections := [];
    if blocks != [] {
      var first := SectionOf(blocks[0]);
      var others := SectionsOf(blocks[1..]);
      sections := [first] + others;
      assert sections[1..] == others && blocks == [blocks[0]] + blocks[1..];
    }
  }

  /** Any nonempty list of blocks, as maps, is the parse of some text. */
  lemma EveryListIsRead(blocks: seq<Block>) returns (text: string)
    requires blocks != [] && forall b | b in blocks :: BlockOk(b)
    ensures Parse(text) == blocks
  {
    hide Section.Valid, BlockOk, Parse;
    var sections := SectionsOf(blocks);
    RoundTrip([], sections);
    text := Text(AllWritten([]) + SectionsWritten(sections));
  }
}
