/** `PromptQueueSystem.read_prompt_content`: a prompt file's text is split
    into a metadata map (comment lines of the form `# key: value`) and a
    body made of the remaining lines. Horizontal rules (`---`) belong to
    neither. The file read itself is outside this module; the clock
    reading it records is a parameter. */
module Parser {
  import opened Strings

  // The worked examples at the end of this module take their strings as
  // parameters fixed by `requires x == "..."` rather than writing the
  // literals inline: the verifier then reasons about `Trim`, `Split` and
  // `ClassifyLine` on symbolic pieces instead of unfolding them character
  // by character over a literal.

  /** What one line of a prompt file contributes. */
  datatype Line = Meta(key: string, value: string) | Rule | Text(text: string)

  /** The metadata and the kept body lines after reading some lines. */
  datatype Parsed = Parsed(metadata: map<string, string>, kept: seq<string>)

  /** The dictionary `read_prompt_content` returns. */
  datatype PromptData = PromptData(filename: string, content: string, metadata: map<string, string>, timestamp: string)

  /** `line.startswith('#')`. */
  predicate HasCommentMarker(line: string) {
    |line| > 0 && line[0] == '#'
  }

  /** `line.startswith('---')`. */
  predicate IsRuleLine(line: string) {
    |line| >= 3 && line[0] == '-' && line[1] == '-' && line[2] == '-'
  }

  /** A line, once stripped, is metadata when it starts with `#` and holds
      a `:`; the key is the stripped text between the first character and
      the first `:`, the value the stripped text after that `:`. Otherwise
      a stripped line starting with `---` is dropped, and any other line is
      kept in stripped form. */
  function ClassifyLine(raw: string): (l: Line)
    ensures l.Meta? <==> HasCommentMarker(Trim(raw)) && ':' in Trim(raw)
    ensures l.Rule? <==> IsRuleLine(Trim(raw))
    ensures l.Text? ==> l.text == Trim(raw)
    ensures l.Meta? ==> ':' !in l.key && IsTrimmed(l.key) && IsTrimmed(l.value)
  {
    var line := Trim(raw);
    if HasCommentMarker(line) && ':' in line then
      var rest := line[1..];
      assert line == [line[0]] + rest;
      var c := FirstIndex(rest, ':');
      TrimKeepsOut(rest[..c], ':');
      Meta(Trim(rest[..c]), Trim(rest[c + 1..]))
    else if IsRuleLine(line) then
      Rule
    else
      Text(line)
  }

  /** The key is everything between the leading `#` and the first `:`,
      stripped; the value is everything after that `:`, stripped, later
      colons included. */
  lemma MetaLineFields(raw: string, k: string, v: string)
    requires Trim(raw) == "#" + k + ":" + v
    requires ':' !in k
    ensures ClassifyLine(raw) == Meta(Trim(k), Trim(v))
  {
    var line := Trim(raw);
    var rest := line[1..];
    assert rest == k + ":" + v;
    assert rest[|k|] == ':' && rest[..|k|] == k;
    FirstIndexAt(rest, ':', |k|);
    assert rest[|k| + 1..] == v;
  }

  /** A doubled marker stays in the key: `## A: b` defines key `# A`. */
  lemma DoubleMarkerKey()
    ensures ClassifyLine("## A: b") == Meta("# A", "b")
  {
    DoubleMarkerSplit();
    DoubleMarkerTrims();
  }

  lemma DoubleMarkerSplit()
    ensures ClassifyLine("## A: b") == Meta(Trim("# A"), Trim(" b"))
  {
    assert Trim("## A: b") == "#" + "# A" + ":" + " b" by {
      assert IsTrimmed("## A: b");
      TrimOfTrimmed("## A: b");
    }
    assert ':' !in "# A";
    MetaLineFields("## A: b", "# A", " b");
  }

  lemma DoubleMarkerTrims()
    ensures Trim("# A") == "# A" && Trim(" b") == "b"
  {
    assert Trim("# A") == "# A" by {
      TrimOfTrimmed("# A");
    }
    assert TrimLeft(" b") == "b";
  }

  /** A line that sets metadata key `k`. */
  predicate Defines(l: Line, k: string) {
    l.Meta? && l.key == k
  }

  /** The loop of `read_prompt_content` over already classified lines,
      first to last: a metadata line stores its value under its key, a rule
      is skipped, a text line is appended to the body. */
  function Collect(ls: seq<Line>): (p: Parsed)
    ensures |p.kept| <= |ls|
  {
    if |ls| == 0 then Parsed(map[], [])
    else
      var init := ls[..|ls| - 1];
      var p := Collect(init);
      match ls[|ls| - 1]
      case Meta(k, v) => Parsed(p.metadata[k := v], p.kept)
      case Rule => p
      case Text(t) => Parsed(p.metadata, p.kept + [t])
  }

  /** Reading two runs of lines one after the other: the body lines
      concatenate, and the second run's metadata overrides the first's. */
  lemma {:induction false} CollectAppend(a: seq<Line>, b: seq<Line>)
    ensures Collect(a + b).kept == Collect(a).kept + Collect(b).kept
    ensures Collect(a + b).metadata == Collect(a).metadata + Collect(b).metadata
    decreases |b|
  {
    if |b| == 0 {
      assert a + b == a;
    } else {
      var b' := b[..|b| - 1];
      assert (a + b)[..|a + b| - 1] == a + b';
      assert (a + b)[|a + b| - 1] == b[|b| - 1];
      CollectAppend(a, b');
    }
  }

  /** A key is present exactly when some line defines it, and its value is
      the one given by the last line that does. */
  lemma {:induction false} CollectLastWins(ls: seq<Line>, k: string)
    ensures k in Collect(ls).metadata <==> exists i :: 0 <= i < |ls| && Defines(ls[i], k)
    ensures forall i :: 0 <= i < |ls| && Defines(ls[i], k)
                        && (forall j :: i < j < |ls| ==> !Defines(ls[j], k))
                        ==> Collect(ls).metadata[k] == ls[i].value
    decreases |ls|
  {
    if |ls| > 0 {
      var n := |ls| - 1;
      var init := ls[..n];
      CollectLastWins(init, k);
      forall i | 0 <= i < n ensures ls[i] == init[i] { }
    }
  }

  /** The text lines of `ls`, first to last: the filter the body rule of
      `read_prompt_content` describes. */
  function Texts(ls: seq<Line>): seq<string>
    decreases |ls|
  {
    if |ls| == 0 then []
    else (if ls[0].Text? then [ls[0].text] else []) + Texts(ls[1..])
  }

  /** The body keeps every line that is neither metadata nor a rule, in
      file order, and nothing else. */
  lemma {:induction false} CollectKeepsTexts(ls: seq<Line>)
    ensures Collect(ls).kept == Texts(ls)
    decreases |ls|
  {
    if |ls| > 0 {
      var head := [ls[0]];
      assert head + ls[1..] == ls;
      CollectAppend(head, ls[1..]);
      assert head[..0] == [];
      CollectKeepsTexts(ls[1..]);
    }
  }

  /** Every line of `lines`, classified. */
  function ClassifyAll(lines: seq<string>): (ls: seq<Line>)
    ensures |ls| == |lines|
    ensures forall i :: 0 <= i < |lines| ==> ls[i] == ClassifyLine(lines[i])
  {
    seq(|lines|, i requires 0 <= i < |lines| => ClassifyLine(lines[i]))
  }

  /** `t` is read back as a body line: stripped, neither metadata nor a
      rule. */
  predicate IsBodyLine(t: string) {
    ClassifyLine(t) == Text(t)
  }

  /** A line read as text, once stripped, is read as the same text. */
  lemma TextLineIsBody(raw: string)
    requires ClassifyLine(raw).Text?
    ensures IsBodyLine(ClassifyLine(raw).text)
  {
    TrimIdempotent(raw);
  }

  /** Every body line comes from a text line of the file. */
  lemma {:induction false} KeptAreTexts(ls: seq<Line>)
    ensures forall i :: 0 <= i < |Collect(ls).kept| ==> Text(Collect(ls).kept[i]) in ls
    decreases |ls|
  {
    if |ls| > 0 {
      var n := |ls| - 1;
      KeptAreTexts(ls[..n]);
      forall i | 0 <= i < |Collect(ls[..n]).kept|
        ensures Text(Collect(ls[..n]).kept[i]) in ls
      {
        var j :| 0 <= j < n && ls[..n][j] == Text(Collect(ls[..n]).kept[i]);
        assert ls[j] == ls[..n][j];
      }
    }
  }

  /** No line that ends up in the body would be read as metadata or as a
      rule: each body line is stripped and classifies as text again. */
  lemma KeptLinesAreText(lines: seq<string>)
    ensures forall i :: 0 <= i < |Collect(ClassifyAll(lines)).kept| ==>
              IsBodyLine(Collect(ClassifyAll(lines)).kept[i])
  {
    var ls := ClassifyAll(lines);
    var kept := Collect(ls).kept;
    KeptAreTexts(ls);
    forall i | 0 <= i < |kept|
      ensures IsBodyLine(kept[i])
    {
      var j :| 0 <= j < |ls| && ls[j] == Text(kept[i]);
      TextLineIsBody(lines[j]);
    }
  }

  /** The lines `read_prompt_content` walks: the stripped file text split at
      newlines. */
  function Lines(text: string): seq<string> {
    Split(Trim(text), '\n')
  }

  /** The metadata and kept lines of a whole file. */
  function ParseText(text: string): Parsed {
    Collect(ClassifyAll(Lines(text)))
  }

  /** The body `read_prompt_content` returns: the kept lines joined by
      newlines, stripped. */
  function Body(text: string): (body: string)
    ensures IsTrimmed(body)
  {
    Trim(Join(ParseText(text).kept, "\n"))
  }

  /** `read_prompt_content` on a file named `filename` holding `raw`, with
      `now` the `isoformat()` of the clock reading it takes. Reading the
      file in text mode translates its line endings before any parsing, so
      a file without `\r` is parsed as it stands. The content is stripped,
      and read again it has no metadata and the same content. */
  function ParsePrompt(filename: string, raw: string, now: string): (p: PromptData)
    ensures p.filename == filename && p.timestamp == now
    ensures IsTrimmed(p.content)
    ensures '\r' !in raw ==> p.content == Body(raw) && p.metadata == ParseText(raw).metadata
    ensures ParseText(p.content).metadata == map[] && Body(p.content) == p.content
  {
    var text := Newlines(raw);
    NewlinesClean(raw);
    BodyReparses(text);
    PromptData(filename, Body(text), ParseText(text).metadata, now)
  }

  /** Every body line is stripped, holds no newline and is read back as the
      same text line. */
  lemma KeptLinesClean(text: string)
    ensures forall i :: 0 <= i < |ParseText(text).kept| ==>
              '\n' !in ParseText(text).kept[i] && IsBodyLine(ParseText(text).kept[i])
  {
    var lines := Lines(text);
    var ls := ClassifyAll(lines);
    var kept := Collect(ls).kept;
    KeptAreTexts(ls);
    KeptLinesAreText(lines);
    forall i | 0 <= i < |kept|
      ensures '\n' !in kept[i]
    {
      var j :| 0 <= j < |ls| && ls[j] == Text(kept[i]);
      TrimKeepsOut(lines[j], '\n');
    }
  }

  /** The content `read_prompt_content` returns is the run of body lines
      from the first non-empty one to the last, joined by newlines: the
      final `strip()` removes exactly the empty body lines at either end. */
  lemma BodyIsKeptRun(text: string) returns (a: nat, b: nat)
    ensures StripRun(ParseText(text).kept, a, b)
    ensures Body(text) == Join(ParseText(text).kept[a..b], "\n")
  {
    var kept := ParseText(text).kept;
    KeptLinesClean(text);
    forall i | 0 <= i < |kept| ensures IsTrimmed(kept[i]) {
      assert ClassifyLine(kept[i]).text == Trim(kept[i]);
    }
    a, b := TrimJoin(kept, '\n');
  }

  /** Lines that all read back as text collect into themselves, with no
      metadata. */
  lemma {:induction false} CollectBodyLines(ks: seq<string>)
    requires forall i :: 0 <= i < |ks| ==> IsBodyLine(ks[i])
    ensures Collect(ClassifyAll(ks)) == Parsed(map[], ks)
    decreases |ks|
  {
    if |ks| > 0 {
      var n := |ks| - 1;
      CollectBodyLines(ks[..n]);
      assert ClassifyAll(ks)[..n] == ClassifyAll(ks[..n]);
      assert ks[..n] + [ks[n]] == ks;
    }
  }

  /** The returned content, read again as a file, has no metadata and the
      same content: no body line becomes a metadata line or a rule once the
      lines are joined and stripped. */
  lemma BodyReparses(text: string)
    ensures ParseText(Body(text)).metadata == map[]
    ensures Body(Body(text)) == Body(text)
  {
    var kept := ParseText(text).kept;
    var a, b := BodyIsKeptRun(text);
    var body := Body(text);
    KeptLinesClean(text);
    if a == b {
      assert body == [];
      ParseBlankFile(body);
    } else {
      var run := kept[a..b];
      forall i | 0 <= i < |run| ensures '\n' !in run[i] && IsBodyLine(run[i]) {
        assert run[i] == kept[a + i];
      }
      TrimOfTrimmed(body);
      SplitJoin(run, '\n');
      assert Lines(body) == run;
      CollectBodyLines(run);
      assert ParseText(body) == Parsed(map[], run);
    }
  }

  /** An empty (or all-whitespace) file has an empty body and no metadata. */
  lemma ParseBlankFile(text: string)
    requires AllSpace(text)
    ensures Body(text) == []
    ensures ParseText(text).metadata == map[]
  {
    TrimEmptyIffAllSpace(text);
    assert Lines(text) == [""];
    assert ClassifyLine("") == Text("");
    assert ClassifyAll([""]) == [Text("")];
    assert Collect([Text("")]) == Parsed(map[], [""]);
  }

  /** A note whose metadata line names a topic: the body
      `read_prompt_content` returns is the prose line alone, and the
      metadata holds the one key. */
  lemma NoteParse(text: string, key: string, value: string, prose: string)
    requires key == "Topic" && value == "Emergency" && prose == "Patient has chest pain"
    requires text == "# " + key + ": " + value + "\n\n" + prose
    ensures ParseText(text).metadata == map[key := value]
    ensures Body(text) == prose
  {
    var header := "# " + key + ": " + value;
    NoteLines(text, header, prose);
    ClassifyThree(header, "", prose);
    NoteHeader(header, key, value);
    NoteProse(prose);
    NoteCollected(key, value, prose);
    NoteBody(prose);
  }

  lemma NoteBody(prose: string)
    requires IsTrimmed(prose)
    ensures Trim(Join(["", prose], "\n")) == prose
  {
    assert Join(["", prose], "\n") == ['\n'] + prose;
    TrimPadded('\n', prose);
  }

  lemma NoteLines(text: string, header: string, prose: string)
    requires |header| > 0 && header[0] == '#' && '\n' !in header
    requires prose == "Patient has chest pain"
    requires text == header + "\n\n" + prose
    ensures Lines(text) == [header, "", prose]
  {
    var parts := [header, "", prose];
    assert text[0] == header[0] && text[|text| - 1] == prose[|prose| - 1];
    assert IsTrimmed(text);
    TrimOfTrimmed(text);
    assert parts[1..] == ["", prose] && parts[1..][1..] == [prose];
    assert Join([prose], "\n") == prose;
    assert Join(["", prose], "\n") == "" + "\n" + prose;
    assert Join(parts, "\n") == header + "\n" + ("" + "\n" + prose);
    assert Join(parts, "\n") == text;
    assert forall k :: 0 <= k < |parts| ==> '\n' !in parts[k];
    SplitJoin(parts, '\n');
  }

  lemma ClassifyThree(a: string, b: string, c: string)
    ensures ClassifyAll([a, b, c]) == [ClassifyLine(a), ClassifyLine(b), ClassifyLine(c)]
  {
  }

  lemma NoteCollected(key: string, value: string, prose: string)
    ensures Collect([Meta(key, value), Text(""), Text(prose)]) == Parsed(map[key := value], ["", prose])
  {
    var ls := [Meta(key, value), Text(""), Text(prose)];
    assert ls[..2] == [Meta(key, value), Text("")] && ls[..2][..1] == [Meta(key, value)];
    assert [Meta(key, value)][..0] == [];
    assert Collect([Meta(key, value)]) == Parsed(map[key := value], []);
    assert Collect(ls[..2]) == Parsed(map[key := value], [""]);
  }

  lemma NoteHeader(raw: string, key: string, value: string)
    requires key == "Topic" && value == "Emergency"
    requires raw == "# " + key + ": " + value
    ensures ClassifyLine(raw) == Meta(key, value)
  {
    var k, v := [' '] + key, [' '] + value;
    assert raw == "#" + k + ":" + v;
    assert raw[0] == '#' && raw[|raw| - 1] == value[|value| - 1];
    assert IsTrimmed(raw);
    TrimOfTrimmed(raw);
    assert ':' !in k;
    assert IsTrimmed(key) && IsTrimmed(value);
    TrimPadded(' ', key);
    TrimPadded(' ', value);
    MetaLineFields(raw, k, v);
  }

  lemma NoteProse(prose: string)
    requires prose == "Patient has chest pain"
    ensures IsTrimmed(prose)
    ensures ClassifyLine("") == Text("")
    ensures ClassifyLine(prose) == Text(prose)
  {
    assert IsTrimmed(prose);
    TrimOfTrimmed(prose);
  }
}
