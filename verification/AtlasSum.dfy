/** parseAtlasSum of cmd/migrate: the map from file name to hash that is read off
    the lines of atlas.sum. */
module AtlasSum {

  import opened Migrate
  import opened Strings

  // What one line adds to the map.
  function Entered(hashes: map<string, string>, line: string): map<string, string> {
    var line := TrimSpace(line);
    var parts := Fields(line);
    if line == "" || "h1:" <= line || |parts| != 2 then hashes else hashes[parts[0] := parts[1]]
  }

  function Parsed(lines: seq<string>): map<string, string> {
    if lines == [] then map[] else Entered(Parsed(lines[..|lines| - 1]), lines[|lines| - 1])
  }

  method ParseAtlasSum(data: string) returns (hashes: map<string, string>)
    ensures hashes == Parsed(Split(data, '\n'))
  {
    hide TrimSpace, Fields, Split;
    hashes := map[];
    var lines := Split(data, '\n');
    for i := 0 to |lines|
      invariant hashes == Parsed(lines[..i])
    {
      assert lines[..i + 1][..i] == lines[..i];
      var line := TrimSpace(lines[i]);
      if line == "" || "h1:" <= line {
        continue;
      }
      var parts := Fields(line);
      if |parts| == 2 {
        hashes := hashes[parts[0] := parts[1]];
      }
    }
    assert lines[..|lines|] == lines;
  }

  // ---------------------------------------------------------------- the inverse

  /** A line of a sum file, with any white space around and between its parts. Other
      is one of one word, or of three and more: the words after the first are those
      of `more`, each with the gap in front of it. */
  datatype Line =
    | Blank(space: string)
    | Header(before: string, rest: string)
    | Entry(before: string, name: string, gap: string, hash: string, after: string)
    | Other(before: string, first: string, more: seq<(string, string)>, after: string)
  {
    predicate Valid() {
      match this
      case Blank(space) => AllSpace(space)
      case Header(before, _) => AllSpace(before)
      case Entry(before, name, gap, hash, after) =>
        && AllSpace(before) && AllSpace(gap) && AllSpace(after) && gap != ""
        && NoSpace(name) && NoSpace(hash) && name != "" && hash != "" && !("h1:" <= name)
      case Other(before, first, more, after) =>
        && AllSpace(before) && AllSpace(after) && NoSpace(first) && first != "" && !("h1:" <= first)
        && |more| != 1
        && forall i :: 0 <= i < |more| ==>
             AllSpace(more[i].0) && more[i].0 != "" && NoSpace(more[i].1) && more[i].1 != ""
    }

    function Text(): string {
      match this
      case Blank(space) => space
      case Header(before, rest) => before + "h1:" + rest
      case Entry(before, name, gap, hash, after) => before + (name + gap + hash) + after
      case Other(before, first, more, after) => before + (first + Spread(more)) + after
    }
  }

  // Words, each with the gap in front of it.
  function Spread(more: seq<(string, string)>): string {
    if more == [] then "" else more[0].0 + (more[0].1 + Spread(more[1..]))
  }

  ghost predicate ValidLines(lines: seq<Line>) {
    forall i :: 0 <= i < |lines| ==> lines[i].Valid() && '\n' !in lines[i].Text()
  }

  // The lines, separated by newlines.
  function Printed(lines: seq<Line>): string {
    if lines == [] then ""
    else if |lines| == 1 then lines[0].Text()
    else lines[0].Text() + "\n" + Printed(lines[1..])
  }

  // The map the lines stand for.
  function Meaning(lines: seq<Line>): map<string, string> {
    if lines == [] then map[]
    else
      var last := lines[|lines| - 1];
      if last.Entry? then Meaning(lines[..|lines| - 1])[last.name := last.hash] else Meaning(lines[..|lines| - 1])
  }

  function Texts(lines: seq<Line>): seq<string> {
    seq(|lines|, i requires 0 <= i < |lines| => lines[i].Text())
  }

  lemma {:induction false} SplitPrinted(lines: seq<Line>)
    requires ValidLines(lines) && lines != []
    ensures Split(Printed(lines), '\n') == Texts(lines)
  {
    hide Split, Line.Text, Line.Valid;
    if |lines| == 1 {
      SplitOne(lines[0].Text(), '\n');
    } else {
      SplitPrinted(lines[1..]);
      SplitFirst(lines[0].Text(), Printed(lines[1..]), '\n');
      assert Texts(lines) == [lines[0].Text()] + Texts(lines[1..]);
    }
  }

  lemma {:induction false} TrimRightKeepsStart(s: string, t: string)
    requires s != "" && !IsSpace(s[|s| - 1])
    ensures s <= TrimRight(s + t)
    decreases |t|
  {
    hide IsSpace;
    var all := s + t;
    if t == "" {
      assert all == s;
    } else if IsSpace(all[|all| - 1]) {
      assert all[..|all| - 1] == s + t[..|t| - 1];
      TrimRightKeepsStart(s, t[..|t| - 1]);
    }
  }

  lemma {:induction false} FieldsSkip(space: string, s: string)
    requires AllSpace(space)
    ensures Fields(space + s) == Fields(s)
  {
    hide IsSpace;
    if space == "" {
      assert space + s == s;
    } else {
      assert (space + s)[0] == space[0] && (space + s)[1..] == space[1..] + s;
      FieldsSkip(space[1..], s);
    }
  }

  lemma {:induction false} FirstWord(word: string, s: string)
    requires NoSpace(word) && (s == "" || IsSpace(s[0]))
    ensures WordLength(word + s) == |word|
  {
    hide IsSpace;
    if word == "" {
      assert word + s == s;
    } else {
      assert (word + s)[0] == word[0] && (word + s)[1..] == word[1..] + s;
      FirstWord(word[1..], s);
    }
  }

  lemma FieldsTake(word: string, s: string)
    requires NoSpace(word) && word != "" && (s == "" || IsSpace(s[0]))
    ensures Fields(word + s) == [word] + Fields(s)
  {
    hide IsSpace;
    FirstWord(word, s);
    assert (word + s)[0] == word[0] && (word + s)[..|word|] == word && (word + s)[|word|..] == s;
  }

  // A printed entry is read as its name and its hash.
  lemma EntryIsRead(hashes: map<string, string>, l: Line)
    requires l.Entry? && l.Valid()
    ensures Entered(hashes, l.Text()) == hashes[l.name := l.hash]
  {
    hide IsSpace, TrimLeft, TrimRight, Fields;
    var middle := l.name + l.gap + l.hash;
    assert middle[0] == l.name[0] && middle[|middle| - 1] == l.hash[|l.hash| - 1];
    assert l.Text() == l.before + (middle + l.after);
    assert (middle + l.after)[0] == middle[0];
    TrimLeftDrops(l.before, middle + l.after);
    TrimRightDrops(middle, l.after);
    assert middle == l.name + (l.gap + l.hash);
    FieldsTake(l.name, l.gap + l.hash);
    FieldsSkip(l.gap, l.hash);
    assert l.hash + "" == l.hash;
    FieldsTake(l.hash, "");
    assert Fields("") == [] by {
      NoFields();
    }
    NoHeader(l.name, l.gap + l.hash);
  }

  lemma NoFields()
    ensures Fields("") == []
  {
  }

  lemma HeaderStart(s: string)
    ensures "h1:" <= s <==> |s| >= 3 && s[0] == 'h' && s[1] == '1' && s[2] == ':'
  {
    assert |s| >= 3 && s[0] == 'h' && s[1] == '1' && s[2] == ':' ==> s[..3] == "h1:";
  }

  // A name that does not start with h1: is not made to by what follows it.
  lemma NoHeader(name: string, s: string)
    requires !("h1:" <= name) && s != "" && IsSpace(s[0])
    ensures !("h1:" <= name + s)
  {
    HeaderStart(name);
    HeaderStart(name + s);
    assert forall i :: 0 <= i < |name| ==> (name + s)[i] == name[i];
    assert (name + s)[|name|] == s[0];
  }

  lemma BlankIsSkipped(hashes: map<string, string>, space: string)
    requires AllSpace(space)
    ensures Entered(hashes, space) == hashes
  {
    hide IsSpace, TrimLeft, TrimRight, Fields;
    assert space + "" == space;
    TrimLeftDrops(space, "");
    assert "" + "" == "";
    TrimRightDrops("", "");
  }

  lemma HeaderIsSkipped(hashes: map<string, string>, l: Line)
    requires l.Header? && l.Valid()
    ensures Entered(hashes, l.Text()) == hashes
  {
    hide TrimLeft, TrimRight, Fields;
    assert l.Text() == l.before + ("h1:" + l.rest);
    TrimLeftDrops(l.before, "h1:" + l.rest);
    TrimRightKeepsStart("h1:", l.rest);
  }

  ghost predicate Words(more: seq<(string, string)>) {
    forall i :: 0 <= i < |more| ==>
      AllSpace(more[i].0) && more[i].0 != "" && NoSpace(more[i].1) && more[i].1 != ""
  }

  lemma {:induction false} FieldsOfSpread(more: seq<(string, string)>)
    requires Words(more)
    ensures |Fields(Spread(more))| == |more|
    ensures more != [] ==> Spread(more) != "" && IsSpace(Spread(more)[0]) && !IsSpace(Spread(more)[|Spread(more)| - 1])
  {
    hide IsSpace, Fields;
    if more == [] {
      NoFields();
    } else {
      var gap, word, rest := more[0].0, more[0].1, Spread(more[1..]);
      FieldsOfSpread(more[1..]);
      FieldsSkip(gap, word + rest);
      FieldsTake(word, rest);
      assert rest == "" ==> word + rest == word;
      assert Spread(more)[0] == gap[0];
    }
  }

  lemma OtherIsSkipped(hashes: map<string, string>, l: Line)
    requires l.Other? && l.Valid()
    ensures Entered(hashes, l.Text()) == hashes
  {
    hide IsSpace, TrimSpace, Fields, Spread;
    var line := l.first + Spread(l.more);
    FieldsOfSpread(l.more);
    assert Spread([]) == "" && l.first + "" == l.first by {
      NothingSpread();
    }
    assert line[0] == l.first[0];
    TrimSpaceDrops(l.before, line, l.after);
    FieldsTake(l.first, Spread(l.more));
  }

  lemma NothingSpread()
    ensures Spread([]) == ""
  {
  }

  lemma {:induction false} LinesAreRead(lines: seq<Line>)
    requires ValidLines(lines)
    ensures Parsed(Texts(lines)) == Meaning(lines)
  {
    hide Entered, Line.Text, Line.Valid;
    if lines != [] {
      var init, last := lines[..|lines| - 1], lines[|lines| - 1];
      LinesAreRead(init);
      assert Texts(lines)[..|lines| - 1] == Texts(init);
      match last {
        case Blank(space) =>
          BlankTexts(last);
          BlankIsSkipped(Meaning(init), space);
        case Header(_, _) => HeaderIsSkipped(Meaning(init), last);
        case Entry(_, _, _, _, _) => EntryIsRead(Meaning(init), last);
        case Other(_, _, _, _) => OtherIsSkipped(Meaning(init), last);
      }
    }
  }

  lemma BlankTexts(l: Line)
    requires l.Blank? && l.Valid()
    ensures l.Text() == l.space && AllSpace(l.space)
  {
  }

  /** Parsing inverts printing, whatever the white space, the blank lines and the
      number of header lines. */
  lemma ParseInvertsPrint(lines: seq<Line>)
    requires ValidLines(lines)
    ensures Parsed(Split(Printed(lines), '\n')) == Meaning(lines)
  {
    hide Entered, Line.Text, Line.Valid;
    if lines == [] {
      BlankIsSkipped(map[], "");
      assert Split("", '\n') == [""];
      assert [""][..0] == [];
      assert Parsed([""]) == Entered(Parsed([]), "");
    } else {
      SplitPrinted(lines);
      LinesAreRead(lines);
    }
  }

  /** The map holds exactly the names that are printed, each with the hash of the
      last line that has it. */
  lemma {:induction false} LastLineWins(lines: seq<Line>, name: string)
    ensures name in Meaning(lines) <==> exists i :: 0 <= i < |lines| && lines[i].Entry? && lines[i].name == name
    ensures forall i :: 0 <= i < |lines| && lines[i].Entry? && lines[i].name == name
              && (forall j :: i < j < |lines| && lines[j].Entry? ==> lines[j].name != name)
              ==> Meaning(lines)[name] == lines[i].hash
  {
    if lines != [] {
      var init, last := lines[..|lines| - 1], lines[|lines| - 1];
      LastLineWins(init, name);
      assert forall i :: 0 <= i < |init| ==> init[i] == lines[i];
      if last.Entry? && last.name == name {
        assert lines[|lines| - 1].name == name;
      } else if i :| 0 <= i < |lines| && lines[i].Entry? && lines[i].name == name {
        assert init[i].name == name;
      }
    }
  }

  /** Together with the baseline: every baselined row carries the hash that the sum
      file prints for its migration. */
  lemma BaselineCarriesPrintedHash(files: seq<string>, lines: seq<Line>, i: nat, k: nat, when: int)
    requires ValidLines(lines) && i < |files| && k < |lines|
    requires lines[k].Entry? && lines[k].name == files[i]
    requires forall j :: k < j < |lines| && lines[j].Entry? ==> lines[j].name != files[i]
    ensures Release(files, Parsed(Split(Printed(lines), '\n'))).Baseline(i, when).hash == lines[k].hash
  {
    hide Printed, Split, Parsed;
    ParseInvertsPrint(lines);
    LastLineWins(lines, files[i]);
  }
}
