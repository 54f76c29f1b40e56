/** Reading text back line by line. */
module TextLines {

  /** What precedes the first newline; all of the text when it has none. */
  function FirstLine(text: string): (line: string)
    ensures |line| <= |text|
    ensures '\n' !in line
  {
    if text == "" || text[0] == '\n' then "" else [text[0]] + FirstLine(text[1..])
  }

  /** The lines that a newline ends. */
  function LinesIn(text: string): seq<string>
    decreases |text|
  {
    var line := FirstLine(text);
    if |line| == |text| then [] else [line] + LinesIn(text[|line| + 1..])
  }

  lemma {:induction false} FirstLineEnds(line: string, rest: string)
    requires '\n' !in line
    ensures FirstLine(line + "\n" + rest) == line
  {
    var text := line + "\n" + rest;
    if line != "" {
      assert line[0] in line && text[0] == line[0];
      FirstLineEnds(line[1..], rest);
      assert text[1..] == line[1..] + "\n" + rest;
      assert line == [line[0]] + line[1..];
    }
  }

  lemma LineReadsBack(line: string, rest: string)
    requires '\n' !in line
    ensures LinesIn(line + "\n" + rest) == [line] + LinesIn(rest)
  {
    var text := line + "\n" + rest;
    FirstLineEnds(line, rest);
    assert text[|line| + 1..] == rest;
  }

  /** Lines written one after another, each ended by a newline. */
  function Written(lines: seq<string>): string {
    if |lines| == 0 then "" else lines[0] + "\n" + Written(lines[1..])
  }

  predicate SingleLines(lines: seq<string>) {
    forall i | 0 <= i < |lines| :: '\n' !in lines[i]
  }

  /** Single lines are read back as they were written. */
  lemma {:induction false} WrittenReadsBack(lines: seq<string>)
    requires SingleLines(lines)
    ensures LinesIn(Written(lines)) == lines
  {
    if |lines| != 0 {
      WrittenReadsBack(lines[1..]);
      LineReadsBack(lines[0], Written(lines[1..]));
      assert lines == [lines[0]] + lines[1..];
    }
  }

  lemma {:induction false} WrittenSnoc(lines: seq<string>, last: string)
    ensures Written(lines + [last]) == Written(lines) + last + "\n"
  {
    if |lines| == 0 {
      assert [last][1..] == [];
    } else {
      WrittenSnoc(lines[1..], last);
      assert (lines + [last])[1..] == lines[1..] + [last];
    }
  }
}
