/** Heads that are printed line by line, requests and responses alike, and how they are read. */
module Lines {
  import opened Wrappers
  import opened Text
  import opened Http

  function HeaderLine(name: string, value: string): string {
    name + ": " + value
  }

  /** A printed line: not empty, without CR or LF. */
  predicate Plain(line: string) {
    line != "" && forall i :: 0 <= i < |line| ==> line[i] != '\r' && line[i] != '\n' && line[i] < 0x80 as char
  }

  ghost predicate AllPlain(lines: seq<string>) {
    forall line :: line in lines ==> Plain(line)
  }

  lemma OneMorePlain(line: string, lines: seq<string>)
    requires Plain(line) && AllPlain(lines)
    ensures AllPlain([line] + lines)
  {
  }

  lemma PlainHasNoCrlf(lines: seq<string>)
    requires AllPlain(lines)
    ensures forall k :: 0 <= k < |lines| ==> NoCrlf(lines[k]) && lines[k] != ""
  {
    forall k | 0 <= k < |lines| ensures NoCrlf(lines[k]) && lines[k] != "" {
      assert lines[k] in lines;
    }
  }

  lemma {:induction false} JoinEndsPlain(lines: seq<string>)
    requires lines != [] && AllPlain(lines)
    ensures var s := Join(lines, CRLF); s != "" && s[|s| - 1] != '\n' && IsAscii(s)
    decreases |lines|
  {
    assert lines[0] in lines;
    if |lines| > 1 {
      assert forall line :: line in lines[1..] ==> line in lines;
      JoinEndsPlain(lines[1..]);
    }
  }

  lemma TrimOneBlank(text: string)
    requires text != "" && text[|text| - 1] != '\n'
    ensures TrimBlank(text + BLANK) == text
  {
    var s := text + BLANK;
    assert s[|text|..] == BLANK && s[..|text|] == text;
    if |text| >= 4 {
      assert text[|text| - 4..][3] != BLANK[3];
    }
  }

  /** The lines the parser sees are the lines that were printed. */
  lemma PrintedLinesAreRead(lines: seq<string>)
    requires lines != [] && AllPlain(lines)
    ensures HeadLines(Join(lines, CRLF) + BLANK) == lines
    ensures IsAscii(Join(lines, CRLF) + BLANK)
  {
    JoinEndsPlain(lines);
    PlainHasNoCrlf(lines);
    TrimOneBlank(Join(lines, CRLF));
    SplitJoin(lines);
  }

  // ---- header lines ----------------------------------------------------------------------

  lemma FieldIsSplit(name: string, value: string)
    requires IsToken(name)
    ensures SplitOnce(name + ": " + value, ":") == Some((name, " " + value))
  {
    assert name + ": " + value == name + ":" + (" " + value);
    SplitOnceAt(name, ':', " " + value);
  }

  lemma SpaceIsTrimmed(value: string)
    requires IsFieldText(value)
    ensures IsFieldText(" " + value) && Trim(" " + value) == Trim(value)
  {
    assert (" " + value)[1..] == value;
    assert TrimStart(" " + value) == TrimStart(value);
  }

  lemma FieldFrom(line: string, name: string, rest: string)
    requires line != "" && !IsBlank(line[0]) && SplitOnce(line, ":") == Some((name, rest))
    requires name != "" && !IsBlank(name[|name| - 1]) && IsToken(name) && IsFieldText(rest)
    ensures ParseField(line) == Ok(Field(ToLower(name), Trim(rest)))
  {
    hide SplitOnce;
    hide IsToken;
    hide IsFieldText;
    hide ToLower;
    hide Trim;
  }

  lemma TokenHasNoBlank(name: string)
    requires name != "" && IsToken(name)
    ensures !IsBlank(name[0]) && !IsBlank(name[|name| - 1])
  {
    assert IsTokenByte(name[0]) && IsTokenByte(name[|name| - 1]);
  }

  /** A header line is read back: the name in lower case, the value as it was. */
  lemma FieldIsRead(name: string, value: string, line: string)
    requires name != "" && IsToken(name) && IsFieldText(value) && Trim(value) == value
    requires line == name + ": " + value
    ensures ParseField(line) == Ok(Field(ToLower(name), value))
  {
    TokenHasNoBlank(name);
    FieldIsSplit(name, value);
    SpaceIsTrimmed(value);
    var rest := " " + value;
    assert line[0] == name[0];
    FieldFrom(line, name, rest);
  }
}
