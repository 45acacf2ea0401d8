/** Reading a stream line by line, with one character of look-ahead. */
module LineReaders {
  import opened Base
  import opened Streams

  type Text = seq<byte>

  const LF: byte := 10
  const CR: byte := 13

  // ---------------------------------------------------------------------
  // Lines by definition

  /** The first line of a text and what follows its terminator: LF, CR LF or CR. */
  function FirstLine(text: Text): (r: (Text, Text))
    ensures text != [] ==> |r.1| < |text|
  {
    if text == [] then ([], [])
    else if text[0] == LF then ([], text[1..])
    else if text[0] == CR then ([], if |text| > 1 && text[1] == LF then text[2..] else text[1..])
    else
      var (line, rest) := FirstLine(text[1..]);
      ([text[0]] + line, rest)
  }

  function Lines(text: Text): seq<Text>
    decreases |text|
  {
    if text == [] then [] else [FirstLine(text).0] + Lines(FirstLine(text).1)
  }

  // ---------------------------------------------------------------------
  // Lines as the reader finds them

  /** The rest of a line, the character pushed back, and the rest of the stream. */
  datatype Scan = Scan(line: Text, next: Text, rest: Text)

  function ScanLine(text: Text): (s: Scan)
    ensures |s.next| <= 1
    ensures text != [] ==> |s.next| + |s.rest| < |text|
  {
    if text == [] then Scan([], [], [])
    else if text[0] == LF then Scan([], [], text[1..])
    else if text[0] == CR then
      if |text| == 1 then Scan([], [], [])
      else if text[1] == LF then Scan([], [], text[2..])
      else Scan([], [text[1]], text[2..])
    else
      var s := ScanLine(text[1..]);
      s.(line := [text[0]] + s.line)
  }

  /** Every line that the reader gives until it says that the end is reached. */
  function ReadLines(next: Text, text: Text): seq<Text>
    decreases |next| + |text|
  {
    if next == [] && text == [] then []
    else
      var s := ScanLine(text);
      [next + s.line] + ReadLines(s.next, s.rest)
  }

  /** Two carriage returns in a row. */
  predicate DoubleCr(text: Text) {
    exists i :: 0 <= i < |text| - 1 && text[i] == CR && text[i + 1] == CR
  }

  lemma DoubleCrTail(text: Text, k: nat)
    requires k <= |text| && DoubleCr(text[k..])
    ensures DoubleCr(text)
  {
    var i :| 0 <= i < |text[k..]| - 1 && text[k..][i] == CR && text[k..][i + 1] == CR;
    assert text[k + i] == CR && text[k + i + 1] == CR;
  }

  /** The reader ends a line where the definition does. */
  lemma {:induction false} ScanIsFirstLine(text: Text)
    ensures ScanLine(text).line == FirstLine(text).0
    ensures ScanLine(text).next + ScanLine(text).rest == FirstLine(text).1
  {
    if text != [] && text[0] != LF && text[0] != CR {
      ScanIsFirstLine(text[1..]);
    }
  }

  /** The rest of a text after its first line is a part of it. */
  lemma {:induction false} FirstLineRest(text: Text) returns (k: nat)
    ensures k <= |text| && FirstLine(text).1 == text[k..]
  {
    if text == [] {
      k := 0;
    } else if text[0] == LF {
      k := 1;
    } else if text[0] == CR {
      k := if |text| > 1 && text[1] == LF then 2 else 1;
    } else {
      k := FirstLineRest(text[1..]);
      k := k + 1;
    }
  }

  /** A pushed-back character that ends no line is the first of its line. */
  predicate Plain(next: Text) {
    |next| <= 1 && (next == [] || (next[0] != CR && next[0] != LF))
  }

  lemma PushedBack(next: Text, text: Text)
    requires Plain(next)
    ensures FirstLine(next + text) == (next + FirstLine(text).0, FirstLine(text).1)
  {
    if next == [] {
      assert next + text == text && next + FirstLine(text).0 == FirstLine(text).0;
    } else {
      assert next == [next[0]];
      assert (next + text)[0] == next[0] && (next + text)[1..] == text;
    }
  }

  /** What is pushed back is never LF, and CR only behind another CR. */
  lemma {:induction false} ScanPushesBack(text: Text)
    ensures ScanLine(text).next != [LF]
    ensures !DoubleCr(text) ==> Plain(ScanLine(text).next)
  {
    if text != [] {
      if text[0] == CR && |text| > 1 && text[1] == CR {
        assert DoubleCr(text);
      }
      if text[0] != LF && text[0] != CR {
        ScanPushesBack(text[1..]);
        if DoubleCr(text[1..]) {
          DoubleCrTail(text, 1);
        }
      }
    }
  }

  /** Without two carriage returns in a row the reader finds the lines of the text. */
  lemma {:induction false} ReadsTheLines(next: Text, text: Text)
    requires Plain(next) && !DoubleCr(next + text)
    ensures ReadLines(next, text) == Lines(next + text)
    decreases |next| + |text|
  {
    if next != [] || text != [] {
      var s := ScanLine(text);
      ScanIsFirstLine(text);
      PushedBack(next, text);
      if DoubleCr(text) {
        assert (next + text)[|next|..] == text;
        DoubleCrTail(next + text, |next|);
      }
      ScanPushesBack(text);
      var k := FirstLineRest(next + text);
      if DoubleCr(s.next + s.rest) {
        DoubleCrTail(next + text, k);
      }
      ReadsTheLines(s.next, s.rest);
    }
  }

  predicate HasCr(lines: seq<Text>) {
    exists i :: 0 <= i < |lines| && CR in lines[i]
  }

  lemma {:induction false} FirstLineHasNoCr(text: Text)
    ensures CR !in FirstLine(text).0
  {
    if text != [] && text[0] != LF && text[0] != CR {
      FirstLineHasNoCr(text[1..]);
    }
  }

  lemma {:induction false} LinesHaveNoCr(text: Text)
    ensures !HasCr(Lines(text))
    decreases |text|
  {
    if text != [] {
      FirstLineHasNoCr(text);
      LinesHaveNoCr(FirstLine(text).1);
      var lines := Lines(text);
      forall i | 0 <= i < |lines|
        ensures CR !in lines[i]
      {
        assert i > 0 ==> lines[i] == Lines(FirstLine(text).1)[i - 1];
      }
    }
  }

  lemma HasCrLater(first: Text, rest: seq<Text>)
    requires HasCr(rest)
    ensures HasCr([first] + rest)
  {
    var i :| 0 <= i < |rest| && CR in rest[i];
    assert ([first] + rest)[i + 1] == rest[i];
  }

  /** Text before the first such pair can be dropped. */
  lemma DoubleCrDrop(text: Text, k: nat)
    requires DoubleCr(text) && k <= |text|
    requires forall i :: 0 <= i < k && i < |text| - 1 ==> !(text[i] == CR && text[i + 1] == CR)
    ensures DoubleCr(text[k..])
  {
    var i :| 0 <= i < |text| - 1 && text[i] == CR && text[i + 1] == CR;
    assert text[k..][i - k] == CR && text[k..][i - k + 1] == CR;
  }

  /** Two carriage returns survive a line, unless the second one is pushed back. */
  lemma {:induction false} DoubleCrSurvives(text: Text)
    requires DoubleCr(text) && |text| > 1
    ensures var s := ScanLine(text); s.next == [CR] || DoubleCr(s.next + s.rest)
  {
    hide DoubleCr;
    if text[0] == CR && text[1] == LF {
      DoubleCrDrop(text, 2);
      assert [] + text[2..] == text[2..];
    } else if text[0] == CR && text[1] == CR {
    } else {
      DoubleCrDrop(text, 1);
      if text[0] == CR {
        assert [text[1]] + text[2..] == text[1..];
      } else if text[0] == LF {
        assert [] + text[1..] == text[1..];
      } else {
        DoubleCrIsLong(text[1..]);
        DoubleCrSurvives(text[1..]);
      }
    }
  }

  lemma DoubleCrIsLong(text: Text)
    requires DoubleCr(text)
    ensures |text| > 1
  {
  }

  /** With two carriage returns in a row, the second becomes part of a line. */
  lemma {:induction false} DoubleCrIsRead(next: Text, text: Text)
    requires Plain(next) && DoubleCr(next + text)
    ensures HasCr(ReadLines(next, text))
    decreases |next| + |text|
  {
    var i :| 0 <= i < |next + text| - 1 && (next + text)[i] == CR && (next + text)[i + 1] == CR;
    assert text[i - |next|] == CR && text[i - |next| + 1] == CR;
    DoubleCrIsLong(text);
    DoubleCrSurvives(text);
    ScanPushesBack(text);
    var s := ScanLine(text);
    if s.next == [CR] {
      assert CR in ReadLines(s.next, s.rest)[0];
    } else {
      DoubleCrIsRead(s.next, s.rest);
    }
    HasCrLater(next + s.line, ReadLines(s.next, s.rest));
  }

  /** The reader finds the lines of a text exactly when no two carriage returns are adjacent. */
  lemma ReadsLinesExactly(text: Text)
    ensures ReadLines([], text) == Lines(text) <==> !DoubleCr(text)
  {
    assert [] + text == text;
    if DoubleCr(text) {
      DoubleCrIsRead([], text);
      LinesHaveNoCr(text);
    } else {
      ReadsTheLines([], text);
    }
  }

  // ---------------------------------------------------------------------
  // Writing lines and reading them back

  predicate Clean(line: Text) {
    CR !in line && LF !in line
  }

  datatype Ending = Lf | CrLf | Cr

  function Terminator(ending: Ending): Text {
    match ending
    case Lf => [10]
    case CrLf => [13, 10]
    case Cr => [13]
  }

  /** Lines with a terminator each, and some text after the last. */
  function Written(lines: seq<Text>, endings: seq<Ending>, last: Text): Text
    requires |lines| == |endings|
  {
    if lines == [] then last
    else lines[0] + (Terminator(endings[0]) + Written(lines[1..], endings[1..], last))
  }

  /** No empty line stands behind a line that ends with CR: its terminator would join that one. */
  predicate Distinguishable(lines: seq<Text>, endings: seq<Ending>)
    requires |lines| == |endings|
  {
    forall i :: 0 <= i < |lines| - 1 && endings[i].Cr? ==> lines[i + 1] != []
  }

  lemma {:induction false} ScanClean(line: Text, tail: Text)
    requires Clean(line) && (tail == [] || tail[0] == LF || tail[0] == CR)
    ensures ScanLine(line + tail) == ScanLine(tail).(line := line)
  {
    if line == [] {
      assert line + tail == tail;
    } else {
      assert (line + tail)[1..] == line[1..] + tail;
      ScanClean(line[1..], tail);
      assert [line[0]] + line[1..] == line;
    }
  }

  /** Pushing a character of a line back changes nothing. */
  lemma PushedBackIsRead(next: Text, text: Text)
    requires Plain(next)
    ensures ReadLines(next, text) == ReadLines([], next + text)
  {
    if next == [] {
      assert next + text == text;
    } else {
      assert (next + text)[0] == next[0] && (next + text)[1..] == text && next == [next[0]];
      var line := ScanLine(text).line;
      assert [] + (next + line) == next + line;
    }
  }

  /** A written line is read as it was, and then come the lines of the rest. */
  lemma ReadsWritten(line: Text, ending: Ending, rest: Text)
    requires Clean(line)
    requires ending.Cr? && rest != [] ==> rest[0] != CR && rest[0] != LF
    ensures ReadLines([], line + (Terminator(ending) + rest)) == [line] + ReadLines([], rest)
  {
    var tail := Terminator(ending) + rest;
    assert ending.CrLf? ==> tail[2..] == rest;
    assert ending.Lf? ==> tail[1..] == rest;
    ScanClean(line, tail);
    assert |line + tail| > 0 && [] + line == line;
    if ending.Cr? && rest != [] {
      assert tail[1] == rest[0] && tail[2..] == rest[1..];
      PushedBackIsRead([rest[0]], rest[1..]);
      assert [rest[0]] + rest[1..] == rest;
    }
  }

  lemma ReadsLast(last: Text)
    requires Clean(last)
    ensures ReadLines([], last) == if last == [] then [] else [last]
  {
    ScanClean(last, []);
    assert last + [] == last && [] + last == last;
    assert ReadLines([], []) == [];
  }

  lemma NextIsPlain(lines: seq<Text>, endings: seq<Ending>, last: Text)
    requires |lines| == |endings| && Clean(last) && (lines != [] ==> lines[0] != [] && Clean(lines[0]))
    ensures var text := Written(lines, endings, last); text != [] ==> text[0] != CR && text[0] != LF
  {
    if lines != [] {
      assert Written(lines, endings, last)[0] == lines[0][0] && lines[0][0] in lines[0];
    }
  }

  /**
   Lines written with LF, CR LF or CR, in any mixture in which they can be told
   apart, are read back as they were.
   */
  lemma {:induction false} WrittenLinesReadBack(lines: seq<Text>, endings: seq<Ending>, last: Text)
    requires |lines| == |endings| && Clean(last) && forall i :: 0 <= i < |lines| ==> Clean(lines[i])
    requires Distinguishable(lines, endings)
    ensures ReadLines([], Written(lines, endings, last)) == lines + if last == [] then [] else [last]
  {
    hide Clean, ReadLines, Terminator;
    if lines == [] {
      ReadsLast(last);
      assert [] + [last] == [last];
    } else {
      var rest := Written(lines[1..], endings[1..], last);
      if endings[0].Cr? {
        NextIsPlain(lines[1..], endings[1..], last);
      }
      ReadsWritten(lines[0], endings[0], rest);
      WrittenLinesReadBack(lines[1..], endings[1..], last);
      assert lines == [lines[0]] + lines[1..];
    }
  }

  /** Where they cannot be told apart, nobody could: the same text is another list of lines. */
  lemma EmptyLineVanishes(line: Text, last: Text)
    ensures Written([line, []], [Cr, Lf], last) == Written([line], [CrLf], last)
  {
    hide Written;
    OneWritten([], Lf, last);
    OneWritten(line, CrLf, last);
    TwoWritten(line, Cr, [], Lf, last);
    assert line + ([CR] + ([] + ([LF] + last))) == line + ([CR, LF] + last);
  }

  lemma OneWritten(line: Text, ending: Ending, last: Text)
    ensures Written([line], [ending], last) == line + (Terminator(ending) + last)
  {
    assert Written([], [], last) == last;
  }

  lemma TwoWritten(line: Text, ending: Ending, second: Text, other: Ending, last: Text)
    ensures Written([line, second], [ending, other], last)
         == line + (Terminator(ending) + Written([second], [other], last))
  {
    assert [line, second][1..] == [second] && [ending, other][1..] == [other];
  }

  // ---------------------------------------------------------------------
  // Byte order marks

  datatype Encoding =
    | Ansi | Utf1 | Utf7 | Utf8 | Utf16Be | Utf16Le | Utf32Be | Utf32Le | UtfEbcdic | Scsu | Bocu1

  /** The marks that the reader knows. */
  function Marks(): seq<(Text, Encoding)> {
    [([0xfe, 0xff], Utf16Be), ([0xff, 0xfe], Utf16Le),
     ([0xf7, 0x64, 0x4c], Utf1), ([0xef, 0xbb, 0xbf], Utf8), ([0x0e, 0xfe, 0xff], Scsu), ([0xfb, 0xee, 0x28], Bocu1),
     ([0x00, 0x00, 0xfe, 0xff], Utf32Be), ([0xff, 0xfe, 0x00, 0x00], Utf32Le),
     ([0xdd, 0x73, 0x66, 0x73], UtfEbcdic), ([0xfb, 0xee, 0x28, 0xff], Bocu1)]
  }

  /** The code point of a mark, U+FEFF, in the encodings of the Unicode standard. */
  lemma MarksEncodeOneCodePoint()
    ensures var c := 0xfeff;
            && Marks()[0] == ([c / 256, c % 256], Utf16Be) && Marks()[1] == ([c % 256, c / 256], Utf16Le)
            && Marks()[3] == ([0xe0 + c / 4096, 0x80 + c / 64 % 64, 0x80 + c % 64], Utf8)
            && Marks()[6] == ([0, 0, c / 256, c % 256], Utf32Be) && Marks()[7] == ([c % 256, c / 256, 0, 0], Utf32Le)
  {
  }

  /** Up to four bytes at a position, and at least one if there is any. */
  predicate SeenAt(content: seq<byte>, at: nat, seen: Text) {
    && |seen| <= 4 && at + |seen| <= |content| && seen == content[at..at + |seen|]
    && (at < |content| ==> seen != [])
  }

  predicate Begins(text: Text, i: nat)
    requires i < |Marks()|
  {
    Marks()[i].0 <= text
  }

  /** Whether this is the longest mark that the text begins with, or nothing if it begins with none. */
  predicate LongestMark(text: Text, length: nat, encoding: Encoding) {
    && (forall i :: 0 <= i < |Marks()| && Begins(text, i) ==> |Marks()[i].0| <= length)
    && (if length == 0 then encoding == Ansi
        else exists i :: 0 <= i < |Marks()| && Begins(text, i) && |Marks()[i].0| == length && Marks()[i].1 == encoding)
  }

  lemma TwoByteMarks(text: Text)
    ensures Begins(text, 0) <==> |text| >= 2 && text[0] == 0xfe && text[1] == 0xff
    ensures Begins(text, 1) <==> |text| >= 2 && text[0] == 0xff && text[1] == 0xfe
  {
  }

  lemma ThreeByteMarks(text: Text)
    ensures Begins(text, 2) <==> |text| >= 3 && text[0] == 0xf7 && text[1] == 0x64 && text[2] == 0x4c
    ensures Begins(text, 3) <==> |text| >= 3 && text[0] == 0xef && text[1] == 0xbb && text[2] == 0xbf
    ensures Begins(text, 4) <==> |text| >= 3 && text[0] == 0x0e && text[1] == 0xfe && text[2] == 0xff
    ensures Begins(text, 5) <==> |text| >= 3 && text[0] == 0xfb && text[1] == 0xee && text[2] == 0x28
  {
  }

  lemma FourByteMarks(text: Text)
    ensures Begins(text, 6) <==>
            |text| >= 4 && text[0] == 0x00 && text[1] == 0x00 && text[2] == 0xfe && text[3] == 0xff
    ensures Begins(text, 7) <==>
            |text| >= 4 && text[0] == 0xff && text[1] == 0xfe && text[2] == 0x00 && text[3] == 0x00
    ensures Begins(text, 8) <==>
            |text| >= 4 && text[0] == 0xdd && text[1] == 0x73 && text[2] == 0x66 && text[3] == 0x73
    ensures Begins(text, 9) <==>
            |text| >= 4 && text[0] == 0xfb && text[1] == 0xee && text[2] == 0x28 && text[3] == 0xff
  {
  }

  /** The length and the encoding of the longest mark, looking at the longer ones first. */
  function Detected(text: Text): (r: (nat, Encoding))
    ensures LongestMark(text, r.0, r.1)
  {
    if Begins(text, 6) then (4, Utf32Be)
    else if Begins(text, 7) then (4, Utf32Le)
    else if Begins(text, 8) then (4, UtfEbcdic)
    else if Begins(text, 9) then (4, Bocu1)
    else if Begins(text, 2) then (3, Utf1)
    else if Begins(text, 3) then (3, Utf8)
    else if Begins(text, 4) then (3, Scsu)
    else if Begins(text, 5) then (3, Bocu1)
    else if Begins(text, 0) then (2, Utf16Be)
    else if Begins(text, 1) then (2, Utf16Le)
    else (0, Ansi)
  }

  // ---------------------------------------------------------------------
  // The reader

  class LineReader {
    const encoding: Encoding
    const stream: InStream
    var nextStr: Text

    /** The text that is still in the stream. */
    function Rest(): Text
      requires stream.Valid()
      reads this, stream
    {
      stream.content[stream.pos..]
    }

    /** Whatever stands at the position of the stream is compared with the marks; skipping starts at byte 0. */
    static method DetectEncoding(stream: InStream) returns (result: Encoding, ghost seen: Text)
      requires stream.Valid()
      modifies stream
      ensures stream.Valid()
      ensures SeenAt(stream.content, old(stream.pos), seen)
      ensures stream.appetite(old(stream.pos), 4) >= 4 ==> |seen| == Min(4, |stream.content| - old(stream.pos))
      ensures LongestMark(seen, stream.pos, result)
    {
      hide Begins, Marks, LongestMark;
      result := Ansi;
      var bom := new byte[4];
      var read := stream.Read(bom, 4);
      seen := bom[..read];
      TwoByteMarks(seen);
      ThreeByteMarks(seen);
      FourByteMarks(seen);
      var ok := stream.Seek(0, Begin);
      if read >= 2 {
        if bom[0] == 0xfe && bom[1] == 0xff {
          result := Utf16Be;
          ok := stream.Seek(2, Current);
        }
        if bom[0] == 0xff && bom[1] == 0xfe {
          result := Utf16Le;
          ok := stream.Seek(2, Current);
        }
        if read >= 3 {
          if bom[0] == 0xf7 && bom[1] == 0x64 && bom[2] == 0x4c {
            result := Utf1;
            ok := stream.Seek(3, Current);
          }
          if bom[0] == 0xef && bom[1] == 0xbb && bom[2] == 0xbf {
            result := Utf8;
            ok := stream.Seek(3, Current);
          }
          if bom[0] == 0x0e && bom[1] == 0xfe && bom[2] == 0xff {
            result := Scsu;
            ok := stream.Seek(3, Current);
          }
          if bom[0] == 0xfb && bom[1] == 0xee && bom[2] == 0x28 {
            result := Bocu1;
            ok := stream.Seek(3, Current);
          }
          if read == 4 {
            if bom[0] == 0x00 && bom[1] == 0x00 && bom[2] == 0xfe && bom[3] == 0xff {
              result := Utf32Be;
              ok := stream.Seek(4, Current);
            }
            if bom[0] == 0xff && bom[1] == 0xfe && bom[2] == 0x00 && bom[3] == 0x00 {
              result := Utf32Le;
              ok := stream.Seek(2, Current);
            }
            if bom[0] == 0xdd && bom[1] == 0x73 && bom[2] == 0x66 && bom[3] == 0x73 {
              result := UtfEbcdic;
              ok := stream.Seek(4, Current);
            }
            if bom[0] == 0xfb && bom[1] == 0xee && bom[2] == 0x28 && bom[3] == 0xff {
              ok := stream.Seek(1, Current);
            }
          }
        }
      }
      assert (stream.pos, result) == Detected(seen);
    }

    constructor (stream: InStream)
      requires stream.Valid()
      modifies stream
      ensures this.stream == stream && stream.Valid() && nextStr == []
      ensures exists seen :: && SeenAt(stream.content, old(stream.pos), seen)
                             && (stream.appetite(old(stream.pos), 4) >= 4 ==>
                                   |seen| == Min(4, |stream.content| - old(stream.pos)))
                             && LongestMark(seen, stream.pos, encoding)
    {
      var detected, seen := DetectEncoding(stream);
      this.stream, encoding, nextStr := stream, detected, [];
    }

    function End(): (b: bool)
      requires stream.Valid()
      reads this, stream
      ensures b <==> nextStr == [] && Rest() == []
    {
      stream.End() && |nextStr| == 0
    }

    method ReadLine() returns (line: Text)
      requires stream.Valid()
      modifies this, stream
      ensures stream.Valid()
      ensures var s := ScanLine(old(Rest())); line == old(nextStr) + s.line && nextStr == s.next && Rest() == s.rest
    {
      line := nextStr;
      nextStr := [];
      var c, next := new byte[1], new byte[1];
      ghost var whole := ScanLine(Rest());
      while !stream.End()
        invariant stream.Valid() && nextStr == []
        invariant line + ScanLine(Rest()).line == old(nextStr) + whole.line
        invariant ScanLine(Rest()).next == whole.next && ScanLine(Rest()).rest == whole.rest
        decreases |stream.content| - stream.pos
      {
        ghost var rest := Rest();
        var read := stream.Read(c, 1);
        assert c[..1][0] == rest[0] && Rest() == rest[1..];
        if read != 1 {
          return;
        }
        if c[0] == LF {
          return;
        } else if c[0] == CR {
          read := stream.Read(next, 1);
          if read == 1 {
            assert next[..1][0] == rest[1] && Rest() == rest[2..];
          }
          if read == 1 && next[0] != LF {
            nextStr := nextStr + [next[0]];
          }
          return;
        }
        line := line + [c[0]];
      }
    }

    /** Reading to the end, as every caller does. */
    method ReadAll() returns (lines: seq<Text>)
      requires stream.Valid()
      modifies this, stream
      ensures stream.Valid() && End()
      ensures lines == ReadLines(old(nextStr), old(Rest()))
      ensures old(nextStr) == [] ==> (lines == Lines(old(Rest())) <==> !DoubleCr(old(Rest())))
    {
      ReadsLinesExactly(Rest());
      lines := [];
      ghost var all := ReadLines(nextStr, Rest());
      while !End()
        invariant stream.Valid() && lines + ReadLines(nextStr, Rest()) == all
        decreases |nextStr| + |Rest()|
      {
        var line := ReadLine();
        lines := lines + [line];
      }
    }
  }
}
