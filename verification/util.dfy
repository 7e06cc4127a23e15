/** Text helpers of the installer CLI (cmd/swarmctl/pkg/util/util.go): splitting
    rendered YAML into documents, parsing a `start:end` range, and asking a yes/no
    question on a line reader. */
module Util {
  import opened Wrappers
  import opened Strings
  import opened Strconv
  import Sequences

  const DocSeparator: string := "---"

  /** The test `SplitYAML` applies to each piece. */
  predicate HasContent(doc: string) {
    TrimSpace(doc) != ""
  }

  /** The documents of `buf`: its `---`-separated pieces, untrimmed and in order, without the blank ones. */
  function Documents(buf: string): seq<string> {
    Sequences.Filter(Split(buf, DocSeparator), HasContent)
  }

  /** `SplitYAML`, with its filtering loop. */
  method SplitYAML(buf: string) returns (docs: seq<string>)
    ensures docs == Documents(buf)
  {
    var pieces := Split(buf, DocSeparator);
    docs := [];
    for i := 0 to |pieces|
      invariant docs == Sequences.Filter(pieces[..i], HasContent)
    {
      var doc := pieces[i];
      Sequences.FilterPrefix(pieces, i, HasContent);
      if HasContent(doc) {
        docs := docs + [doc];
      }
    }
    assert pieces[..|pieces|] == pieces;
    assert Documents(buf) == Sequences.Filter(pieces, HasContent);
  }

  /** Every document returned holds a character that is not white space. */
  lemma SplitYAMLContent(buf: string)
    ensures forall k :: 0 <= k < |Documents(buf)| ==>
      !IsBlank(Documents(buf)[k])
  {
    var docs := Documents(buf);
    forall k | 0 <= k < |docs| ensures !IsBlank(docs[k]) {
      TrimSpaceEmpty(docs[k]);
    }
  }

  /** The documents are the non-blank pieces, and joining all pieces gives back the input. */
  lemma SplitYAMLPieces(buf: string, d: string)
    ensures d in Documents(buf) <==> d in Split(buf, DocSeparator) && !IsBlank(d)
    ensures Join(Split(buf, DocSeparator), DocSeparator) == buf
  {
    Sequences.FilterMembership(Split(buf, DocSeparator), HasContent, d);
    TrimSpaceEmpty(d);
    JoinSplit(buf, DocSeparator);
  }

  /** Input without a separator is one document when it is not blank, and none when it is. */
  lemma SplitYAMLSingle(buf: string)
    requires !Contains(buf, DocSeparator)
    ensures Documents(buf) == if IsBlank(buf) then [] else [buf]
  {
    FoundIsContained(buf, DocSeparator);
    assert Split(buf, DocSeparator) == [buf];
    assert Documents(buf) == Sequences.Filter([buf], HasContent);
    Sequences.FilterSnoc([], buf, HasContent);
    assert [] + [buf] == [buf];
    TrimSpaceEmpty(buf);
  }

  /** Go's `(start, end int, err error)` result of `ParseRange`. */
  datatype Range = Range(start: int, end: int, err: Option<string>)

  const FormatError: string := "invalid range format. Please use the format start:end"
  const IntegerError: string := "invalid range. Both start and end should be integers"

  /** `ParseRange`: `start:end` into two integers; on failure `(0, 0)` and one of two messages. */
  function ParseRange(arg: string): (r: Range)
    ensures r.err.Some? ==> r.start == 0 && r.end == 0
    ensures r.err.None? || r.err == Some(FormatError) || r.err == Some(IntegerError)
    ensures r.err.None? ==> MinInt64 <= r.start <= MaxInt64 && MinInt64 <= r.end <= MaxInt64
  {
    var parts := Split(arg, ":");
    if |parts| != 2 then Range(0, 0, Some(FormatError))
    else
      var start := Atoi(parts[0]);
      var end := Atoi(parts[1]);
      if start.None? || end.None? then Range(0, 0, Some(IntegerError))
      else Range(start.value, end.value, None)
  }

  /** The text before and after the first colon of `arg`. */
  function Before(arg: string): string {
    var i := IndexFrom(arg, ":", 0);
    if i < 0 then arg else arg[..i]
  }

  function After(arg: string): string {
    var i := IndexFrom(arg, ":", 0);
    if i < 0 then "" else arg[i + 1..]
  }

  /** With exactly one colon, the two pieces are the text before and after it. */
  lemma ColonPieces(arg: string)
    requires CountChar(arg, ':') == 1
    ensures Split(arg, ":") == [Before(arg), After(arg)]
  {
    SplitCharCount(arg, ':');
    var i := IndexFrom(arg, ":", 0);
    var tail := Split(arg[i + 1..], ":");
    assert Split(arg, ":") == [arg[..i]] + tail;
    assert |tail| == 1;
    JoinSplit(arg[i + 1..], ":");
  }

  /** `ParseRange` succeeds exactly when the input has one colon and both sides parse as integers;
      the format message is for a wrong number of colons. */
  lemma ParseRangeAccepts(arg: string)
    ensures ParseRange(arg).err == Some(FormatError) <==> CountChar(arg, ':') != 1
    ensures ParseRange(arg).err.None? <==>
      CountChar(arg, ':') == 1 && Atoi(Before(arg)).Some? && Atoi(After(arg)).Some?
    ensures ParseRange(arg).err.None? ==>
      ParseRange(arg).start == Atoi(Before(arg)).value && ParseRange(arg).end == Atoi(After(arg)).value
  {
    SplitCharCount(arg, ':');
    assert FormatError != IntegerError;
    if CountChar(arg, ':') == 1 {
      ColonPieces(arg);
    }
  }

  /** Round trip: the range printed as `start:end` parses back to the same two integers. */
  lemma ParseRangeRoundTrip(a: int, b: int)
    requires MinInt64 <= a <= MaxInt64 && MinInt64 <= b <= MaxInt64
    ensures ParseRange(Itoa(a) + ":" + Itoa(b)) == Range(a, b, None)
  {
    if ':' in Itoa(a) { ItoaChars(a, ':'); }
    if ':' in Itoa(b) { ItoaChars(b, ':'); }
    SplitCharAround(Itoa(a), ':', Itoa(b));
    assert Itoa(a) + ":" + Itoa(b) == Itoa(a) + [':'] + Itoa(b);
    AtoiItoa(a);
    AtoiItoa(b);
  }

  /** No order is required between the two ends: `5:1` is accepted as it is. */
  lemma ParseRangeUnordered()
    ensures ParseRange("5:1") == Range(5, 1, None)
  {
    ParseRangeRoundTrip(5, 1);
    assert Itoa(5) == "5" && Itoa(1) == "1";
    assert "5:1" == Itoa(5) + ":" + Itoa(1);
  }

  /** A `bufio.Reader` over the remaining input; `endErr` is the error it reports once the
      input runs out before a newline (`io.EOF`, or the underlying read error). */
  class Reader {
    var buffered: string
    const endErr: string

    constructor (input: string, endErr: string)
      ensures buffered == input && this.endErr == endErr
    {
      buffered := input;
      this.endErr := endErr;
    }

    /** `ReadString('\n')`: the next line with its newline, or the rest of the input and the error. */
    method ReadString() returns (line: string, err: Option<string>)
      modifies this
      ensures var i := IndexFrom(old(buffered), "\n", 0);
        if i < 0 then line == old(buffered) && err == Some(endErr) && buffered == ""
        else line == old(buffered)[..i + 1] && err.None? && buffered == old(buffered)[i + 1..]
    {
      var i := IndexFrom(buffered, "\n", 0);
      if i < 0 {
        line, err := buffered, Some(endErr);
        buffered := "";
      } else {
        line, err := buffered[..i + 1], None;
        buffered := buffered[i + 1..];
      }
    }
  }

  /** The answers `YesOrNo` accepts, after trimming and lower-casing. */
  predicate IsAnswer(a: string) {
    a == "y" || a == "yes" || a == "" || a == "n" || a == "no"
  }

  function Normalize(line: string): string {
    ToLower(TrimSpace(line))
  }

  /** The outcome of a `YesOrNo` call and the input it leaves unread. */
  datatype Asked = Asked(answer: string, err: Option<string>, rest: string)

  /** `YesOrNo` on a given input: skip invalid lines until a valid one, or stop at the first read error. */
  function Ask(input: string, endErr: string): (r: Asked)
    ensures r.err.None? ==> IsAnswer(r.answer)
    ensures r.err.Some? ==> r.answer == "" && r.err == Some(endErr) && r.rest == ""
    ensures |r.rest| < |input| || r.rest == ""
    decreases |input|
  {
    var i := IndexFrom(input, "\n", 0);
    if i < 0 then Asked("", Some(endErr), "")
    else
      var answer := Normalize(input[..i + 1]);
      if IsAnswer(answer) then Asked(answer, None, input[i + 1..])
      else Ask(input[i + 1..], endErr)
  }

  /** `YesOrNo`: read lines until one normalises to a valid answer. */
  method YesOrNo(reader: Reader) returns (answer: string, err: Option<string>)
    modifies reader
    ensures Ask(old(reader.buffered), reader.endErr) == Asked(answer, err, reader.buffered)
  {
    while true
      invariant Ask(old(reader.buffered), reader.endErr) == Ask(reader.buffered, reader.endErr)
      decreases |reader.buffered|
    {
      var line, readErr := reader.ReadString();
      if readErr.Some? {
        return "", readErr;
      }
      answer := ToLower(TrimSpace(line));
      if IsAnswer(answer) {
        return answer, None;
      }
    }
  }

  /** Surrounding spaces and the newline are trimmed and the case folded. */
  lemma NormalizeYes()
    ensures Normalize(" Yes \n") == "yes"
  {
    TrimYes();
    LowerYes();
  }

  lemma TrimYes()
    ensures TrimSpace(" Yes \n") == "Yes"
  {
    assert " Yes \n" == " " + "Yes" + " \n";
    TrimSpaceAround(" ", "Yes", " \n");
  }

  lemma LowerYes()
    ensures ToLower("Yes") == "yes"
  {
    var lower := ToLower("Yes");
    assert lower == [lower[0], lower[1], lower[2]];
  }

  lemma NormalizeMaybe()
    ensures !IsAnswer(Normalize("maybe\n"))
  {
    assert "maybe\n" == "" + "maybe" + "\n";
    TrimSpaceAround("", "maybe", "\n");
  }

  /** `YesOrNo` consumes one line at a time: the first line decides, or is skipped. */
  lemma AskFirstLine(line: string, rest: string, endErr: string)
    requires |line| > 0 && line[|line| - 1] == '\n' && '\n' !in line[..|line| - 1]
    ensures Ask(line + rest, endErr) ==
      if IsAnswer(Normalize(line)) then Asked(Normalize(line), None, rest) else Ask(rest, endErr)
  {
    var input := line + rest;
    var i := |line| - 1;
    assert input[..i] == line[..i];
    IndexOfChar(input, '\n', i);
    assert input[..i + 1] == line && input[i + 1..] == rest;
  }

  /** An invalid line is skipped and the valid line after it is taken, with the input after it left unread. */
  lemma AskSkipsThenTakes(bad: string, good: string, rest: string, endErr: string)
    requires |bad| > 0 && bad[|bad| - 1] == '\n' && '\n' !in bad[..|bad| - 1]
    requires |good| > 0 && good[|good| - 1] == '\n' && '\n' !in good[..|good| - 1]
    requires !IsAnswer(Normalize(bad)) && IsAnswer(Normalize(good))
    ensures Ask(bad + (good + rest), endErr) == Asked(Normalize(good), None, rest)
  {
    AskFirstLine(bad, good + rest, endErr);
    AskFirstLine(good, rest, endErr);
  }

  /** Input that ends before a newline reports the reader's error, even if it holds a valid answer. */
  lemma AskUnterminated(input: string, endErr: string)
    requires '\n' !in input
    ensures Ask(input, endErr) == Asked("", Some(endErr), "")
  {
    IndexOfFound(input, '\n');
  }
}
