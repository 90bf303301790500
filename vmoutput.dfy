/** The test runner's output check (`VMOutputValidator`): the parser keeps
    the lines of the virtual machine's output that hold a `>` and takes the
    text after the first one on each, and the validator compares those
    lines, one by one, with the expected results. */
module VmOutput {
  import opened PyStr

  // ---------------------------------------------------------------------
  // _parse_vm_output
  // ---------------------------------------------------------------------

  /** `line.split(ch, 1)[1]`: the text after the first `ch` of `line`. */
  function AfterFirst(line: string, ch: char): (r: string)
    requires ch in line
    ensures |r| < |line|
    ensures line[|line| - |r| - 1] == ch
    ensures ch !in line[..|line| - |r| - 1]
    ensures r == line[|line| - |r|..]
  {
    if line[0] == ch then line[1..]
    else
      assert ch in line[1..] by {
        var i :| 0 <= i < |line| && line[i] == ch;
        assert line[1..][i - 1] == ch;
      }
      var r := AfterFirst(line[1..], ch);
      assert line[..|line| - |r| - 1] == [line[0]] + line[1..][..|line| - 1 - |r| - 1];
      r
  }

  /** Splitting once at the first `ch` gives what splitting everywhere and
      joining all pieces but the first back together gives. */
  lemma AfterFirstIsSplitTail(line: string, ch: char)
    requires ch in line
    ensures AfterFirst(line, ch) == Join(Split(line, ch)[1..], [ch])
  {
    var r := AfterFirst(line, ch);
    var a := line[..|line| - |r| - 1];
    assert line == a + [ch] + r;
    SplitAppend(a, r, ch);
    SplitNoSeparator(a, ch);
    assert Split(line, ch)[1..] == Split(r, ch);
    JoinSplit(r, ch);
  }

  /** What a marked line contributes: the text after its first `>`, with
      the spaces that follow the marker removed. */
  function Payload(line: string): (r: string)
    requires '>' in line
    ensures r == [] || r[0] != ' '
    ensures |r| < |line|
  {
    LStripSpaces(AfterFirst(line, '>'))
  }

  /** The payloads of the marked lines of `lines`, in order; unmarked lines
      are dropped. */
  function KeptLines(lines: seq<string>): (r: seq<string>)
    ensures |r| <= |lines|
  {
    if lines == [] then []
    else
      var last := lines[|lines| - 1];
      KeptLines(lines[..|lines| - 1]) + (if '>' in last then [Payload(last)] else [])
  }

  /** The value `_parse_vm_output` returns. */
  function ParsedText(vmOutput: string): string
  {
    Join(KeptLines(Split(Strip(vmOutput), '\n')), "\n")
  }

  /** `_parse_vm_output(vm_output)`. */
  method ParseVmOutput(vmOutput: string) returns (parsed: string)
    ensures parsed == ParsedText(vmOutput)
  {
    var lines := Split(Strip(vmOutput), '\n');
    var resultLines: seq<string> := [];
    for i := 0 to |lines|
      invariant resultLines == KeptLines(lines[..i])
    {
      var line := lines[i];
      KeptLinesStep(lines, i);
      if '>' in line {
        resultLines := resultLines + [Payload(line)];
      }
    }
    assert lines[..|lines|] == lines;
    parsed := Join(resultLines, "\n");
  }

  lemma KeptLinesStep(lines: seq<string>, i: nat)
    requires i < |lines|
    ensures KeptLines(lines[..i + 1])
         == KeptLines(lines[..i]) + (if '>' in lines[i] then [Payload(lines[i])] else [])
  {
    assert lines[..i + 1][..i] == lines[..i];
  }

  /** The kept lines of two blocks of lines are those of each, in order. */
  lemma {:induction false} KeptLinesAppend(a: seq<string>, b: seq<string>)
    ensures KeptLines(a + b) == KeptLines(a) + KeptLines(b)
    decreases |b|
  {
    if b != [] {
      var last := b[|b| - 1];
      assert (a + b)[..|a + b| - 1] == a + b[..|b| - 1];
      KeptLinesAppend(a, b[..|b| - 1]);
    } else {
      assert a + b == a;
    }
  }

  /** A single line is kept as its payload exactly when it holds a marker. */
  lemma KeptLinesOne(line: string)
    ensures '>' in line ==> KeptLines([line]) == [Payload(line)]
    ensures '>' !in line ==> KeptLines([line]) == []
  {
    assert [line][..0] == [];
  }

  /** Kept lines hold the payloads of marked lines only: with no marker in
      the output there is nothing to keep. */
  lemma {:induction false} NoMarkerKeepsNothing(lines: seq<string>)
    requires forall i :: 0 <= i < |lines| ==> '>' !in lines[i]
    ensures KeptLines(lines) == []
  {
    if lines != [] {
      NoMarkerKeepsNothing(lines[..|lines| - 1]);
    }
  }

  /** A kept line as `validate` can compare it: one line, not starting
      with a space. */
  predicate CleanPayload(p: string)
  {
    '\n' !in p && (p == [] || p[0] != ' ')
  }

  lemma PayloadClean(line: string)
    requires '>' in line && '\n' !in line
    ensures CleanPayload(Payload(line))
  {
    var p := Payload(line);
    forall k | 0 <= k < |p| ensures p[k] != '\n' {
      assert p[k] == line[|line| - |p| + k];
    }
  }

  /** Every kept line is a payload without line breaks: it comes from one
      line of the split output and does not start with a space. */
  lemma {:induction false} KeptLinesShape(lines: seq<string>)
    requires forall i :: 0 <= i < |lines| ==> '\n' !in lines[i]
    ensures forall j :: 0 <= j < |KeptLines(lines)| ==> CleanPayload(KeptLines(lines)[j])
  {
    if lines != [] {
      var init := lines[..|lines| - 1];
      var last := lines[|lines| - 1];
      KeptLinesShape(init);
      var tail := if '>' in last then [Payload(last)] else [];
      if '>' in last {
        PayloadClean(last);
      }
      assert KeptLines(lines) == KeptLines(init) + tail;
    }
  }

  /** Splitting the parsed text at newlines gives back the kept lines,
      unless none were kept: then the text is empty and reads as one empty
      line. */
  lemma ParsedLines(vmOutput: string)
    ensures var kept := KeptLines(Split(Strip(vmOutput), '\n'));
      (kept == [] ==> ParsedText(vmOutput) == "" && Split(ParsedText(vmOutput), '\n') == [""])
      && (kept != [] ==> Split(ParsedText(vmOutput), '\n') == kept)
  {
    var lines := Split(Strip(vmOutput), '\n');
    var kept := KeptLines(lines);
    forall i | 0 <= i < |lines| ensures '\n' !in lines[i] {
      assert lines[i] in lines;
    }
    KeptLinesShape(lines);
    if kept != [] {
      forall p | p in kept ensures '\n' !in p {
        var j :| 0 <= j < |kept| && kept[j] == p;
        assert CleanPayload(kept[j]);
      }
      SplitJoin(kept, '\n');
    }
  }

  // ---------------------------------------------------------------------
  // validate
  // ---------------------------------------------------------------------

  /** The outcome of `validate`: success, or the assertion that fails with
      the counts or the 1-based line and both texts its message reports. */
  datatype Verdict =
    | Passed
    | LineCountDiffers(gotCount: nat, wantCount: nat)
    | LineDiffers(line: nat, got: string, want: string)

  /** The two assertions of `validate` over the split lines: first the
      line counts, then each pair of lines in order. */
  method CompareLines(parsedLines: seq<string>, expectedLines: seq<string>) returns (v: Verdict)
    ensures v == Passed <==> parsedLines == expectedLines
    ensures v.LineCountDiffers? <==> |parsedLines| != |expectedLines|
    ensures v.LineCountDiffers? ==> v.gotCount == |parsedLines| && v.wantCount == |expectedLines|
    ensures v.LineDiffers? ==>
      1 <= v.line <= |parsedLines| == |expectedLines|
      && parsedLines[..v.line - 1] == expectedLines[..v.line - 1]
      && v.got == parsedLines[v.line - 1] && v.want == expectedLines[v.line - 1] && v.got != v.want
  {
    if |parsedLines| != |expectedLines| {
      return LineCountDiffers(|parsedLines|, |expectedLines|);
    }
    var i := 0;
    while i < |parsedLines|
      invariant 0 <= i <= |parsedLines|
      invariant parsedLines[..i] == expectedLines[..i]
    {
      if parsedLines[i] != expectedLines[i] {
        return LineDiffers(i + 1, parsedLines[i], expectedLines[i]);
      }
      assert parsedLines[..i + 1] == parsedLines[..i] + [parsedLines[i]];
      assert expectedLines[..i + 1] == expectedLines[..i] + [expectedLines[i]];
      i := i + 1;
    }
    assert parsedLines == parsedLines[..i] && expectedLines == expectedLines[..i];
    return Passed;
  }

  /** `validate(vm_output, expected_result_file)`, where `expected` is the
      content of the expected-result file. */
  method Validate(vmOutput: string, expected: string) returns (v: Verdict)
    ensures v == Passed <==> ParsedText(vmOutput) == Strip(expected)
    ensures var ps, es := Split(ParsedText(vmOutput), '\n'), Split(Strip(expected), '\n');
      (v.LineCountDiffers? <==> |ps| != |es|)
      && (v.LineCountDiffers? ==> v.gotCount == |ps| && v.wantCount == |es|)
      && (v.LineDiffers? ==>
            1 <= v.line <= |ps| && ps[..v.line - 1] == es[..v.line - 1]
            && v.got == ps[v.line - 1] && v.want == es[v.line - 1] && v.got != v.want)
  {
    var parsedOutput := ParseVmOutput(vmOutput);
    var expectedOutput := Strip(expected);
    v := CompareLines(Split(parsedOutput, '\n'), Split(expectedOutput, '\n'));
    if v == Passed {
      SplitInjective(parsedOutput, expectedOutput, '\n');
    }
  }
}
