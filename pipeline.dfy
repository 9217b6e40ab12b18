/** How `connect` wires the pieces together: decoded serial text goes through
    the `LineBreakTransformer`, and `readLoop` reads the lines it enqueues. */
module Pipeline {
  import opened Strings
  import opened LineFraming
  import opened Telemetry

  /** The results `reader.read()` gives for lines already enqueued and not
      yet followed by the end of the stream. */
  function Pending(lines: seq<string>): (results: seq<ReadResult>)
    ensures |results| == |lines|
    ensures forall i :: 0 <= i < |lines| ==> results[i] == ReadResult(Some(lines[i]), false)
  {
    if lines == [] then [] else [ReadResult(Some(lines[0]), false)] + Pending(lines[1..])
  }

  /** Two chunks whose text is two newline-terminated lines, however the
      text is divided between them: the transformer emits the two lines and
      keeps an empty container. */
  lemma {:induction false} TwoChunkFraming(c1: string, c2: string, l1: string, l2: string)
    requires NL !in l1 && NL !in l2
    requires c1 + c2 == l1 + [NL] + l2 + [NL]
    ensures FeedChunks("", [c1, c2]) == Framed([l1, l2], "")
  {
    var chunks := [c1, c2];
    var lines := [l1, l2];
    ChunkBoundaryIndependence("", chunks);
    assert chunks[1..] == [c2] && chunks[1..][1..] == [];
    assert lines[1..] == [l2] && lines[1..][1..] == [];
    assert Flatten(chunks[1..]) == c2 + "";
    assert Flatten(chunks) == c1 + c2;
    assert Terminated(lines[1..], NL) == l2 + [NL] + "";
    assert Terminated(lines, NL) == l1 + [NL] + (l2 + [NL]);
    assert "" + Flatten(chunks) == Terminated(lines, NL) + "";
    FrameOfTerminated(lines, "");
  }

  /** An example stream of two chunks, `"0.1 0.2 "` and `"0.3\n0.4 0.5 0.6\n"`:
      the transformer emits its two lines. */
  lemma ExampleFraming(c1: string, c2: string)
    requires c1 == "0.1 0.2 " && c2 == "0.3\n0.4 0.5 0.6\n"
    ensures FeedChunks("", [c1, c2]) == Framed(["0.1 0.2 0.3", "0.4 0.5 0.6"], "")
  {
    TwoChunkFraming(c1, c2, "0.1 0.2 0.3", "0.4 0.5 0.6");
  }

  /** A decimal numeral as the sensor prints it: digits and points. */
  predicate Numeral(t: string)
  {
    t != "" && forall ch <- t :: '0' <= ch <= '9' || ch == '.'
  }

  /** No numeral holds whitespace. */
  lemma NumeralHasNoSpace(t: string)
    requires Numeral(t)
    ensures t != "" && forall ch <- t :: !IsSpace(ch)
  {
    forall ch <- t ensures !IsSpace(ch) {
      assert ch !in SpaceChars;
    }
  }

  lemma JoinThree(a: string, b: string, c: string)
    ensures Join([a, b, c], ' ') == a + " " + b + " " + c
  {
    var numbers := [a, b, c];
    var init := numbers[..2];
    assert init[1..] == [b] && init[1..][1..] == [];
    assert Terminated(init[1..], ' ') == b + [' '] + "";
    assert Terminated(init, ' ') == a + [' '] + (b + [' ']);
  }

  /** A line of three numerals separated by single spaces sets the
      orientation to those three numbers. */
  lemma ThreeNumbers(a: string, b: string, c: string)
    requires Numeral(a) && Numeral(b) && Numeral(c)
    ensures Parse(a + " " + b + " " + c) == [Plus(a), Plus(b), Plus(c)]
  {
    NumeralHasNoSpace(a);
    NumeralHasNoSpace(b);
    NumeralHasNoSpace(c);
    var line := a + " " + b + " " + c;
    JoinThree(a, b, c);
    assert "" + Join([a, b, c], ' ') + "" == line;
    TokensOfPaddedLine("", [a, b, c], "");
    NumbersOfThree(a, b, c);
  }

  lemma NumbersOfThree(a: string, b: string, c: string)
    ensures Numbers([a, b, c]) == [Plus(a), Plus(b), Plus(c)]
  {
    var r := Numbers([a, b, c]);
    assert |r| == 3 && r[0] == Plus(a) && r[1] == Plus(b) && r[2] == Plus(c);
  }

  /** The numbers of the first line of that stream. */
  lemma FirstSample(line: string)
    requires line == "0.1 0.2 0.3"
    ensures Parse(line) == [Plus("0.1"), Plus("0.2"), Plus("0.3")]
  {
    ThreeNumbers("0.1", "0.2", "0.3");
    assert line == "0.1" + " " + "0.2" + " " + "0.3";
  }

  /** The numbers of the second line of that stream. */
  lemma ExampleSample(line: string)
    requires line == "0.4 0.5 0.6"
    ensures Parse(line) == [Plus("0.4"), Plus("0.5"), Plus("0.6")]
  {
    ThreeNumbers("0.4", "0.5", "0.6");
    assert line == "0.4" + " " + "0.5" + " " + "0.6";
  }

  /** Two non-empty lines read in turn: after the first the orientation holds
      its numbers, after the second those of the second. */
  lemma ReadTwoLines(orientation: seq<Num>, l1: string, l2: string)
    requires l1 != "" && l2 != ""
    ensures |Pending([l1, l2])| == 2
    ensures Replay(orientation, Pending([l1, l2])[..1]) == Parse(l1)
    ensures Replay(orientation, Pending([l1, l2])) == Parse(l2)
  {
    var results := Pending([l1, l2]);
    assert results[0] == ReadResult(Some(l1), false) && results[1] == ReadResult(Some(l2), false);
    LastLineWins(orientation, results[..1], 0);
    LastLineWins(orientation, results, 1);
  }

  /** Reading the lines the transformer emits for that stream: the
      first line sets the orientation to its numbers, and the second one
      replaces them with its own. */
  lemma ExampleReading(c1: string, c2: string)
    requires c1 == "0.1 0.2 " && c2 == "0.3\n0.4 0.5 0.6\n"
    ensures |Pending(FeedChunks("", [c1, c2]).lines)| == 2
    ensures Replay(InitialOrientation, Pending(FeedChunks("", [c1, c2]).lines)[..1]) == [Plus("0.1"), Plus("0.2"), Plus("0.3")]
    ensures Replay(InitialOrientation, Pending(FeedChunks("", [c1, c2]).lines)) == [Plus("0.4"), Plus("0.5"), Plus("0.6")]
  {
    var l1, l2 := "0.1 0.2 0.3", "0.4 0.5 0.6";
    ExampleFraming(c1, c2);
    ReadTwoLines(InitialOrientation, l1, l2);
    FirstSample(l1);
    ExampleSample(l2);
  }
}
