/** The two JavaScript string operations the telemetry pipeline relies on,
    over `string` (a sequence of characters): `split` on a one-character
    separator and `trim`. Both pages call them the same way. */
module Strings {

  /** `s.split(sep)` for a one-character separator: the separator-free pieces
      between successive occurrences of `sep`, in order. There is always at
      least one piece; the empty string splits into one empty piece. */
  function Split(s: string, sep: char): (pieces: seq<string>)
    ensures |pieces| >= 1
    ensures forall p <- pieces :: sep !in p
    decreases |s|
  {
    if s == [] then [""]
    else
      var rest := Split(s[1..], sep);
      if s[0] == sep then [""] + rest
      else [[s[0]] + rest[0]] + rest[1..]
  }

  /** Every piece followed by `sep`, concatenated. */
  function Terminated(pieces: seq<string>, sep: char): string
  {
    if pieces == [] then "" else pieces[0] + [sep] + Terminated(pieces[1..], sep)
  }

  /** `pieces.join(sep)`: the pieces with one `sep` between neighbours. */
  function Join(pieces: seq<string>, sep: char): string
    requires |pieces| >= 1
  {
    Terminated(pieces[..|pieces| - 1], sep) + pieces[|pieces| - 1]
  }

  lemma {:induction false} TerminatedAppend(a: seq<string>, b: seq<string>, sep: char)
    ensures Terminated(a + b, sep) == Terminated(a, sep) + Terminated(b, sep)
  {
    if a == [] {
      assert a + b == b;
    } else {
      assert (a + b)[1..] == a[1..] + b;
      TerminatedAppend(a[1..], b, sep);
    }
  }

  /** A non-empty run of terminated pieces ends with the separator. */
  lemma {:induction false} TerminatedEndsWithSep(pieces: seq<string>, sep: char)
    requires pieces != []
    ensures |Terminated(pieces, sep)| > 0
    ensures Terminated(pieces, sep)[|Terminated(pieces, sep)| - 1] == sep
  {
    if pieces[1..] != [] {
      TerminatedEndsWithSep(pieces[1..], sep);
    }
  }

  /** Split loses, duplicates and reorders nothing: joining the pieces gives
      the text back. */
  lemma {:induction false} JoinSplit(s: string, sep: char)
    ensures Join(Split(s, sep), sep) == s
    decreases |s|
  {
    if s != [] {
      var rest := Split(s[1..], sep);
      var p := Split(s, sep);
      JoinSplit(s[1..], sep);
      assert s == [s[0]] + s[1..];
      if s[0] == sep {
        assert p[..|p| - 1] == [""] + rest[..|rest| - 1];
        assert ([""] + rest[..|rest| - 1])[1..] == rest[..|rest| - 1];
      } else if |rest| > 1 {
        var init := rest[1..|rest| - 1];
        assert p[..|p| - 1] == [[s[0]] + rest[0]] + init;
        assert ([[s[0]] + rest[0]] + init)[1..] == init;
        assert rest[..|rest| - 1] == [rest[0]] + init;
        assert ([rest[0]] + init)[1..] == init;
      }
    }
  }

  /** A text free of the separator is its own single piece. */
  lemma {:induction false} SplitWithoutSep(s: string, sep: char)
    requires sep !in s
    ensures Split(s, sep) == [s]
    decreases |s|
  {
    if s != [] {
      SplitWithoutSep(s[1..], sep);
      assert s == [s[0]] + s[1..];
    }
  }

  /** A separator-free piece followed by the separator splits off as the
      first piece. */
  lemma {:induction false} SplitAfterPiece(p: string, t: string, sep: char)
    requires sep !in p
    ensures Split(p + [sep] + t, sep) == [p] + Split(t, sep)
    decreases |p|
  {
    var s := p + [sep] + t;
    if p == [] {
      assert s[1..] == t;
    } else {
      assert s[1..] == p[1..] + [sep] + t;
      SplitAfterPiece(p[1..], t, sep);
      assert p == [p[0]] + p[1..];
    }
  }

  /** The other round trip: splitting what `Terminated` built, with a final
      separator-free tail, gives back the pieces and the tail. */
  lemma {:induction false} SplitTerminated(pieces: seq<string>, tail: string, sep: char)
    requires forall p <- pieces :: sep !in p
    requires sep !in tail
    ensures Split(Terminated(pieces, sep) + tail, sep) == pieces + [tail]
  {
    if pieces == [] {
      assert Terminated(pieces, sep) + tail == tail;
      SplitWithoutSep(tail, sep);
    } else {
      var rest := Terminated(pieces[1..], sep) + tail;
      assert Terminated(pieces, sep) + tail == pieces[0] + [sep] + rest;
      SplitAfterPiece(pieces[0], rest, sep);
      SplitTerminated(pieces[1..], tail, sep);
      assert pieces == [pieces[0]] + pieces[1..];
    }
  }

  /** Splitting a join of separator-free pieces gives the pieces back. */
  lemma SplitJoin(pieces: seq<string>, sep: char)
    requires |pieces| >= 1
    requires forall p <- pieces :: sep !in p
    ensures Split(Join(pieces, sep), sep) == pieces
  {
    var n := |pieces|;
    assert forall p <- pieces[..n - 1] :: sep !in p;
    SplitTerminated(pieces[..n - 1], pieces[n - 1], sep);
    assert pieces[..n - 1] + [pieces[n - 1]] == pieces;
  }

  /** There is exactly one more piece than there are separators. */
  lemma {:induction false} SplitCount(s: string, sep: char)
    ensures |Split(s, sep)| == multiset(s)[sep] + 1
    decreases |s|
  {
    if s != [] {
      SplitCount(s[1..], sep);
      assert s == [s[0]] + s[1..];
      assert multiset(s) == multiset([s[0]]) + multiset(s[1..]);
    }
  }

  /** The characters `String.prototype.trim` removes: the ECMAScript
      WhiteSpace code points (tab, vertical tab, form feed, space, no-break
      space, byte order mark and the other space separators) and the
      LineTerminator code points (line feed, carriage return, line and
      paragraph separators). */
  predicate IsSpace(c: char)
  {
    c in SpaceChars || '\U{2000}' <= c <= '\U{200A}'
  }

  const SpaceChars: set<char> := {
    '\t', '\n', '\U{B}', '\U{C}', '\r', ' ', '\U{A0}', '\U{1680}',
    '\U{2028}', '\U{2029}', '\U{202F}', '\U{205F}', '\U{3000}', '\U{FEFF}'
  }

  predicate AllSpace(s: string)
  {
    forall i :: 0 <= i < |s| ==> IsSpace(s[i])
  }

  /** How many whitespace characters `s` starts with. */
  function LeadingSpaces(s: string): (n: nat)
    ensures n <= |s|
    ensures forall i :: 0 <= i < n ==> IsSpace(s[i])
    ensures n < |s| ==> !IsSpace(s[n])
    decreases |s|
  {
    if s == [] || !IsSpace(s[0]) then 0 else 1 + LeadingSpaces(s[1..])
  }

  /** How many whitespace characters `s` ends with. */
  function TrailingSpaces(s: string): (n: nat)
    ensures n <= |s|
    ensures forall i :: |s| - n <= i < |s| ==> IsSpace(s[i])
    ensures n < |s| ==> !IsSpace(s[|s| - n - 1])
    decreases |s|
  {
    if s == [] || !IsSpace(s[|s| - 1]) then 0 else 1 + TrailingSpaces(s[..|s| - 1])
  }

  /** `s.trim()`: the part of `s` between its leading and its trailing
      whitespace. It neither starts nor ends with whitespace, and everything
      of `s` around it is whitespace. */
  function Trim(s: string): (r: string)
    ensures r == [] || (!IsSpace(r[0]) && !IsSpace(r[|r| - 1]))
    ensures LeadingSpaces(s) + |r| <= |s|
    ensures r == s[LeadingSpaces(s)..LeadingSpaces(s) + |r|]
    ensures forall i :: 0 <= i < |s| && !(LeadingSpaces(s) <= i < LeadingSpaces(s) + |r|) ==> IsSpace(s[i])
  {
    var lead := LeadingSpaces(s);
    if lead == |s| then "" else s[lead..|s| - TrailingSpaces(s)]
  }

  /** Whitespace in front adds to the leading count. */
  lemma {:induction false} LeadingAfterSpace(before: string, s: string)
    requires AllSpace(before)
    ensures LeadingSpaces(before + s) == |before| + LeadingSpaces(s)
    decreases |before|
  {
    if before == [] {
      assert before + s == s;
    } else {
      assert (before + s)[0] == before[0];
      assert (before + s)[1..] == before[1..] + s;
      LeadingAfterSpace(before[1..], s);
    }
  }

  /** Whitespace behind adds to the trailing count. */
  lemma {:induction false} TrailingBeforeSpace(s: string, after: string)
    requires AllSpace(after)
    ensures TrailingSpaces(s + after) == TrailingSpaces(s) + |after|
    decreases |after|
  {
    if after == [] {
      assert s + after == s;
    } else {
      var n := |after|;
      assert (s + after)[|s + after| - 1] == after[n - 1];
      assert (s + after)[..|s + after| - 1] == s + after[..n - 1];
      TrailingBeforeSpace(s, after[..n - 1]);
    }
  }

  /** The leading count of a padded text that does not start with
      whitespace is the padding in front. */
  lemma LeadingOfPadded(before: string, text: string, after: string)
    requires AllSpace(before)
    requires text != [] && !IsSpace(text[0])
    ensures LeadingSpaces(before + text + after) == |before|
  {
    assert before + text + after == before + (text + after);
    LeadingAfterSpace(before, text + after);
    assert (text + after)[0] == text[0];
  }

  /** The trailing count of a padded text that does not end with whitespace
      is the padding behind. */
  lemma TrailingOfPadded(before: string, text: string, after: string)
    requires AllSpace(after)
    requires text != [] && !IsSpace(text[|text| - 1])
    ensures TrailingSpaces(before + text + after) == |after|
  {
    TrailingBeforeSpace(before + text, after);
    assert (before + text)[|before + text| - 1] == text[|text| - 1];
  }

  /** Trimming is determined by that shape: whitespace, then a text that
      neither starts nor ends with whitespace, then whitespace, trims to that
      text. */
  lemma TrimPadded(before: string, text: string, after: string)
    requires AllSpace(before) && AllSpace(after)
    requires text == [] || (!IsSpace(text[0]) && !IsSpace(text[|text| - 1]))
    ensures Trim(before + text + after) == text
  {
    var s := before + text + after;
    if text == [] {
      assert s == (before + after) + "";
      LeadingAfterSpace(before + after, "");
    } else {
      LeadingOfPadded(before, text, after);
      TrailingOfPadded(before, text, after);
      assert s[|before|..|s| - |after|] == text;
    }
  }

  /** Trimming twice is trimming once. */
  lemma TrimIdempotent(s: string)
    ensures Trim(Trim(s)) == Trim(s)
  {
    TrimPadded("", Trim(s), "");
    assert "" + Trim(s) + "" == Trim(s);
  }
}
