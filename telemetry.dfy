/** The page state the telemetry lines drive: the current orientation vector,
    which the read loop replaces with the numbers of each non-empty line, and
    (on the quaternion page) the calibration reference `wZ, xZ, yZ, zZ` that
    `calibrate` copies from it. */
module Telemetry {
  import opened Strings

  datatype Option<T> = None | Some(value: T)

  /** A component of an orientation vector. `Const(n)` is a literal of the
      script, `Plus(t)` the number JavaScript's `+t` makes of the token `t`
      (left uninterpreted: it may be NaN), and `Undefined` what an array
      index past the end yields. */
  datatype Num = Const(n: int) | Plus(token: string) | Undefined

  /** One result of `reader.read()`: a line, or `undefined` (`None`), and
      whether the stream has ended. */
  datatype ReadResult = ReadResult(value: Option<string>, done: bool)

  /** The orientation before any line arrives: `[0, 0, 0]`. */
  const InitialOrientation: seq<Num> := [Const(0), Const(0), Const(0)]

  /** `if (value)`: a string is truthy unless it is empty; `undefined` is
      falsy. */
  predicate Truthy(value: Option<string>): (b: bool)
    ensures b <==> value.Some? && |value.value| > 0
  {
    value.Some? && value.value != ""
  }

  /** `line.trim().split(" ")`: the space-free tokens which, joined by single
      spaces, give back the trimmed line. Consecutive spaces give empty
      tokens, and a line of whitespace gives the single token "". */
  function Tokens(line: string): (tokens: seq<string>)
    ensures |tokens| >= 1
    ensures forall t <- tokens :: ' ' !in t
    ensures Join(tokens, ' ') == Trim(line)
  {
    JoinSplit(Trim(line), ' ');
    Split(Trim(line), ' ')
  }

  /** A line of whitespace-free numbers separated by single spaces, with any
      whitespace around it (a trailing carriage return, say), tokenises to
      exactly those numbers. */
  lemma TokensOfPaddedLine(before: string, numbers: seq<string>, after: string)
    requires AllSpace(before) && AllSpace(after)
    requires |numbers| >= 1
    requires forall t <- numbers :: t != "" && forall c <- t :: !IsSpace(c)
    ensures Tokens(before + Join(numbers, ' ') + after) == numbers
  {
    var n := |numbers|;
    var text := Join(numbers, ' ');
    assert numbers[n - 1] in numbers;
    assert text[|text| - 1] == numbers[n - 1][|numbers[n - 1]| - 1];
    if n > 1 {
      assert numbers[..n - 1][0] == numbers[0] && numbers[0] in numbers;
      assert text[0] == numbers[0][0];
    }
    TrimPadded(before, text, after);
    assert forall t <- numbers :: ' ' !in t by {
      forall t <- numbers ensures ' ' !in t {
        assert forall c <- t :: !IsSpace(c);
      }
    }
    SplitJoin(numbers, ' ');
  }

  /** `.map(x => +x)`: each token as the number it converts to. */
  function Numbers(tokens: seq<string>): (r: seq<Num>)
    ensures |r| == |tokens|
    ensures forall i :: 0 <= i < |tokens| ==> r[i] == Plus(tokens[i])
  {
    if tokens == [] then [] else [Plus(tokens[0])] + Numbers(tokens[1..])
  }

  /** The orientation a non-empty line sets: one component per token, in
      order, and never an empty vector. */
  function Parse(line: string): (r: seq<Num>)
    ensures |r| == |Tokens(line)| && |r| >= 1
    ensures forall i :: 0 <= i < |r| ==> r[i] == Plus(Tokens(line)[i])
  {
    Numbers(Tokens(line))
  }

  /** A line sets one component more than its trimmed text holds spaces; so
      `calibrate` reads a defined `zZ` only after a line with at least three
      spaces between its first and last number. */
  lemma ComponentCount(line: string)
    ensures |Parse(line)| == multiset(Trim(line))[' '] + 1
  {
    SplitCount(Trim(line), ' ');
  }

  /** What one pass of the read loop does to the orientation. */
  function Step(orientation: seq<Num>, r: ReadResult): (o: seq<Num>)
    ensures Truthy(r.value) ==> o == Parse(r.value.value)
    ensures !Truthy(r.value) ==> o == orientation
  {
    if Truthy(r.value) then Parse(r.value.value) else orientation
  }

  /** The orientation after the loop has passed over `results` in order.
      Reads that carry no line, or only empty lines, leave it as it was. */
  function Replay(orientation: seq<Num>, results: seq<ReadResult>): (o: seq<Num>)
    ensures (forall r <- results :: !Truthy(r.value)) ==> o == orientation
    decreases |results|
  {
    if results == [] then orientation else Replay(Step(orientation, results[0]), results[1..])
  }

  lemma {:induction false} ReplaySnoc(orientation: seq<Num>, results: seq<ReadResult>, r: ReadResult)
    ensures Replay(orientation, results + [r]) == Step(Replay(orientation, results), r)
    decreases |results|
  {
    if results == [] {
      assert [] + [r] == [r];
      assert [r][1..] == [];
    } else {
      assert (results + [r])[1..] == results[1..] + [r];
      ReplaySnoc(Step(orientation, results[0]), results[1..], r);
    }
  }

  /** Replaying one more result of a sequence is one more step. */
  lemma ReplayPrefix(orientation: seq<Num>, results: seq<ReadResult>, i: nat)
    requires i < |results|
    ensures Replay(orientation, results[..i + 1]) == Step(Replay(orientation, results[..i]), results[i])
  {
    assert results[..i + 1] == results[..i] + [results[i]];
    ReplaySnoc(orientation, results[..i], results[i]);
  }

  /** The last non-empty line wins: after the loop, the orientation holds the
      numbers of the last read carrying a non-empty line. */
  lemma {:induction false} LastLineWins(orientation: seq<Num>, results: seq<ReadResult>, k: nat)
    requires k < |results| && Truthy(results[k].value)
    requires forall j :: k < j < |results| ==> !Truthy(results[j].value)
    ensures Replay(orientation, results) == Parse(results[k].value.value)
    decreases |results|
  {
    if k == 0 {
      forall r <- results[1..] ensures !Truthy(r.value) {
        var j :| 0 <= j < |results[1..]| && results[1..][j] == r;
        assert results[j + 1] == r;
      }
    } else {
      LastLineWins(Step(orientation, results[0]), results[1..], k - 1);
    }
  }

  /** How many results the loop takes: up to and including the first one that
      reports `done`, or all of them when none does (the loop is then still
      waiting for the next read). */
  function FirstDone(results: seq<ReadResult>): (n: nat)
    ensures n <= |results|
    ensures forall k :: 0 <= k < n - 1 ==> !results[k].done
    ensures (0 < n && results[n - 1].done) || (n == |results| && forall k :: 0 <= k < n ==> !results[k].done)
    decreases |results|
  {
    if results == [] then 0
    else if results[0].done then 1
    else 1 + FirstDone(results[1..])
  }

  /** None of the first `n` results reports `done`. */
  predicate NoneDone(results: seq<ReadResult>, n: nat)
    requires n <= |results|
  {
    forall k :: 0 <= k < n ==> !results[k].done
  }

  lemma NoneDoneExtend(results: seq<ReadResult>, n: nat)
    requires n < |results| && NoneDone(results, n) && !results[n].done
    ensures NoneDone(results, n + 1)
  {
  }

  /** A count with the shape of `FirstDone` is `FirstDone`. */
  lemma {:induction false} FirstDoneUnique(results: seq<ReadResult>, n: nat)
    requires n <= |results|
    requires forall k :: 0 <= k < n - 1 ==> !results[k].done
    requires (0 < n && results[n - 1].done) || (n == |results| && forall k :: 0 <= k < n ==> !results[k].done)
    ensures n == FirstDone(results)
    decreases |results|
  {
    if results != [] {
      if results[0].done {
        assert n == 1;
      } else {
        assert n > 0;
        FirstDoneUnique(results[1..], n - 1);
      }
    }
  }

  /** JavaScript's `a[i]`: the element, or `undefined` past the end. */
  function At(a: seq<Num>, i: nat): (n: Num)
    ensures i < |a| ==> n == a[i]
    ensures i >= |a| ==> n == Undefined
  {
    if i < |a| then a[i] else Undefined
  }

  /** The argument list of `new THREE.Quaternion(x, y, z, w)` for a
      `(w, x, y, z)` quaternion: the real part `w` goes last. */
  function ThreeOrder(w: Num, x: Num, y: Num, z: Num): (q: seq<Num>)
    ensures |q| == 4 && q[0] == x && q[1] == y && q[2] == z && q[3] == w
  {
    [x, y, z, w]
  }

  /** An argument after THREE's default parameter: `undefined` becomes `d`,
      any other value (a NaN included) is kept. */
  function OrDefault(n: Num, d: int): (m: Num)
    ensures m != Undefined
    ensures n != Undefined ==> m == n
    ensures n == Undefined ==> m == Const(d)
  {
    if n == Undefined then Const(d) else n
  }

  /** The components of the quaternion `new THREE.Quaternion(...)` builds
      from the argument list `args`: the defaults are 0 for x, y and z and 1
      for w, so no component is `undefined`, and an argument list with no
      `undefined` in it is kept as it is. */
  function NewQuaternion(args: seq<Num>): (q: seq<Num>)
    requires |args| == 4
    ensures |q| == 4
    ensures forall i :: 0 <= i < 4 ==> q[i] != Undefined
    ensures forall i :: 0 <= i < 4 && args[i] != Undefined ==> q[i] == args[i]
    ensures forall i :: 0 <= i < 3 && args[i] == Undefined ==> q[i] == Const(0)
    ensures args[3] == Undefined ==> q[3] == Const(1)
  {
    [OrDefault(args[0], 0), OrDefault(args[1], 0), OrDefault(args[2], 0), OrDefault(args[3], 1)]
  }

  /** `rawQ` of the animation loop: orientation components 1, 2 and 3 as x, y
      and z and component 0 as w, a missing one replaced by its default. */
  function RawQuaternion(orientation: seq<Num>): (q: seq<Num>)
    ensures |q| == 4
    ensures q[3] == OrDefault(At(orientation, 0), 1)
    ensures forall i :: 0 <= i < 3 ==> q[i] == OrDefault(At(orientation, i + 1), 0)
    ensures (forall i :: 0 <= i < 4 ==> At(orientation, i) != Undefined) ==>
              q == ThreeOrder(orientation[0], orientation[1], orientation[2], orientation[3])
  {
    NewQuaternion(ThreeOrder(At(orientation, 0), At(orientation, 1), At(orientation, 2), At(orientation, 3)))
  }

  /** The default reference `wZ = 0, xZ = 0, yZ = 0, zZ = 1` makes `refQ` the
      quaternion `(0, 0, 1, 0)`: a half turn about z, not the identity
      `(0, 0, 0, 1)`. Before any calibration the view is therefore turned. */
  lemma DefaultReferenceIsNotIdentity()
    ensures NewQuaternion(ThreeOrder(Const(0), Const(0), Const(0), Const(1))) == [Const(0), Const(0), Const(1), Const(0)]
    ensures NewQuaternion(ThreeOrder(Const(0), Const(0), Const(0), Const(1))) != [Const(0), Const(0), Const(0), Const(1)]
  {
  }

  /** Calibrating before the first line arrives captures `undefined` as `zZ`:
      the initial orientation has only three components. THREE's default for
      z then turns the missing component into 0, so both `rawQ` and `refQ`
      are the zero quaternion `(0, 0, 0, 0)`, not a rotation. */
  lemma CalibrateBeforeFirstLine()
    ensures At(InitialOrientation, 3) == Undefined
    ensures RawQuaternion(InitialOrientation) == [Const(0), Const(0), Const(0), Const(0)]
  {
  }

  /** The script's global state. */
  class PageState {
    /** `orientationQ` on the quaternion page, `orientation` on the other. */
    var orientation: seq<Num>
    var wZ: Num
    var xZ: Num
    var yZ: Num
    var zZ: Num

    constructor ()
      ensures orientation == InitialOrientation
      ensures wZ == Const(0) && xZ == Const(0) && yZ == Const(0) && zZ == Const(1)
    {
      orientation := InitialOrientation;
      wZ, xZ, yZ := Const(0), Const(0), Const(0);
      zZ := Const(1);
    }

    /** `readLoop`, given the results `reader.read()` returns: each non-empty
        line replaces the orientation with its numbers, and the loop stops
        after the first result that reports `done`. */
    method ReadLoop(results: seq<ReadResult>) returns (consumed: nat)
      modifies this
      ensures consumed == FirstDone(results)
      ensures orientation == Replay(old(orientation), results[..consumed])
      ensures wZ == old(wZ) && xZ == old(xZ) && yZ == old(yZ) && zZ == old(zZ)
    {
      consumed := 0;
      while consumed < |results|
        invariant consumed <= |results|
        invariant NoneDone(results, consumed)
        invariant orientation == Replay(old(orientation), results[..consumed])
        invariant wZ == old(wZ) && xZ == old(xZ) && yZ == old(yZ) && zZ == old(zZ)
      {
        var r := results[consumed];
        Receive(r);
        ReplayPrefix(old(orientation), results, consumed);
        consumed := consumed + 1;
        if r.done {
          break;
        }
        NoneDoneExtend(results, consumed - 1);
      }
      FirstDoneUnique(results, consumed);
    }

    /** The body of `readLoop`'s loop for one result: a truthy value
        replaces the orientation with its numbers. */
    method Receive(r: ReadResult)
      modifies this
      ensures orientation == Step(old(orientation), r)
      ensures wZ == old(wZ) && xZ == old(xZ) && yZ == old(yZ) && zZ == old(zZ)
    {
      if Truthy(r.value) {
        orientation := Parse(r.value.value);
      }
    }

    /** `calibrate`: copies components 0 to 3 of the orientation into
        `wZ, xZ, yZ, zZ`, so that the reference quaternion `refQ` equals
        the raw quaternion `rawQ` of the current sample; the orientation is
        unchanged. */
    method Calibrate()
      modifies this
      ensures wZ == At(orientation, 0) && xZ == At(orientation, 1)
      ensures yZ == At(orientation, 2) && zZ == At(orientation, 3)
      ensures NewQuaternion(ThreeOrder(wZ, xZ, yZ, zZ)) == RawQuaternion(orientation)
      ensures orientation == old(orientation)
    {
      wZ := At(orientation, 0);
      xZ := At(orientation, 1);
      yZ := At(orientation, 2);
      zZ := At(orientation, 3);
    }
  }
}
