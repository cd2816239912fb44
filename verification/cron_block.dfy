/**
 * The line state machine of `RemoveCronJob.run` in migration 0.8.0: it reads
 * the crontab line by line and drops the securedrop-workstation block (a
 * BEGIN marker line, the line that runs sdw-notify.py, an END marker line),
 * copying every other line to `clean`.
 *
 * The machine is given three times:
 *  - `Step`, one line's effect on (state, buffer), and `Fold`, the loop over
 *    the lines; `RemoveBlock` adds the end-of-input check and is the code as
 *    written, `RemoveBlockIntended` the same with the end-of-input check
 *    corrected;
 *  - `Expected`, an independent description of the same machine read from
 *    the front of the input, block by block;
 *  - `CleanCrontab`, the loop itself as an imperative method.
 */
module CronBlock {
  import opened Lines

  const BEGIN_MARKER: string := "### BEGIN securedrop-workstation ###"
  const NOTIFY_MARKER: string := "/opt/securedrop/launcher/sdw-notify.py"
  const END_MARKER: string := "### END securedrop-workstation ###"
  const ERROR_MESSAGE: string := "Didn't find the expected sdw-notify block - modified crontab?"

  predicate IsBegin(l: Line) { Contains(l, BEGIN_MARKER) }
  predicate IsNotify(l: Line) { Contains(l, NOTIFY_MARKER) }
  predicate IsEnd(l: Line) { Contains(l, END_MARKER) }

  /** The four states of the scan (SEEKING = 1 ... END = 4 in the source). */
  datatype State = Seeking | Begin | Matched | End

  /** The effect of one line: the next state and buffer and the pieces
      appended to `clean`, or the exception raised inside the loop. */
  datatype Transition = Advance(state: State, buffer: seq<Line>, emitted: seq<Line>) | Raise

  /** One iteration of the `for line in ...` loop. */
  function Step(state: State, buffer: seq<Line>, line: Line): (t: Transition)
    ensures t.Raise? <==> state == Matched && !IsEnd(line)
    ensures t.Advance? ==> t.emitted == [] || t.emitted == [line] || t.emitted == buffer + [line]
    ensures t.Advance? && t.state == Seeking ==> t.buffer == [] || t.buffer == buffer
    ensures state == End ==> t == Advance(End, buffer, [line])
  {
    match state
    case End => Advance(End, buffer, [line])
    case Matched => if IsEnd(line) then Advance(End, buffer, []) else Raise
    case Begin =>
      if IsNotify(line) then Advance(Matched, buffer, [])
      else Advance(Seeking, [], buffer + [line])
    case Seeking =>
      if IsBegin(line) then Advance(Begin, buffer + [line], [])
      else Advance(Seeking, buffer, [line])
  }

  /** The loop's local variables `state`, `buffer` and `clean`. */
  datatype Scanner = Scanner(state: State, buffer: seq<Line>, clean: seq<Line>)

  /** Where the loop stands: still running, or left by the exception. */
  datatype Scan = Running(scanner: Scanner) | Raised

  const Initial: Scanner := Scanner(Seeking, [], [])

  /** One iteration applied to the loop's state. */
  function Feed(r: Scan, line: Line): Scan
  {
    match r
    case Raised => Raised
    case Running(s) =>
      match Step(s.state, s.buffer, line)
      case Raise => Raised
      case Advance(state, buffer, emitted) => Running(Scanner(state, buffer, s.clean + emitted))
  }

  /** The loop over `lines`, started from r. */
  function Fold(r: Scan, lines: seq<Line>): Scan
    decreases |lines|
  {
    if lines == [] then r else Feed(Fold(r, lines[..|lines| - 1]), lines[|lines| - 1])
  }

  /** The loop over all lines of the crontab, from the initial state. */
  function ScanLines(lines: seq<Line>): Scan
  {
    Fold(Running(Initial), lines)
  }

  /** What `run` does: rewrite the crontab with `clean`, or raise. */
  datatype Outcome = Written(clean: seq<Line>) | Failed(message: string)

  /** The end-of-input check as written: finishing in END raises. */
  function Finish(r: Scan): Outcome
  {
    match r
    case Raised => Failed(ERROR_MESSAGE)
    case Running(s) => if s.state == End then Failed(ERROR_MESSAGE) else Written(s.clean)
  }

  /** The end-of-input check as evidently intended: finishing anywhere but
      in END raises. */
  function FinishIntended(r: Scan): Outcome
  {
    match r
    case Raised => Failed(ERROR_MESSAGE)
    case Running(s) => if s.state != End then Failed(ERROR_MESSAGE) else Written(s.clean)
  }

  /** `RemoveCronJob.run` as written, on the crontab's lines. */
  function RemoveBlock(lines: seq<Line>): (o: Outcome)
    ensures o.Written? ==> IsSubsequence(o.clean, lines)
  {
    ScanKeepsOrder(lines);
    Finish(ScanLines(lines))
  }

  /** `RemoveCronJob.run` with the end-of-input check corrected to
      `state != END`. */
  function RemoveBlockIntended(lines: seq<Line>): (o: Outcome)
    ensures o.Written? ==> exists i :: BlockAt(lines, i) && o.clean == lines[..i] + lines[i + 3..]
  {
    ScanMatchesExpected([], lines);
    ExpectedShape(lines);
    FinishIntended(ScanLines(lines))
  }

  /** The three lines of the block start at index i. */
  ghost predicate BlockAt(lines: seq<Line>, i: int)
  {
    0 <= i && i + 3 <= |lines| && IsBegin(lines[i]) && IsNotify(lines[i + 1]) && IsEnd(lines[i + 2])
  }

  // ---------------------------------------------------------------------
  // The fold
  // ---------------------------------------------------------------------

  lemma {:induction false} FoldAppend(r: Scan, a: seq<Line>, b: seq<Line>)
    ensures Fold(r, a + b) == Fold(Fold(r, a), b)
    decreases |b|
  {
    if b == [] {
      assert a + b == a;
    } else {
      assert (a + b)[..|a + b| - 1] == a + b[..|b| - 1];
      FoldAppend(r, a, b[..|b| - 1]);
    }
  }

  lemma FoldCons(r: Scan, x: Line, rest: seq<Line>)
    ensures Fold(r, [x] + rest) == Fold(Feed(r, x), rest)
  {
    FoldAppend(r, [x], rest);
    assert [x][..0] == [];
  }

  lemma FeedSeekingBegin(clean: seq<Line>, b: Line)
    requires IsBegin(b)
    ensures Feed(Running(Scanner(Seeking, [], clean)), b) == Running(Scanner(Begin, [b], clean))
  {
    assert clean + [] == clean;
    assert [] + [b] == [b];
  }

  lemma FeedBeginNotify(buffer: seq<Line>, clean: seq<Line>, n: Line)
    requires IsNotify(n)
    ensures Feed(Running(Scanner(Begin, buffer, clean)), n) == Running(Scanner(Matched, buffer, clean))
  {
    assert clean + [] == clean;
  }

  lemma FeedMatchedEnd(buffer: seq<Line>, clean: seq<Line>, e: Line)
    requires IsEnd(e)
    ensures Feed(Running(Scanner(Matched, buffer, clean)), e) == Running(Scanner(End, buffer, clean))
  {
    assert clean + [] == clean;
  }

  lemma FeedBeginOther(buffer: seq<Line>, clean: seq<Line>, x: Line)
    requires !IsNotify(x)
    ensures Feed(Running(Scanner(Begin, buffer, clean)), x) == Running(Scanner(Seeking, [], clean + (buffer + [x])))
  {
  }

  /** Two lines fed one after the other. */
  lemma FoldPair(r: Scan, x: Line, y: Line, rest: seq<Line>)
    ensures Fold(r, [x, y] + rest) == Fold(Feed(Feed(r, x), y), rest)
  {
    assert [x, y] + rest == [x] + ([y] + rest);
    FoldCons(r, x, [y] + rest);
    FoldCons(Feed(r, x), y, rest);
  }

  /** Once raised, the loop stays raised: no later line is looked at. */
  lemma {:induction false} RaisedAbsorbs(lines: seq<Line>)
    ensures Fold(Raised, lines) == Raised
    decreases |lines|
  {
    if lines != [] {
      RaisedAbsorbs(lines[..|lines| - 1]);
    }
  }

  /** In END every remaining line is copied unchanged and the state stays END. */
  lemma {:induction false} EndCopiesRest(buffer: seq<Line>, clean: seq<Line>, lines: seq<Line>)
    ensures Fold(Running(Scanner(End, buffer, clean)), lines) == Running(Scanner(End, buffer, clean + lines))
    decreases |lines|
  {
    if lines != [] {
      var init := lines[..|lines| - 1];
      EndCopiesRest(buffer, clean, init);
      assert clean + init + [lines[|lines| - 1]] == clean + lines;
    }
  }

  /** In SEEKING every line without the BEGIN marker is copied unchanged and
      in order. */
  lemma {:induction false} SeekingCopies(clean: seq<Line>, lines: seq<Line>)
    requires forall k :: 0 <= k < |lines| ==> !IsBegin(lines[k])
    ensures Fold(Running(Scanner(Seeking, [], clean)), lines) == Running(Scanner(Seeking, [], clean + lines))
    decreases |lines|
  {
    if lines != [] {
      var init := lines[..|lines| - 1];
      SeekingCopies(clean, init);
      assert clean + init + [lines[|lines| - 1]] == clean + lines;
    }
  }

  /** A false begin match: the BEGIN line and the line after it, which lacks
      the sdw-notify path, are both emitted verbatim and in order; the buffer
      is emptied and the scan is back in SEEKING. The second line is not
      looked at for a BEGIN marker of its own. */
  lemma FalseMatchRecovers(clean: seq<Line>, b: Line, x: Line)
    requires IsBegin(b) && !IsNotify(x)
    ensures Fold(Running(Scanner(Seeking, [], clean)), [b, x]) == Running(Scanner(Seeking, [], clean + [b, x]))
  {
    FeedSeekingBegin(clean, b);
    FeedBeginOther([b], clean, x);
    assert [b] + [x] == [b, x];
    FoldPair(Running(Scanner(Seeking, [], clean)), b, x, []);
    assert [b, x] + [] == [b, x];
  }

  /** A complete block met in SEEKING leaves the scan in END with none of its
      three lines in `clean` and every later line copied. */
  lemma TrueMatchRemovesBlock(clean: seq<Line>, b: Line, n: Line, e: Line, rest: seq<Line>)
    requires IsBegin(b) && IsNotify(n) && IsEnd(e)
    ensures Fold(Running(Scanner(Seeking, [], clean)), [b, n, e] + rest) == Running(Scanner(End, [b], clean + rest))
  {
    var start := Running(Scanner(Seeking, [], clean));
    FeedSeekingBegin(clean, b);
    FeedBeginNotify([b], clean, n);
    FoldPair(start, b, n, [e] + rest);
    assert [b, n, e] + rest == [b, n] + ([e] + rest);
    FeedMatchedEnd([b], clean, e);
    FoldCons(Running(Scanner(Matched, [b], clean)), e, rest);
    EndCopiesRest([b], clean, rest);
  }

  /** In MATCHED a line without the END marker raises at once. */
  lemma MatchedRaises(buffer: seq<Line>, clean: seq<Line>, x: Line, rest: seq<Line>)
    requires !IsEnd(x)
    ensures Fold(Running(Scanner(Matched, buffer, clean)), [x] + rest) == Raised
  {
    FoldCons(Running(Scanner(Matched, buffer, clean)), x, rest);
    RaisedAbsorbs(rest);
  }

  // ---------------------------------------------------------------------
  // Order: `clean` is a subsequence of the lines read so far
  // ---------------------------------------------------------------------

  /** What holds of the loop's variables after reading `read`. */
  ghost predicate ScanInvariant(s: Scanner, read: seq<Line>)
  {
    match s.state
    case Seeking => s.buffer == [] && IsSubsequence(s.clean, read)
    case Begin =>
      && |read| > 0 && s.buffer == [read[|read| - 1]] && IsBegin(read[|read| - 1])
      && IsSubsequence(s.clean, read[..|read| - 1]) && IsSubsequence(s.clean, read)
    case Matched => IsSubsequence(s.clean, read)
    case End => IsSubsequence(s.clean, read)
  }

  lemma {:induction false} ScanInvariantHolds(lines: seq<Line>)
    ensures ScanLines(lines).Running? ==> ScanInvariant(ScanLines(lines).scanner, lines)
    decreases |lines|
  {
    if lines != [] {
      var init := lines[..|lines| - 1];
      var line := lines[|lines| - 1];
      assert init + [line] == lines;
      ScanInvariantHolds(init);
      var r := ScanLines(init);
      assert ScanLines(lines) == Feed(r, line);
      if r.Running? {
        FeedKeepsInvariant(r.scanner, init, line);
      }
    }
  }

  /** One iteration keeps the invariant. */
  lemma FeedKeepsInvariant(s: Scanner, read: seq<Line>, line: Line)
    requires ScanInvariant(s, read)
    ensures Feed(Running(s), line).Running? ==> ScanInvariant(Feed(Running(s), line).scanner, read + [line])
  {
    var lines := read + [line];
    assert lines[..|lines| - 1] == read;
    assert s.clean + [] == s.clean;
    match s.state
    case Seeking =>
      if IsBegin(line) {
        SubsequenceSkip(s.clean, read, line);
      } else {
        SubsequenceKeep(s.clean, read, line);
      }
    case Begin =>
      if IsNotify(line) {
        SubsequenceSkip(s.clean, read, line);
      } else {
        var init, last := read[..|read| - 1], read[|read| - 1];
        SubsequenceKeep(s.clean, init, last);
        assert init + [last] == read;
        SubsequenceKeep(s.clean + [last], read, line);
        assert s.clean + ([last] + [line]) == s.clean + [last] + [line];
      }
    case Matched =>
      SubsequenceSkip(s.clean, read, line);
    case End =>
      SubsequenceKeep(s.clean, read, line);
  }

  /** Every line appended to `clean` is an input line, none is modified, and
      they keep their input order. */
  lemma ScanKeepsOrder(lines: seq<Line>)
    ensures ScanLines(lines).Running? ==> IsSubsequence(ScanLines(lines).scanner.clean, lines)
  {
    ScanInvariantHolds(lines);
  }

  // ---------------------------------------------------------------------
  // The same machine read from the front of the input
  // ---------------------------------------------------------------------

  /** r with xs put in front of what it has emitted. */
  function EmitFirst(xs: seq<Line>, r: Scan): Scan
  {
    match r
    case Raised => Raised
    case Running(s) => Running(s.(clean := xs + s.clean))
  }

  /** The scan described block by block: a line without BEGIN is kept; a
      BEGIN line is kept together with its successor when that successor
      lacks the sdw-notify path (false match); a BEGIN line followed by the
      sdw-notify line must be followed by an END line, after which the rest
      is kept; otherwise the scan raises. Input that stops inside a
      candidate block leaves the scan in BEGIN or MATCHED. */
  function Expected(lines: seq<Line>): Scan
    decreases |lines|
  {
    if lines == [] then Running(Initial)
    else if !IsBegin(lines[0]) then EmitFirst([lines[0]], Expected(lines[1..]))
    else if |lines| == 1 then Running(Scanner(Begin, [lines[0]], []))
    else if !IsNotify(lines[1]) then EmitFirst([lines[0], lines[1]], Expected(lines[2..]))
    else if |lines| == 2 then Running(Scanner(Matched, [lines[0]], []))
    else if IsEnd(lines[2]) then Running(Scanner(End, [lines[0]], lines[3..]))
    else Raised
  }

  /** The loop computes the front-to-back description, from any `clean`. */
  lemma {:induction false} ScanMatchesExpected(clean: seq<Line>, lines: seq<Line>)
    ensures Fold(Running(Scanner(Seeking, [], clean)), lines) == EmitFirst(clean, Expected(lines))
    decreases |lines|
  {
    if lines == [] {
    } else if !IsBegin(lines[0]) {
      ScanPlainLine(clean, lines);
      ScanMatchesExpected(clean + [lines[0]], lines[1..]);
      ExpectedPlainLine(lines);
      EmitFirstTwice(clean, [lines[0]], Expected(lines[1..]));
    } else if |lines| == 1 {
      ScanTrailingBegin(clean, lines[0]);
      assert [lines[0]] == lines;
    } else if !IsNotify(lines[1]) {
      ScanFalseMatch(clean, lines);
      ScanMatchesExpected(clean + [lines[0], lines[1]], lines[2..]);
      ExpectedFalseMatch(lines);
      EmitFirstTwice(clean, [lines[0], lines[1]], Expected(lines[2..]));
    } else if |lines| == 2 {
      ScanTrailingMatch(clean, lines[0], lines[1]);
      assert [lines[0], lines[1]] == lines;
    } else if IsEnd(lines[2]) {
      TrueMatchRemovesBlock(clean, lines[0], lines[1], lines[2], lines[3..]);
      assert [lines[0], lines[1], lines[2]] + lines[3..] == lines;
    } else {
      ScanUnterminated(clean, lines);
    }
  }

  lemma EmitFirstTwice(xs: seq<Line>, ys: seq<Line>, r: Scan)
    ensures EmitFirst(xs, EmitFirst(ys, r)) == EmitFirst(xs + ys, r)
  {
    if r.Running? {
      assert xs + (ys + r.scanner.clean) == (xs + ys) + r.scanner.clean;
    }
  }

  lemma ExpectedPlainLine(lines: seq<Line>)
    requires lines != [] && !IsBegin(lines[0])
    ensures Expected(lines) == EmitFirst([lines[0]], Expected(lines[1..]))
  {
  }

  lemma ExpectedFalseMatch(lines: seq<Line>)
    requires |lines| >= 2 && IsBegin(lines[0]) && !IsNotify(lines[1])
    ensures Expected(lines) == EmitFirst([lines[0], lines[1]], Expected(lines[2..]))
  {
  }

  lemma ScanFalseMatch(clean: seq<Line>, lines: seq<Line>)
    requires |lines| >= 2 && IsBegin(lines[0]) && !IsNotify(lines[1])
    ensures Fold(Running(Scanner(Seeking, [], clean)), lines)
         == Fold(Running(Scanner(Seeking, [], clean + [lines[0], lines[1]])), lines[2..])
  {
    var b, x, rest := lines[0], lines[1], lines[2..];
    assert lines == [b, x] + rest;
    FeedSeekingBegin(clean, b);
    FeedBeginOther([b], clean, x);
    assert [b] + [x] == [b, x];
    FoldPair(Running(Scanner(Seeking, [], clean)), b, x, rest);
  }

  lemma ScanPlainLine(clean: seq<Line>, lines: seq<Line>)
    requires lines != [] && !IsBegin(lines[0])
    ensures Fold(Running(Scanner(Seeking, [], clean)), lines)
         == Fold(Running(Scanner(Seeking, [], clean + [lines[0]])), lines[1..])
  {
    assert Feed(Running(Scanner(Seeking, [], clean)), lines[0]) == Running(Scanner(Seeking, [], clean + [lines[0]]));
    FoldCons(Running(Scanner(Seeking, [], clean)), lines[0], lines[1..]);
    assert [lines[0]] + lines[1..] == lines;
  }

  lemma ScanTrailingBegin(clean: seq<Line>, b: Line)
    requires IsBegin(b)
    ensures Fold(Running(Scanner(Seeking, [], clean)), [b]) == Running(Scanner(Begin, [b], clean))
  {
    FeedSeekingBegin(clean, b);
    FoldCons(Running(Scanner(Seeking, [], clean)), b, []);
    assert [b] + [] == [b];
  }

  lemma ScanTrailingMatch(clean: seq<Line>, b: Line, n: Line)
    requires IsBegin(b) && IsNotify(n)
    ensures Fold(Running(Scanner(Seeking, [], clean)), [b, n]) == Running(Scanner(Matched, [b], clean))
  {
    FeedSeekingBegin(clean, b);
    FeedBeginNotify([b], clean, n);
    FoldPair(Running(Scanner(Seeking, [], clean)), b, n, []);
    assert [b, n] + [] == [b, n];
  }

  lemma ScanUnterminated(clean: seq<Line>, lines: seq<Line>)
    requires |lines| >= 3 && IsBegin(lines[0]) && IsNotify(lines[1]) && !IsEnd(lines[2])
    ensures Fold(Running(Scanner(Seeking, [], clean)), lines) == Raised
  {
    var b, n, x, rest := lines[0], lines[1], lines[2], lines[3..];
    FeedSeekingBegin(clean, b);
    FeedBeginNotify([b], clean, n);
    assert lines == [b, n] + ([x] + rest);
    FoldPair(Running(Scanner(Seeking, [], clean)), b, n, [x] + rest);
    MatchedRaises([b], clean, x, rest);
  }

  /** What `clean` holds when the loop ends, by final state: all lines
      (SEEKING); all but a trailing BEGIN line (BEGIN); all but a trailing
      BEGIN line and sdw-notify line (MATCHED); all but one block (END). */
  lemma {:induction false} ExpectedShape(lines: seq<Line>)
    ensures Expected(lines).Running? ==> ShapeOf(Expected(lines).scanner, lines)
    decreases |lines|
  {
    if lines == [] {
    } else if !IsBegin(lines[0]) {
      ExpectedShape(lines[1..]);
      ShapeEmitFirst([lines[0]], lines[1..], Expected(lines[1..]));
      assert [lines[0]] + lines[1..] == lines;
    } else if |lines| == 1 {
    } else if !IsNotify(lines[1]) {
      ExpectedShape(lines[2..]);
      ShapeEmitFirst([lines[0], lines[1]], lines[2..], Expected(lines[2..]));
      assert [lines[0], lines[1]] + lines[2..] == lines;
    } else if |lines| == 2 {
    } else if IsEnd(lines[2]) {
      assert BlockAt(lines, 0);
      assert lines[..0] + lines[3..] == lines[3..];
    }
  }

  /** The final `clean` against the input, by final state. */
  ghost predicate ShapeOf(s: Scanner, lines: seq<Line>)
  {
    match s.state
    case Seeking => s.clean == lines
    case Begin =>
      |lines| >= 1 && IsBegin(lines[|lines| - 1]) && s.clean == lines[..|lines| - 1]
    case Matched =>
      && |lines| >= 2 && IsBegin(lines[|lines| - 2]) && IsNotify(lines[|lines| - 1])
      && s.clean == lines[..|lines| - 2]
    case End => exists i :: BlockAt(lines, i) && s.clean == lines[..i] + lines[i + 3..]
  }

  lemma ShapeEmitFirst(xs: seq<Line>, rest: seq<Line>, r: Scan)
    requires r.Running? ==> ShapeOf(r.scanner, rest)
    ensures EmitFirst(xs, r).Running? ==> ShapeOf(EmitFirst(xs, r).scanner, xs + rest)
  {
    if r.Running? {
      var s := r.scanner;
      var t := s.(clean := xs + s.clean);
      assert EmitFirst(xs, r).scanner == t;
      match s.state
      case Seeking =>
      case Begin => ShapeEmitFirstTail(xs, rest, 1);
      case Matched => ShapeEmitFirstTail(xs, rest, 2);
      case End =>
        var i :| BlockAt(rest, i) && s.clean == rest[..i] + rest[i + 3..];
        ShapeEmitFirstBlock(xs, rest, i);
    }
  }

  lemma ShapeEmitFirstTail(xs: seq<Line>, rest: seq<Line>, k: nat)
    requires k <= |rest|
    ensures (xs + rest)[..|xs + rest| - k] == xs + rest[..|rest| - k]
    ensures k >= 1 ==> (xs + rest)[|xs + rest| - 1] == rest[|rest| - 1]
    ensures k >= 2 ==> (xs + rest)[|xs + rest| - 2] == rest[|rest| - 2]
  {
  }

  lemma ShapeEmitFirstBlock(xs: seq<Line>, rest: seq<Line>, i: int)
    requires BlockAt(rest, i)
    ensures BlockAt(xs + rest, |xs| + i)
    ensures (xs + rest)[..|xs| + i] + (xs + rest)[|xs| + i + 3..] == xs + (rest[..i] + rest[i + 3..])
  {
    var all := xs + rest;
    assert all[|xs| + i] == rest[i] && all[|xs| + i + 1] == rest[i + 1] && all[|xs| + i + 2] == rest[i + 2];
    assert all[..|xs| + i] == xs + rest[..i];
    assert all[|xs| + i + 3..] == rest[i + 3..];
  }

  // ---------------------------------------------------------------------
  // What the rewrite does, as written and as intended
  // ---------------------------------------------------------------------

  /** As written, the crontab is either left alone (the scan raised, or it
      ended in END having found the whole block) or rewritten with: every
      line (no BEGIN line met), all but a trailing BEGIN line, or all but a
      trailing BEGIN line and sdw-notify line. A complete block is never
      removed. */
  lemma AsWrittenOutcomes(lines: seq<Line>)
    ensures RemoveBlock(lines).Written? ==>
      var out := RemoveBlock(lines).clean;
      || out == lines
      || (|lines| >= 1 && IsBegin(lines[|lines| - 1]) && out == lines[..|lines| - 1])
      || (|lines| >= 2 && IsBegin(lines[|lines| - 2]) && IsNotify(lines[|lines| - 1]) && out == lines[..|lines| - 2])
  {
    ScanMatchesExpected([], lines);
    ExpectedShape(lines);
    var r := Expected(lines);
    if r.Running? {
      assert EmitFirst([], r) == r;
    }
  }

  /** As written, a crontab whose first BEGIN line is directly followed by
      the sdw-notify line and the END line is never rewritten: `run` raises. */
  lemma AsWrittenCompleteBlockRaises(prefix: seq<Line>, b: Line, n: Line, e: Line, rest: seq<Line>)
    requires forall k :: 0 <= k < |prefix| ==> !IsBegin(prefix[k])
    requires IsBegin(b) && IsNotify(n) && IsEnd(e)
    ensures RemoveBlock(prefix + [b, n, e] + rest) == Failed(ERROR_MESSAGE)
    ensures RemoveBlockIntended(prefix + [b, n, e] + rest) == Written(prefix + rest)
  {
    var lines := prefix + [b, n, e] + rest;
    assert lines == prefix + ([b, n, e] + rest);
    FoldAppend(Running(Initial), prefix, [b, n, e] + rest);
    SeekingCopies([], prefix);
    assert [] + prefix == prefix;
    TrueMatchRemovesBlock(prefix, b, n, e, rest);
  }

  /** As written, input that ends with a BEGIN line met in SEEKING (at the
      start, after copied lines or after a false match) loses that line: it
      is held in `buffer` and never flushed, so the file is written exactly
      as if the line were not there. The corrected check raises instead. */
  lemma AsWrittenDropsTrailingBegin(prefix: seq<Line>, b: Line)
    requires ScanLines(prefix).Running? && ScanLines(prefix).scanner.state == Seeking
    requires IsBegin(b)
    ensures RemoveBlock(prefix + [b]) == Written(ScanLines(prefix).scanner.clean)
    ensures RemoveBlock(prefix + [b]) == RemoveBlock(prefix)
    ensures RemoveBlockIntended(prefix + [b]) == Failed(ERROR_MESSAGE)
  {
    ScanInvariantHolds(prefix);
    var clean := ScanLines(prefix).scanner.clean;
    assert (prefix + [b])[..|prefix|] == prefix;
    FeedSeekingBegin(clean, b);
    assert ScanLines(prefix + [b]) == Running(Scanner(Begin, [b], clean));
  }

  /** A crontab with no BEGIN line is rewritten unchanged as written, and
      rejected as intended. */
  lemma NoBlockAtAll(lines: seq<Line>)
    requires forall k :: 0 <= k < |lines| ==> !IsBegin(lines[k])
    ensures RemoveBlock(lines) == Written(lines)
    ensures RemoveBlockIntended(lines) == Failed(ERROR_MESSAGE)
  {
    SeekingCopies([], lines);
    assert [] + lines == lines;
  }

  /** Concrete input that shows the inverted end-of-input check: a crontab
      holding one foreign line, the block, and another foreign line. */
  lemma CompleteBlockExample()
    ensures RemoveBlock(["a\n", BEGIN_MARKER + "\n", NOTIFY_MARKER + "\n", END_MARKER + "\n", "b\n"])
         == Failed(ERROR_MESSAGE)
    ensures RemoveBlockIntended(["a\n", BEGIN_MARKER + "\n", NOTIFY_MARKER + "\n", END_MARKER + "\n", "b\n"])
         == Written(["a\n", "b\n"])
  {
    assert !IsBegin("a\n");
    assert IsBegin(BEGIN_MARKER + "\n") by { assert BEGIN_MARKER <= BEGIN_MARKER + "\n"; }
    assert IsNotify(NOTIFY_MARKER + "\n") by { assert NOTIFY_MARKER <= NOTIFY_MARKER + "\n"; }
    assert IsEnd(END_MARKER + "\n") by { assert END_MARKER <= END_MARKER + "\n"; }
    AsWrittenCompleteBlockRaises(["a\n"], BEGIN_MARKER + "\n", NOTIFY_MARKER + "\n", END_MARKER + "\n", ["b\n"]);
    assert ["a\n"] + [BEGIN_MARKER + "\n", NOTIFY_MARKER + "\n", END_MARKER + "\n"] + ["b\n"]
        == ["a\n", BEGIN_MARKER + "\n", NOTIFY_MARKER + "\n", END_MARKER + "\n", "b\n"];
  }

  /** Concrete input that shows the lost BEGIN line. */
  lemma TrailingBeginExample()
    ensures RemoveBlock(["a\n", BEGIN_MARKER + "\n"]) == Written(["a\n"])
  {
    assert !IsBegin("a\n");
    assert IsBegin(BEGIN_MARKER + "\n") by { assert BEGIN_MARKER <= BEGIN_MARKER + "\n"; }
    SeekingCopies([], ["a\n"]);
    assert [] + ["a\n"] == ["a\n"];
    AsWrittenDropsTrailingBegin(["a\n"], BEGIN_MARKER + "\n");
    assert ["a\n"] + [BEGIN_MARKER + "\n"] == ["a\n", BEGIN_MARKER + "\n"];
  }

  // ---------------------------------------------------------------------
  // The loop itself
  // ---------------------------------------------------------------------

  /** The body of `RemoveCronJob.run` between reading and writing the file:
      the `for` loop over the lines and the end-of-input check. */
  method CleanCrontab(lines: seq<Line>) returns (o: Outcome)
    ensures o == RemoveBlock(lines)
  {
    var clean: seq<Line> := [];
    var buffer: seq<Line> := [];
    var state := Seeking;
    for i := 0 to |lines|
      invariant ScanLines(lines[..i]) == Running(Scanner(state, buffer, clean))
    {
      var line := lines[i];
      assert lines[..i + 1][..i] == lines[..i];
      if state == End {
        clean := clean + [line];
      } else if state == Matched && IsEnd(line) {
        state := End;
      } else if state == Matched {
        FoldAppend(Running(Initial), lines[..i + 1], lines[i + 1..]);
        assert lines[..i + 1] + lines[i + 1..] == lines;
        RaisedAbsorbs(lines[i + 1..]);
        return Failed(ERROR_MESSAGE);
      } else if state == Begin && IsNotify(line) {
        state := Matched;
      } else if state == Begin {
        clean := clean + buffer;
        clean := clean + [line];
        buffer := [];
        state := Seeking;
      } else if state == Seeking && IsBegin(line) {
        buffer := buffer + [line];
        state := Begin;
      } else if state == Seeking {
        clean := clean + [line];
      }
    }
    assert lines[..|lines|] == lines;
    if state == End {
      return Failed(ERROR_MESSAGE);
    }
    return Written(clean);
  }
}
