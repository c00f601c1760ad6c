/**
 * The statistics that `video_gen.py` shows for a segment table, and the session of
 * `video_gen` that builds a table, shows it and asks on the console whether to render it.
 * Console answers are a supplied list (running out of them is `EOFError`), and every
 * build of the table draws from its own supplied random choices; the session itself is
 * stated over the tables those builds produce.
 */
module Session {
  import opened Common
  import opened Settings
  import opened Compositor

  // ---------------------------------------------------------------------------
  // display_segments_stats

  /** The rows of `segs` tagged `k` (the list comprehensions over the type column). */
  function CountKind(segs: seq<Segment>, k: Kind): (n: nat)
    ensures n <= |segs|
    decreases |segs|
  {
    if segs == [] then 0
    else (if segs[0].kind == k then 1 else 0) + CountKind(segs[1..], k)
  }

  /** Every row is an image or a video, so the two counts make up the table. */
  lemma {:induction false} CountKindsCover(segs: seq<Segment>)
    ensures CountKind(segs, Image) + CountKind(segs, Video) == |segs|
    decreases |segs|
  {
    if segs != [] {
      CountKindsCover(segs[1..]);
    }
  }

  /** A table whose every row has kind `k` counts all of its rows for `k`. */
  lemma {:induction false} CountKindAll(segs: seq<Segment>, k: Kind)
    requires forall m :: 0 <= m < |segs| ==> segs[m].kind == k
    ensures CountKind(segs, k) == |segs|
    decreases |segs|
  {
    if segs != [] {
      CountKindAll(segs[1..], k);
    }
  }

  /** The two percentages printed under the table. */
  datatype Stats = Stats(imagePercentage: real, videoPercentage: real)

  /**
   * `display_segments_stats`: the share of image rows and of video rows, in percent;
   * dividing by the length of an empty table raises `ZeroDivisionError`. The table and the
   * total length are only printed.
   */
  function DisplaySegmentsStats(segs: seq<Segment>): (r: Result<Stats, PyError>)
    ensures r.Err? <==> segs == []
    ensures r.Err? ==> r.error == ZeroDivisionError
  {
    if |segs| == 0 then Err(ZeroDivisionError)
    else
      var n := |segs| as real;
      Ok(Stats(CountKind(segs, Image) as real / n * 100.0, CountKind(segs, Video) as real / n * 100.0))
  }

  /** `part / whole * 100` lies in [0, 100] for `0 <= part <= whole`. */
  lemma PercentageBounds(part: real, whole: real)
    requires 0.0 <= part <= whole && 0.0 < whole
    ensures 0.0 <= part / whole * 100.0 <= 100.0
  {
    var q := part / whole;
    assert q * whole == part;
  }

  /** The percentages of two parts that make up the whole add up to 100. */
  lemma PercentagesAdd(a: real, b: real, whole: real)
    requires a + b == whole && 0.0 < whole
    ensures a / whole * 100.0 + b / whole * 100.0 == 100.0
  {
    assert a / whole + b / whole == (a + b) / whole;
  }

  /** The two percentages of a non-empty table lie in [0, 100] and add up to 100. */
  lemma StatsPercentages(segs: seq<Segment>)
    requires segs != []
    ensures var st := DisplaySegmentsStats(segs).value;
            && 0.0 <= st.imagePercentage <= 100.0
            && 0.0 <= st.videoPercentage <= 100.0
            && st.imagePercentage + st.videoPercentage == 100.0
  {
    var n := |segs| as real;
    var i, v := CountKind(segs, Image) as real, CountKind(segs, Video) as real;
    CountKindsCover(segs);
    PercentageBounds(i, n);
    PercentageBounds(v, n);
    PercentagesAdd(i, v, n);
  }

  // ---------------------------------------------------------------------------
  // The accept loop of video_gen

  /** Index of the first answer "y", or the number of answers when none is "y". */
  function FirstYes(answers: seq<string>): (k: nat)
    ensures k <= |answers|
    ensures k < |answers| ==> answers[k] == "y"
    ensures forall j :: 0 <= j < k ==> answers[j] != "y"
    decreases |answers|
  {
    if answers == [] then 0
    else if answers[0] == "y" then 0
    else 1 + FirstYes(answers[1..])
  }

  /** A draw for every build of the table: the first one and one per rejection. */
  predicate ValidRounds(ps: seq<Paragraph>, rounds: seq<seq<Draw>>)
  {
    forall k :: 0 <= k < |rounds| ==> ValidDraws(ps, rounds[k])
  }

  /** The tables that successive builds produce, one per round of random choices. */
  function Builds(ps: seq<Paragraph>, total: real, rounds: seq<seq<Draw>>): (tables: seq<seq<Segment>>)
    requires ValidRounds(ps, rounds)
    ensures |tables| == |rounds|
    decreases |rounds|
  {
    if rounds == [] then []
    else [Timeline(ps, rounds[0], total)] + Builds(ps, total, rounds[1..])
  }

  /** The `k`-th build is the table of the `k`-th round. */
  lemma {:induction false} BuildsAt(ps: seq<Paragraph>, total: real, rounds: seq<seq<Draw>>, k: nat)
    requires ValidRounds(ps, rounds) && k < |rounds|
    ensures Builds(ps, total, rounds)[k] == Timeline(ps, rounds[k], total)
    decreases k
  {
    if k > 0 {
      BuildsAt(ps, total, rounds[1..], k - 1);
      assert rounds[1..][k - 1] == rounds[k];
    }
  }

  /**
   * The session as the code is written: the first table is built and its statistics
   * shown; a "y" renders it; any other answer rebuilds the table and then calls
   * `display_segments_stats` without its second argument, which raises `TypeError`.
   */
  function SessionAsWritten(tables: seq<seq<Segment>>, answers: seq<string>): (r: Result<seq<Segment>, PyError>)
    requires 1 <= |tables|
    ensures r.Ok? <==> tables[0] != [] && 1 <= |answers| && answers[0] == "y"
    ensures r.Ok? ==> r.value == tables[0]
  {
    if DisplaySegmentsStats(tables[0]).Err? then Err(ZeroDivisionError)
    else if |answers| == 0 then Err(EndOfInput)
    else if answers[0] == "y" then Ok(tables[0])
    else Err(TypeError)
  }

  /**
   * The session as evidently intended, from the `k`-th build on: show the statistics of the
   * `k`-th table; render it on "y"; otherwise rebuild with the same total and ask again.
   */
  function SessionFrom(tables: seq<seq<Segment>>, answers: seq<string>, k: nat): Result<seq<Segment>, PyError>
    requires |answers| < |tables| && k < |tables|
    decreases |tables| - k
  {
    if DisplaySegmentsStats(tables[k]).Err? then Err(ZeroDivisionError)
    else if k >= |answers| then Err(EndOfInput)
    else if answers[k] == "y" then Ok(tables[k])
    else SessionFrom(tables, answers, k + 1)
  }

  /** The intended session, started from the first build. */
  function Session(tables: seq<seq<Segment>>, answers: seq<string>): Result<seq<Segment>, PyError>
    requires |answers| < |tables|
  {
    SessionFrom(tables, answers, 0)
  }

  /** No table from the `k`-th build to the `y`-th is empty. */
  predicate NoneEmpty(tables: seq<seq<Segment>>, k: nat, y: nat)
    requires y < |tables|
  {
    forall j :: k <= j <= y ==> tables[j] != []
  }

  /**
   * The outcome of the intended session from build `k` on: it renders exactly when some
   * answer from `k` on is "y" and no table up to the first such answer is empty, and then
   * it renders the table built for that answer; with no "y" left and no empty table it
   * runs out of console input; an empty table on the way raises `ZeroDivisionError`.
   */
  lemma {:induction false} SessionFromOutcome(tables: seq<seq<Segment>>, answers: seq<string>, k: nat)
    requires |answers| < |tables| && k <= |answers|
    ensures var r := SessionFrom(tables, answers, k);
            var y := k + FirstYes(answers[k..]);
            && y < |tables|
            && (r.Ok? <==> y < |answers| && NoneEmpty(tables, k, y))
            && (r.Ok? ==> r.value == tables[y])
            && (r == Err(EndOfInput) <==> y == |answers| && NoneEmpty(tables, k, y))
            && (r == Err(ZeroDivisionError) <==> !NoneEmpty(tables, k, y))
    decreases |answers| - k
  {
    var y := k + FirstYes(answers[k..]);
    if k == |answers| {
      assert answers[k..] == [];
    } else if answers[k] == "y" {
      assert answers[k..][0] == "y";
    } else {
      assert answers[k..][1..] == answers[k + 1..];
      assert y == k + 1 + FirstYes(answers[k + 1..]);
      if tables[k] != [] {
        SessionFromOutcome(tables, answers, k + 1);
        if !NoneEmpty(tables, k + 1, y) {
          var j :| k + 1 <= j <= y && tables[j] == [];
          assert !NoneEmpty(tables, k, y);
        }
      }
    }
  }

  /**
   * The intended session renders the table of the first "y", provided no table built on
   * the way there was empty; it never renders a table the user rejected.
   */
  lemma SessionOutcome(tables: seq<seq<Segment>>, answers: seq<string>)
    requires |answers| < |tables|
    ensures var r := Session(tables, answers);
            var y := FirstYes(answers);
            && (r.Ok? <==> y < |answers| && NoneEmpty(tables, 0, y))
            && (r.Ok? ==> r.value == tables[y])
            && (r == Err(EndOfInput) <==> y == |answers| && NoneEmpty(tables, 0, y))
  {
    SessionFromOutcome(tables, answers, 0);
    assert answers[0..] == answers;
  }

  /**
   * The rejected retry: after one "n" and then "y", with non-empty tables, the code as
   * written stops with `TypeError`, while the intended session renders the second table.
   */
  lemma RetryRaisesTypeError(tables: seq<seq<Segment>>)
    requires 3 <= |tables| && tables[0] != [] && tables[1] != []
    ensures SessionAsWritten(tables, ["n", "y"]) == Err(TypeError)
    ensures Session(tables, ["n", "y"]) == Ok(tables[1])
  {
    var answers := ["n", "y"];
    assert answers[1..] == ["y"];
    assert FirstYes(answers[1..]) == 0;
    assert FirstYes(answers) == 1;
    SessionOutcome(tables, answers);
  }

  /**
   * `video_gen` as written: sum the narration lengths, build the table and show its
   * statistics, then ask until the answer is "y". Every rejection reaches the call of
   * `display_segments_stats` that lacks its second argument.
   */
  method VideoGenAsWritten(ps: seq<Paragraph>, audioLengths: seq<real>, rounds: seq<seq<Draw>>, answers: seq<string>)
    returns (r: Result<seq<Segment>, PyError>)
    requires 2 <= |rounds| && ValidRounds(ps, rounds)
    ensures r == SessionAsWritten(Builds(ps, Sum(audioLengths), rounds), answers)
  {
    var total := CalculateVideoLength(audioLengths);
    ghost var tables := Builds(ps, total, rounds);
    var segments := CreateVideoSegments(ps, total, rounds[0]);
    BuildsAt(ps, total, rounds, 0);
    var stats := DisplaySegmentsStats(segments);
    if stats.Err? {
      return Err(stats.error);
    }
    var asked := 0;
    var ready := false;
    while !ready
      invariant asked <= 1 && (asked == 1 ==> ready && 1 <= |answers| && answers[0] == "y")
      invariant !ready ==> asked == 0
      invariant ready ==> asked == 1
      invariant segments == tables[0] && segments != []
      decreases 1 - asked
    {
      if asked == |answers| {
        return Err(EndOfInput);
      }
      ready := answers[asked] == "y";
      asked := asked + 1;
      if !ready {
        segments := CreateVideoSegments(ps, total, rounds[1]);
        return Err(TypeError);
      }
    }
    return Ok(segments);
  }

  /**
   * `video_gen` with the rejection path corrected to pass the total length again: it
   * renders the table of the first "y", as `Session` describes.
   */
  method VideoGen(ps: seq<Paragraph>, audioLengths: seq<real>, rounds: seq<seq<Draw>>, answers: seq<string>)
    returns (r: Result<seq<Segment>, PyError>)
    requires |answers| < |rounds| && ValidRounds(ps, rounds)
    ensures r == Session(Builds(ps, Sum(audioLengths), rounds), answers)
  {
    var total := CalculateVideoLength(audioLengths);
    ghost var tables := Builds(ps, total, rounds);
    var segments := CreateVideoSegments(ps, total, rounds[0]);
    BuildsAt(ps, total, rounds, 0);
    var stats := DisplaySegmentsStats(segments);
    if stats.Err? {
      return Err(stats.error);
    }
    var asked := 0;
    var ready := false;
    while !ready
      invariant asked <= |answers|
      invariant !ready ==> segments == tables[asked] && segments != []
      invariant !ready ==> SessionFrom(tables, answers, 0) == SessionFrom(tables, answers, asked)
      invariant ready ==> SessionFrom(tables, answers, 0) == Ok(segments)
      decreases |answers| - asked, if ready then 0 else 1
    {
      if asked == |answers| {
        return Err(EndOfInput);
      }
      ready := answers[asked] == "y";
      asked := asked + 1;
      if !ready {
        segments := CreateVideoSegments(ps, total, rounds[asked]);
        BuildsAt(ps, total, rounds, asked);
        stats := DisplaySegmentsStats(segments);
        if stats.Err? {
          return Err(stats.error);
        }
      }
    }
    return Ok(segments);
  }
}
