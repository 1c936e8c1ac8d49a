/** Cutting the per-action video clips of every period video, one task per video.

    A task reads the game id, the period id and the period number off the video's file
    name, picks the game's log by name, and scans the period's log rows exactly as the
    annotation script does. For each qualifying row it asks the transcoder for the clip
    file unless that file already exists, and gives up on the video, noting it in the
    game's failure list, as soon as a clip file is still missing afterwards. The driver
    counts the tasks that gave up.

    The file system and the transcoder are inputs: `existing` is the set of files present
    when the task starts and `produced` the set of output files the transcoder manages to
    write when asked. The log files' rows are given already read. */
module RunJob {
  import opened Common
  import opened PyBuiltins
  import opened AnnotateClips

  // ---------------------------------------------------------------- outcomes

  /** The exceptions a task can raise: a file name that is not of the dataset's form, or
      one of the row loop's exceptions. */
  datatype TaskError =
    | BadGameId            // int() of the part before the first '_'
    | MissingPeriodId      // fewer than seven '_'-separated parts
    | BadPeriod            // int() of the fifth character from the end
    | RowRaised(failure: RowFailure)

  /** What a task gives back: None, a boolean, or an exception. */
  datatype TaskOutcome = NoResult | Returned(ok: bool) | Raised(error: TaskError)

  /** One transcoder call: cut `duration` seconds starting at `seek` out of `input`,
      copying the streams, into `output`, never overwriting it. */
  datatype Transcode = Transcode(seek: real, duration: real, input: string, output: string)

  /** Everything a task does to the outside: the transcoder calls in order, the lines
      appended to failure lists (file and line), and its outcome. */
  datatype Run = Run(issued: seq<Transcode>, notes: seq<(string, string)>, outcome: TaskOutcome)

  // ---------------------------------------------------------------- preparing a task

  /** What a task works on once the name is read and the log is picked. */
  datatype Setup = Setup(gameId: int, periodId: string, currVideo: string, rows: seq<LogRow>, period: int)

  /** Reading the name and picking the log, in the order the task does it; `Err` holds the
      outcome of a task that ends before the row loop. The log is the first file of the
      listing whose name mentions the game id. */
  function Prepare(video: string, videoPath: string, logs: LogListing): (r: Result<Setup, TaskOutcome>)
    ensures r.Err? && r.error == NoResult <==> video == ".DS_Store"
    ensures r.Err? && r.error == Returned(false) <==>
      && video != ".DS_Store" && GameIdOf(video).Some? && PeriodIdOf(video).Some?
      && forall i :: 0 <= i < |logs| ==> !Contains(logs[i].0, IntToString(GameIdOf(video).value))
    ensures r == Err(Raised(BadGameId)) <==> video != ".DS_Store" && GameIdOf(video).None?
    ensures r == Err(Raised(MissingPeriodId)) <==>
      video != ".DS_Store" && GameIdOf(video).Some? && PeriodIdOf(video).None?
    ensures r == Err(Raised(BadPeriod)) <==>
      && video != ".DS_Store" && GameIdOf(video).Some? && PeriodIdOf(video).Some?
      && (exists i :: 0 <= i < |logs| && Contains(logs[i].0, IntToString(GameIdOf(video).value)))
      && PeriodOf(video).None?
    ensures r.Ok? <==>
      && video != ".DS_Store" && GameIdOf(video).Some? && PeriodIdOf(video).Some?
      && (exists i :: 0 <= i < |logs| && Contains(logs[i].0, IntToString(GameIdOf(video).value)))
      && PeriodOf(video).Some?
    ensures r.Err? ==> r.error in {NoResult, Returned(false), Raised(BadGameId), Raised(MissingPeriodId), Raised(BadPeriod)}
    ensures r.Ok? ==>
      && video != ".DS_Store"
      && Some(r.value.gameId) == GameIdOf(video)
      && Some(r.value.periodId) == PeriodIdOf(video)
      && Some(r.value.period) == PeriodOf(video)
      && r.value.currVideo == PathJoin(videoPath, video)
      && exists i :: 0 <= i < |logs|
           && logs[i].1 == r.value.rows
           && Contains(logs[i].0, IntToString(r.value.gameId))
           && forall j :: 0 <= j < i ==> !Contains(logs[j].0, IntToString(r.value.gameId))
  {
    if video == ".DS_Store" then Err(NoResult)
    else
      match GameIdOf(video)
      case None => Err(Raised(BadGameId))
      case Some(gameId) =>
        match PeriodIdOf(video)
        case None => Err(Raised(MissingPeriodId))
        case Some(periodId) =>
          var currVideo := PathJoin(videoPath, video);
          match FirstTrue(MentionsGame(logs, gameId))
          case None => Err(Returned(false))
          case Some(i) =>
            match PeriodOf(video)
            case None => Err(Raised(BadPeriod))
            case Some(period) => Ok(Setup(gameId, periodId, currVideo, logs[i].1, period))
  }

  // ---------------------------------------------------------------- clip files

  /** Where the clip of a planned clip is written. */
  function ClipPath(savePath: string, gameId: int, periodId: string, c: PlannedClip): string {
    PathJoin(PathJoin(PathJoin(savePath, IntToString(gameId)), periodId),
      ClipFileName(gameId, periodId, PyStr(c.row.actionName), c.row.id))
  }

  /** The transcoder call for a planned clip: the ten seconds ending at its time. */
  function Job(c: PlannedClip, s: Setup, savePath: string): (t: Transcode)
    ensures t.duration == ClipDuration && t.seek + t.duration == c.startTime
    ensures t.input == s.currVideo && t.output == ClipPath(savePath, s.gameId, s.periodId, c)
  {
    Transcode(c.startTime - ClipDuration, ClipDuration, s.currVideo, ClipPath(savePath, s.gameId, s.periodId, c))
  }

  function Jobs(clips: seq<PlannedClip>, s: Setup, savePath: string): (r: seq<Transcode>)
    ensures |r| == |clips|
    ensures forall i :: 0 <= i < |clips| ==> r[i] == Job(clips[i], s, savePath)
  {
    seq(|clips|, i requires 0 <= i < |clips| => Job(clips[i], s, savePath))
  }

  function Outputs(ts: seq<Transcode>): (r: seq<string>)
    ensures |r| == |ts|
    ensures forall i :: 0 <= i < |ts| ==> r[i] == ts[i].output
  {
    seq(|ts|, i requires 0 <= i < |ts| => ts[i].output)
  }

  // ---------------------------------------------------------------- writing the clips

  /** The writing state: the calls issued, the files present, and the position of the clip
      whose file is still missing after its call. */
  datatype Writes = Writes(issued: seq<Transcode>, present: set<string>, failedAt: Option<nat>)

  /** One clip: nothing when its file exists, otherwise a call, after which the file exists
      exactly when the transcoder produces it. */
  function WriteStep(w: Writes, job: Transcode, k: nat, produced: set<string>): Writes {
    if job.output in w.present then w
    else if job.output in produced then Writes(w.issued + [job], w.present + {job.output}, None)
    else Writes(w.issued + [job], w.present, Some(k))
  }

  /** The clips in order, stopping at the first file still missing. */
  function WriteAll(jobs: seq<Transcode>, existing: set<string>, produced: set<string>): Writes
    decreases |jobs|
  {
    if |jobs| == 0 then Writes([], existing, None)
    else
      var w := WriteAll(jobs[..|jobs| - 1], existing, produced);
      if w.failedAt.Some? then w else WriteStep(w, jobs[|jobs| - 1], |jobs| - 1, produced)
  }

  /** Once a file is missing, later clips change nothing. */
  lemma {:induction false} WriteAllHalts(jobs: seq<Transcode>, n: nat, existing: set<string>, produced: set<string>)
    requires n <= |jobs|
    requires WriteAll(jobs[..n], existing, produced).failedAt.Some?
    ensures WriteAll(jobs, existing, produced) == WriteAll(jobs[..n], existing, produced)
    decreases |jobs|
  {
    if |jobs| > n {
      var pre := jobs[..|jobs| - 1];
      assert pre[..n] == jobs[..n];
      WriteAllHalts(pre, n, existing, produced);
    } else {
      assert jobs[..n] == jobs;
    }
  }

  /** A file the task can rely on: present from the start or produced when asked. */
  predicate Obtainable(p: string, existing: set<string>, produced: set<string>) {
    p in existing || p in produced
  }

  /** Only obtainable files are ever present. Without a missing file, every call produced
      its file, the files present are the ones there before and the calls' outputs, and
      every clip's file is among them. */
  lemma {:induction false} WriteAllPresent(jobs: seq<Transcode>, existing: set<string>, produced: set<string>)
    ensures var w := WriteAll(jobs, existing, produced);
      forall p :: p in w.present ==> Obtainable(p, existing, produced)
    ensures var w := WriteAll(jobs, existing, produced);
      w.failedAt.None? ==>
        && (forall a :: 0 <= a < |w.issued| ==> w.issued[a].output in produced)
        && (forall p :: p in w.present <==> p in existing || p in Outputs(w.issued))
        && (forall k :: 0 <= k < |jobs| ==> jobs[k].output in w.present)
    decreases |jobs|
  {
    if |jobs| > 0 {
      var n := |jobs| - 1;
      var pre := jobs[..n];
      WriteAllPresent(pre, existing, produced);
      assert forall k :: 0 <= k < n ==> pre[k] == jobs[k];
      var w0 := WriteAll(pre, existing, produced);
      if w0.failedAt.None? && jobs[n].output !in w0.present {
        assert Outputs(w0.issued + [jobs[n]]) == Outputs(w0.issued) + [jobs[n].output];
      }
    }
  }

  /** Each call is for one of the clips and targets a file that was not there at the
      start, and no two calls target the same file: nothing is ever overwritten. */
  lemma {:induction false} WriteAllFresh(jobs: seq<Transcode>, existing: set<string>, produced: set<string>)
    ensures var w := WriteAll(jobs, existing, produced);
      && (forall a :: 0 <= a < |w.issued| ==> w.issued[a] in jobs && w.issued[a].output !in existing)
      && (forall a, b :: 0 <= a < b < |w.issued| ==> w.issued[a].output != w.issued[b].output)
    decreases |jobs|
  {
    if |jobs| > 0 {
      var n := |jobs| - 1;
      var pre := jobs[..n];
      WriteAllFresh(pre, existing, produced);
      assert forall t :: t in pre ==> t in jobs;
      var w0 := WriteAll(pre, existing, produced);
      if w0.failedAt.None? && jobs[n].output !in w0.present {
        WriteAllPresent(pre, existing, produced);
        var job := jobs[n];
        var issued := w0.issued + [job];
        assert job.output !in existing;
        forall a | 0 <= a < |w0.issued|
          ensures issued[a].output != job.output
        {
          assert Outputs(w0.issued)[a] == w0.issued[a].output;
          assert w0.issued[a].output in w0.present;
        }
        assert WriteAll(jobs, existing, produced).issued == issued;
        assert job in jobs;
      } else {
        assert WriteAll(jobs, existing, produced) == w0;
        forall a | 0 <= a < |w0.issued|
          ensures w0.issued[a] in jobs
        {
          assert w0.issued[a] in pre;
        }
      }
    }
  }

  /** Writing gives up exactly when some clip's file is not obtainable, and then at the
      first such clip, whose call is the last one issued. */
  lemma {:induction false} WriteAllFailure(jobs: seq<Transcode>, existing: set<string>, produced: set<string>)
    ensures var w := WriteAll(jobs, existing, produced);
      w.failedAt.None? <==> forall k :: 0 <= k < |jobs| ==> Obtainable(jobs[k].output, existing, produced)
    ensures var w := WriteAll(jobs, existing, produced);
      w.failedAt.Some? ==>
        var i := w.failedAt.value;
        && i < |jobs|
        && !Obtainable(jobs[i].output, existing, produced)
        && (forall k :: 0 <= k < i ==> Obtainable(jobs[k].output, existing, produced))
        && |w.issued| > 0 && w.issued[|w.issued| - 1] == jobs[i]
    decreases |jobs|
  {
    if |jobs| > 0 {
      var n := |jobs| - 1;
      var pre := jobs[..n];
      WriteAllFailure(pre, existing, produced);
      WriteAllPresent(pre, existing, produced);
      assert forall k :: 0 <= k < n ==> pre[k] == jobs[k];
    }
  }

  // ---------------------------------------------------------------- the task

  /** The line noted for a video that gave up: appended to the game's failure list. */
  function FailureNote(gameId: int, currVideo: string): (string, string) {
    (IntToString(gameId) + "_failed_videos.txt", currVideo)
  }

  /** The row loop and the writes of a prepared task: the plan is the annotation script's,
      one call per clip whose file is missing; a missing file after its call ends the task
      with False (the rows after it are not read), otherwise the loop's exception, if any,
      or True. */
  function RunSetup(s: Setup, savePath: string, ignore: seq<string>, existing: set<string>,
                    produced: set<string>): Run
  {
    var plan := PlanRows(s.rows, s.period, ignore);
    var w := WriteAll(Jobs(plan.clips, s, savePath), existing, produced);
    if w.failedAt.Some? then Run(w.issued, [FailureNote(s.gameId, s.currVideo)], Returned(false))
    else if plan.failure.Some? then Run(w.issued, [], Raised(RowRaised(plan.failure.value)))
    else Run(w.issued, [], Returned(true))
  }

  /** A whole task on one video. */
  function ProcessVideoRun(video: string, videoPath: string, logs: LogListing, savePath: string,
                           ignore: seq<string>, existing: set<string>, produced: set<string>): Run
  {
    match Prepare(video, videoPath, logs)
    case Err(o) => Run([], [], o)
    case Ok(s) => RunSetup(s, savePath, ignore, existing, produced)
  }

  /** What the outcome of a prepared task means: False exactly when some planned clip's
      file cannot be obtained, with one note naming the video; True exactly when, on top of
      that, no row raises; the loop's own exception otherwise. */
  lemma RunSetupOutcome(s: Setup, savePath: string, ignore: seq<string>, existing: set<string>,
                        produced: set<string>)
    ensures var r := RunSetup(s, savePath, ignore, existing, produced);
      var clips := PlanRows(s.rows, s.period, ignore).clips;
      && (r.outcome == Returned(false) <==>
            exists i :: 0 <= i < |clips| && !Obtainable(ClipPath(savePath, s.gameId, s.periodId, clips[i]), existing, produced))
      && (r.outcome == Returned(false) ==> r.notes == [FailureNote(s.gameId, s.currVideo)])
      && (r.outcome != Returned(false) ==> r.notes == [])
    ensures var r := RunSetup(s, savePath, ignore, existing, produced);
      var clips := PlanRows(s.rows, s.period, ignore).clips;
      r.outcome == Returned(true) <==>
        && (forall k :: 0 <= k < |s.rows| ==> !Raises(s.rows[k], s.period, ignore))
        && forall i :: 0 <= i < |clips| ==> Obtainable(ClipPath(savePath, s.gameId, s.periodId, clips[i]), existing, produced)
    ensures var r := RunSetup(s, savePath, ignore, existing, produced);
      r.outcome.Raised? ==> r.outcome.error == RowRaised(PlanRows(s.rows, s.period, ignore).failure.value)
  {
    var plan := PlanRows(s.rows, s.period, ignore);
    var jobs := Jobs(plan.clips, s, savePath);
    WriteAllFailure(jobs, existing, produced);
    PlanFailure(s.rows, s.period, ignore);
  }

  /** The calls a task issues: each for a planned clip, in the clip's own ten-second window
      of the task's video, into a file that was not there, and no file twice. */
  lemma RunSetupIssues(s: Setup, savePath: string, ignore: seq<string>, existing: set<string>,
                       produced: set<string>)
    ensures var r := RunSetup(s, savePath, ignore, existing, produced);
      var clips := PlanRows(s.rows, s.period, ignore).clips;
      && (forall a :: 0 <= a < |r.issued| ==>
            && r.issued[a].output !in existing
            && exists i :: 0 <= i < |clips| && r.issued[a] == Job(clips[i], s, savePath))
      && (forall a, b :: 0 <= a < b < |r.issued| ==> r.issued[a].output != r.issued[b].output)
  {
    var clips := PlanRows(s.rows, s.period, ignore).clips;
    var jobs := Jobs(clips, s, savePath);
    WriteAllFresh(jobs, existing, produced);
    RunSetupIssued(s, savePath, ignore, existing, produced);
    var issued := WriteAll(jobs, existing, produced).issued;
    forall a | 0 <= a < |issued|
      ensures exists i :: 0 <= i < |clips| && issued[a] == Job(clips[i], s, savePath)
    {
      IndexOfMember(jobs, issued[a]);
    }
  }

  /** The calls of a task are those of writing its planned clips. */
  lemma RunSetupIssued(s: Setup, savePath: string, ignore: seq<string>, existing: set<string>,
                       produced: set<string>)
    ensures RunSetup(s, savePath, ignore, existing, produced).issued
      == WriteAll(Jobs(PlanRows(s.rows, s.period, ignore).clips, s, savePath), existing, produced).issued
  {
  }

  lemma IndexOfMember<T>(xs: seq<T>, x: T)
    requires x in xs
    ensures exists i :: 0 <= i < |xs| && xs[i] == x
  {
  }

  /** When every clip file can be obtained, a task never returns False after it has found
      its log: it returns True or re-raises the row loop's exception. */
  lemma ObtainableNeverGivesUp(video: string, videoPath: string, logs: LogListing, savePath: string,
                               ignore: seq<string>, existing: set<string>)
    requires Prepare(video, videoPath, logs).Ok?
    ensures var s := Prepare(video, videoPath, logs).value;
      var clips := PlanRows(s.rows, s.period, ignore).clips;
      var produced := set i | 0 <= i < |clips| :: ClipPath(savePath, s.gameId, s.periodId, clips[i]);
      ProcessVideoRun(video, videoPath, logs, savePath, ignore, existing, produced).outcome != Returned(false)
  {
    var s := Prepare(video, videoPath, logs).value;
    var clips := PlanRows(s.rows, s.period, ignore).clips;
    var produced := set i | 0 <= i < |clips| :: ClipPath(savePath, s.gameId, s.periodId, clips[i]);
    RunSetupOutcome(s, savePath, ignore, existing, produced);
  }

  // ---------------------------------------------------------------- the task, step by step

  /** The prefix of the plan is kept as more rows are read. */
  lemma {:induction false} PlanClipsGrow(rows: seq<LogRow>, n: nat, period: int, ignore: seq<string>)
    requires n <= |rows|
    ensures PlanRows(rows[..n], period, ignore).clips <= PlanRows(rows, period, ignore).clips
    decreases |rows|
  {
    if |rows| > n {
      var pre := rows[..|rows| - 1];
      assert pre[..n] == rows[..n];
      PlanClipsGrow(pre, n, period, ignore);
    } else {
      assert rows[..n] == rows;
    }
  }

  lemma JobsSnoc(clips: seq<PlannedClip>, c: PlannedClip, s: Setup, savePath: string)
    ensures Jobs(clips + [c], s, savePath) == Jobs(clips, s, savePath) + [Job(c, s, savePath)]
  {
  }

  lemma WriteAllSnoc(jobs: seq<Transcode>, job: Transcode, existing: set<string>, produced: set<string>)
    ensures var w := WriteAll(jobs, existing, produced);
      WriteAll(jobs + [job], existing, produced)
        == if w.failedAt.Some? then w else WriteStep(w, job, |jobs|, produced)
  {
    assert (jobs + [job])[..|jobs|] == jobs;
  }

  /** A file missing after the rows up to k is still what ends the whole task. */
  lemma GiveUpKept(rows: seq<LogRow>, k: nat, s: Setup, savePath: string, ignore: seq<string>,
                   existing: set<string>, produced: set<string>)
    requires k <= |rows|
    requires WriteAll(Jobs(PlanRows(rows[..k], s.period, ignore).clips, s, savePath), existing, produced).failedAt.Some?
    ensures WriteAll(Jobs(PlanRows(rows, s.period, ignore).clips, s, savePath), existing, produced)
      == WriteAll(Jobs(PlanRows(rows[..k], s.period, ignore).clips, s, savePath), existing, produced)
  {
    var a := PlanRows(rows[..k], s.period, ignore).clips;
    var b := PlanRows(rows, s.period, ignore).clips;
    PlanClipsGrow(rows, k, s.period, ignore);
    assert Jobs(a, s, savePath) == Jobs(b, s, savePath)[..|a|];
    WriteAllHalts(Jobs(b, s, savePath), |a|, existing, produced);
  }

  /** A row that yields a clip extends the plan by it. */
  lemma PlanEmit(rows: seq<LogRow>, k: nat, period: int, ignore: seq<string>,
                 clips: seq<PlannedClip>, extend: real, c: PlannedClip, e: real)
    requires k < |rows|
    requires PlanRows(rows[..k], period, ignore) == Plan(clips, extend, None)
    requires Decide(rows[k], period, ignore, extend) == Emit(c.playerId, c.playerName, e)
    requires c == PlannedClip(k, rows[k], c.playerId, c.playerName, rows[k].second.value + e)
    ensures PlanRows(rows[..k + 1], period, ignore) == Plan(clips + [c], e, None)
  {
    PlanRowsUnfold(rows, k, period, ignore);
  }

  /** A row that is skipped leaves the plan as it is. */
  lemma PlanSkip(rows: seq<LogRow>, k: nat, period: int, ignore: seq<string>,
                 clips: seq<PlannedClip>, extend: real)
    requires k < |rows|
    requires PlanRows(rows[..k], period, ignore) == Plan(clips, extend, None)
    requires Decide(rows[k], period, ignore, extend) == Skip
    ensures PlanRows(rows[..k + 1], period, ignore) == Plan(clips, extend, None)
  {
    PlanRowsUnfold(rows, k, period, ignore);
  }

  /** A row that raises ends the plan there. */
  lemma PlanRaise(rows: seq<LogRow>, k: nat, period: int, ignore: seq<string>,
                  clips: seq<PlannedClip>, extend: real, err: RowError)
    requires k < |rows|
    requires PlanRows(rows[..k], period, ignore) == Plan(clips, extend, None)
    requires Decide(rows[k], period, ignore, extend) == Raise(err)
    ensures PlanRows(rows, period, ignore) == Plan(clips, extend, Some(RowFailure(k, err)))
  {
    PlanRowsUnfold(rows, k, period, ignore);
    PlanHalts(rows, k + 1, |rows|, period, ignore);
    assert rows[..|rows|] == rows;
  }

  /** How a prepared task ends, by the plan and the writes of its clips. */
  lemma RunSetupEnds(s: Setup, savePath: string, ignore: seq<string>, existing: set<string>,
                     produced: set<string>, plan: Plan, w: Writes)
    requires PlanRows(s.rows, s.period, ignore) == plan
    requires WriteAll(Jobs(plan.clips, s, savePath), existing, produced) == w
    ensures RunSetup(s, savePath, ignore, existing, produced)
      == if w.failedAt.Some? then Run(w.issued, [FailureNote(s.gameId, s.currVideo)], Returned(false))
         else if plan.failure.Some? then Run(w.issued, [], Raised(RowRaised(plan.failure.value)))
         else Run(w.issued, [], Returned(true))
  {
  }

  /** The row loop of a prepared task as the code runs it: one pass that decides each row,
      asks for a missing clip file and gives up as soon as one is still missing. The file
      system is a local set: the files present so far. */
  method ScanRows(s: Setup, savePath: string, ignore: seq<string>, existing: set<string>,
                  produced: set<string>)
    returns (issued: seq<Transcode>, notes: seq<(string, string)>, outcome: TaskOutcome)
    ensures Run(issued, notes, outcome) == RunSetup(s, savePath, ignore, existing, produced)
  {
    issued := [];
    notes := [];
    var rows := s.rows;
    var extendTime := InitialExtend;
    var present := existing;
    ghost var clips: seq<PlannedClip> := [];
    ghost var jobs: seq<Transcode> := [];
    var k := 0;
    while k < |rows|
      invariant 0 <= k <= |rows|
      invariant PlanRows(rows[..k], s.period, ignore) == Plan(clips, extendTime, None)
      invariant jobs == Jobs(clips, s, savePath)
      invariant WriteAll(jobs, existing, produced) == Writes(issued, present, None)
      invariant notes == []
    {
      var row := rows[k];
      var d := DecideRow(row, s.period, ignore, extendTime);
      match d {
        case Skip =>
          PlanSkip(rows, k, s.period, ignore, clips, extendTime);
        case Raise(err) =>
          PlanRaise(rows, k, s.period, ignore, clips, extendTime, err);
          RunSetupEnds(s, savePath, ignore, existing, produced,
            Plan(clips, extendTime, Some(RowFailure(k, err))), Writes(issued, present, None));
          outcome := Raised(RowRaised(RowFailure(k, err)));
          return;
        case Emit(playerId, playerName, e) =>
          var c := PlannedClip(k, row, playerId, playerName, row.second.value + e);
          PlanEmit(rows, k, s.period, ignore, clips, extendTime, c, e);
          extendTime := e;
          var job := Job(c, s, savePath);
          JobsSnoc(clips, c, s, savePath);
          WriteAllSnoc(jobs, job, existing, produced);
          ghost var at := |jobs|;
          clips := clips + [c];
          jobs := jobs + [job];
          if job.output !in present {
            issued := issued + [job];
            if job.output in produced {
              present := present + {job.output};
            }
          }
          if job.output !in present {
            notes := [FailureNote(s.gameId, s.currVideo)];
            outcome := Returned(false);
            GiveUpKept(rows, k + 1, s, savePath, ignore, existing, produced);
            RunSetupEnds(s, savePath, ignore, existing, produced, PlanRows(rows, s.period, ignore),
              Writes(issued, present, Some(at)));
            return;
          }
      }
      assert PlanRows(rows[..k + 1], s.period, ignore) == Plan(clips, extendTime, None);
      k := k + 1;
    }
    assert rows[..|rows|] == rows;
    RunSetupEnds(s, savePath, ignore, existing, produced, Plan(clips, extendTime, None), Writes(issued, present, None));
    outcome := Returned(true);
  }

  /** A whole task: read the name, pick the log, then scan the rows. */
  method ProcessVideo(video: string, videoPath: string, logs: LogListing, savePath: string,
                      ignore: seq<string>, existing: set<string>, produced: set<string>)
    returns (issued: seq<Transcode>, notes: seq<(string, string)>, outcome: TaskOutcome)
    ensures Run(issued, notes, outcome) == ProcessVideoRun(video, videoPath, logs, savePath, ignore, existing, produced)
  {
    var prep := Prepare(video, videoPath, logs);
    if prep.Err? {
      return [], [], prep.error;
    }
    issued, notes, outcome := ScanRows(prep.value, savePath, ignore, existing, produced);
  }

  // ---------------------------------------------------------------- the driver

  /** The ignore list the driver builds: sixteen names, then two appended. */
  function DriverIgnore(): (r: seq<string>)
    ensures r == Ignore
  {
    var base := [
      "Start of the offensive possession", "Shooting guard", "Guard", "Center",
      "Power forward", "Forward", "Timeout", "Halftime", "2nd quarter", "Starting lineup",
      "3rd quarter", "1st quarter", "4th quarter", "Match end", "Game stop", "Ball in play"];
    base + ["Error leading to goal"] + ["Accurate pass"]
  }

  /** The videos the driver starts a task for: the listing without ".DS_Store", with the
      same multiplicities. */
  function Videos(listing: seq<string>): (r: seq<string>)
    ensures forall v :: v in r <==> v in listing && v != ".DS_Store"
    ensures multiset(r) == multiset(listing)[".DS_Store" := 0]
    decreases |listing|
  {
    if |listing| == 0 then []
    else
      var rest := Videos(listing[..|listing| - 1]);
      assert listing == listing[..|listing| - 1] + [listing[|listing| - 1]];
      if listing[|listing| - 1] == ".DS_Store" then rest else rest + [listing[|listing| - 1]]
  }

  /** The count of results equal to False, over the results in the order the tasks finish;
      fetching a task that raised re-raises its exception in the driver. */
  function FailedCount(results: seq<TaskOutcome>): Result<nat, TaskError>
    decreases |results|
  {
    if |results| == 0 then Ok(0)
    else
      match FailedCount(results[..|results| - 1])
      case Err(e) => Err(e)
      case Ok(n) =>
        match results[|results| - 1]
        case Raised(e) => Err(e)
        case Returned(ok) => Ok(if ok then n else n + 1)
        case NoResult => Ok(n)
  }

  /** The driver fails exactly when some task raised, and then with the first exception
      fetched; otherwise the count is the number of results equal to False, so neither
      None nor True is counted, and the order the tasks finish in does not matter. */
  lemma {:induction false} FailedCountSpec(results: seq<TaskOutcome>)
    ensures FailedCount(results).Ok? <==> forall i :: 0 <= i < |results| ==> !results[i].Raised?
    ensures FailedCount(results).Ok? ==> FailedCount(results).value == multiset(results)[Returned(false)]
    ensures FailedCount(results).Err? ==>
      exists i :: 0 <= i < |results|
        && results[i] == Raised(FailedCount(results).error)
        && forall j :: 0 <= j < i ==> !results[j].Raised?
    decreases |results|
  {
    if |results| > 0 {
      var pre := results[..|results| - 1];
      FailedCountSpec(pre);
      assert results == pre + [results[|results| - 1]];
      assert forall i :: 0 <= i < |pre| ==> pre[i] == results[i];
      if FailedCount(pre).Err? {
        var i :| 0 <= i < |pre| && pre[i] == Raised(FailedCount(pre).error) && forall j :: 0 <= j < i ==> !pre[j].Raised?;
        assert results[i] == pre[i];
      }
    }
  }

  /** Two completion orders of the same results give the same count. */
  lemma FailedCountOrderFree(a: seq<TaskOutcome>, b: seq<TaskOutcome>)
    requires multiset(a) == multiset(b)
    ensures FailedCount(a).Ok? <==> FailedCount(b).Ok?
    ensures FailedCount(a).Ok? ==> FailedCount(a) == FailedCount(b)
  {
    FailedCountSpec(a);
    FailedCountSpec(b);
    forall i | 0 <= i < |a| && a[i].Raised?
      ensures exists j :: 0 <= j < |b| && b[j].Raised?
    {
      assert a[i] in multiset(a);
      assert a[i] in b;
    }
    forall j | 0 <= j < |b| && b[j].Raised?
      ensures exists i :: 0 <= i < |a| && a[i].Raised?
    {
      assert b[j] in multiset(b);
      assert b[j] in a;
    }
  }

  /** The driver's counting loop, over the results in the order the tasks finish. */
  method CountFailed(results: seq<TaskOutcome>) returns (r: Result<nat, TaskError>)
    ensures r == FailedCount(results)
  {
    var numFailed := 0;
    var i := 0;
    while i < |results|
      invariant 0 <= i <= |results|
      invariant FailedCount(results[..i]) == Ok(numFailed)
    {
      assert results[..i + 1][..i] == results[..i];
      var done := results[i];
      if done.Raised? {
        FailedCountHalts(results, i + 1, done.error);
        return Err(done.error);
      }
      if done == Returned(false) {
        numFailed := numFailed + 1;
      }
      i := i + 1;
    }
    assert results[..|results|] == results;
    r := Ok(numFailed);
  }

  /** Once an exception is fetched the rest is not looked at. */
  lemma {:induction false} FailedCountHalts(results: seq<TaskOutcome>, n: nat, e: TaskError)
    requires n <= |results|
    requires FailedCount(results[..n]) == Err(e)
    ensures FailedCount(results) == Err(e)
    decreases |results|
  {
    if |results| > n {
      var pre := results[..|results| - 1];
      assert pre[..n] == results[..n];
      FailedCountHalts(pre, n, e);
    } else {
      assert results[..n] == results;
    }
  }
}
