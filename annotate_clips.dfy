/** Cutting clip annotations out of a full-period video annotation.

    A clip is described by the moment its action ends (`startTime`, in seconds of video) and
    a fixed length of ten seconds before it. The clip keeps the frames whose ids fall in the
    half-open frame window, renumbered from zero, and gets an id, a path and a caption of
    its own. The logged action rows of one period are scanned in order; each qualifying row
    yields one clip, padded past the logged second by a margin that depends on the action
    and carries over from row to row. */
module AnnotateClips {
  import opened Common
  import opened PyBuiltins
  import opened AnnotTypes

  // ---------------------------------------------------------------- constants

  /** Frames per second of every video in the dataset. */
  const FPS: real := 30.0

  /** Length of every clip, in seconds. */
  const ClipDuration: real := 10.0

  /** Padding before any free-throw or turnover row has been seen. */
  const InitialExtend: real := 3.5

  /** Padding set by an action whose name contains the character '1'. */
  const OneExtend: real := 4.5

  /** Padding set by a turnover. */
  const TurnoverExtend: real := 2.5

  /** Log rows with these action names never yield a clip. */
  const Ignore: seq<string> := [
    "Start of the offensive possession", "Shooting guard", "Guard", "Center",
    "Power forward", "Forward", "Timeout", "Halftime", "2nd quarter", "Starting lineup",
    "3rd quarter", "1st quarter", "4th quarter", "Match end", "Game stop", "Ball in play",
    "Error leading to goal", "Accurate pass"]

  // ---------------------------------------------------------------- the frame window

  /** What a clip is cut from: the time its window ends, its length, the log row id, the
      action, the actor's name (None when the log has no name) and the clip's file name. */
  datatype ClipInfo = ClipInfo(
    startTime: real,
    duration: real,
    actionId: nat,
    actionName: string,
    playerName: Option<string>,
    outputPath: string)

  /** First frame of the window: the window's opening time in frames, truncated toward zero. */
  function StartFrame(info: ClipInfo): int {
    Trunc((info.startTime - info.duration) * FPS)
  }

  /** One past the last frame of the window. */
  function EndFrame(info: ClipInfo): int {
    Trunc(info.startTime * FPS)
  }

  /** A ten-second window spans 300 frames, except when the closing frame time is in
      [0, 300) and not integral: then truncation toward zero rounds the negative opening
      frame up but the closing one down, which leaves 299 frames. When both are negative,
      both move up by one. Flooring both ends would always give 300. */
  lemma ClipWindowWidth(t: real)
    ensures var x := t * FPS;
      Trunc(x) - Trunc((t - ClipDuration) * FPS)
        == if 0.0 <= x < 300.0 && x != x.Floor as real then 299 else 300
    ensures (t * FPS).Floor - ((t - ClipDuration) * FPS).Floor == 300
  {
    var x := t * FPS;
    var y := (t - ClipDuration) * FPS;
    assert y == x - 300.0;
    assert y.Floor == x.Floor - 300;
    if 0.0 <= x < 300.0 && x != x.Floor as real {
      assert Trunc(x) == x.Floor;
      assert Trunc(y) == y.Floor + 1;
    } else if x >= 300.0 {
      assert Trunc(x) == x.Floor && Trunc(y) == y.Floor;
    } else if x < 0.0 {
      assert Trunc(x) == -((-x).Floor) && Trunc(y) == -((-y).Floor);
      assert (-y).Floor == (-x).Floor + 300;
    } else {
      assert x == x.Floor as real && y == y.Floor as real;
    }
  }

  // ---------------------------------------------------------------- rebasing frame indices

  function RebaseBox(b: Bbox, d: int): Bbox {
    b.(frameNumber := b.frameNumber - d)
  }

  function RebaseBoxes(bs: seq<Bbox>, d: int): seq<Bbox> {
    seq(|bs|, i requires 0 <= i < |bs| => RebaseBox(bs[i], d))
  }

  /** A copy of the frame in which the frame id, every box's frame number and the
      tracklet's frame number are d smaller; nothing else differs. */
  function RebaseFrame(f: FrameAnnotation, d: int): (g: FrameAnnotation)
    ensures g.frameId == f.frameId - d
    ensures g.bbox.None? <==> f.bbox.None?
    ensures f.bbox.Some? ==> |g.bbox.value| == |f.bbox.value|
    ensures f.bbox.Some? ==> forall i :: 0 <= i < |f.bbox.value| ==>
      g.bbox.value[i] == f.bbox.value[i].(frameNumber := f.bbox.value[i].frameNumber - d)
    ensures g.tracklet.None? <==> f.tracklet.None?
    ensures f.tracklet.Some? ==>
      g.tracklet.value == f.tracklet.value.(frameNumber := f.tracklet.value.frameNumber - d)
  {
    FrameAnnotation(
      f.frameId - d,
      match f.bbox
      case None => None
      case Some(bs) => Some(RebaseBoxes(bs, d)),
      match f.tracklet
      case None => None
      case Some(t) => Some(t.(frameNumber := t.frameNumber - d)))
  }

  /** Rebasing by -d undoes rebasing by d, so rebasing loses nothing. */
  lemma RebaseFrameInverse(f: FrameAnnotation, d: int)
    ensures RebaseFrame(RebaseFrame(f, d), -d) == f
  {
    var g := RebaseFrame(RebaseFrame(f, d), -d);
    if f.bbox.Some? {
      assert g.bbox.value == f.bbox.value;
    }
  }

  /** Deep-copies a frame and shifts its indices, updating the boxes of the copy one at a
      time; the frame given is a value and stays as it was. */
  method RebaseFrameCopy(frame: FrameAnnotation, d: int) returns (g: FrameAnnotation)
    ensures g == RebaseFrame(frame, d)
  {
    g := frame.(frameId := frame.frameId - d);
    if g.bbox.Some? && |g.bbox.value| > 0 {
      var boxes := g.bbox.value;
      var j := 0;
      while j < |boxes|
        invariant 0 <= j <= |boxes| == |frame.bbox.value|
        invariant forall i :: 0 <= i < j ==> boxes[i] == RebaseBox(frame.bbox.value[i], d)
        invariant forall i :: j <= i < |boxes| ==> boxes[i] == frame.bbox.value[i]
      {
        boxes := boxes[j := boxes[j].(frameNumber := boxes[j].frameNumber - d)];
        j := j + 1;
      }
      assert boxes == RebaseBoxes(frame.bbox.value, d);
      g := g.(bbox := Some(boxes));
    }
    if g.tracklet.Some? {
      g := g.(tracklet := Some(g.tracklet.value.(frameNumber := g.tracklet.value.frameNumber - d)));
    }
  }

  // ---------------------------------------------------------------- the frames of a clip

  /** The frames with s <= frame id < e, in their order, each rebased by s. */
  function ClipFrames(frames: seq<FrameAnnotation>, s: int, e: int): seq<FrameAnnotation>
    decreases |frames|
  {
    if |frames| == 0 then []
    else
      var f := frames[|frames| - 1];
      ClipFrames(frames[..|frames| - 1], s, e) + (if s <= f.frameId < e then [RebaseFrame(f, s)] else [])
  }

  /** Clipping distributes over concatenation: the clip keeps the source order. */
  lemma {:induction false} ClipFramesConcat(a: seq<FrameAnnotation>, b: seq<FrameAnnotation>, s: int, e: int)
    ensures ClipFrames(a + b, s, e) == ClipFrames(a, s, e) + ClipFrames(b, s, e)
    decreases |b|
  {
    if |b| == 0 {
      assert a + b == a;
    } else {
      var b' := b[..|b| - 1];
      assert (a + b)[..|a + b| - 1] == a + b';
      assert (a + b)[|a + b| - 1] == b[|b| - 1];
      ClipFramesConcat(a, b', s, e);
    }
  }

  /** A frame g is in the clip exactly when the source holds g shifted back by s and g's id
      lies in [0, e - s): the frame at s is kept, the frame at e is not. */
  lemma {:induction false} ClipFramesMembership(frames: seq<FrameAnnotation>, s: int, e: int, g: FrameAnnotation)
    ensures g in ClipFrames(frames, s, e) <==> (0 <= g.frameId < e - s && RebaseFrame(g, -s) in frames)
    decreases |frames|
  {
    if |frames| > 0 {
      var pre := frames[..|frames| - 1];
      var f := frames[|frames| - 1];
      ClipFramesMembership(pre, s, e, g);
      assert frames == pre + [f];
      RebaseFrameInverse(f, s);
      RebaseFrameInverse(g, -s);
      assert RebaseFrame(g, -s) == f <==> g == RebaseFrame(f, s);
    }
  }

  /** An empty or inverted window gives no frames, and no error. */
  lemma ClipFramesEmptyWindow(frames: seq<FrameAnnotation>, s: int, e: int)
    requires e <= s
    ensures ClipFrames(frames, s, e) == []
  {
    var c := ClipFrames(frames, s, e);
    if |c| > 0 {
      ClipFramesMembership(frames, s, e, c[0]);
    }
  }

  /** Strictly increasing frame ids stay strictly increasing in the clip. */
  lemma {:induction false} ClipFramesIncreasing(frames: seq<FrameAnnotation>, s: int, e: int)
    requires StrictlyIncreasingIds(frames)
    ensures StrictlyIncreasingIds(ClipFrames(frames, s, e))
    decreases |frames|
  {
    if |frames| > 0 {
      var pre := frames[..|frames| - 1];
      var f := frames[|frames| - 1];
      ClipFramesIncreasing(pre, s, e);
      var c := ClipFrames(pre, s, e);
      forall g | g in c
        ensures g.frameId < f.frameId - s
      {
        ClipFramesMembership(pre, s, e, g);
        var k :| 0 <= k < |pre| && pre[k] == RebaseFrame(g, -s);
        assert frames[k] == pre[k];
      }
      if s <= f.frameId < e {
        var c' := c + [RebaseFrame(f, s)];
        forall i, j | 0 <= i < j < |c'|
          ensures c'[i].frameId < c'[j].frameId
        {
          if j == |c| {
            assert c'[i] in c;
          }
        }
      }
    }
  }

  /** Cutting never touches a moment: each tracklet of the clip carries the moment of the
      source frame it was cut from, so the positions it holds, the ball's among them, are
      the recorded ones. */
  lemma ClipKeepsMoments(frames: seq<FrameAnnotation>, s: int, e: int, g: FrameAnnotation)
    requires g in ClipFrames(frames, s, e) && g.tracklet.Some?
    ensures exists f ::
              && f in frames && f.frameId == g.frameId + s && f.tracklet.Some?
              && f.tracklet.value.moment == g.tracklet.value.moment
              && f.tracklet.value.predQuarter == g.tracklet.value.predQuarter
  {
    ClipFramesMembership(frames, s, e, g);
    var f := RebaseFrame(g, -s);
    assert f in frames;
  }

  // ---------------------------------------------------------------- the clip annotation

  /** How Python formats an optional text in an f-string: a missing value prints as nan. */
  function PyStr(v: Option<string>): string {
    match v
    case None => "nan"
    case Some(x) => x
  }

  function Caption(actionName: string, playerName: Option<string>): string {
    actionName + " by " + PyStr(playerName)
  }

  /** The integer whose decimal text is the video id's text followed by the row id's: the
      row id fills the low digits, below a power of ten just above it, and the sign is the
      video id's. */
  function ClipVideoId(videoId: int, actionId: nat): (r: int)
    ensures (r < 0) == (videoId < 0)
    ensures var k := Pow10(|NatToString(actionId)|);
      actionId < k && Abs(r) == Abs(videoId) * k + actionId
  {
    var k := Pow10(|NatToString(actionId)|);
    SignedShift(videoId, k, actionId);
    if videoId < 0 then videoId * k - actionId else videoId * k + actionId
  }

  /** Shifting v by k and putting a below it, away from zero, keeps v's sign and adds a to the
      shifted magnitude. */
  lemma SignedShift(v: int, k: nat, a: nat)
    requires a < k
    ensures var r := if v < 0 then v * k - a else v * k + a;
      (r < 0) == (v < 0) && Abs(r) == Abs(v) * k + a
  {
    if v < 0 {
      assert v * k + k <= 0 by { assert v * k == -((-v) * k); assert (-v) * k >= k; }
      assert -(v * k - a) == (-v) * k + a;
    } else {
      assert v * k >= 0;
    }
  }

  function Abs(n: int): nat {
    if n < 0 then -n else n
  }

  /** The digits of the two ids, one after the other, denote the magnitude of the derived id. */
  lemma ClipVideoIdDigits(videoId: int, actionId: nat)
    ensures var va := NatToString(Abs(videoId)) + NatToString(actionId);
      |va| >= 1 && AllDigits(va) && DigitsValue(va) == Abs(ClipVideoId(videoId, actionId))
  {
    DigitsValueConcat(NatToString(Abs(videoId)), NatToString(actionId));
  }

  /** The text f"{videoId}{actionId}" is its own strip(), a '-' before those digits when the
      video id is negative, and those digits alone otherwise. */
  lemma ClipVideoIdText(videoId: int, actionId: nat)
    ensures var t := IntToString(videoId) + NatToString(actionId);
      var va := NatToString(Abs(videoId)) + NatToString(actionId);
      && Strip(t) == t
      && (videoId < 0 ==> |t| >= 1 && t[0] == '-' && t[1..] == va)
      && (videoId >= 0 ==> t == va)
  {
    IntToStringShape(videoId);
    AppendDigitsShape(IntToString(videoId), NatToString(actionId));
  }

  /** int(f"{videoId}{actionId}") is ClipVideoId(videoId, actionId). */
  lemma ClipVideoIdIsConcatenation(videoId: int, actionId: nat)
    ensures ParseInt(IntToString(videoId) + NatToString(actionId)) == Some(ClipVideoId(videoId, actionId))
  {
    var t := IntToString(videoId) + NatToString(actionId);
    var va := NatToString(Abs(videoId)) + NatToString(actionId);
    ClipVideoIdDigits(videoId, actionId);
    ClipVideoIdText(videoId, actionId);
    if videoId < 0 {
      ParseIntOfNegatedDigits(t, va);
    } else {
      ParseIntOfDigits(va);
    }
  }

  /** The clip of a video annotation: the window's frames, the derived id, the clip's path,
      the caption "<action> by <player>", and no action yet. */
  function ClipOf(video: VideoAnnotation, info: ClipInfo): VideoAnnotation {
    VideoAnnotation(
      ClipVideoId(video.videoId, info.actionId),
      info.outputPath,
      ClipFrames(video.frames, StartFrame(info), EndFrame(info)),
      Some(Caption(info.actionName, info.playerName)),
      None)
  }

  /** Cuts a clip annotation out of a video annotation, copying and rebasing the frames of
      the window one by one. */
  method SplitVideoAnnotation(video: VideoAnnotation, info: ClipInfo) returns (clip: VideoAnnotation)
    ensures clip == ClipOf(video, info)
  {
    var startFrame := Trunc((info.startTime - info.duration) * FPS);
    var endFrame := Trunc(info.startTime * FPS);
    var clipFrames: seq<FrameAnnotation> := [];
    var k := 0;
    while k < |video.frames|
      invariant 0 <= k <= |video.frames|
      invariant clipFrames == ClipFrames(video.frames[..k], startFrame, endFrame)
    {
      var frame := video.frames[k];
      if startFrame <= frame.frameId < endFrame {
        var newFrame := RebaseFrameCopy(frame, startFrame);
        clipFrames := clipFrames + [newFrame];
      }
      assert video.frames[..k + 1][..k] == video.frames[..k];
      k := k + 1;
    }
    assert video.frames[..k] == video.frames;
    clip := VideoAnnotation(
      ClipVideoId(video.videoId, info.actionId),
      info.outputPath,
      clipFrames,
      Some(info.actionName + " by " + PyStr(info.playerName)),
      None);
  }

  // ---------------------------------------------------------------- log rows

  /** One row of a game log as the table reader gives it; None is a missing cell. Integer
      columns hold integers, the time and position columns reals, the others text; every
      row has an id. */
  datatype LogRow = LogRow(
    id: nat,
    actionId: Option<int>,
    actionName: Option<string>,
    playerId: Option<int>,
    playerName: Option<string>,
    teamId: Option<int>,
    teamName: Option<string>,
    opponentId: Option<int>,
    opponentName: Option<string>,
    opponentTeamId: Option<int>,
    opponentTeamName: Option<string>,
    teammateId: Option<int>,
    teammateName: Option<string>,
    half: Option<int>,
    second: Option<real>,
    posX: Option<real>,
    posY: Option<real>,
    possessionId: Option<int>,
    possessionName: Option<string>,
    possessionTeamId: Option<int>,
    possessionTeamName: Option<string>,
    possessionNumber: Option<int>,
    possessionStartClear: Option<real>,
    possessionEndClear: Option<string>,
    playtype: Option<string>,
    hand: Option<string>,
    shotType: Option<string>,
    drive: Option<string>,
    dribbleMove: Option<string>,
    contesting: Option<string>,
    ts: Option<string>)

  /** The exceptions the row loop can raise, each ending the whole run. */
  datatype RowError =
    | HalfMissing        // int() of a missing half
    | ActionNameMissing  // the test '1' in <missing action name>
    | PlayerIdMissing    // int() of a missing player id

  /** What the loop does with one row: nothing, a clip with this actor and padding, or an
      exception. */
  datatype Decision =
    | Skip
    | Emit(playerId: int, playerName: Option<string>, extend: real)
    | Raise(error: RowError)

  predicate Ignored(row: LogRow, ignore: seq<string>) {
    row.actionName.Some? && row.actionName.value in ignore
  }

  predicate IsAssist(row: LogRow) {
    row.actionName == Some("Assisting")
  }

  /** The row is of this period and passes the name, second and player-name filters. */
  predicate Considered(row: LogRow, period: int, ignore: seq<string>) {
    row.half == Some(period) && !Ignored(row, ignore) && row.second.Some? && row.playerName.Some?
  }

  /** The row yields a clip: an assist needs its teammate, any other action its name and
      its player. */
  predicate Qualifies(row: LogRow, period: int, ignore: seq<string>) {
    && Considered(row, period, ignore)
    && if IsAssist(row) then row.teammateId.Some? else row.actionName.Some? && row.playerId.Some?
  }

  /** The row makes the loop raise: no half at all, or a row past the filters that is no
      assist and lacks its action name or its player id. */
  predicate Raises(row: LogRow, period: int, ignore: seq<string>) {
    || row.half.None?
    || (Considered(row, period, ignore) && !IsAssist(row) && (row.actionName.None? || row.playerId.None?))
  }

  /** The exception a raising row produces. */
  function ErrorOf(row: LogRow): RowError {
    if row.half.None? then HalfMissing
    else if row.actionName.None? then ActionNameMissing
    else PlayerIdMissing
  }

  /** A qualifying row that changes the padding: a free-throw-like name (one holding '1')
      or a turnover. */
  predicate SetsPadding(row: LogRow, period: int, ignore: seq<string>) {
    && Qualifies(row, period, ignore)
    && !IsAssist(row)
    && (Contains(row.actionName.value, "1") || row.actionName.value == "Turnover")
  }

  /** The padding a padding-setting name sets. */
  function PaddingOf(name: string): real {
    if Contains(name, "1") then OneExtend else TurnoverExtend
  }

  /** The actor of a qualifying row: the teammate for an assist, the player otherwise. */
  function Actor(row: LogRow, period: int, ignore: seq<string>): (int, Option<string>)
    requires Qualifies(row, period, ignore)
  {
    if IsAssist(row) then (row.teammateId.value, row.teammateName)
    else (row.playerId.value, row.playerName)
  }

  /** The loop body on one row, given the padding carried in. The branches are the
      source's; the contract states them as the filters above. */
  function Decide(row: LogRow, period: int, ignore: seq<string>, extend: real): (d: Decision)
    ensures d.Emit? <==> Qualifies(row, period, ignore)
    ensures d.Raise? <==> Raises(row, period, ignore)
    ensures d.Raise? ==> d.error == ErrorOf(row)
    ensures d.Emit? ==> (d.playerId, d.playerName) == Actor(row, period, ignore)
    ensures d.Emit? ==>
      d.extend == if SetsPadding(row, period, ignore) then PaddingOf(row.actionName.value) else extend
  {
    if row.half.None? then Raise(HalfMissing)
    else if row.half.value != period then Skip
    else if (row.actionName.Some? && row.actionName.value in ignore)
      || row.second.None? || row.playerName.None? then Skip
    else if row.actionName == Some("Assisting") then
      if row.teammateId.None? then Skip else Emit(row.teammateId.value, row.teammateName, extend)
    else if row.actionName.None? then Raise(ActionNameMissing)
    else
      var name := row.actionName.value;
      var e := if Contains(name, "1") then OneExtend else if name == "Turnover" then TurnoverExtend else extend;
      if row.playerId.None? then Raise(PlayerIdMissing) else Emit(row.playerId.value, row.playerName, e)
  }

  // ---------------------------------------------------------------- the plan of a log

  /** A clip the loop cuts: the row's position and value, the actor and the time the clip
      window ends. */
  datatype PlannedClip = PlannedClip(
    index: nat,
    row: LogRow,
    playerId: int,
    playerName: Option<string>,
    startTime: real)

  /** The exception that ended the loop, and the position of the row that raised it. */
  datatype RowFailure = RowFailure(index: nat, error: RowError)

  /** The loop's state: the clips so far, the padding carried and the exception, if any. */
  datatype Plan = Plan(clips: seq<PlannedClip>, extend: real, failure: Option<RowFailure>)

  /** One iteration on the row at position k. */
  function Step(p: Plan, row: LogRow, k: nat, period: int, ignore: seq<string>): Plan {
    match Decide(row, period, ignore, p.extend)
    case Skip => p
    case Raise(err) => p.(failure := Some(RowFailure(k, err)))
    case Emit(pid, pname, e) =>
      Plan(p.clips + [PlannedClip(k, row, pid, pname, row.second.value + e)], e, None)
  }

  /** The loop over the rows, from a padding of 3.5; after an exception nothing changes. */
  function PlanRows(rows: seq<LogRow>, period: int, ignore: seq<string>): Plan
    decreases |rows|
  {
    if |rows| == 0 then Plan([], InitialExtend, None)
    else
      var p := PlanRows(rows[..|rows| - 1], period, ignore);
      if p.failure.Some? then p else Step(p, rows[|rows| - 1], |rows| - 1, period, ignore)
  }

  /** The padding after the rows, defined on its own: the one set by the last
      padding-setting row, or 3.5 when there is none. */
  function PaddingAfter(rows: seq<LogRow>, period: int, ignore: seq<string>): real
    decreases |rows|
  {
    if |rows| == 0 then InitialExtend
    else if SetsPadding(rows[|rows| - 1], period, ignore) then PaddingOf(rows[|rows| - 1].actionName.value)
    else PaddingAfter(rows[..|rows| - 1], period, ignore)
  }

  /** The positions of the qualifying rows, in order. */
  function QualifyingIndices(rows: seq<LogRow>, period: int, ignore: seq<string>): seq<nat>
    decreases |rows|
  {
    if |rows| == 0 then []
    else
      QualifyingIndices(rows[..|rows| - 1], period, ignore)
        + if Qualifies(rows[|rows| - 1], period, ignore) then [|rows| - 1] else []
  }

  function Indices(clips: seq<PlannedClip>): seq<nat> {
    seq(|clips|, i requires 0 <= i < |clips| => clips[i].index)
  }

  /** The plan of rows[..k + 1] in terms of the plan of rows[..k]. */
  lemma PlanRowsUnfold(rows: seq<LogRow>, k: nat, period: int, ignore: seq<string>)
    requires k < |rows|
    ensures var p := PlanRows(rows[..k], period, ignore);
      PlanRows(rows[..k + 1], period, ignore)
        == if p.failure.Some? then p else Step(p, rows[k], k, period, ignore)
  {
    assert rows[..k + 1][..k] == rows[..k];
  }

  /** Once an exception is raised the later rows change nothing. */
  lemma {:induction false} PlanHalts(rows: seq<LogRow>, n: nat, m: nat, period: int, ignore: seq<string>)
    requires n <= m <= |rows|
    requires PlanRows(rows[..n], period, ignore).failure.Some?
    ensures PlanRows(rows[..m], period, ignore) == PlanRows(rows[..n], period, ignore)
    decreases m
  {
    if m > n {
      PlanHalts(rows, n, m - 1, period, ignore);
      PlanRowsUnfold(rows, m - 1, period, ignore);
    }
  }

  /** The loop raises exactly when some row raises, and then at the first such row with
      that row's exception. */
  lemma {:induction false} PlanFailure(rows: seq<LogRow>, period: int, ignore: seq<string>)
    ensures var p := PlanRows(rows, period, ignore);
      p.failure.None? <==> forall k :: 0 <= k < |rows| ==> !Raises(rows[k], period, ignore)
    ensures var p := PlanRows(rows, period, ignore);
      p.failure.Some? ==>
        var k := p.failure.value.index;
        && k < |rows|
        && Raises(rows[k], period, ignore)
        && (forall j :: 0 <= j < k ==> !Raises(rows[j], period, ignore))
        && p.failure.value.error == ErrorOf(rows[k])
    decreases |rows|
  {
    if |rows| > 0 {
      var pre := rows[..|rows| - 1];
      PlanFailure(pre, period, ignore);
      assert forall k :: 0 <= k < |pre| ==> pre[k] == rows[k];
    }
  }

  /** Without an exception, the padding the loop carries is the one PaddingAfter names. */
  lemma {:induction false} PlanExtend(rows: seq<LogRow>, period: int, ignore: seq<string>)
    requires PlanRows(rows, period, ignore).failure.None?
    ensures PlanRows(rows, period, ignore).extend == PaddingAfter(rows, period, ignore)
    decreases |rows|
  {
    if |rows| > 0 {
      PlanExtend(rows[..|rows| - 1], period, ignore);
    }
  }

  /** The clip was cut for the row at its position, which qualifies, with that row's actor,
      ending at the row's second plus the padding in force after the row. */
  predicate ClipOfRow(c: PlannedClip, rows: seq<LogRow>, period: int, ignore: seq<string>) {
    && c.index < |rows|
    && c.row == rows[c.index]
    && Qualifies(c.row, period, ignore)
    && (c.playerId, c.playerName) == Actor(c.row, period, ignore)
    && c.startTime == c.row.second.value + PaddingAfter(rows[..c.index + 1], period, ignore)
  }

  /** The clips are cut for exactly the qualifying rows before the first exception, in
      order. */
  lemma {:induction false} PlanClipIndices(rows: seq<LogRow>, period: int, ignore: seq<string>)
    ensures var p := PlanRows(rows, period, ignore);
      var stop := if p.failure.Some? then p.failure.value.index else |rows|;
      stop <= |rows| && Indices(p.clips) == QualifyingIndices(rows[..stop], period, ignore)
    decreases |rows|
  {
    PlanFailure(rows, period, ignore);
    if |rows| > 0 {
      var n := |rows| - 1;
      var pre := rows[..n];
      PlanClipIndices(pre, period, ignore);
      var q := PlanRows(pre, period, ignore);
      var p := PlanRows(rows, period, ignore);
      if q.failure.Some? {
        assert rows[..q.failure.value.index] == pre[..q.failure.value.index];
      } else {
        assert pre[..|pre|] == pre;
        assert rows[..|rows|] == rows;
        var d := Decide(rows[n], period, ignore, q.extend);
        match d
        case Emit(pid, pname, e) =>
          assert p.clips == q.clips + [PlannedClip(n, rows[n], pid, pname, rows[n].second.value + e)];
          assert Indices(p.clips) == Indices(q.clips) + [n];
        case Skip =>
          assert p == q;
        case Raise(_) =>
          assert p.clips == q.clips;
      }
    }
  }

  /** Clips cut for rows of a prefix are cut for those rows of the whole log. */
  lemma ClipsOfRowsExtend(clips: seq<PlannedClip>, pre: seq<LogRow>, rows: seq<LogRow>, period: int,
                          ignore: seq<string>)
    requires |pre| <= |rows| && pre == rows[..|pre|]
    requires forall i :: 0 <= i < |clips| ==> ClipOfRow(clips[i], pre, period, ignore)
    ensures forall i :: 0 <= i < |clips| ==> ClipOfRow(clips[i], rows, period, ignore)
  {
    forall i | 0 <= i < |clips|
      ensures ClipOfRow(clips[i], rows, period, ignore)
    {
      var c := clips[i];
      assert ClipOfRow(c, pre, period, ignore);
      assert pre[..c.index + 1] == rows[..c.index + 1];
    }
  }

  /** Each clip carries its row and that row's actor, and ends at the row's second plus
      the padding in force after that row. */
  lemma {:induction false} PlanClipRows(rows: seq<LogRow>, period: int, ignore: seq<string>)
    ensures forall i :: 0 <= i < |PlanRows(rows, period, ignore).clips| ==>
      ClipOfRow(PlanRows(rows, period, ignore).clips[i], rows, period, ignore)
    decreases |rows|
  {
    if |rows| > 0 {
      var n := |rows| - 1;
      var pre := rows[..n];
      PlanClipRows(pre, period, ignore);
      var q := PlanRows(pre, period, ignore);
      var p := PlanRows(rows, period, ignore);
      ClipsOfRowsExtend(q.clips, pre, rows, period, ignore);
      if q.failure.None? {
        match Decide(rows[n], period, ignore, q.extend)
        case Emit(pid, pname, e) =>
          var c := PlannedClip(n, rows[n], pid, pname, rows[n].second.value + e);
          assert p.clips == q.clips + [c];
          PlanExtend(pre, period, ignore);
          assert rows[..n + 1] == rows;
          assert ClipOfRow(c, rows, period, ignore);
          forall i | 0 <= i < |p.clips|
            ensures ClipOfRow(p.clips[i], rows, period, ignore)
          {
            if i < |q.clips| {
              assert p.clips[i] == q.clips[i];
            }
          }
        case Skip =>
        case Raise(_) =>
      }
    }
  }

  // ---------------------------------------------------------------- names and records

  /** The clip's file name: game id, period id, action name and row id joined by '_'. */
  function ClipFileName(gameId: int, periodId: string, actionName: string, id: nat): string {
    IntToString(gameId) + "_" + periodId + "_" + actionName + "_" + NatToString(id) + ".mp4"
  }

  /** The annotation file name of a clip file: ".mp4" replaced by "_annotation.json". */
  function AnnotationFileName(clipFile: string): string {
    ReplaceAll(clipFile, ".mp4", "_annotation.json")
  }

  lemma NoUnderscoreInNumber(n: int)
    ensures '_' !in IntToString(n) && '.' !in IntToString(n)
  {
    var d := NatToString(if n < 0 then -n else n);
    assert forall i :: 0 <= i < |d| ==> IsDigit(d[i]);
    if n < 0 {
      assert IntToString(n) == "-" + d;
    }
  }

  /** Splitting a clip file name on '_' gives back its four parts, provided the period id
      and the action name hold no '_'. */
  lemma ClipFileNameParts(gameId: int, periodId: string, actionName: string, id: nat)
    requires '_' !in periodId && '_' !in actionName
    ensures Split(ClipFileName(gameId, periodId, actionName, id), '_')
      == [IntToString(gameId), periodId, actionName, NatToString(id) + ".mp4"]
  {
    var parts := [IntToString(gameId), periodId, actionName, NatToString(id) + ".mp4"];
    NoUnderscoreInNumber(gameId);
    NoUnderscoreInNumber(id);
    assert IntToString(id) == NatToString(id);
    assert '_' !in NatToString(id) + ".mp4";
    assert Join(parts, '_') == ClipFileName(gameId, periodId, actionName, id) by {
      assert parts[2..][1..] == parts[3..] && parts[1..][1..] == parts[2..];
      assert Join(parts[3..], '_') == parts[3];
      assert Join(parts[2..], '_') == parts[2] + "_" + parts[3];
      assert Join(parts[1..], '_') == parts[1] + "_" + (parts[2] + "_" + parts[3]);
      assert Join(parts, '_') == parts[0] + "_" + (parts[1] + "_" + (parts[2] + "_" + parts[3]));
    }
    SplitJoin(parts, '_');
  }

  /** When neither the period id nor the action name holds a '.', only the final ".mp4" is
      replaced. */
  lemma AnnotationFileNameOfClip(gameId: int, periodId: string, actionName: string, id: nat)
    requires '.' !in periodId && '.' !in actionName
    ensures AnnotationFileName(ClipFileName(gameId, periodId, actionName, id))
      == IntToString(gameId) + "_" + periodId + "_" + actionName + "_" + NatToString(id) + "_annotation.json"
  {
    var stem := IntToString(gameId) + "_" + periodId + "_" + actionName + "_" + NatToString(id);
    NoUnderscoreInNumber(gameId);
    NoUnderscoreInNumber(id);
    assert IntToString(id) == NatToString(id);
    assert '.' !in stem;
    if Contains(stem, ".mp4") {
      ContainsFirstChar(stem, ".mp4");
    }
    assert ClipFileName(gameId, periodId, actionName, id) == stem + ".mp4";
    ReplaceSuffix(stem, ".mp4", "_annotation.json");
  }

  function OptIntToString(v: Option<int>): Option<string> {
    match v
    case None => None
    case Some(n) => Some(IntToString(n))
  }

  /** The action record attached to a clip: the row's fields, with the actor in place of
      the logged player, the ids the record keeps as text written in decimal, and the
      validator applied to every text field. */
  function BuildAction(row: LogRow, playerId: int, playerName: Option<string>): (a: ActionAnnotation)
    ensures NoEmptyText(a)
    ensures a.id == Some(row.id as int) && a.half == row.half && a.second == row.second
    ensures a.posX == row.posX && a.posY == row.posY
    ensures a.playerId == Some(IntToString(playerId))
    ensures a.actionId == OptIntToString(row.actionId)
    ensures a.teammateId == OptIntToString(row.teammateId)
    ensures a.actionName == EmptyStrToNone(row.actionName)
    ensures a.playerName == EmptyStrToNone(playerName)
  {
    Validated(ActionAnnotation(
      Some(row.id as int), OptIntToString(row.actionId), row.actionName,
      Some(IntToString(playerId)), playerName,
      row.teamId, row.teamName, row.opponentId, row.opponentName,
      row.opponentTeamId, row.opponentTeamName,
      OptIntToString(row.teammateId), row.teammateName,
      row.half, row.second, row.posX, row.posY,
      row.possessionId, row.possessionName, row.possessionTeamId, row.possessionTeamName,
      row.possessionNumber, row.possessionStartClear, row.possessionEndClear,
      row.playtype, row.hand, row.shotType, row.drive, row.dribbleMove, row.contesting, row.ts))
  }

  /** Every other column of the row reaches the record: the numeric ones as they are,
      the text ones through the validator. */
  lemma BuildActionFields(row: LogRow, playerId: int, playerName: Option<string>)
    ensures var a := BuildAction(row, playerId, playerName);
      && a.teamId == row.teamId && a.opponentId == row.opponentId
      && a.opponentTeamId == row.opponentTeamId && a.possessionId == row.possessionId
      && a.possessionTeamId == row.possessionTeamId && a.possessionNumber == row.possessionNumber
      && a.possessionStartClear == row.possessionStartClear
    ensures var a := BuildAction(row, playerId, playerName);
      && a.teamName == EmptyStrToNone(row.teamName)
      && a.opponentName == EmptyStrToNone(row.opponentName)
      && a.opponentTeamName == EmptyStrToNone(row.opponentTeamName)
      && a.teammateName == EmptyStrToNone(row.teammateName)
      && a.possessionName == EmptyStrToNone(row.possessionName)
      && a.possessionTeamName == EmptyStrToNone(row.possessionTeamName)
      && a.possessionEndClear == EmptyStrToNone(row.possessionEndClear)
    ensures var a := BuildAction(row, playerId, playerName);
      && a.playtype == EmptyStrToNone(row.playtype) && a.hand == EmptyStrToNone(row.hand)
      && a.shotType == EmptyStrToNone(row.shotType) && a.drive == EmptyStrToNone(row.drive)
      && a.dribbleMove == EmptyStrToNone(row.dribbleMove)
      && a.contesting == EmptyStrToNone(row.contesting) && a.ts == EmptyStrToNone(row.ts)
  {
  }

  /** The ids written as text read back as the row's integers. */
  lemma BuildActionIdsRoundTrip(row: LogRow, playerId: int, playerName: Option<string>)
    ensures var a := BuildAction(row, playerId, playerName);
      && ParseInt(a.playerId.value) == Some(playerId)
      && (a.actionId.Some? <==> row.actionId.Some?)
      && (row.actionId.Some? ==> ParseInt(a.actionId.value) == Some(row.actionId.value))
      && (a.teammateId.Some? <==> row.teammateId.Some?)
      && (row.teammateId.Some? ==> ParseInt(a.teammateId.value) == Some(row.teammateId.value))
  {
    ParseIntOfString(playerId);
    if row.actionId.Some? {
      ParseIntOfString(row.actionId.value);
    }
    if row.teammateId.Some? {
      ParseIntOfString(row.teammateId.value);
    }
  }

  // ---------------------------------------------------------------- the row loop

  /** The clip description the loop builds for a planned clip; the f-strings print a
      missing action name as nan. */
  function InfoOf(c: PlannedClip, gameId: int, periodId: string): ClipInfo {
    var name := PyStr(c.row.actionName);
    ClipInfo(c.startTime, ClipDuration, c.row.id, name, c.playerName,
      ClipFileName(gameId, periodId, name, c.row.id))
  }

  /** The folder the annotations of one game period are saved in. */
  function OutputFolder(outputPath: string, gameId: int, periodId: string): string {
    PathJoin(PathJoin(outputPath, IntToString(gameId)), periodId)
  }

  /** Where the annotation of a planned clip is saved, and the annotation saved: the clip
      of the video with the row's action attached. */
  function SavedFile(video: VideoAnnotation, gameId: int, periodId: string, outputPath: string,
                     c: PlannedClip): (string, VideoAnnotation)
  {
    var info := InfoOf(c, gameId, periodId);
    (PathJoin(OutputFolder(outputPath, gameId, periodId), AnnotationFileName(info.outputPath)),
     ClipOf(video, info).(action := Some(BuildAction(c.row, c.playerId, c.playerName))))
  }

  function SavedFiles(video: VideoAnnotation, gameId: int, periodId: string, outputPath: string,
                      clips: seq<PlannedClip>): seq<(string, VideoAnnotation)>
  {
    seq(|clips|, i requires 0 <= i < |clips| => SavedFile(video, gameId, periodId, outputPath, clips[i]))
  }

  lemma SavedFilesSnoc(video: VideoAnnotation, gameId: int, periodId: string, outputPath: string,
                       clips: seq<PlannedClip>, c: PlannedClip)
    ensures SavedFiles(video, gameId, periodId, outputPath, clips + [c])
      == SavedFiles(video, gameId, periodId, outputPath, clips) + [SavedFile(video, gameId, periodId, outputPath, c)]
  {
    var a := SavedFiles(video, gameId, periodId, outputPath, clips + [c]);
    var b := SavedFiles(video, gameId, periodId, outputPath, clips) + [SavedFile(video, gameId, periodId, outputPath, c)];
    forall i | 0 <= i < |a|
      ensures a[i] == b[i]
    {
      if i < |clips| {
        assert (clips + [c])[i] == clips[i];
      }
    }
  }

  /** Cuts the clip of one qualifying row, attaches the row's action and names the file the
      annotation is saved to. */
  method SaveClip(video: VideoAnnotation, c: PlannedClip, gameId: int, periodId: string,
                  outputPath: string)
    returns (file: (string, VideoAnnotation))
    requires c.row.actionName.Some?
    ensures file == SavedFile(video, gameId, periodId, outputPath, c)
  {
    var name := c.row.actionName.value;
    var info := ClipInfo(c.startTime, ClipDuration, c.row.id, name, c.playerName,
      ClipFileName(gameId, periodId, name, c.row.id));
    var clip := SplitVideoAnnotation(video, info);
    clip := clip.(action := Some(BuildAction(c.row, c.playerId, c.playerName)));
    var outputFolder := PathJoin(PathJoin(outputPath, IntToString(gameId)), periodId);
    var outputFile := PathJoin(outputFolder, AnnotationFileName(info.outputPath));
    file := (outputFile, clip);
  }

  /** The body of the row loop up to the clip: the filters, the assist's actor swap and the
      padding update, on the padding carried in. */
  method DecideRow(row: LogRow, period: int, ignore: seq<string>, extendIn: real)
    returns (d: Decision)
    ensures d == Decide(row, period, ignore, extendIn)
  {
    var extendTime := extendIn;
    if row.half.None? {
      return Raise(HalfMissing);
    }
    if row.half.value != period {
      return Skip;
    }
    if (row.actionName.Some? && row.actionName.value in ignore) || row.second.None? || row.playerName.None? {
      return Skip;
    }
    var playerId: int;
    var playerName: Option<string>;
    if row.actionName == Some("Assisting") {
      if row.teammateId.None? {
        return Skip;
      }
      playerId := row.teammateId.value;
      playerName := row.teammateName;
    } else {
      if row.actionName.None? {
        return Raise(ActionNameMissing);
      }
      if Contains(row.actionName.value, "1") {
        extendTime := OneExtend;
      } else if row.actionName.value == "Turnover" {
        extendTime := TurnoverExtend;
      }
      if row.playerId.None? {
        return Raise(PlayerIdMissing);
      }
      playerId := row.playerId.value;
      playerName := row.playerName;
    }
    d := Emit(playerId, playerName, extendTime);
  }

  /** Scans the log rows of one period video, carrying the padding from row to row, and
      saves one clip annotation per qualifying row; an exception stops the scan, leaving the
      annotations saved before it. The game id, the period id and the period number come
      from the video's file name. */
  method AnnotateRows(video: VideoAnnotation, rows: seq<LogRow>, gameId: int,
                            periodId: string, period: int, outputPath: string)
    returns (saved: seq<(string, VideoAnnotation)>, failure: Option<RowFailure>)
    ensures failure == PlanRows(rows, period, Ignore).failure
    ensures saved == SavedFiles(video, gameId, periodId, outputPath, PlanRows(rows, period, Ignore).clips)
  {
    saved := [];
    failure := None;
    var extendTime := InitialExtend;
    ghost var clips: seq<PlannedClip> := [];
    var k := 0;
    while k < |rows|
      invariant 0 <= k <= |rows|
      invariant PlanRows(rows[..k], period, Ignore) == Plan(clips, extendTime, None)
      invariant saved == SavedFiles(video, gameId, periodId, outputPath, clips)
    {
      var row := rows[k];
      var d := DecideRow(row, period, Ignore, extendTime);
      match d {
        case Skip =>
          assert PlanRows(rows[..k + 1], period, Ignore) == Plan(clips, extendTime, None) by {
            PlanRowsUnfold(rows, k, period, Ignore);
          }
        case Raise(err) =>
          failure := Some(RowFailure(k, err));
          assert PlanRows(rows, period, Ignore) == Plan(clips, extendTime, failure) by {
            PlanRowsUnfold(rows, k, period, Ignore);
            PlanHalts(rows, k + 1, |rows|, period, Ignore);
            assert rows[..|rows|] == rows;
          }
          return;
        case Emit(playerId, playerName, e) =>
          var c := PlannedClip(k, row, playerId, playerName, row.second.value + e);
          assert PlanRows(rows[..k + 1], period, Ignore) == Plan(clips + [c], e, None) by {
            PlanRowsUnfold(rows, k, period, Ignore);
          }
          extendTime := e;
          var file := SaveClip(video, c, gameId, periodId, outputPath);
          assert saved + [file] == SavedFiles(video, gameId, periodId, outputPath, clips + [c]) by {
            SavedFilesSnoc(video, gameId, periodId, outputPath, clips, c);
          }
          saved := saved + [file];
          clips := clips + [c];
      }
      k := k + 1;
    }
    assert rows[..|rows|] == rows;
  }

  // ---------------------------------------------------------------- the video files

  /** The file names the glob of "*.mp4" in the video folder yields: those ending in
      ".mp4" that are not hidden. */
  predicate MatchesMp4Glob(name: string) {
    |name| >= 4 && name[|name| - 4..] == ".mp4" && name[0] != '.'
  }

  /** The video files of a listing, in listing order. */
  function VideoFiles(listing: seq<string>): (r: seq<string>)
    ensures forall v :: v in r <==> v in listing && MatchesMp4Glob(v)
    ensures |r| <= |listing|
    decreases |listing|
  {
    if |listing| == 0 then []
    else
      var rest := VideoFiles(listing[..|listing| - 1]);
      var v := listing[|listing| - 1];
      assert listing == listing[..|listing| - 1] + [v];
      if MatchesMp4Glob(v) then rest + [v] else rest
  }

  /** A listing of the log folder: each file's name and its rows. */
  type LogListing = seq<(string, seq<LogRow>)>

  /** The game id: int() of the name up to the first '_'. */
  function GameIdOf(video: string): Option<int> {
    ParseInt(Split(video, '_')[0])
  }

  /** The period id: the seventh '_'-separated part, up to its first '.'. */
  function PeriodIdOf(video: string): Option<string> {
    var parts := Split(video, '_');
    if |parts| < 7 then None else Some(Split(parts[6], '.')[0])
  }

  /** The period number: int() of the fifth character from the end. */
  function PeriodOf(video: string): Option<int> {
    if |video| < 5 then None else ParseInt([video[|video| - 5]])
  }

  /** Which log files mention the game id in their name. */
  function MentionsGame(logs: LogListing, gameId: int): (r: seq<bool>)
    ensures |r| == |logs|
    ensures forall i :: 0 <= i < |logs| ==> (r[i] <==> Contains(logs[i].0, IntToString(gameId)))
  {
    seq(|logs|, i requires 0 <= i < |logs| => Contains(logs[i].0, IntToString(gameId)))
  }

  /** A name of the dataset's form: the game id and five more '_'-separated parts, then
      the period id (a tag followed by the period's digit) and a three-letter extension. */
  function VideoName(gameId: int, middle: seq<string>, tag: string, period: nat, ext: string): string
    requires period < 10
  {
    Join([IntToString(gameId)] + middle, '_') + "_" + (tag + [DigitChar(period)]) + "." + ext
  }

  /** The name is read back: the task finds the game id, the period id and the period
      number it was built from. */
  lemma VideoNameRoundTrip(gameId: int, middle: seq<string>, tag: string, period: nat, ext: string)
    requires |middle| == 5 && forall k :: 0 <= k < |middle| ==> '_' !in middle[k]
    requires period < 10 && '_' !in tag && '.' !in tag
    requires |ext| == 3 && '_' !in ext
    ensures var v := VideoName(gameId, middle, tag, period, ext);
      && GameIdOf(v) == Some(gameId)
      && PeriodIdOf(v) == Some(tag + [DigitChar(period)])
      && PeriodOf(v) == Some(period)
  {
    var v := VideoName(gameId, middle, tag, period, ext);
    var pid := tag + [DigitChar(period)];
    VideoNameParts(gameId, middle, tag, period, ext);
    ParseIntOfString(gameId);
    FirstPartOfDotted(pid, ext);
    assert v[|v| - 5] == DigitChar(period);
    assert IntToString(period) == [DigitChar(period)];
    ParseIntOfString(period);
  }

  lemma VideoNameParts(gameId: int, middle: seq<string>, tag: string, period: nat, ext: string)
    requires |middle| == 5 && forall k :: 0 <= k < |middle| ==> '_' !in middle[k]
    requires period < 10 && '_' !in tag && '_' !in ext
    ensures Split(VideoName(gameId, middle, tag, period, ext), '_')
      == [IntToString(gameId)] + middle + [tag + [DigitChar(period)] + "." + ext]
  {
    var last := tag + [DigitChar(period)] + "." + ext;
    var front := [IntToString(gameId)] + middle;
    var parts := front + [last];
    NoUnderscoreInNumber(gameId);
    JoinSnoc(front, last, '_');
    assert VideoName(gameId, middle, tag, period, ext) == Join(front, '_') + ['_'] + last;
    assert '_' !in last;
    forall k | 0 <= k < |parts| ensures '_' !in parts[k] {
      if 1 <= k <= 5 {
        assert parts[k] == middle[k - 1];
      }
    }
    SplitJoin(parts, '_');
  }

  lemma FirstPartOfDotted(x: string, ext: string)
    requires '.' !in x
    ensures Split(x + "." + ext, '.')[0] == x
  {
    assert x + "." + ext == x + ("." + ext);
    SplitPrefix(x, "." + ext, '.');
    assert ("." + ext)[1..] == ext;
    assert x + "" == x;
  }

  // ---------------------------------------------------------------- the whole script

  /** The exceptions that end the script: a file name that is not of the dataset's form,
      a period video without its annotation file, or one of the row loop's exceptions. */
  datatype ScriptError =
    | GameIdUnreadable           // int() of the part before the first '_'
    | PeriodIdMissing            // fewer than seven '_'-separated parts
    | AnnotationMissing(path: string)
    | PeriodUnreadable           // int() of the fifth character from the end
    | RowsRaised(failure: RowFailure)

  /** The annotation files written so far, in order, and the exception that ended the
      script, if any. */
  datatype Pass = Pass(saved: seq<(string, VideoAnnotation)>, error: Option<ScriptError>)

  /** Where the full annotation of a period video is read from. */
  function AnnotationFileOf(annotationPath: string, gameId: int, periodId: string): string {
    PathJoin(annotationPath, IntToString(gameId) + "_" + periodId + "_video_annotation.json")
  }

  /** How far one period video gets before its rows are scanned: stopped, with or without
      an exception, or ready with the game id, the period id and number, the rows of the
      game's log and the video's annotation. */
  datatype Located =
    | Stopped(error: Option<ScriptError>)
    | Ready(gameId: int, periodId: string, period: int, rows: seq<LogRow>, video: VideoAnnotation)

  /** Read the video's name, pick the game's log (a video without one is skipped), demand
      its annotation file, then read the period number. The loaded annotation files are
      given by path. */
  function Locate(videoFile: string, logs: LogListing, annotations: map<string, VideoAnnotation>,
                  annotationPath: string): Located
  {
    match GameIdOf(videoFile)
    case None => Stopped(Some(GameIdUnreadable))
    case Some(gameId) =>
      match PeriodIdOf(videoFile)
      case None => Stopped(Some(PeriodIdMissing))
      case Some(periodId) =>
        match FirstTrue(MentionsGame(logs, gameId))
        case None => Stopped(None)
        case Some(i) =>
          var path := AnnotationFileOf(annotationPath, gameId, periodId);
          if path !in annotations then Stopped(Some(AnnotationMissing(path)))
          else
            match PeriodOf(videoFile)
            case None => Stopped(Some(PeriodUnreadable))
            case Some(period) => Ready(gameId, periodId, period, logs[i].1, annotations[path])
  }

  /** One period video: located, then its rows scanned and the clips saved. */
  function VideoPass(videoFile: string, logs: LogListing, annotations: map<string, VideoAnnotation>,
                     annotationPath: string, outputPath: string): Pass
  {
    match Locate(videoFile, logs, annotations, annotationPath)
    case Stopped(e) => Pass([], e)
    case Ready(gameId, periodId, period, rows, video) =>
      var plan := PlanRows(rows, period, Ignore);
      Pass(SavedFiles(video, gameId, periodId, outputPath, plan.clips),
           if plan.failure.Some? then Some(RowsRaised(plan.failure.value)) else None)
  }

  /** The passes of the videos, one per video. */
  function VideoPasses(videos: seq<string>, logs: LogListing, annotations: map<string, VideoAnnotation>,
                       annotationPath: string, outputPath: string): (ps: seq<Pass>)
    ensures |ps| == |videos|
    ensures forall i :: 0 <= i < |videos| ==> ps[i] == VideoPass(videos[i], logs, annotations, annotationPath, outputPath)
  {
    seq(|videos|, i requires 0 <= i < |videos| => VideoPass(videos[i], logs, annotations, annotationPath, outputPath))
  }

  /** Passes run one after another; an exception ends the run, keeping what was written. */
  function Chain(ps: seq<Pass>): Pass
    decreases |ps|
  {
    if |ps| == 0 then Pass([], None)
    else
      var pre := Chain(ps[..|ps| - 1]);
      if pre.error.Some? then pre
      else Pass(pre.saved + ps[|ps| - 1].saved, ps[|ps| - 1].error)
  }

  /** The whole script over the video files, in order. */
  function AnnotateAll(videos: seq<string>, logs: LogListing, annotations: map<string, VideoAnnotation>,
                       annotationPath: string, outputPath: string): Pass
  {
    Chain(VideoPasses(videos, logs, annotations, annotationPath, outputPath))
  }

  /** A video whose name reads and whose game has a log must have its annotation file:
      the check that would skip it comes after an assertion that stops the script. */
  lemma AnnotationRequired(videoFile: string, logs: LogListing, annotations: map<string, VideoAnnotation>,
                           annotationPath: string, outputPath: string)
    ensures var p := VideoPass(videoFile, logs, annotations, annotationPath, outputPath);
      (exists path :: p.error == Some(AnnotationMissing(path))) <==>
        && GameIdOf(videoFile).Some? && PeriodIdOf(videoFile).Some?
        && (exists i :: 0 <= i < |logs| && Contains(logs[i].0, IntToString(GameIdOf(videoFile).value)))
        && AnnotationFileOf(annotationPath, GameIdOf(videoFile).value, PeriodIdOf(videoFile).value) !in annotations
  {
    var l := Locate(videoFile, logs, annotations, annotationPath);
    var p := VideoPass(videoFile, logs, annotations, annotationPath, outputPath);
    assert (exists path :: p.error == Some(AnnotationMissing(path))) <==>
           l.Stopped? && l.error.Some? && l.error.value.AnnotationMissing?;
    if GameIdOf(videoFile).Some? && PeriodIdOf(videoFile).Some? {
      var gameId := GameIdOf(videoFile).value;
      var ms := MentionsGame(logs, gameId);
      match FirstTrue(ms)
      case None =>
        assert !exists i :: 0 <= i < |logs| && Contains(logs[i].0, IntToString(gameId)) by {
          forall i | 0 <= i < |logs| ensures !Contains(logs[i].0, IntToString(gameId)) {
            assert !ms[i];
          }
        }
      case Some(i) =>
        assert Contains(logs[i].0, IntToString(gameId));
    }
  }

  /** One more pass after a run that ended normally. */
  lemma ChainStep(ps: seq<Pass>, k: nat)
    requires k < |ps|
    requires Chain(ps[..k]).error.None?
    ensures Chain(ps[..k + 1]) == Pass(Chain(ps[..k]).saved + ps[k].saved, ps[k].error)
  {
    assert ps[..k + 1][..k] == ps[..k];
  }

  /** Once an exception is raised the remaining passes change nothing. */
  lemma {:induction false} ChainHalts(ps: seq<Pass>, n: nat)
    requires n <= |ps|
    requires Chain(ps[..n]).error.Some?
    ensures Chain(ps) == Chain(ps[..n])
    decreases |ps|
  {
    if |ps| > n {
      var pre := ps[..|ps| - 1];
      assert pre[..n] == ps[..n];
      ChainHalts(pre, n);
    } else {
      assert ps[..n] == ps;
    }
  }

  /** A run of passes ends normally exactly when no pass raises; it then writes every file
      each pass writes. Whatever it writes some pass writes. Otherwise it stops at the
      first pass that raises, with that pass's exception. */
  lemma {:induction false} ChainSpec(ps: seq<Pass>)
    ensures Chain(ps).error.None? <==> forall i :: 0 <= i < |ps| ==> ps[i].error.None?
    ensures forall f :: f in Chain(ps).saved ==> exists i :: 0 <= i < |ps| && f in ps[i].saved
    ensures Chain(ps).error.None? ==> forall i, f :: 0 <= i < |ps| && f in ps[i].saved ==> f in Chain(ps).saved
    ensures Chain(ps).error.Some? ==>
      exists i :: 0 <= i < |ps| && ps[i].error == Chain(ps).error && forall j :: 0 <= j < i ==> ps[j].error.None?
    decreases |ps|
  {
    if |ps| > 0 {
      var n := |ps| - 1;
      var pre := ps[..n];
      ChainSpec(pre);
      assert forall i :: 0 <= i < n ==> pre[i] == ps[i];
      if Chain(pre).error.None? {
        forall f | f in Chain(ps).saved
          ensures exists i :: 0 <= i < |ps| && f in ps[i].saved
        {
          if f !in Chain(pre).saved {
            assert f in ps[n].saved;
          }
        }
      }
    }
  }

  /** The script ends normally exactly when no video raises, and then writes every file
      each video plans; it writes nothing no video plans. Otherwise it stops at the first
      video that raises, with that video's exception. */
  lemma AnnotateAllSpec(videos: seq<string>, logs: LogListing, annotations: map<string, VideoAnnotation>,
                        annotationPath: string, outputPath: string)
    ensures var r := AnnotateAll(videos, logs, annotations, annotationPath, outputPath);
      r.error.None? <==>
        forall i :: 0 <= i < |videos| ==> VideoPass(videos[i], logs, annotations, annotationPath, outputPath).error.None?
    ensures var r := AnnotateAll(videos, logs, annotations, annotationPath, outputPath);
      forall f :: f in r.saved ==>
        exists i :: 0 <= i < |videos| && f in VideoPass(videos[i], logs, annotations, annotationPath, outputPath).saved
    ensures var r := AnnotateAll(videos, logs, annotations, annotationPath, outputPath);
      r.error.None? ==> forall i, f ::
        0 <= i < |videos| && f in VideoPass(videos[i], logs, annotations, annotationPath, outputPath).saved ==>
          f in r.saved
    ensures var r := AnnotateAll(videos, logs, annotations, annotationPath, outputPath);
      r.error.Some? ==>
        exists i :: 0 <= i < |videos|
          && VideoPass(videos[i], logs, annotations, annotationPath, outputPath).error == r.error
          && forall j :: 0 <= j < i ==> VideoPass(videos[j], logs, annotations, annotationPath, outputPath).error.None?
  {
    ChainSpec(VideoPasses(videos, logs, annotations, annotationPath, outputPath));
  }

  /** The script: every video file of the folder, in listing order. */
  method ProcessAnnotations(listing: seq<string>, logs: LogListing, annotations: map<string, VideoAnnotation>,
                            annotationPath: string, outputPath: string)
    returns (saved: seq<(string, VideoAnnotation)>, error: Option<ScriptError>)
    ensures Pass(saved, error) == AnnotateAll(VideoFiles(listing), logs, annotations, annotationPath, outputPath)
  {
    var videos := VideoFiles(listing);
    ghost var ps := VideoPasses(videos, logs, annotations, annotationPath, outputPath);
    saved := [];
    error := None;
    var k := 0;
    while k < |videos|
      invariant 0 <= k <= |videos|
      invariant Chain(ps[..k]) == Pass(saved, None)
    {
      var p := AnnotateVideo(videos[k], logs, annotations, annotationPath, outputPath);
      ChainStep(ps, k);
      saved := saved + p.saved;
      if p.error.Some? {
        error := p.error;
        ChainHalts(ps, k + 1);
        return;
      }
      k := k + 1;
    }
    assert ps[..k] == ps;
  }

  /** One video file as the script handles it. */
  method AnnotateVideo(videoFile: string, logs: LogListing, annotations: map<string, VideoAnnotation>,
                       annotationPath: string, outputPath: string)
    returns (p: Pass)
    ensures p == VideoPass(videoFile, logs, annotations, annotationPath, outputPath)
  {
    var gameId := GameIdOf(videoFile);
    if gameId.None? {
      return Pass([], Some(GameIdUnreadable));
    }
    var periodId := PeriodIdOf(videoFile);
    if periodId.None? {
      return Pass([], Some(PeriodIdMissing));
    }
    var logFile := FirstTrue(MentionsGame(logs, gameId.value));
    if logFile.None? {
      return Pass([], None);
    }
    var path := AnnotationFileOf(annotationPath, gameId.value, periodId.value);
    if path !in annotations {
      return Pass([], Some(AnnotationMissing(path)));
    }
    var videoAnnotation := annotations[path];
    var period := PeriodOf(videoFile);
    if period.None? {
      return Pass([], Some(PeriodUnreadable));
    }
    assert Locate(videoFile, logs, annotations, annotationPath)
        == Ready(gameId.value, periodId.value, period.value, logs[logFile.value].1, videoAnnotation);
    var saved, failure := AnnotateRows(videoAnnotation, logs[logFile.value].1, gameId.value,
                                       periodId.value, period.value, outputPath);
    p := Pass(saved, if failure.Some? then Some(RowsRaised(failure.value)) else None);
  }

  // ---------------------------------------------------------------- saving as written

  /** The saving step as written: it asserts that the target file already exists before
      writing it, so it goes through the planned files until the first one that does not
      exist yet and raises there. The result is how many are written before the assertion
      fails. */
  function SavedBeforeRefusal(files: seq<(string, VideoAnnotation)>, existing: set<string>): (n: nat)
    ensures n <= |files|
    ensures forall i :: 0 <= i < n ==> files[i].0 in existing
    ensures n < |files| ==> files[n].0 !in existing
    decreases |files|
  {
    if |files| == 0 || files[0].0 !in existing then 0
    else 1 + SavedBeforeRefusal(files[1..], existing)
  }

  /** As written, every planned file is saved only when every one of them already exists:
      the step can overwrite annotations but never create one. */
  lemma SavesOnlyExistingAsWritten(files: seq<(string, VideoAnnotation)>, existing: set<string>)
    ensures SavedBeforeRefusal(files, existing) == |files| <==> forall i :: 0 <= i < |files| ==> files[i].0 in existing
  {
  }

  /** Into a fresh output folder, the run as written saves nothing: the first planned clip
      already trips the assertion. */
  lemma FreshOutputRefusedAsWritten(video: VideoAnnotation, rows: seq<LogRow>, gameId: int,
                                    periodId: string, period: int, outputPath: string)
    requires |PlanRows(rows, period, Ignore).clips| > 0
    ensures SavedBeforeRefusal(SavedFiles(video, gameId, periodId, outputPath, PlanRows(rows, period, Ignore).clips), {}) == 0
  {
  }
}
