/** The annotation schema: per-frame player boxes, tracked court positions tied to game-clock
    moments, the closed set of logged basketball actions, a logged action row, and the
    frame-level and video-level aggregates. Floats become `real`; Optional fields become
    `Option`. Records are immutable values, so a deep copy is the value itself. */
module AnnotTypes {
  import opened Common

  /** A player's bounding box at one frame, as estimated by the tracker. */
  datatype Bbox = Bbox(
    frameNumber: int,
    playerId: int,
    x: real,
    y: real,
    width: real,
    height: real,
    confidence: real)

  /** A player's or the ball's 2D court position. */
  datatype Position = Position(
    teamId: int,
    playerId: int,
    xPosition: real,
    yPosition: real,
    zPosition: real)

  /** The ball is the position whose team and player ids are both -1. */
  predicate IsBall(p: Position) {
    p.teamId == -1 && p.playerId == -1
  }

  /** The documented court ranges: x in [0, 100], y in [0, 50]. The schema does not enforce
      them, and no operation of the model changes a position. */
  predicate OnCourt(p: Position) {
    0.0 <= p.xPosition <= 100.0 && 0.0 <= p.yPosition <= 50.0
  }

  /** Positions of the players and the ball at one game-clock instant. */
  datatype Moment = Moment(
    quarter: int,
    momentId: int,
    timeRemainingInQuarter: real,
    timeRemainingOnShotClock: Option<real>,
    playerPositions: seq<Position>)

  /** A frame linked, through the on-screen clock, to exactly one moment; the clock reading
      is kept beside the moment's own clock. */
  datatype Tracklet = Tracklet(
    frameNumber: int,
    predQuarter: string,
    predTimeRemaining: real,
    moment: Moment)

  /** The closed enumeration of logged actions (26 values). */
  datatype ActionName =
    | MissedThreePointer | Assisting | Screen | Rebound | Turnover
    | MadeSingleFreethrow | MissedSingleFreethrow | AndOne | MissedTwoPointer | MadeTwoPointer
    | Foul | PickNRoll | Post | Steal | TechnicalFoul
    | MadeThreePointer | SecondFoul | ThirdFoul | UnsportmanlikeFoul | ThreePlusOne
    | SecondChance | MadeTwoFreethrows | MissedTwoFreethrows | MadeThreeFreethrows
    | MissedThreeFreethrows | DisqualifyingFoul
  {
    /** The string value the log uses for this action. */
    function Value(): string {
      match this
      case MissedThreePointer => "3-"
      case Assisting => "Assisting"
      case Screen => "Screen"
      case Rebound => "Rebound"
      case Turnover => "Turnover"
      case MadeSingleFreethrow => "1+"
      case MissedSingleFreethrow => "1-"
      case AndOne => "2+1"
      case MissedTwoPointer => "2-"
      case MadeTwoPointer => "2+"
      case Foul => "Foul"
      case PickNRoll => "Pick'n'Roll"
      case Post => "Post"
      case Steal => "Steal"
      case TechnicalFoul => "Technical foul"
      case MadeThreePointer => "3+"
      case SecondFoul => "2F"
      case ThirdFoul => "3F"
      case UnsportmanlikeFoul => "Unsportmanlike foul"
      case ThreePlusOne => "3+1"
      case SecondChance => "Second chance"
      case MadeTwoFreethrows => "2FT+"
      case MissedTwoFreethrows => "2FT-"
      case MadeThreeFreethrows => "3FT+"
      case MissedThreeFreethrows => "3FT-"
      case DisqualifyingFoul => "Disqualifying foul"
    }
  }

  /** ActionName(s): the member whose value is s, or None where the enum raises ValueError. */
  function ParseActionName(s: string): (r: Option<ActionName>)
    ensures r.Some? ==> r.value.Value() == s
  {
    match s
    case "3-" => Some(MissedThreePointer)
    case "Assisting" => Some(Assisting)
    case "Screen" => Some(Screen)
    case "Rebound" => Some(Rebound)
    case "Turnover" => Some(Turnover)
    case "1+" => Some(MadeSingleFreethrow)
    case "1-" => Some(MissedSingleFreethrow)
    case "2+1" => Some(AndOne)
    case "2-" => Some(MissedTwoPointer)
    case "2+" => Some(MadeTwoPointer)
    case "Foul" => Some(Foul)
    case "Pick'n'Roll" => Some(PickNRoll)
    case "Post" => Some(Post)
    case "Steal" => Some(Steal)
    case "Technical foul" => Some(TechnicalFoul)
    case "3+" => Some(MadeThreePointer)
    case "2F" => Some(SecondFoul)
    case "3F" => Some(ThirdFoul)
    case "Unsportmanlike foul" => Some(UnsportmanlikeFoul)
    case "3+1" => Some(ThreePlusOne)
    case "Second chance" => Some(SecondChance)
    case "2FT+" => Some(MadeTwoFreethrows)
    case "2FT-" => Some(MissedTwoFreethrows)
    case "3FT+" => Some(MadeThreeFreethrows)
    case "3FT-" => Some(MissedThreeFreethrows)
    case "Disqualifying foul" => Some(DisqualifyingFoul)
    case _ => None
  }

  /** Parsing a member's value gives the member back, so distinct members have distinct
      values. */
  lemma ParseActionValue(a: ActionName)
    ensures ParseActionName(a.Value()) == Some(a)
  {
    match a
    case MissedThreePointer =>
    case Assisting =>
    case Screen =>
    case Rebound =>
    case Turnover =>
    case MadeSingleFreethrow =>
    case MissedSingleFreethrow =>
    case AndOne =>
    case MissedTwoPointer =>
    case MadeTwoPointer =>
    case Foul =>
    case PickNRoll =>
    case Post =>
    case Steal =>
    case TechnicalFoul =>
    case MadeThreePointer =>
    case SecondFoul =>
    case ThirdFoul =>
    case UnsportmanlikeFoul =>
    case ThreePlusOne =>
    case SecondChance =>
    case MadeTwoFreethrows =>
    case MissedTwoFreethrows =>
    case MadeThreeFreethrows =>
    case MissedThreeFreethrows =>
    case DisqualifyingFoul =>
  }

  /** Parsing fails exactly on the strings that are no member's value. */
  lemma ParseActionNameFailsOnOthers(s: string)
    ensures ParseActionName(s).None? <==> forall a: ActionName :: a.Value() != s
  {
    if ParseActionName(s).None? {
      forall a: ActionName ensures a.Value() != s {
        ParseActionValue(a);
      }
    }
  }

  /** Distinct members have distinct values. */
  lemma ValueInjective(a: ActionName, b: ActionName)
    ensures a.Value() == b.Value() ==> a == b
  {
    ParseActionValue(a);
    ParseActionValue(b);
  }

  /** One row of a game log. Every field is optional and absent by default. */
  datatype ActionAnnotation = ActionAnnotation(
    id: Option<int>,
    actionId: Option<string>,
    actionName: Option<string>,
    playerId: Option<string>,
    playerName: Option<string>,
    teamId: Option<int>,
    teamName: Option<string>,
    opponentId: Option<int>,
    opponentName: Option<string>,
    opponentTeamId: Option<int>,
    opponentTeamName: Option<string>,
    teammateId: Option<string>,
    teammateName: Option<string>,
    half: Option<int>,
    second: Option<real>,
    posX: Option<real>,
    posY: Option<real>,
    possessionId: Option<int>,
    possessionName: Option<string>,
    possessionTeamId: Option<int>,
    possessionTeamName: Option<string>,
    possessionNumber: Option<int>,
    possessionStartClear: Option<real>,
    possessionEndClear: Option<string>,
    playtype: Option<string>,
    hand: Option<string>,
    shotType: Option<string>,
    drive: Option<string>,
    dribbleMove: Option<string>,
    contesting: Option<string>,
    ts: Option<string>)

  /** The validator run on every field before conversion: the empty string becomes None,
      anything else is kept. */
  function EmptyStrToNone(v: Option<string>): (r: Option<string>)
    ensures r.None? <==> (v.None? || v == Some(""))
    ensures r.Some? ==> r == v
  {
    if v == Some("") then None else v
  }

  lemma EmptyStrToNoneIdempotent(v: Option<string>)
    ensures EmptyStrToNone(EmptyStrToNone(v)) == EmptyStrToNone(v)
  {
  }

  /** No text field holds the empty string. */
  predicate NoEmptyText(a: ActionAnnotation) {
    && a.actionId != Some("") && a.actionName != Some("") && a.playerId != Some("")
    && a.playerName != Some("") && a.teamName != Some("") && a.opponentName != Some("")
    && a.opponentTeamName != Some("") && a.teammateId != Some("") && a.teammateName != Some("")
    && a.possessionName != Some("") && a.possessionTeamName != Some("")
    && a.possessionEndClear != Some("") && a.playtype != Some("") && a.hand != Some("")
    && a.shotType != Some("") && a.drive != Some("") && a.dribbleMove != Some("")
    && a.contesting != Some("") && a.ts != Some("")
  }

  /** A text field after the validator: kept, or the empty string cleared to None. */
  predicate KeptOrCleared(v: Option<string>, w: Option<string>) {
    w == v || (v == Some("") && w.None?)
  }

  /** Every text field of `r` is the same field of `a`, kept or cleared. */
  predicate TextsKeptOrCleared(a: ActionAnnotation, r: ActionAnnotation) {
    && KeptOrCleared(a.actionId, r.actionId) && KeptOrCleared(a.actionName, r.actionName)
    && KeptOrCleared(a.playerId, r.playerId) && KeptOrCleared(a.playerName, r.playerName)
    && KeptOrCleared(a.teamName, r.teamName) && KeptOrCleared(a.opponentName, r.opponentName)
    && KeptOrCleared(a.opponentTeamName, r.opponentTeamName)
    && KeptOrCleared(a.teammateId, r.teammateId) && KeptOrCleared(a.teammateName, r.teammateName)
    && KeptOrCleared(a.possessionName, r.possessionName)
    && KeptOrCleared(a.possessionTeamName, r.possessionTeamName)
    && KeptOrCleared(a.possessionEndClear, r.possessionEndClear)
    && KeptOrCleared(a.playtype, r.playtype) && KeptOrCleared(a.hand, r.hand)
    && KeptOrCleared(a.shotType, r.shotType) && KeptOrCleared(a.drive, r.drive)
    && KeptOrCleared(a.dribbleMove, r.dribbleMove) && KeptOrCleared(a.contesting, r.contesting)
    && KeptOrCleared(a.ts, r.ts)
  }

  /** The numeric fields of the two annotations agree. */
  predicate SameNumbers(a: ActionAnnotation, r: ActionAnnotation) {
    && a.id == r.id && a.teamId == r.teamId && a.opponentId == r.opponentId
    && a.opponentTeamId == r.opponentTeamId && a.half == r.half && a.second == r.second
    && a.posX == r.posX && a.posY == r.posY && a.possessionId == r.possessionId
    && a.possessionTeamId == r.possessionTeamId && a.possessionNumber == r.possessionNumber
    && a.possessionStartClear == r.possessionStartClear
  }

  /** Constructing an ActionAnnotation from field values: the validator is applied to every
      field, and only a text field can hold ''. The result has no empty text, and
      constructing again changes nothing; ValidatedFields states what happens to each field. */
  function Validated(a: ActionAnnotation): (r: ActionAnnotation)
    ensures NoEmptyText(r)
    ensures NoEmptyText(a) ==> r == a
  {
    a.(actionId := EmptyStrToNone(a.actionId),
       actionName := EmptyStrToNone(a.actionName),
       playerId := EmptyStrToNone(a.playerId),
       playerName := EmptyStrToNone(a.playerName),
       teamName := EmptyStrToNone(a.teamName),
       opponentName := EmptyStrToNone(a.opponentName),
       opponentTeamName := EmptyStrToNone(a.opponentTeamName),
       teammateId := EmptyStrToNone(a.teammateId),
       teammateName := EmptyStrToNone(a.teammateName),
       possessionName := EmptyStrToNone(a.possessionName),
       possessionTeamName := EmptyStrToNone(a.possessionTeamName),
       possessionEndClear := EmptyStrToNone(a.possessionEndClear),
       playtype := EmptyStrToNone(a.playtype),
       hand := EmptyStrToNone(a.hand),
       shotType := EmptyStrToNone(a.shotType),
       drive := EmptyStrToNone(a.drive),
       dribbleMove := EmptyStrToNone(a.dribbleMove),
       contesting := EmptyStrToNone(a.contesting),
       ts := EmptyStrToNone(a.ts))
  }

  /** Each text field is kept or, when it is '', cleared; each numeric field is kept. */
  lemma ValidatedFields(a: ActionAnnotation)
    ensures TextsKeptOrCleared(a, Validated(a)) && SameNumbers(a, Validated(a))
  {
  }

  /** An annotation with every field absent: the default. */
  const NoAction := ActionAnnotation(
    None, None, None, None, None, None, None, None, None, None, None, None, None, None, None,
    None, None, None, None, None, None, None, None, None, None, None, None, None, None, None,
    None)

  /** All annotations of one frame; the box list itself is optional, as in the schema. */
  datatype FrameAnnotation = FrameAnnotation(
    frameId: int,
    bbox: Option<seq<Bbox>>,
    tracklet: Option<Tracklet>)

  /** A frame with the schema's defaults: an empty box list and no tracklet. */
  function NewFrame(frameId: int): (f: FrameAnnotation)
    ensures f.frameId == frameId && f.bbox == Some([]) && f.tracklet.None?
  {
    FrameAnnotation(frameId, Some([]), None)
  }

  /** All annotations of one video; only clip annotations carry an action. */
  datatype VideoAnnotation = VideoAnnotation(
    videoId: int,
    videoPath: string,
    frames: seq<FrameAnnotation>,
    caption: Option<string>,
    action: Option<ActionAnnotation>)

  /** A video annotation with the schema's defaults: no caption and no action. */
  function NewVideo(videoId: int, videoPath: string, frames: seq<FrameAnnotation>): (v: VideoAnnotation)
    ensures v.videoId == videoId && v.videoPath == videoPath && v.frames == frames
    ensures v.caption.None? && v.action.None?
  {
    VideoAnnotation(videoId, videoPath, frames, None, None)
  }

  /** Frame ids strictly increase along the list (so they are unique). */
  predicate StrictlyIncreasingIds(frames: seq<FrameAnnotation>) {
    forall i, j :: 0 <= i < j < |frames| ==> frames[i].frameId < frames[j].frameId
  }
}
