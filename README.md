# nba-dense-dataset: clip cutting, annotation assembly and the clip job, in Dafny

This project models the core of a dataset-building pipeline for basketball broadcast
video. The pipeline has four parts, and the model follows them:

- **The annotation schema** (`annot_types.dfy`, module `AnnotTypes`). It holds the
  following records:
  - a player box per frame;
  - a court position;
  - a game-clock moment;
  - a tracklet, which ties a frame to one moment;
  - the closed enumeration of 26 logged actions;
  - a logged action row, whose text fields pass a validator that turns `''` into None;
  - the frame-level and video-level annotations.
- **Annotation assembly** (`construct_annotations.dfy`, module `ConstructAnnotations`).
  It builds the annotation of one period video:
  - it parses box files line by line and groups the boxes by frame;
  - it maps the keys of a position file to optional tracklets;
  - it merges several box files, where a later file wins;
  - it joins both sources into one frame per frame number, in increasing order;
  - it picks the files by video id and a normalised quarter name.
  
  The same module models the loading of a game log, which keeps only the rows that
  pass its check.
- **Clip annotations** (`annotate_clips.dfy`, module `AnnotateClips`). It cuts
  ten-second clip annotations out of a full-period annotation:
  - the frame window is truncated toward zero;
  - the window is half-open;
  - every frame index is rebased;
  - each clip gets a derived id, a path and a caption.
  
  A row loop over the game log decides which rows yield clips. In that loop, an
  "Assisting" row's actor is swapped to the teammate, and a padding carries over from
  row to row. The outer loop of the script reads each video's file name, picks the log,
  demands the annotation file, and saves one clip annotation per qualifying row.
- **The clip job** (`run_job.dfy`, module `RunJob`). One task per period video. It:
  - reads the name and picks the log;
  - runs the same row loop;
  - asks the transcoder for every clip file that does not exist yet;
  - gives up on the video, noting it in the game's failure list, as soon as a clip file
    is still missing after its call.
  
  The driver counts the tasks that returned False.

Support modules:

- `common.dfy` (`Common`): `Option` and `Result`.
- `py_builtins.dfy` (`PyBuiltins`): the Python built-ins the logic depends on, stated
  over exact values:
  - `int(float)`, which truncates;
  - `int()`, `float()` and `str()` on text;
  - `strip`, `split`, `join`, `lower`, `replace`, `in` and `os.path.join`.
- `sorting.dfy` (`Sorting`): `sorted()` of a set of integers.

**Modelling decisions:**
- Times are exact `real` seconds, and `int()` of a float is `Trunc`.
- A pandas NaN is `None`.
- Reading a file becomes a value:
  - a box file is its lines;
  - a position file is the entries of its JSON object, in order;
  - a directory is its file names (with contents) in listing order;
  - a log is its rows.
- In the clip job, the file system and the transcoder are two sets:
  - `existing` holds the files present when a task starts;
  - `produced` holds the outputs the transcoder manages to write when asked.
- The ray driver's completion order is an input sequence of results.

**Where the code and its description disagree, the model follows the code:**
- Both frame bounds are truncated toward zero, not floored. `AnnotateClips.ClipWindowWidth`
  shows the consequence. When the end bound `start_time * 30` lies in [0, 300) and is not
  an integer, the start bound is negative and not an integer, and the window is 299 frames
  wide, not 300. When the end bound is negative too, both bounds move up by one and the
  width stays 300.
- The enumeration has 26 action names, not 25.
- The validator is declared as `field_validator('*', pre=True)` (annot_types.py:128). As
  written, no script can import annot_types.py. Under pydantic 2, `field_validator` has no
  `pre` keyword, so the class definition raises TypeError. Under pydantic 1, there is no
  `field_validator` to import. `annotate_clips.py` uses `model_copy`, which is pydantic 2.
  The model therefore describes the intended program: the validator runs before
  validation on every field, which is what `pre=True` asks for.

## Model

| member | source | states |
|---|---|---|
| PyBuiltins.Trunc | annotate_clips.py:91-92 | `int()` of a float: for x >= 0 the greatest integer not above x, for x < 0 the least integer not below x (toward zero) |
| PyBuiltins.TruncIsFloorUnlessNegativeFraction | annotate_clips.py:91-92 | truncation equals flooring exactly when x >= 0 or x is integral; otherwise it is one above the floor |
| PyBuiltins.NatToString | annotate_clips.py:129 | `str(n)` for n >= 0: non-empty decimal digits without a leading zero whose value is n, and n is below 10 to the power of its length |
| PyBuiltins.ParseIntOfString | construct_annotations.py:31-34 | `int(str(n)) == n` for every integer n |
| PyBuiltins.ParseFloatOfString | construct_annotations.py:39-41 | `float(str(n))` is n for every integer n |
| PyBuiltins.Strip | construct_annotations.py:68 | the stripped text neither starts nor ends with whitespace, and text without whitespace is unchanged |
| PyBuiltins.StripTrims | construct_annotations.py:68 | the stripped text is a slice of the input, and everything before and after the slice is whitespace: only leading and trailing whitespace is removed |
| PyBuiltins.Split | construct_annotations.py:68 | `split(sep)` gives at least one part, and no part contains the separator |
| PyBuiltins.JoinSplit | construct_annotations.py:68 | joining the parts of a split with the same separator gives the text back |
| PyBuiltins.SplitJoin | run_job.py:26-27 | splitting a join of separator-free parts gives the parts back |
| PyBuiltins.ContainsAt | run_job.py:30 | the `in` test on text holds exactly when the substring occurs at some position |
| PyBuiltins.Lower | construct_annotations.py:93 | `lower()` keeps the length and lower-cases each character |
| PyBuiltins.PathJoinEndsWith | run_job.py:61-64 | `os.path.join(a, b)` ends with b, preceded by a or by a + "/", unless b is absolute |
| PyBuiltins.FirstTrue | run_job.py:30 | `next(...)` over a condition: the first position where it holds, or None exactly when it holds nowhere |
| PyBuiltins.TrueIndices | construct_annotations.py:100-102 | a list comprehension's filter: exactly the positions where the condition holds, in increasing order |
| Sorting.SortedNumbers | construct_annotations.py:118 | `sorted(set(...))` is strictly increasing, has exactly the members of the set, and has the set's size |
| Sorting.IncreasingUnique | construct_annotations.py:118 | two strictly increasing sequences with the same members are equal, so the sorted order is the only possible one |
| Sorting.MinimumExists | construct_annotations.py:118 | every non-empty finite set of integers has a least member |
| AnnotTypes.ParseActionName | annot_types.py:62-88 | `ActionName(s)` succeeds only with the member whose value is s |
| AnnotTypes.ParseActionValue | annot_types.py:62-88 | each of the 26 members is found again from its own value |
| AnnotTypes.ParseActionNameFailsOnOthers | annot_types.py:62-88 | parsing fails exactly on the strings that are no member's value (ValueError) |
| AnnotTypes.ValueInjective | annot_types.py:62-88 | distinct members have distinct values |
| AnnotTypes.EmptyStrToNone | annot_types.py:128-132 | `''` becomes None; every other value, present or absent, is kept |
| AnnotTypes.EmptyStrToNoneIdempotent | annot_types.py:128-132 | applying the validator twice is the same as once |
| AnnotTypes.Validated | annot_types.py:96-132 | constructing an action record leaves no text field holding `''`, and a record without empty text is kept as it is |
| AnnotTypes.ValidatedFields | annot_types.py:128-132 | constructing an action record keeps every numeric field, and keeps every text field except that a `''` becomes None |
| AnnotTypes.NewFrame | annot_types.py:135-142 | a frame needs only its id; the box list defaults to empty and the tracklet to None |
| AnnotTypes.NewVideo | annot_types.py:145-155 | a video needs its id, path and frames; caption and action default to None |
| AnnotateClips.ClipWindowWidth | annotate_clips.py:88-92 | the truncated window is 300 frames, except 299 when the end frame time lies in [0, 300) and is not integral; with flooring it would always be 300 |
| AnnotateClips.RebaseFrame | annotate_clips.py:99-109 | the rebased frame has its id, every box's frame number and the tracklet's frame number lowered by d; box count, box order, all other fields and absent parts are kept |
| AnnotateClips.RebaseFrameInverse | annotate_clips.py:99-109 | rebasing by -d undoes rebasing by d, so rebasing loses no information |
| AnnotateClips.RebaseFrameCopy | annotate_clips.py:99-109 | the in-place updates of the copy, box by box, give exactly the rebased frame; the source frame is a value and stays unchanged |
| AnnotateClips.ClipFramesConcat | annotate_clips.py:94-111 | clipping distributes over concatenation, so kept frames keep the source order |
| AnnotateClips.ClipFramesMembership | annotate_clips.py:98 | a frame is in the clip exactly when its id lies in [0, end - start) and the source holds it shifted back by start; the frame at the start is kept and the frame at the end is dropped |
| AnnotateClips.ClipFramesEmptyWindow | annotate_clips.py:94-111 | an empty or inverted window gives an empty frame list, not an error |
| AnnotateClips.ClipFramesIncreasing | annotate_clips.py:94-111 | strictly increasing frame ids stay strictly increasing in the clip |
| AnnotateClips.ClipKeepsMoments | annotate_clips.py:99-109 | each tracklet in the clip carries the same moment and clock reading as the source frame it was cut from |
| AnnotateClips.ClipVideoId | annotate_clips.py:129 | the derived id has the source id's sign; its magnitude is the source id's magnitude shifted left by as many decimal digits as the row id has, plus the row id |
| AnnotateClips.ClipVideoIdIsConcatenation | annotate_clips.py:129 | `int(f"{video_id}{action_id}")` equals `ClipVideoId` for every id pair, negative video ids included |
| AnnotateClips.SplitVideoAnnotation | annotate_clips.py:80-133 | the clip is built by a loop over the frames and has exactly the in-window frames, rebased, plus the derived id, the clip path as its path, the caption "<action> by <player>" and no action |
| AnnotateClips.Decide | annotate_clips.py:197-226 | a row yields a clip exactly when it qualifies (right half, name not ignored, second and player name present, the teammate for an assist, action name and player id otherwise); it raises exactly when the half is missing or a non-assist qualifying row lacks its name or player id; the actor is the teammate for an assist; the padding becomes 4.5 for a name containing "1", else 2.5 for "Turnover", else it is carried over |
| AnnotateClips.PlanFailure | annotate_clips.py:197-226 | the row loop ends normally exactly when no row raises; otherwise it stops at the first raising row, with that row's exception |
| AnnotateClips.PlanClipIndices | annotate_clips.py:195-234 | the clips are cut for exactly the qualifying rows before the first exception, in order |
| AnnotateClips.PlanClipRows | annotate_clips.py:195-234 | each clip carries its row and that row's actor, and its window ends at the row's second plus the padding in force after that row |
| AnnotateClips.PlanHalts | annotate_clips.py:197-226 | once a row raises, the rows after it change nothing |
| AnnotateClips.PlanExtend | annotate_clips.py:195-226 | without an exception, the padding after the loop is the one the last padding-setting row chose, or 3.5 if none did |
| AnnotateClips.DecideRow | annotate_clips.py:198-224 | the imperative row body decides exactly as `Decide` |
| AnnotateClips.NoUnderscoreInNumber | annotate_clips.py:234 | a decimal integer contains neither '_' nor '.' |
| AnnotateClips.ClipFileNameParts | annotate_clips.py:234 | the clip file name splits on '_' back into game id, period id, action name and row id + ".mp4" |
| AnnotateClips.AnnotationFileNameOfClip | annotate_clips.py:295-298 | replacing ".mp4" yields "<game>_<period>_<action>_<id>_annotation.json" |
| AnnotateClips.BuildAction | annotate_clips.py:241-287 | the attached action record carries the row's id, half, second and positions; the actor as player id, in decimal; the action and teammate ids as decimal text when present; the logged name and the actor's name through the validator; and no empty text |
| AnnotateClips.BuildActionFields | annotate_clips.py:257-286 | every other column reaches the record: the team, opponent and possession ids, the possession number and clear time as they are; each text column (names, possession end, playtype, hand, shot type, drive, dribble move, contesting, timestamp) through the validator |
| AnnotateClips.BuildActionIdsRoundTrip | annotate_clips.py:251-267 | the ids the record keeps as text read back as the row's integers, and are present exactly when the row has them |
| AnnotateClips.SaveClip | annotate_clips.py:228-299 | one qualifying row gives the clip of the video with the row's action attached, saved under `<output>/<game>/<period>/` with the annotation file name; this is the save without the existence assertion of line 72 (see Findings) |
| AnnotateClips.AnnotateRows | annotate_clips.py:195-299 | the imperative row loop saves one clip annotation per planned clip, in order, and reports the loop's exception, exactly as the plan says; the saves are modelled without the existence assertion of line 72 (see Findings) |
| AnnotateClips.VideoFiles | annotate_clips.py:165 | the videos are exactly the listed names ending in ".mp4" that are not hidden |
| AnnotateClips.MentionsGame | annotate_clips.py:172-174 | for each log file, whether its name contains `str(game_id)` |
| AnnotateClips.VideoNameRoundTrip | annotate_clips.py:168-169 | for a name of the dataset's form, the game id, the period id (part 7 up to '.') and the period digit (fifth from the end) read back as the values it was built from |
| AnnotateClips.AnnotationRequired | annotate_clips.py:186-194 | a video stops the script with a missing-annotation error exactly when its name reads, some log mentions its game, and its annotation file is absent; the skip at line 191 is never reached |
| AnnotateClips.VideoPasses | annotate_clips.py:166-299 | one pass per video file, each the per-video behaviour |
| AnnotateClips.ChainSpec | annotate_clips.py:166-299 | a run of passes ends normally exactly when no pass raises, and then writes every file of every pass; whatever it writes some pass writes; otherwise it stops at the first raising pass with that pass's exception |
| AnnotateClips.ChainHalts | annotate_clips.py:166-299 | after an exception the remaining videos change nothing |
| AnnotateClips.AnnotateAllSpec | annotate_clips.py:136-299 | with the saves modelled without the existence assertion of line 72 (see Findings), the whole script ends normally exactly when no video raises, and then has written every clip annotation each video plans; it writes nothing that no video plans; otherwise it ends with the first raising video's exception |
| AnnotateClips.AnnotateVideo | annotate_clips.py:166-299 | the imperative per-video step: name, log, annotation check, period, row loop, the same as `VideoPass` |
| AnnotateClips.ProcessAnnotations | annotate_clips.py:136-299 | the script's loop over the video files gives the same written files and exception as `AnnotateAll`; the saves are modelled without the existence assertion of line 72 (see Findings) |
| AnnotateClips.SavedBeforeRefusal | annotate_clips.py:67-77 | as written, saving asserts that each target already exists: the count saved is the length of the prefix of targets that exist, and the next target does not exist |
| AnnotateClips.SavesOnlyExistingAsWritten | annotate_clips.py:72 | as written, all planned files are saved exactly when every one of them already exists |
| AnnotateClips.FreshOutputRefusedAsWritten | annotate_clips.py:293-299 | as written, a run into a fresh output folder that plans any clip saves nothing, because of the existence assertion at annotate_clips.py line 72 |
| ConstructAnnotations.ParseBboxLineOfIntegers | construct_annotations.py:66-78 | a line written from seven integers parses back to the box with those values |
| ConstructAnnotations.ParsedLineAt | construct_annotations.py:67-78 | entry i of the parsed lines is line i parsed on its own |
| ConstructAnnotations.CollectAllSpec | construct_annotations.py:67-78 | collecting succeeds exactly when every element parsed, keeping all values in order; otherwise it names the first failure |
| ConstructAnnotations.ParseLinesSpec | construct_annotations.py:67-78 | a box file parses exactly when every line does, giving one box per line in order; otherwise it names the first bad line |
| ConstructAnnotations.BoxesAt | construct_annotations.py:79-81 | a box is in a frame's list exactly when it is a box of the file with that frame number |
| ConstructAnnotations.GroupByFrameSpec | construct_annotations.py:79-81 | a frame appears in the dictionary exactly when some box has its number, and its list is the file's boxes for that frame in file order |
| ConstructAnnotations.ReadBboxLine | construct_annotations.py:68-78 | one line read imperatively gives the parsed box, or None where Python raises |
| ConstructAnnotations.LoadPlayerBbox | construct_annotations.py:64-82 | the loop builds the grouped dictionary of the parsed lines, or stops at the first bad line |
| ConstructAnnotations.TrackletOf | construct_annotations.py:13-17 | an empty entry maps to None; any other maps to a tracklet at the key's frame with the entry's fields |
| ConstructAnnotations.AssocFailure | construct_annotations.py:12-17 | building a dictionary from keyed entries succeeds exactly when every entry has a key, and otherwise names the first entry without one |
| ConstructAnnotations.AssocValues | construct_annotations.py:12-17 | the dictionary holds exactly the keys of the entries, each mapped to the value of its last entry |
| ConstructAnnotations.LastEntryFor | construct_annotations.py:12-17 | the last entry whose key reads as k, if any; no later entry has that key |
| ConstructAnnotations.PositionsMapSpec | construct_annotations.py:12-17 | every key appears as an int, mapped by its last entry: None for empty data, else a tracklet at that frame; the load fails exactly when some key is not an integer, at the first such key |
| ConstructAnnotations.Load2dPlayerPositions | construct_annotations.py:8-18 | the loop builds exactly that dictionary |
| ConstructAnnotations.MergedDomain | construct_annotations.py:111-113 | merged with `update`, a frame is present exactly when some file has it |
| ConstructAnnotations.MergedValue | construct_annotations.py:111-113 | a frame's merged list is the one of the last file that has it |
| ConstructAnnotations.MergeAllSpec | construct_annotations.py:111-113 | merging loaded files succeeds exactly when each loads, giving their merge; otherwise it gives the first failure |
| ConstructAnnotations.LoadBoxFiles | construct_annotations.py:110-115 | the loop over the chosen files gives exactly the merged result |
| ConstructAnnotations.NormalizeQuarter | construct_annotations.py:86-93 | period1..period4, in any case, become Q1..Q4; any other name stays as it is |
| ConstructAnnotations.NormalizeQuarterIdempotent | construct_annotations.py:86-93 | normalising twice is normalising once |
| ConstructAnnotations.NameMatches | construct_annotations.py:96-101 | for each file, whether its name contains `str(video_id)` and the tag |
| ConstructAnnotations.FirstPositionFile | construct_annotations.py:95-98 | the position file is the first listed file naming the video id and the normalised quarter, or none exists |
| ConstructAnnotations.BboxFileIndices | construct_annotations.py:100-102 | the box files are exactly the listed files naming the video id and the lower-cased quarter, in listing order |
| ConstructAnnotations.BoxFileResults | construct_annotations.py:111-113 | one load result per chosen box file, in order |
| ConstructAnnotations.FrameFor | construct_annotations.py:120-125 | a frame carries its number, the frame's boxes or `[]`, and its tracklet or None |
| ConstructAnnotations.FrameIds | construct_annotations.py:117-125 | the ids of a frame list, in order |
| ConstructAnnotations.FramesOfUnique | construct_annotations.py:117-125 | at most one strictly increasing frame list covers exactly the union of frame numbers with those contents |
| ConstructAnnotations.BuildFrames | construct_annotations.py:117-125 | the loop makes one frame per number, in the given order |
| ConstructAnnotations.GenerateVideoAnnotation | construct_annotations.py:85-132 | a bad position key or a bad box line is reported as the first failure; when both loads succeed the result is `Ok`, and it has the given id and path, the caption "Annotation for video <id>, <quarter>", no action, and one frame per number in the union of tracklet and box frames, strictly increasing, each with its boxes or `[]` and its tracklet or None |
| ConstructAnnotations.ReqInt | construct_annotations.py:31-39 | a required integer column converts only to the integer its text reads as |
| ConstructAnnotations.ReqFloat | construct_annotations.py:39 | a required float column converts only to the number its text reads as |
| ConstructAnnotations.OptInt | construct_annotations.py:42-52 | an empty or missing optional integer cell gives None; any other converts exactly when `int()` accepts it, to that integer |
| ConstructAnnotations.OptFloat | construct_annotations.py:40-53 | an empty or missing optional float cell gives None; any other converts exactly when `float()` accepts it |
| ConstructAnnotations.OptText | construct_annotations.py:43-59 | an empty or missing optional text cell gives None; any other is kept |
| ConstructAnnotations.ActionOf | construct_annotations.py:26 | a cell converts to an action only when it is that action's value |
| ConstructAnnotations.ConvertRow | construct_annotations.py:30-60 | a record is built exactly when every conversion succeeds; it then holds the parsed ids as decimal text, the action's value, team, half and second as parsed, the validated player and team names, no possession end or timestamp, and no id, since the id is passed under a name the record lacks |
| ConstructAnnotations.ConvertRowFields | construct_annotations.py:40-59 | each optional column of a built record is its `x if cell else None` conversion: positions and the start clear time as floats, the opponent, possession and teammate ids as integers (the teammate id then as decimal text), and the names, playtype, hand, shot type, drive, dribble move and contesting as text |
| ConstructAnnotations.ConvertRowIdsReadBack | construct_annotations.py:32-34 | the action and player ids, stored as text, read back as the parsed integers |
| ConstructAnnotations.KeepFlags | construct_annotations.py:25-29 | for each row, whether the keep check passes |
| ConstructAnnotations.CollectKeptFailure | construct_annotations.py:23-61 | a loop that skips some rows and builds the others fails exactly when some built row raises, at the first such row |
| ConstructAnnotations.CollectKeptValues | construct_annotations.py:23-61 | without a failure, the loop yields one value per row it keeps, in order, each that row's value |
| ConstructAnnotations.LoadedLogsSpec | construct_annotations.py:20-61 | loading succeeds exactly when every kept row converts; it then yields one record per kept row, in order; otherwise it names the first kept row whose conversion raises |
| ConstructAnnotations.ActionValueIsNoInteger | construct_annotations.py:27-34 | no action value is an integer literal |
| ConstructAnnotations.AsWrittenLoadsNothing | construct_annotations.py:25-34 | as written, the loader returns an empty list or raises, and it raises exactly when some row passes the check |
| ConstructAnnotations.PlayerIdCheckDropsValidRows | construct_annotations.py:27 | a well-formed row with an integer player id is dropped as written and loaded by the corrected check |
| ConstructAnnotations.TurnoverRowIsValid | construct_annotations.py:26-39 | a concrete Turnover row by player 1234 is well-formed, so the check as written drops a real row |
| ConstructAnnotations.LoadHudlGameLogs | construct_annotations.py:20-61 | the loop gives exactly the corrected loading |
| RunJob.Prepare | run_job.py:22-38 | ".DS_Store" gives None; a name that reads but whose game has no log gives False; each bad name raises its own exception, exactly when that part is the first to fail (game id, then period id, then, once a log is found, the period digit); a setup is returned exactly when the name reads and a log names the game, and it holds the parsed ids, the joined video path and the rows of the first log naming the game |
| RunJob.Job | run_job.py:49-68 | the transcoder call cuts 10 seconds that end at the clip's time out of the task's video into the clip path |
| RunJob.Jobs | run_job.py:39-68 | one call per planned clip, in order |
| RunJob.Outputs | run_job.py:64-68 | the output files of a list of calls, in order |
| RunJob.WriteAllPresent | run_job.py:66-73 | only files that existed or were produced are ever present; without giving up, every call produced its file, the present files are the initial ones plus the outputs of the calls, and every clip file is present |
| RunJob.WriteAllFresh | run_job.py:66-68 | every call is for a planned clip whose file did not exist, and no file is asked for twice, so nothing is overwritten |
| RunJob.WriteAllFailure | run_job.py:66-73 | writing gives up exactly when some clip file can be neither found nor produced, and then at the first such clip, whose call is the last one issued |
| RunJob.WriteAllHalts | run_job.py:70-73 | once writing gives up, later clips change nothing |
| RunJob.RunSetupOutcome | run_job.py:39-75 | a prepared task returns False exactly when some planned clip file cannot be obtained, and only then notes the video in `<game>_failed_videos.txt`; it returns True exactly when no row raises and every clip file can be obtained; an exception is the row loop's own |
| RunJob.RunSetupIssues | run_job.py:59-68 | every issued call is the call of one planned clip, into a file absent at the start, and no two calls share an output |
| RunJob.ObtainableNeverGivesUp | run_job.py:66-75 | when the transcoder produces every clip file, a task that found its log never returns False |
| RunJob.ScanRows | run_job.py:36-75 | the imperative single-pass loop, decide plus write plus early return, gives exactly the calls, notes and outcome of the plan-then-write reference |
| RunJob.ProcessVideo | run_job.py:21-75 | the whole task is its reference run |
| RunJob.DriverIgnore | run_job.py:84-89 | the driver's ignore list, built by two appends, is the clip script's ignore list |
| RunJob.Videos | run_job.py:91 | the driver starts one task per listed video except ".DS_Store", keeping multiplicities |
| RunJob.FailedCountSpec | run_job.py:101-106 | the driver's count is the number of results equal to False (None and True are not counted); it raises exactly when some task raised, with the first raised exception fetched |
| RunJob.FailedCountOrderFree | run_job.py:101-106 | the count does not depend on the order the tasks finish in |
| RunJob.FailedCountHalts | run_job.py:103-105 | once a fetched result raises, the rest is not looked at |
| RunJob.CountFailed | run_job.py:101-106 | the counting loop gives exactly the reference count |

## Left out

- **File and directory I/O.** `open`, `json.load` and `json.dump`, `csv.DictReader`,
  `pd.read_csv`, `os.listdir`, `glob`, `os.path.exists` and `os.makedirs` are not
  modelled. Their results are given as values:
  - a box file is its lines;
  - a position file is its JSON entries in order;
  - a listing is its names and contents in listing order;
  - a game log is its rows;
  - loaded annotation files are a map from paths to annotations;
  - in the clip job, the file system is two sets.
  
  Directory listing order is arbitrary in Python, so it is an input here.
- **Text formats.** Only these are modelled: the whitespace of `str.isspace()` for `strip`
  and `int()`, ASCII letters
  for `lower`, and plain decimal notation for `int()` and `float()` (optional sign,
  digits, at most one '.'). Exponents, "nan", "inf", underscores, Unicode digits and
  float rounding are not modelled, and real numbers are exact.
- **pandas typing of log cells.** Integer columns are taken as integers and text columns
  as text. `to_int_or_none` (annotate_clips.py:245-246) is therefore the identity on
  present cells: an integer column never holds `''`. A column that pandas reads as float,
  and formats as "123.0" in a name, is not modelled. Nor is the KeyError of a missing
  column.
- **`load_video_annotation` and `save_video_annotation`.** Their JSON parsing and
  writing are left out. The assertion in `save_video_annotation` is modelled; see
  Findings.
- **pydantic machinery.**
  - `model_copy` and `.dict()` are not modelled: records are immutable values, so a deep
    copy is the value itself.
  - Field-type coercion is not modelled, except that an integer passed to a text field
    is stored as its `str()`, which is what pydantic 1 does.
- ConstructAnnotations.ConvertRow: the ids `int(row['action_id'])`, `int(row['player_id'])`
  and `int(row['teammate_id'])` (construct_annotations.py:32, 34, 46) go to `Optional[str]`
  fields (annot_types.py:97, 99, 107). The model stores them as their decimal text, as
  pydantic 1 does. pydantic 2, which `model_copy` and `field_validator` point to, does not
  turn numbers into text by default. It raises a ValidationError there, so under pydantic 2
  every kept row of the loader, including the corrected one, raises instead of becoming a
  record. `ConvertRow`, `LoadedLogsSpec` and `LoadHudlGameLogs` describe the pydantic 1
  behaviour. annotate_clips.py:250-266 wraps the same ids in `str(...)`, and does not
  depend on this.
  - The import of annot_types.py fails as written under either pydantic version (see the
    notes on `field_validator` above); the model describes the program as intended.
  - `Tracklet(**data)` validation of unknown keys is not modelled.
  - Position-file values arrive already split into tracklet fields.
- AnnotateClips.BuildAction: a missing (NaN) cell of the log is passed to the record as
  None. pydantic does not do that. Under pydantic 2, an `Optional[str]` field given float
  NaN raises a ValidationError; under pydantic 1, it stores "nan". An `Optional[float]`
  field keeps NaN. Examples are the teammate name of an Assisting row (annotate_clips.py:213,
  268) and `possession_start_clear` (annotate_clips.py:278). The caption of the same clip
  prints that name as "nan" (`PyStr`). So for such rows the model gives a record where
  the program raises or stores NaN.
- **Negative row ids.** The id of a `LogRow` is a `nat`. For a negative id, the program's
  `int(f"{video_id}{action_id}")` raises ValueError, because the '-' lands mid-number.
  That error path is not modelled.
- **The transcoder.** It is external. The model keeps what the task asks it for
  (seek, duration, input, output, never overwrite) and the set `produced`.
  `os.system` and its exit status are ignored by the source too.
- **Concurrency and progress output.** ray (`init`, `remote`, `put`, `wait`, `shutdown`),
  tqdm, every `print` (including the one every 100 failures), and the logging setup are
  not modelled. Completion order is given as a sequence of results.
- **The OpenCV debug code.** It is commented out at annotate_clips.py:113-125.
- **verify_annot.py.** It is not part of this model: it only draws annotations on video
  frames.
- **construct_annotations.py `main` (134-162).** It is a file-system driver: it lists
  videos, skips existing outputs, calls `generate_video_annotation`, and catches and prints
  every exception.
- **Optional fields of `ActionAnnotation`.** The all-absent default is the constant
  `AnnotTypes.NoAction`, with no contract of its own.
- **`AnnotTypes.IsBall` and `AnnotTypes.OnCourt`.** They state the documented ball and
  court ranges, which the schema does not enforce. No operation changes a position:
  `AnnotateClips.ClipKeepsMoments` shows that clips carry the recorded moments unchanged.

## Findings

| source | as written | input that shows it | evidently intended | confidence | as-written member | corrected member |
|---|---|---|---|---|---|---|
| construct_annotations.py:27 | the keep check parses the player id as an action name: `ActionName(row['player_id'])` | a well-formed Turnover row by player 1234: it is skipped, and any row that does pass the check then fails on `int(row['player_id'])`, so the loader returns `[]` or raises | keep a row when its action name is valid and its player id is an integer; under pydantic 2 the ids passed to text fields at lines 32, 34 and 46 also need `str(...)`, as annotate_clips.py:250-266 does | high (not executed) | ConstructAnnotations.AsWrittenLoadsNothing, ConstructAnnotations.PlayerIdCheckDropsValidRows, ConstructAnnotations.TurnoverRowIsValid | ConstructAnnotations.LoadHudlGameLogs, ConstructAnnotations.LoadedLogsSpec |
| annotate_clips.py:72 | `save_video_annotation` asserts that the target file already exists before writing it | the first clip of a run into an empty output folder: the assertion fails, so no clip annotation is ever created | assert only that the folder exists, or nothing, since the caller creates it at line 294 | high (not executed) | AnnotateClips.SavedBeforeRefusal, AnnotateClips.FreshOutputRefusedAsWritten | AnnotateClips.AnnotateRows, AnnotateClips.ProcessAnnotations |
