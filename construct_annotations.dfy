/** Building the annotation of one period video from the tracking outputs: the box files
    (one comma-separated box per line), the position file (frame number to an optional
    tracklet) and, separately, the rows of a game log. File contents arrive as values: a
    box file as its lines, a position file as the entries of its JSON object, a directory
    as the names and contents of its files in listing order. */
module ConstructAnnotations {
  import opened Common
  import opened PyBuiltins
  import opened AnnotTypes
  import opened Sorting

  // ---------------------------------------------------------------- box files

  /** One line of a box file: frame, player id, x, y, width, height and confidence,
      separated by ','. Surrounding whitespace is dropped and fields past the seventh are
      ignored. None where Python raises: too few fields, or a field that does not parse. */
  function ParseBboxLine(line: string): Option<Bbox> {
    BboxOfFields(Split(Strip(line), ','))
  }

  /** The box of a line's fields: the first two read by int(), the next five by float(). */
  function BboxOfFields(data: seq<string>): Option<Bbox> {
    if |data| < 7 then None
    else
      var f, p := ParseInt(data[0]), ParseInt(data[1]);
      var x, y, w, h, c := ParseFloat(data[2]), ParseFloat(data[3]), ParseFloat(data[4]),
        ParseFloat(data[5]), ParseFloat(data[6]);
      if f.None? || p.None? || x.None? || y.None? || w.None? || h.None? || c.None? then None
      else Some(Bbox(f.value, p.value, x.value, y.value, w.value, h.value, c.value))
  }

  /** The line a box with integral fields is written as. */
  function BboxLine(f: int, p: int, x: int, y: int, w: int, h: int, c: int): string {
    Join([IntToString(f), IntToString(p), IntToString(x), IntToString(y), IntToString(w),
          IntToString(h), IntToString(c)], ',')
  }

  /** Text made of '-', digits and ',' only. */
  predicate NumberishText(s: string) {
    forall i :: 0 <= i < |s| ==> s[i] == '-' || s[i] == ',' || IsDigit(s[i])
  }

  lemma {:induction false} JoinNumberish(parts: seq<string>)
    requires forall k :: 0 <= k < |parts| ==> NumberishText(parts[k])
    ensures NumberishText(Join(parts, ','))
  {
    if |parts| > 1 {
      JoinNumberish(parts[1..]);
      var j := Join(parts, ',');
      var t := Join(parts[1..], ',');
      assert j == parts[0] + [','] + t;
      forall i | 0 <= i < |j|
        ensures j[i] == '-' || j[i] == ',' || IsDigit(j[i])
      {
        if i < |parts[0]| {
          assert j[i] == parts[0][i];
        } else if i > |parts[0]| {
          assert j[i] == t[i - |parts[0]| - 1];
        }
      }
    }
  }

  /** The text of an integer is a field free of ','. */
  lemma IntTextPart(n: int)
    ensures NumberishText(IntToString(n)) && ',' !in IntToString(n) && |IntToString(n)| >= 1
  {
    IntToStringChars(n);
  }

  /** Reading back the line of a box with integral fields gives that box. */
  lemma ParseBboxLineOfIntegers(f: int, p: int, x: int, y: int, w: int, h: int, c: int)
    ensures ParseBboxLine(BboxLine(f, p, x, y, w, h, c))
      == Some(Bbox(f, p, x as real, y as real, w as real, h as real, c as real))
  {
    BboxLineFields(f, p, x, y, w, h, c);
    BboxOfIntegerFields(f, p, x, y, w, h, c);
  }

  /** The fields of an integral box's line are the texts of its seven numbers. */
  lemma BboxLineFields(f: int, p: int, x: int, y: int, w: int, h: int, c: int)
    ensures Split(Strip(BboxLine(f, p, x, y, w, h, c)), ',')
      == [IntToString(f), IntToString(p), IntToString(x), IntToString(y), IntToString(w),
          IntToString(h), IntToString(c)]
  {
    var parts := [IntToString(f), IntToString(p), IntToString(x), IntToString(y), IntToString(w),
                  IntToString(h), IntToString(c)];
    forall k | 0 <= k < |parts|
      ensures NumberishText(parts[k]) && ',' !in parts[k] && |parts[k]| >= 1
    {
      if k == 0 { IntTextPart(f); }
      else if k == 1 { IntTextPart(p); }
      else if k == 2 { IntTextPart(x); }
      else if k == 3 { IntTextPart(y); }
      else if k == 4 { IntTextPart(w); }
      else if k == 5 { IntTextPart(h); }
      else { IntTextPart(c); }
    }
    var line := BboxLine(f, p, x, y, w, h, c);
    JoinNumberish(parts);
    assert NoSpace(line);
    SplitJoin(parts, ',');
  }

  /** The texts of seven integers read back as those numbers. */
  lemma BboxOfIntegerFields(f: int, p: int, x: int, y: int, w: int, h: int, c: int)
    ensures BboxOfFields([IntToString(f), IntToString(p), IntToString(x), IntToString(y),
                          IntToString(w), IntToString(h), IntToString(c)])
      == Some(Bbox(f, p, x as real, y as real, w as real, h as real, c as real))
  {
    ParseIntOfString(f);
    ParseIntOfString(p);
    ParseFloatOfString(x);
    ParseFloatOfString(y);
    ParseFloatOfString(w);
    ParseFloatOfString(h);
    ParseFloatOfString(c);
  }

  /** The values of the list in order, or the position of its first None. */
  function CollectAll<T>(xs: seq<Option<T>>): Result<seq<T>, nat>
    decreases |xs|
  {
    if |xs| == 0 then Ok([])
    else
      match CollectAll(xs[..|xs| - 1])
      case Err(i) => Err(i)
      case Ok(vs) =>
        match xs[|xs| - 1]
        case None => Err(|xs| - 1)
        case Some(v) => Ok(vs + [v])
  }

  /** Collecting succeeds exactly when no entry is None, and then keeps every value in
      place; otherwise it names the first None. */
  lemma {:induction false} CollectAllSpec<T>(xs: seq<Option<T>>)
    ensures CollectAll(xs).Ok? <==> forall i :: 0 <= i < |xs| ==> xs[i].Some?
    ensures CollectAll(xs).Ok? ==>
      |CollectAll(xs).value| == |xs| && forall i :: 0 <= i < |xs| ==> CollectAll(xs).value[i] == xs[i].value
    ensures CollectAll(xs).Err? ==>
      var i := CollectAll(xs).error;
      i < |xs| && xs[i].None? && forall j :: 0 <= j < i ==> xs[j].Some?
    decreases |xs|
  {
    if |xs| > 0 {
      var pre := xs[..|xs| - 1];
      CollectAllSpec(pre);
      assert forall i :: 0 <= i < |pre| ==> pre[i] == xs[i];
    }
  }

  /** Collecting one entry more. */
  lemma CollectAllStep<T>(xs: seq<Option<T>>, i: nat)
    requires i < |xs|
    ensures CollectAll(xs[..i + 1]) == match CollectAll(xs[..i])
      case Err(j) => Err(j)
      case Ok(vs) => if xs[i].None? then Err(i) else Ok(vs + [xs[i].value])
  {
    assert xs[..i + 1][..i] == xs[..i];
  }

  /** Once collecting a prefix fails, every longer prefix fails the same way. */
  lemma {:induction false} CollectAllHalts<T>(xs: seq<Option<T>>, n: nat, m: nat)
    requires n <= m <= |xs|
    requires CollectAll(xs[..n]).Err?
    ensures CollectAll(xs[..m]) == CollectAll(xs[..n])
    decreases m
  {
    if m > n {
      CollectAllHalts(xs, n, m - 1);
      assert xs[..m][..m - 1] == xs[..m - 1];
    }
  }

  /** Every line parsed on its own, in file order. */
  function ParsedLines(lines: seq<string>): (r: seq<Option<Bbox>>)
    ensures |r| == |lines|
    decreases |lines|
  {
    if |lines| == 0 then [] else ParsedLines(lines[..|lines| - 1]) + [ParseBboxLine(lines[|lines| - 1])]
  }

  /** Entry i of the parsed lines is line i parsed. */
  lemma {:induction false} ParsedLineAt(lines: seq<string>, i: nat)
    requires i < |lines|
    ensures ParsedLines(lines)[i] == ParseBboxLine(lines[i])
    decreases |lines|
  {
    if i < |lines| - 1 {
      var pre := lines[..|lines| - 1];
      ParsedLineAt(pre, i);
      assert pre[i] == lines[i];
    }
  }

  /** The boxes of the lines, in file order, or the position of the first line that does
      not parse. */
  function ParseLines(lines: seq<string>): Result<seq<Bbox>, nat> {
    CollectAll(ParsedLines(lines))
  }

  /** Parsing succeeds exactly when every line parses, and then gives one box per line;
      otherwise it names the first line that does not. */
  lemma ParseLinesSpec(lines: seq<string>)
    ensures ParseLines(lines).Ok? <==> forall i :: 0 <= i < |lines| ==> ParseBboxLine(lines[i]).Some?
    ensures ParseLines(lines).Ok? ==>
      |ParseLines(lines).value| == |lines|
      && forall i :: 0 <= i < |lines| ==> ParseLines(lines).value[i] == ParseBboxLine(lines[i]).value
    ensures ParseLines(lines).Err? ==>
      var i := ParseLines(lines).error;
      i < |lines| && ParseBboxLine(lines[i]).None?
      && forall j :: 0 <= j < i ==> ParseBboxLine(lines[j]).Some?
  {
    CollectAllSpec(ParsedLines(lines));
    forall i | 0 <= i < |lines|
      ensures ParsedLines(lines)[i] == ParseBboxLine(lines[i])
    {
      ParsedLineAt(lines, i);
    }
  }

  /** The boxes of frame k, in file order. */
  function BoxesAt(bs: seq<Bbox>, k: int): (r: seq<Bbox>)
    ensures forall b :: b in r <==> b in bs && b.frameNumber == k
    decreases |bs|
  {
    if |bs| == 0 then []
    else BoxesAt(bs[..|bs| - 1], k) + if bs[|bs| - 1].frameNumber == k then [bs[|bs| - 1]] else []
  }

  /** The boxes grouped by frame, each group growing by appends in file order. */
  function GroupByFrame(bs: seq<Bbox>): map<int, seq<Bbox>>
    decreases |bs|
  {
    if |bs| == 0 then map[]
    else
      AddToGroup(GroupByFrame(bs[..|bs| - 1]), bs[|bs| - 1])
  }

  /** The grouping after one more box: that box appended to its frame's list. */
  function AddToGroup(g: map<int, seq<Bbox>>, b: Bbox): map<int, seq<Bbox>> {
    g[b.frameNumber := (if b.frameNumber in g then g[b.frameNumber] else []) + [b]]
  }

  /** A frame has a group exactly when some box is at it, and the group is that frame's
      boxes in file order. */
  lemma {:induction false} GroupByFrameSpec(bs: seq<Bbox>)
    ensures forall k :: k in GroupByFrame(bs) <==> |BoxesAt(bs, k)| > 0
    ensures forall k :: k in GroupByFrame(bs) ==> GroupByFrame(bs)[k] == BoxesAt(bs, k)
    decreases |bs|
  {
    if |bs| > 0 {
      GroupByFrameSpec(bs[..|bs| - 1]);
    }
  }

  /** Creating a missing list and then appending to it is one step of the grouping. */
  lemma MapUpdateTwice(m: map<int, seq<Bbox>>, b: Bbox)
    ensures (var k := b.frameNumber; var m1 := if k !in m then m[k := []] else m; m1[k := m1[k] + [b]])
      == AddToGroup(m, b)
  {
  }

  /** Splits one line and converts its seven fields. */
  method ReadBboxLine(line: string) returns (bbox: Option<Bbox>)
    ensures bbox == ParseBboxLine(line)
  {
    var data := Split(Strip(line), ',');
    if |data| < 7 {
      return None;
    }
    var frameNumber := ParseInt(data[0]);
    var playerId := ParseInt(data[1]);
    var x := ParseFloat(data[2]);
    var y := ParseFloat(data[3]);
    var w := ParseFloat(data[4]);
    var h := ParseFloat(data[5]);
    var c := ParseFloat(data[6]);
    if frameNumber.None? || playerId.None? || x.None? || y.None? || w.None? || h.None? || c.None? {
      return None;
    }
    return Some(Bbox(frameNumber.value, playerId.value, x.value, y.value, w.value, h.value, c.value));
  }

  /** Reads a box file line by line into the frame-to-boxes dictionary, creating a frame's
      list on its first box and appending to it afterwards; a line that does not parse
      raises. */
  method LoadPlayerBbox(lines: seq<string>) returns (r: Result<map<int, seq<Bbox>>, nat>)
    ensures r == match ParseLines(lines)
      case Ok(bs) => Ok(GroupByFrame(bs))
      case Err(i) => Err(i)
  {
    ghost var parsed := ParsedLines(lines);
    var bboxesDict: map<int, seq<Bbox>> := map[];
    ghost var boxes: seq<Bbox> := [];
    for i := 0 to |lines|
      invariant CollectAll(parsed[..i]) == Ok(boxes)
      invariant bboxesDict == GroupByFrame(boxes)
    {
      var bbox := ReadBboxLine(lines[i]);
      ParsedLineAt(lines, i);
      if bbox.None? {
        CollectAllStops(parsed, i);
        return Err(i);
      }
      var frameNumber := bbox.value.frameNumber;
      ghost var before := bboxesDict;
      if frameNumber !in bboxesDict {
        bboxesDict := bboxesDict[frameNumber := []];
      }
      bboxesDict := bboxesDict[frameNumber := bboxesDict[frameNumber] + [bbox.value]];
      MapUpdateTwice(before, bbox.value);
      GroupStep(parsed, i, boxes, bbox.value);
      boxes := boxes + [bbox.value];
    }
    assert parsed[..|lines|] == parsed;
    return Ok(bboxesDict);
  }

  /** One more parsed box extends both the collected boxes and their grouping. */
  lemma GroupStep(parsed: seq<Option<Bbox>>, i: nat, boxes: seq<Bbox>, b: Bbox)
    requires i < |parsed| && CollectAll(parsed[..i]) == Ok(boxes) && parsed[i] == Some(b)
    ensures CollectAll(parsed[..i + 1]) == Ok(boxes + [b])
    ensures GroupByFrame(boxes + [b]) == AddToGroup(GroupByFrame(boxes), b)
  {
    CollectAllStep(parsed, i);
    var grown := boxes + [b];
    assert grown[..|grown| - 1] == boxes;
  }

  /** A line that does not parse, after lines that do, is where collecting fails. */
  lemma CollectAllStops<T>(xs: seq<Option<T>>, i: nat)
    requires i < |xs| && CollectAll(xs[..i]).Ok? && xs[i].None?
    ensures CollectAll(xs) == Err(i)
  {
    CollectAllStep(xs, i);
    CollectAllHalts(xs, i + 1, |xs|);
    assert xs[..|xs|] == xs;
  }

  // ---------------------------------------------------------------- position files

  /** The fields of a non-empty tracklet entry. */
  datatype TrackletData = TrackletData(predQuarter: string, predTimeRemaining: real, moment: Moment)

  /** One entry of a position file: the frame number as the JSON key, and the tracklet
      fields, or None where the value is empty. */
  type PositionEntry = (string, Option<TrackletData>)

  /** The tracklet an entry maps to: None for an empty value, otherwise a tracklet whose
      frame number is the key's. */
  function TrackletOf(k: int, data: Option<TrackletData>): (t: Option<Tracklet>)
    ensures t.None? <==> data.None?
    ensures t.Some? ==>
      && t.value.frameNumber == k && t.value.predQuarter == data.value.predQuarter
      && t.value.predTimeRemaining == data.value.predTimeRemaining && t.value.moment == data.value.moment
  {
    match data
    case None => None
    case Some(d) => Some(Tracklet(k, d.predQuarter, d.predTimeRemaining, d.moment))
  }

  /** Key-value pairs as a dictionary, a later pair for a key replacing an earlier one; Err
      names the first place where there is no pair. */
  function Assoc<V>(ps: seq<Option<(int, V)>>): Result<map<int, V>, nat>
    decreases |ps|
  {
    if |ps| == 0 then Ok(map[])
    else
      match Assoc(ps[..|ps| - 1])
      case Err(i) => Err(i)
      case Ok(m) =>
        match ps[|ps| - 1]
        case None => Err(|ps| - 1)
        case Some(p) => Ok(m[p.0 := p.1])
  }

  /** The position of the last pair with key k, or -1. */
  function LastKeyed<V>(ps: seq<Option<(int, V)>>, k: int): (i: int)
    ensures -1 <= i < |ps|
    ensures i >= 0 ==> ps[i].Some? && ps[i].value.0 == k
    ensures forall j :: i < j < |ps| ==> !(ps[j].Some? && ps[j].value.0 == k)
    decreases |ps|
  {
    if |ps| == 0 then -1
    else if ps[|ps| - 1].Some? && ps[|ps| - 1].value.0 == k then |ps| - 1
    else LastKeyed(ps[..|ps| - 1], k)
  }

  /** Building the dictionary succeeds exactly when every place holds a pair; otherwise it
      names the first place that does not. */
  lemma {:induction false} AssocFailure<V>(ps: seq<Option<(int, V)>>)
    ensures Assoc(ps).Ok? <==> forall i :: 0 <= i < |ps| ==> ps[i].Some?
    ensures Assoc(ps).Err? ==>
      var i := Assoc(ps).error;
      i < |ps| && ps[i].None? && forall j :: 0 <= j < i ==> ps[j].Some?
    decreases |ps|
  {
    if |ps| > 0 {
      var pre := ps[..|ps| - 1];
      AssocFailure(pre);
      assert forall i :: 0 <= i < |pre| ==> pre[i] == ps[i];
    }
  }

  /** The dictionary holds exactly the keys of the pairs, each mapped to the value of its
      last pair. */
  lemma {:induction false} AssocValues<V>(ps: seq<Option<(int, V)>>)
    requires Assoc(ps).Ok?
    ensures forall k :: (k in Assoc(ps).value <==> LastKeyed(ps, k) >= 0)
    ensures forall k :: k in Assoc(ps).value ==> Assoc(ps).value[k] == ps[LastKeyed(ps, k)].value.1
    decreases |ps|
  {
    if |ps| > 0 {
      var pre := ps[..|ps| - 1];
      match Assoc(pre)
      case Ok(m) =>
        AssocValues(pre);
        var p := ps[|ps| - 1].value;
        forall k
          ensures (k in Assoc(ps).value <==> LastKeyed(ps, k) >= 0)
          ensures k in Assoc(ps).value ==> Assoc(ps).value[k] == ps[LastKeyed(ps, k)].value.1
        {
          if k != p.0 {
            assert LastKeyed(ps, k) == LastKeyed(pre, k);
          }
        }
    }
  }

  /** Building from one place more. */
  lemma AssocStep<V>(ps: seq<Option<(int, V)>>, i: nat)
    requires i < |ps|
    ensures Assoc(ps[..i + 1]) == match Assoc(ps[..i])
      case Err(j) => Err(j)
      case Ok(m) => if ps[i].None? then Err(i) else Ok(m[ps[i].value.0 := ps[i].value.1])
  {
    assert ps[..i + 1][..i] == ps[..i];
  }

  /** Once building from a prefix fails, every longer prefix fails the same way. */
  lemma {:induction false} AssocHalts<V>(ps: seq<Option<(int, V)>>, n: nat, m: nat)
    requires n <= m <= |ps|
    requires Assoc(ps[..n]).Err?
    ensures Assoc(ps[..m]) == Assoc(ps[..n])
    decreases m
  {
    if m > n {
      AssocHalts(ps, n, m - 1);
      assert ps[..m][..m - 1] == ps[..m - 1];
    }
  }

  /** An entry as a pair: int(key) and its tracklet, or None when int() rejects the key. */
  function EntryPair(e: PositionEntry): (r: Option<(int, Option<Tracklet>)>)
    ensures r.Some? <==> ParseInt(e.0).Some?
    ensures r.Some? ==> r.value.0 == ParseInt(e.0).value && r.value.1 == TrackletOf(r.value.0, e.1)
  {
    match ParseInt(e.0)
    case None => None
    case Some(k) => Some((k, TrackletOf(k, e.1)))
  }

  /** Every entry as a pair. */
  function EntryPairs(entries: seq<PositionEntry>): (r: seq<Option<(int, Option<Tracklet>)>>)
    ensures |r| == |entries| && forall i :: 0 <= i < |entries| ==> r[i] == EntryPair(entries[i])
  {
    seq(|entries|, i requires 0 <= i < |entries| => EntryPair(entries[i]))
  }

  /** The entries as a dictionary keyed by int(key); a later entry with the same number
      replaces an earlier one. Err names the first key int() rejects. */
  function PositionsMap(entries: seq<PositionEntry>): Result<map<int, Option<Tracklet>>, nat> {
    Assoc(EntryPairs(entries))
  }

  /** The position of the last entry whose key reads as k, or -1. */
  function LastEntryFor(entries: seq<PositionEntry>, k: int): (i: int)
    ensures -1 <= i < |entries|
    ensures i >= 0 ==> ParseInt(entries[i].0) == Some(k)
    ensures forall j :: i < j < |entries| ==> ParseInt(entries[j].0) != Some(k)
  {
    var ps := EntryPairs(entries);
    var i := LastKeyed(ps, k);
    assert forall j :: i < j < |entries| ==> !(ps[j].Some? && ps[j].value.0 == k);
    i
  }

  /** Every key appears as an int, mapped to the tracklet of the last entry with that
      number: None for an empty value, otherwise a tracklet at that frame. */
  lemma PositionsMapSpec(entries: seq<PositionEntry>)
    ensures PositionsMap(entries).Ok? <==> forall i :: 0 <= i < |entries| ==> ParseInt(entries[i].0).Some?
    ensures PositionsMap(entries).Ok? ==> forall k ::
      (k in PositionsMap(entries).value <==> LastEntryFor(entries, k) >= 0)
      && (k in PositionsMap(entries).value ==>
            PositionsMap(entries).value[k] == TrackletOf(k, entries[LastEntryFor(entries, k)].1))
    ensures PositionsMap(entries).Err? ==>
      var i := PositionsMap(entries).error;
      i < |entries| && ParseInt(entries[i].0).None?
      && forall j :: 0 <= j < i ==> ParseInt(entries[j].0).Some?
  {
    var ps := EntryPairs(entries);
    AssocFailure(ps);
    if Assoc(ps).Ok? {
      AssocValues(ps);
    }
  }

  /** Reads a position file's entries into the frame-to-tracklet dictionary. */
  method Load2dPlayerPositions(entries: seq<PositionEntry>) returns (r: Result<map<int, Option<Tracklet>>, nat>)
    ensures r == PositionsMap(entries)
  {
    ghost var ps := EntryPairs(entries);
    var tracklets: map<int, Option<Tracklet>> := map[];
    for i := 0 to |entries|
      invariant Assoc(ps[..i]) == Ok(tracklets)
    {
      AssocStep(ps, i);
      var (frameNumber, trackletData) := entries[i];
      var k := ParseInt(frameNumber);
      if k.None? {
        AssocHalts(ps, i + 1, |entries|);
        assert ps[..|entries|] == ps;
        return Err(i);
      }
      if trackletData.Some? {
        var tracklet := Tracklet(k.value, trackletData.value.predQuarter,
          trackletData.value.predTimeRemaining, trackletData.value.moment);
        tracklets := tracklets[k.value := Some(tracklet)];
      } else {
        tracklets := tracklets[k.value := None];
      }
    }
    assert ps[..|entries|] == ps;
    return Ok(tracklets);
  }

  // ---------------------------------------------------------------- merging box files

  /** The dictionaries merged in order with update(): for a frame in several of them, the
      later one's list wins. */
  function Merged(dicts: seq<map<int, seq<Bbox>>>): map<int, seq<Bbox>>
    decreases |dicts|
  {
    if |dicts| == 0 then map[]
    else Merged(dicts[..|dicts| - 1]) + dicts[|dicts| - 1]
  }

  /** dicts[j] holds frame k and no later dictionary does. */
  predicate LastHolder(dicts: seq<map<int, seq<Bbox>>>, k: int, j: int) {
    0 <= j < |dicts| && k in dicts[j] && forall i :: j < i < |dicts| ==> k !in dicts[i]
  }

  /** A frame is in the merge exactly when it is in some dictionary. */
  lemma {:induction false} MergedDomain(dicts: seq<map<int, seq<Bbox>>>, k: int)
    ensures k in Merged(dicts) <==> exists i :: 0 <= i < |dicts| && k in dicts[i]
    decreases |dicts|
  {
    if |dicts| > 0 {
      var n := |dicts| - 1;
      var pre := dicts[..n];
      MergedDomain(pre, k);
      assert Merged(dicts) == Merged(pre) + dicts[n];
      if k in dicts[n] {
        assert 0 <= n < |dicts| && k in dicts[n];
      } else if k in Merged(pre) {
        var i :| 0 <= i < |pre| && k in pre[i];
        assert k in dicts[i];
      } else {
        forall i | 0 <= i < |dicts| ensures k !in dicts[i] {
          if i < n {
            assert dicts[i] == pre[i];
          }
        }
      }
    }
  }

  /** A frame's list in the merge is the one of the last dictionary holding it. */
  lemma {:induction false} MergedValue(dicts: seq<map<int, seq<Bbox>>>, k: int, j: int)
    requires LastHolder(dicts, k, j)
    ensures k in Merged(dicts) && Merged(dicts)[k] == dicts[j][k]
    decreases |dicts|
  {
    var n := |dicts| - 1;
    var pre := dicts[..n];
    assert Merged(dicts) == Merged(pre) + dicts[n];
    if j < n {
      assert k !in dicts[n];
      assert forall i :: j <= i < |pre| ==> pre[i] == dicts[i];
      assert LastHolder(pre, k, j);
      MergedValue(pre, k, j);
    }
  }

  // ---------------------------------------------------------------- quarter names

  /** period1..period4, in any letter case, become Q1..Q4; any other name is kept. */
  function NormalizeQuarter(quarter: string): (r: string)
    ensures Lower(quarter) == "period1" ==> r == "Q1"
    ensures Lower(quarter) == "period2" ==> r == "Q2"
    ensures Lower(quarter) == "period3" ==> r == "Q3"
    ensures Lower(quarter) == "period4" ==> r == "Q4"
    ensures Lower(quarter) !in {"period1", "period2", "period3", "period4"} ==> r == quarter
  {
    match Lower(quarter)
    case "period1" => "Q1"
    case "period2" => "Q2"
    case "period3" => "Q3"
    case "period4" => "Q4"
    case _ => quarter
  }

  /** Normalizing twice changes nothing more. */
  lemma NormalizeQuarterIdempotent(quarter: string)
    ensures NormalizeQuarter(NormalizeQuarter(quarter)) == NormalizeQuarter(quarter)
  {
    var r := NormalizeQuarter(quarter);
    if Lower(quarter) in {"period1", "period2", "period3", "period4"} {
      assert Lower(r)[0] == 'q';
    }
  }

  /** Names that differ only in letter case normalize alike unless they are kept as is. */
  lemma NormalizeQuarterIgnoresCase(a: string, b: string)
    requires Lower(a) == Lower(b)
    ensures NormalizeQuarter(a) == NormalizeQuarter(b)
      || (NormalizeQuarter(a) == a && NormalizeQuarter(b) == b)
  {
  }

  // ---------------------------------------------------------------- choosing the files

  /** A directory listing: each file's name with its contents, in listing order. */
  type Listing<C> = seq<(string, C)>

  /** The file name contains both str(video id) and the given tag. */
  predicate NamesVideo(name: string, videoId: int, tag: string) {
    Contains(name, IntToString(videoId)) && Contains(name, tag)
  }

  /** For each file of the listing, whether its name mentions the video id and the tag. */
  function NameMatches<C>(files: Listing<C>, videoId: int, tag: string): (r: seq<bool>)
    ensures |r| == |files| && forall j :: 0 <= j < |files| ==> r[j] == NamesVideo(files[j].0, videoId, tag)
  {
    seq(|files|, j requires 0 <= j < |files| => NamesVideo(files[j].0, videoId, tag))
  }

  /** The position of the first file whose name mentions the video id and the period, as
      next() over the listing finds it, or None. */
  function FirstPositionFile<C>(files: Listing<C>, videoId: int, period: string): (r: Option<nat>)
    ensures r.Some? ==> r.value < |files| && NamesVideo(files[r.value].0, videoId, period)
    ensures r.Some? ==> forall j :: 0 <= j < r.value ==> !NamesVideo(files[j].0, videoId, period)
    ensures r.None? ==> forall j :: 0 <= j < |files| ==> !NamesVideo(files[j].0, videoId, period)
  {
    FirstTrue(NameMatches(files, videoId, period))
  }

  /** The positions, in listing order, of every box file whose name mentions the video id
      and the lower-cased quarter. */
  function BboxFileIndices<C>(files: Listing<C>, videoId: int, quarter: string): (r: seq<nat>)
    ensures forall k :: 0 <= k < |r| ==> r[k] < |files| && NamesVideo(files[r[k]].0, videoId, Lower(quarter))
    ensures forall j :: 0 <= j < |files| && NamesVideo(files[j].0, videoId, Lower(quarter)) ==> j in r
    ensures forall k, l :: 0 <= k < l < |r| ==> r[k] < r[l]
  {
    TrueIndices(NameMatches(files, videoId, Lower(quarter)))
  }

  /** Why building a video annotation raises: a position key int() rejects, or a box-file
      line that does not parse (file position in its listing, line position in the file). */
  datatype LoadError = BadPositionKey(file: nat, entry: nat) | BadBboxLine(file: nat, line: nat)

  /** The tracklets of the chosen position file; none when no file matches. */
  function LoadedTracklets(files: Listing<seq<PositionEntry>>, videoId: int, quarter: string)
    : Result<map<int, Option<Tracklet>>, LoadError>
  {
    match FirstPositionFile(files, videoId, NormalizeQuarter(quarter))
    case None => Ok(map[])
    case Some(i) =>
      match PositionsMap(files[i].1)
      case Err(j) => Err(BadPositionKey(i, j))
      case Ok(m) => Ok(m)
  }

  /** One box file grouped by frame, or where it raises. */
  function LoadedBoxFile(files: Listing<seq<string>>, i: nat): Result<map<int, seq<Bbox>>, LoadError>
    requires i < |files|
  {
    match ParseLines(files[i].1)
    case Err(j) => Err(BadBboxLine(i, j))
    case Ok(bs) => Ok(GroupByFrame(bs))
  }

  /** The dictionaries merged in order, or the first failure. */
  function MergeAll(rs: seq<Result<map<int, seq<Bbox>>, LoadError>>): Result<map<int, seq<Bbox>>, LoadError>
    decreases |rs|
  {
    if |rs| == 0 then Ok(map[])
    else
      match MergeAll(rs[..|rs| - 1])
      case Err(e) => Err(e)
      case Ok(m) =>
        match rs[|rs| - 1]
        case Err(e) => Err(e)
        case Ok(d) => Ok(m + d)
  }

  /** Without failures, MergeAll is the merge of the dictionaries; otherwise it is the first
      failure. */
  lemma {:induction false} MergeAllSpec(rs: seq<Result<map<int, seq<Bbox>>, LoadError>>)
    ensures MergeAll(rs).Ok? <==> forall k :: 0 <= k < |rs| ==> rs[k].Ok?
    ensures MergeAll(rs).Ok? ==> MergeAll(rs).value == Merged(seq(|rs|, k requires 0 <= k < |rs| => rs[k].value))
    ensures MergeAll(rs).Err? ==> exists k :: FirstErr(rs, k) && MergeAll(rs).error == rs[k].error
    decreases |rs|
  {
    if |rs| > 0 {
      var pre := rs[..|rs| - 1];
      MergeAllSpec(pre);
      assert forall k :: 0 <= k < |pre| ==> pre[k] == rs[k];
      if MergeAll(rs).Ok? {
        var all := seq(|rs|, k requires 0 <= k < |rs| => rs[k].value);
        assert all[..|rs| - 1] == seq(|pre|, k requires 0 <= k < |pre| => pre[k].value);
      } else if MergeAll(pre).Err? {
        var k :| FirstErr(pre, k) && MergeAll(pre).error == pre[k].error;
        assert FirstErr(rs, k);
      } else {
        assert FirstErr(rs, |rs| - 1);
      }
    }
  }

  /** rs[k] is the first failure. */
  predicate FirstErr(rs: seq<Result<map<int, seq<Bbox>>, LoadError>>, k: int) {
    0 <= k < |rs| && rs[k].Err? && forall l :: 0 <= l < k ==> rs[l].Ok?
  }

  lemma MergeAllStep(rs: seq<Result<map<int, seq<Bbox>>, LoadError>>, k: nat)
    requires k < |rs|
    ensures MergeAll(rs[..k + 1]) == match MergeAll(rs[..k])
      case Err(e) => Err(e)
      case Ok(m) => if rs[k].Err? then Err(rs[k].error) else Ok(m + rs[k].value)
  {
    assert rs[..k + 1][..k] == rs[..k];
  }

  lemma {:induction false} MergeAllHalts(rs: seq<Result<map<int, seq<Bbox>>, LoadError>>, n: nat, m: nat)
    requires n <= m <= |rs|
    requires MergeAll(rs[..n]).Err?
    ensures MergeAll(rs[..m]) == MergeAll(rs[..n])
    decreases m
  {
    if m > n {
      MergeAllHalts(rs, n, m - 1);
      assert rs[..m][..m - 1] == rs[..m - 1];
    }
  }

  /** Each chosen box file loaded on its own. */
  function BoxFileResults(files: Listing<seq<string>>, indices: seq<nat>): (rs: seq<Result<map<int, seq<Bbox>>, LoadError>>)
    requires forall k :: 0 <= k < |indices| ==> indices[k] < |files|
    ensures |rs| == |indices| && forall k :: 0 <= k < |indices| ==> rs[k] == LoadedBoxFile(files, indices[k])
  {
    seq(|indices|, k requires 0 <= k < |indices| => LoadedBoxFile(files, indices[k]))
  }

  /** The box files at the given positions, each grouped by frame and merged in order;
      the first file with a bad line raises. */
  function LoadedBoxes(files: Listing<seq<string>>, indices: seq<nat>): Result<map<int, seq<Bbox>>, LoadError>
    requires forall k :: 0 <= k < |indices| ==> indices[k] < |files|
  {
    MergeAll(BoxFileResults(files, indices))
  }

  // ---------------------------------------------------------------- the video annotation

  /** The annotation of one frame: its boxes (an empty list when none) and its tracklet
      (None when the frame has none, or its entry is empty). */
  function FrameFor(frameNumber: int, tracklets: map<int, Option<Tracklet>>, boxes: map<int, seq<Bbox>>)
    : (f: FrameAnnotation)
    ensures f.frameId == frameNumber
    ensures f.bbox == Some(if frameNumber in boxes then boxes[frameNumber] else [])
    ensures f.tracklet == if frameNumber in tracklets then tracklets[frameNumber] else None
  {
    FrameAnnotation(frameNumber,
      Some(if frameNumber in boxes then boxes[frameNumber] else []),
      if frameNumber in tracklets then tracklets[frameNumber] else None)
  }

  /** The frame ids of a frame list. */
  function FrameIds(frames: seq<FrameAnnotation>): (r: seq<int>)
    ensures |r| == |frames| && forall i :: 0 <= i < |frames| ==> r[i] == frames[i].frameId
  {
    seq(|frames|, i requires 0 <= i < |frames| => frames[i].frameId)
  }

  /** The frames of a video: one per frame number that has a tracklet entry or boxes, in
      increasing order, each carrying that frame's data. */
  ghost predicate FramesOf(frames: seq<FrameAnnotation>, tracklets: map<int, Option<Tracklet>>, boxes: map<int, seq<Bbox>>) {
    && StrictlyIncreasingIds(frames)
    && (forall x :: x in FrameIds(frames) <==> x in tracklets || x in boxes)
    && (forall i :: 0 <= i < |frames| ==> frames[i] == FrameFor(frames[i].frameId, tracklets, boxes))
  }

  /** At most one frame list fits a video's tracklets and boxes. */
  lemma FramesOfUnique(f: seq<FrameAnnotation>, g: seq<FrameAnnotation>,
                       tracklets: map<int, Option<Tracklet>>, boxes: map<int, seq<Bbox>>)
    requires FramesOf(f, tracklets, boxes) && FramesOf(g, tracklets, boxes)
    ensures f == g
  {
    IncreasingUnique(FrameIds(f), FrameIds(g));
    assert |f| == |g|;
    forall i | 0 <= i < |f| ensures f[i] == g[i] {
      assert FrameIds(f)[i] == FrameIds(g)[i];
    }
  }

  /** The caption a generated annotation carries. */
  function VideoCaption(videoId: int, quarter: string): string {
    "Annotation for video " + IntToString(videoId) + ", " + quarter
  }

  /** What a generated annotation holds: the given id and path, the caption, no action, and
      the frames of the loaded tracklets and boxes. */
  ghost predicate IsVideoAnnotationOf(v: VideoAnnotation, videoId: int, videoPath: string, quarter: string,
                                tracklets: map<int, Option<Tracklet>>, boxes: map<int, seq<Bbox>>) {
    && v.videoId == videoId && v.videoPath == videoPath
    && v.caption == Some(VideoCaption(videoId, quarter)) && v.action.None?
    && FramesOf(v.frames, tracklets, boxes)
  }

  /** Merges the chosen box files in listing order, each replacing the frames it has. */
  method LoadBoxFiles(files: Listing<seq<string>>, indices: seq<nat>) returns (r: Result<map<int, seq<Bbox>>, LoadError>)
    requires forall k :: 0 <= k < |indices| ==> indices[k] < |files|
    ensures r == LoadedBoxes(files, indices)
  {
    ghost var rs := BoxFileResults(files, indices);
    var bboxesDict: map<int, seq<Bbox>> := map[];
    for k := 0 to |indices|
      invariant MergeAll(rs[..k]) == Ok(bboxesDict)
    {
      MergeAllStep(rs, k);
      var i := indices[k];
      var loaded := LoadPlayerBbox(files[i].1);
      if loaded.Err? {
        MergeAllHalts(rs, k + 1, |indices|);
        assert rs[..|indices|] == rs;
        return Err(BadBboxLine(i, loaded.error));
      }
      bboxesDict := bboxesDict + loaded.value;
    }
    assert rs[..|indices|] == rs;
    return Ok(bboxesDict);
  }

  /** One frame per number, in the given order. */
  method BuildFrames(frameNumbers: seq<int>, tracklets: map<int, Option<Tracklet>>, boxes: map<int, seq<Bbox>>)
    returns (frames: seq<FrameAnnotation>)
    ensures |frames| == |frameNumbers|
    ensures forall i :: 0 <= i < |frames| ==> frames[i] == FrameFor(frameNumbers[i], tracklets, boxes)
  {
    frames := [];
    for k := 0 to |frameNumbers|
      invariant |frames| == k
      invariant forall i :: 0 <= i < k ==> frames[i] == FrameFor(frameNumbers[i], tracklets, boxes)
    {
      frames := frames + [FrameFor(frameNumbers[k], tracklets, boxes)];
    }
  }

  /** Builds a period video's annotation from the position-file and box-file listings. The
      quarter picks the files: the normalized name for the position file (the first match),
      the lower-cased name for the box files (every match). A missing file only leaves its
      part empty. */
  method GenerateVideoAnnotation(videoId: int, videoPath: string, quarter: string,
                                 positionFiles: Listing<seq<PositionEntry>>, bboxFiles: Listing<seq<string>>)
    returns (r: Result<VideoAnnotation, LoadError>)
    ensures LoadedTracklets(positionFiles, videoId, quarter).Err? ==>
      r == Err(LoadedTracklets(positionFiles, videoId, quarter).error)
    ensures (LoadedTracklets(positionFiles, videoId, quarter).Ok?
             && LoadedBoxes(bboxFiles, BboxFileIndices(bboxFiles, videoId, quarter)).Err?) ==>
      r == Err(LoadedBoxes(bboxFiles, BboxFileIndices(bboxFiles, videoId, quarter)).error)
    ensures (LoadedTracklets(positionFiles, videoId, quarter).Ok?
             && LoadedBoxes(bboxFiles, BboxFileIndices(bboxFiles, videoId, quarter)).Ok?) ==> r.Ok?
    ensures r.Ok? ==>
      && LoadedTracklets(positionFiles, videoId, quarter).Ok?
      && LoadedBoxes(bboxFiles, BboxFileIndices(bboxFiles, videoId, quarter)).Ok?
      && IsVideoAnnotationOf(r.value, videoId, videoPath, quarter,
           LoadedTracklets(positionFiles, videoId, quarter).value,
           LoadedBoxes(bboxFiles, BboxFileIndices(bboxFiles, videoId, quarter)).value)
  {
    var period := NormalizeQuarter(quarter);
    var playerPositionsFile := FirstPositionFile(positionFiles, videoId, period);
    var playerBboxFiles := BboxFileIndices(bboxFiles, videoId, quarter);

    var tracklets: map<int, Option<Tracklet>> := map[];
    if playerPositionsFile.Some? {
      var loaded := Load2dPlayerPositions(positionFiles[playerPositionsFile.value].1);
      if loaded.Err? {
        return Err(BadPositionKey(playerPositionsFile.value, loaded.error));
      }
      tracklets := loaded.value;
    }

    var bboxes := LoadBoxFiles(bboxFiles, playerBboxFiles);
    if bboxes.Err? {
      return Err(bboxes.error);
    }
    var bboxesDict := bboxes.value;

    var allFrameNumbers := SortedNumbers(tracklets.Keys + bboxesDict.Keys);
    var frames := BuildFrames(allFrameNumbers, tracklets, bboxesDict);
    assert FrameIds(frames) == allFrameNumbers;
    return Ok(VideoAnnotation(videoId, videoPath, frames, Some(VideoCaption(videoId, quarter)), None));
  }

  // ---------------------------------------------------------------- game logs

  /** One record of a ';'-separated game log, by column; None where a short record has no
      value for the column. The two columns the loader never reads are not listed. */
  datatype CsvRow = CsvRow(
    id: Option<string>,
    actionId: Option<string>,
    actionName: Option<string>,
    playerId: Option<string>,
    playerName: Option<string>,
    teamId: Option<string>,
    teamName: Option<string>,
    half: Option<string>,
    second: Option<string>,
    posX: Option<string>,
    posY: Option<string>,
    opponentId: Option<string>,
    opponentName: Option<string>,
    opponentTeamId: Option<string>,
    opponentTeamName: Option<string>,
    teammateId: Option<string>,
    teammateName: Option<string>,
    possessionId: Option<string>,
    possessionName: Option<string>,
    possessionTeamId: Option<string>,
    possessionTeamName: Option<string>,
    possessionNumber: Option<string>,
    possessionStartClear: Option<string>,
    playtype: Option<string>,
    hand: Option<string>,
    shotType: Option<string>,
    drive: Option<string>,
    dribbleMove: Option<string>,
    contesting: Option<string>)

  /** A cell Python treats as false: missing or empty. */
  predicate Falsy(v: Option<string>) {
    v.None? || v == Some("")
  }

  /** int(cell) for a column that must hold an integer; None where it raises. */
  function ReqInt(v: Option<string>): (r: Option<int>)
    ensures r.Some? ==> v.Some? && ParseInt(v.value) == r
  {
    if v.None? then None else ParseInt(v.value)
  }

  /** float(cell) for a column that must hold a number; None where it raises. */
  function ReqFloat(v: Option<string>): (r: Option<real>)
    ensures r.Some? ==> v.Some? && ParseFloat(v.value) == r
  {
    if v.None? then None else ParseFloat(v.value)
  }

  /** `int(cell) if cell else None`: Some(None) for a falsy cell, Some(Some(k)) for an
      integer, None where int() raises. */
  function OptInt(v: Option<string>): (r: Option<Option<int>>)
    ensures Falsy(v) ==> r == Some(None)
    ensures !Falsy(v) ==> (r.Some? <==> ParseInt(v.value).Some?)
    ensures r.Some? && r.value.Some? ==> !Falsy(v) && ParseInt(v.value) == r.value
  {
    if Falsy(v) then Some(None)
    else
      match ParseInt(v.value)
      case None => None
      case Some(k) => Some(Some(k))
  }

  /** `float(cell) if cell else None`, as OptInt. */
  function OptFloat(v: Option<string>): (r: Option<Option<real>>)
    ensures Falsy(v) ==> r == Some(None)
    ensures !Falsy(v) ==> (r.Some? <==> ParseFloat(v.value).Some?)
    ensures r.Some? && r.value.Some? ==> !Falsy(v) && ParseFloat(v.value) == r.value
  {
    if Falsy(v) then Some(None)
    else
      match ParseFloat(v.value)
      case None => None
      case Some(x) => Some(Some(x))
  }

  /** `cell if cell else None` */
  function OptText(v: Option<string>): (r: Option<string>)
    ensures r == if Falsy(v) then None else v
  {
    if Falsy(v) then None else v
  }

  /** ActionName(cell); None where it raises ValueError, a missing cell included. */
  function ActionOf(v: Option<string>): (r: Option<ActionName>)
    ensures r.Some? ==> v == Some(r.value.Value())
  {
    if v.None? then None else ParseActionName(v.value)
  }

  /** Every conversion the record construction performs succeeds. */
  predicate Converts(row: CsvRow) {
    && ReqInt(row.id).Some? && ReqInt(row.actionId).Some? && ReqInt(row.playerId).Some?
    && ReqInt(row.teamId).Some? && ReqInt(row.half).Some? && ReqFloat(row.second).Some?
    && OptFloat(row.posX).Some? && OptFloat(row.posY).Some?
    && OptInt(row.opponentId).Some? && OptInt(row.opponentTeamId).Some? && OptInt(row.teammateId).Some?
    && OptInt(row.possessionId).Some? && OptInt(row.possessionTeamId).Some?
    && OptInt(row.possessionNumber).Some? && OptFloat(row.possessionStartClear).Some?
  }

  /** The annotation built from a kept record whose action is `name`, or None where a
      conversion raises. The id column is converted but, passed under a name the record
      does not have, ends up absent; integer ids stored in text fields become their str(). */
  function ConvertRow(row: CsvRow, name: ActionName): (r: Option<ActionAnnotation>)
    ensures r.Some? <==> Converts(row)
    ensures r.Some? ==>
      && NoEmptyText(r.value) && r.value.id.None?
      && r.value.actionName == Some(name.Value())
      && r.value.actionId == Some(IntToString(ReqInt(row.actionId).value))
      && r.value.playerId == Some(IntToString(ReqInt(row.playerId).value))
      && r.value.teamId == ReqInt(row.teamId) && r.value.half == ReqInt(row.half)
      && r.value.second == ReqFloat(row.second)
      && r.value.playerName == EmptyStrToNone(row.playerName)
      && r.value.teamName == EmptyStrToNone(row.teamName)
      && r.value.possessionEndClear.None? && r.value.ts.None?
  {
    if !Converts(row) then None
    else
      var actionId := ReqInt(row.actionId).value;
      var playerId := ReqInt(row.playerId).value;
      IntToStringChars(actionId);
      IntToStringChars(playerId);
      ActionValueIsNoInteger(name);
      var teammateId := OptInt(row.teammateId).value;
      Some(Validated(ActionAnnotation(
        None,
        Some(IntToString(actionId)),
        Some(name.Value()),
        Some(IntToString(playerId)),
        row.playerName,
        ReqInt(row.teamId),
        row.teamName,
        OptInt(row.opponentId).value,
        OptText(row.opponentName),
        OptInt(row.opponentTeamId).value,
        OptText(row.opponentTeamName),
        if teammateId.Some? then Some(IntToString(teammateId.value)) else None,
        OptText(row.teammateName),
        ReqInt(row.half),
        ReqFloat(row.second),
        OptFloat(row.posX).value,
        OptFloat(row.posY).value,
        OptInt(row.possessionId).value,
        OptText(row.possessionName),
        OptInt(row.possessionTeamId).value,
        OptText(row.possessionTeamName),
        OptInt(row.possessionNumber).value,
        OptFloat(row.possessionStartClear).value,
        None,
        OptText(row.playtype),
        OptText(row.hand),
        OptText(row.shotType),
        OptText(row.drive),
        OptText(row.dribbleMove),
        OptText(row.contesting),
        None)))
  }

  /** The optional columns of a built annotation: each is `x if cell else None` of its cell,
      converted as its field's type demands. */
  lemma ConvertRowFields(row: CsvRow, name: ActionName)
    ensures var r := ConvertRow(row, name); r.Some? ==>
      && r.value.posX == OptFloat(row.posX).value && r.value.posY == OptFloat(row.posY).value
      && r.value.opponentId == OptInt(row.opponentId).value
      && r.value.opponentTeamId == OptInt(row.opponentTeamId).value
      && r.value.possessionId == OptInt(row.possessionId).value
      && r.value.possessionTeamId == OptInt(row.possessionTeamId).value
      && r.value.possessionNumber == OptInt(row.possessionNumber).value
      && r.value.possessionStartClear == OptFloat(row.possessionStartClear).value
      && (r.value.teammateId.Some? <==> OptInt(row.teammateId).value.Some?)
      && (r.value.teammateId.Some? ==>
            r.value.teammateId.value == IntToString(OptInt(row.teammateId).value.value))
    ensures var r := ConvertRow(row, name); r.Some? ==>
      && r.value.opponentName == OptText(row.opponentName)
      && r.value.opponentTeamName == OptText(row.opponentTeamName)
      && r.value.teammateName == OptText(row.teammateName)
      && r.value.possessionName == OptText(row.possessionName)
      && r.value.possessionTeamName == OptText(row.possessionTeamName)
      && r.value.playtype == OptText(row.playtype) && r.value.hand == OptText(row.hand)
      && r.value.shotType == OptText(row.shotType) && r.value.drive == OptText(row.drive)
      && r.value.dribbleMove == OptText(row.dribbleMove)
      && r.value.contesting == OptText(row.contesting)
  {
  }

  /** The id texts of a built annotation read back as the record's integers: str(int(x)) is
      x in normal form. */
  lemma ConvertRowIdsReadBack(row: CsvRow, name: ActionName)
    requires ConvertRow(row, name).Some?
    ensures ParseInt(ConvertRow(row, name).value.actionId.value) == ReqInt(row.actionId)
    ensures ParseInt(ConvertRow(row, name).value.playerId.value) == ReqInt(row.playerId)
  {
    ParseIntOfString(ReqInt(row.actionId).value);
    ParseIntOfString(ReqInt(row.playerId).value);
  }

  /** Which records the loader keeps: as written it requires the player id to be an action
      name; the evident intent is a player id that int() accepts. */
  datatype KeepRule = AsWritten | Corrected

  predicate Keeps(row: CsvRow, rule: KeepRule) {
    ActionOf(row.actionName).Some?
    && match rule
       case AsWritten => ActionOf(row.playerId).Some?
       case Corrected => ReqInt(row.playerId).Some?
  }

  /** The values of the kept entries, in order, or the position of the first kept entry
      without a value: None marks an entry skipped, Some(None) one whose construction
      raises. */
  function CollectKept<T>(xs: seq<Option<Option<T>>>): Result<seq<T>, nat>
    decreases |xs|
  {
    if |xs| == 0 then Ok([])
    else
      match CollectKept(xs[..|xs| - 1])
      case Err(i) => Err(i)
      case Ok(vs) =>
        match xs[|xs| - 1]
        case None => Ok(vs)
        case Some(None) => Err(|xs| - 1)
        case Some(Some(v)) => Ok(vs + [v])
  }

  /** For each entry, whether it is kept. */
  function KeptFlags<T>(xs: seq<Option<Option<T>>>): (r: seq<bool>)
    ensures |r| == |xs| && forall i :: 0 <= i < |xs| ==> r[i] == xs[i].Some?
  {
    seq(|xs|, i requires 0 <= i < |xs| => xs[i].Some?)
  }

  /** Collecting succeeds exactly when every kept entry has a value; otherwise it names the
      first kept entry without one. */
  lemma {:induction false} CollectKeptFailure<T>(xs: seq<Option<Option<T>>>)
    ensures CollectKept(xs).Ok? <==> forall i :: 0 <= i < |xs| ==> xs[i] != Some(None)
    ensures CollectKept(xs).Err? ==>
      var i := CollectKept(xs).error;
      i < |xs| && xs[i] == Some(None) && forall j :: 0 <= j < i ==> xs[j] != Some(None)
    decreases |xs|
  {
    if |xs| > 0 {
      var pre := xs[..|xs| - 1];
      CollectKeptFailure(pre);
      assert forall i :: 0 <= i < |pre| ==> pre[i] == xs[i];
    }
  }

  /** Collecting that succeeds yields one value per kept entry, in order. */
  lemma {:induction false} CollectKeptValues<T>(xs: seq<Option<Option<T>>>)
    ensures CollectKept(xs).Ok? ==>
      var kept := TrueIndices(KeptFlags(xs));
      var vs := CollectKept(xs).value;
      |vs| == |kept| && forall k :: 0 <= k < |kept| ==> xs[kept[k]] == Some(Some(vs[k]))
    decreases |xs|
  {
    if |xs| > 0 {
      var n := |xs| - 1;
      var pre := xs[..n];
      CollectKeptValues(pre);
      var flags := KeptFlags(xs);
      assert flags[..n] == KeptFlags(pre);
      var keptPre := TrueIndices(KeptFlags(pre));
      match CollectKept(pre)
      case Err(i) =>
      case Ok(vs) =>
        match xs[n]
        case None =>
          assert TrueIndices(flags) == keptPre;
          forall k | 0 <= k < |keptPre|
            ensures xs[keptPre[k]] == Some(Some(vs[k]))
          {
            assert pre[keptPre[k]] == xs[keptPre[k]];
          }
        case Some(None) =>
        case Some(Some(v)) =>
          assert TrueIndices(flags) == keptPre + [n];
          forall k | 0 <= k < |keptPre| + 1
            ensures xs[(keptPre + [n])[k]] == Some(Some((vs + [v])[k]))
          {
            if k < |keptPre| {
              assert pre[keptPre[k]] == xs[keptPre[k]];
            }
          }
    }
  }

  /** Collecting one entry more. */
  lemma CollectKeptStep<T>(xs: seq<Option<Option<T>>>, i: nat)
    requires i < |xs|
    ensures CollectKept(xs[..i + 1]) == match CollectKept(xs[..i])
      case Err(j) => Err(j)
      case Ok(vs) =>
        if xs[i].None? then Ok(vs)
        else if xs[i].value.None? then Err(i)
        else Ok(vs + [xs[i].value.value])
  {
    assert xs[..i + 1][..i] == xs[..i];
  }

  /** Once collecting a prefix fails, every longer prefix fails the same way. */
  lemma {:induction false} CollectKeptHalts<T>(xs: seq<Option<Option<T>>>, n: nat, m: nat)
    requires n <= m <= |xs|
    requires CollectKept(xs[..n]).Err?
    ensures CollectKept(xs[..m]) == CollectKept(xs[..n])
    decreases m
  {
    if m > n {
      CollectKeptHalts(xs, n, m - 1);
      assert xs[..m][..m - 1] == xs[..m - 1];
    }
  }

  /** One record under a keep rule: skipped, or its annotation, None where building it
      raises. */
  function RowOutcome(row: CsvRow, rule: KeepRule): Option<Option<ActionAnnotation>> {
    if Keeps(row, rule) then Some(ConvertRow(row, ActionOf(row.actionName).value)) else None
  }

  function RowOutcomes(rows: seq<CsvRow>, rule: KeepRule): (r: seq<Option<Option<ActionAnnotation>>>)
    ensures |r| == |rows|
    decreases |rows|
  {
    if |rows| == 0 then [] else RowOutcomes(rows[..|rows| - 1], rule) + [RowOutcome(rows[|rows| - 1], rule)]
  }

  /** Entry i of the outcomes is the outcome of record i. */
  lemma {:induction false} RowOutcomeAt(rows: seq<CsvRow>, rule: KeepRule, i: nat)
    requires i < |rows|
    ensures RowOutcomes(rows, rule)[i] == RowOutcome(rows[i], rule)
    decreases |rows|
  {
    if i < |rows| - 1 {
      var pre := rows[..|rows| - 1];
      RowOutcomeAt(pre, rule, i);
      assert pre[i] == rows[i];
    }
  }

  /** Loading the log under a keep rule: kept records become annotations in order, the
      others are skipped; Err names the first kept record whose construction raises. */
  function LoadedLogsWith(rows: seq<CsvRow>, rule: KeepRule): Result<seq<ActionAnnotation>, nat> {
    CollectKept(RowOutcomes(rows, rule))
  }

  /** For each record, whether the rule keeps it. */
  function KeepFlags(rows: seq<CsvRow>, rule: KeepRule): (r: seq<bool>)
    ensures |r| == |rows| && forall i :: 0 <= i < |rows| ==> r[i] == Keeps(rows[i], rule)
  {
    seq(|rows|, i requires 0 <= i < |rows| => Keeps(rows[i], rule))
  }

  /** The kept records, by position. */
  function KeptIndices(rows: seq<CsvRow>, rule: KeepRule): seq<nat> {
    TrueIndices(KeepFlags(rows, rule))
  }

  /** A kept record converts. */
  predicate KeptConverts(row: CsvRow, rule: KeepRule) {
    Keeps(row, rule) ==> Converts(row)
  }

  /** Loading succeeds exactly when every kept record converts; it then yields one
      annotation per kept record, in order; otherwise it names the first kept record that
      does not convert. */
  lemma LoadedLogsSpec(rows: seq<CsvRow>, rule: KeepRule)
    ensures LoadedLogsWith(rows, rule).Ok? <==> forall i :: 0 <= i < |rows| ==> KeptConverts(rows[i], rule)
    ensures LoadedLogsWith(rows, rule).Ok? ==>
      var kept := KeptIndices(rows, rule);
      var loaded := LoadedLogsWith(rows, rule).value;
      |loaded| == |kept|
      && forall k :: 0 <= k < |kept| ==>
           loaded[k] == ConvertRow(rows[kept[k]], ActionOf(rows[kept[k]].actionName).value).value
    ensures LoadedLogsWith(rows, rule).Err? ==>
      var i := LoadedLogsWith(rows, rule).error;
      i < |rows| && Keeps(rows[i], rule) && !Converts(rows[i])
      && forall j :: 0 <= j < i ==> KeptConverts(rows[j], rule)
  {
    var xs := RowOutcomes(rows, rule);
    CollectKeptFailure(xs);
    CollectKeptValues(xs);
    forall i | 0 <= i < |rows|
      ensures xs[i] == RowOutcome(rows[i], rule)
    {
      RowOutcomeAt(rows, rule, i);
    }
    assert KeptFlags(xs) == KeepFlags(rows, rule);
  }

  /** No action name is an integer literal: each has a non-digit second character. */
  lemma ActionValueIsNoInteger(a: ActionName)
    ensures ParseInt(a.Value()) == None
    ensures |a.Value()| >= 2
  {
    ParseIntRejects(a.Value());
  }

  /** As written the loader yields nothing: a record it keeps has an action name as its
      player id, which int() then rejects, so the load raises; with no such record the
      result is empty. */
  lemma AsWrittenLoadsNothing(rows: seq<CsvRow>)
    ensures LoadedLogsWith(rows, AsWritten) == Ok([]) || LoadedLogsWith(rows, AsWritten).Err?
    ensures LoadedLogsWith(rows, AsWritten).Err? <==> exists i :: 0 <= i < |rows| && Keeps(rows[i], AsWritten)
  {
    forall i | 0 <= i < |rows| && Keeps(rows[i], AsWritten)
      ensures !Converts(rows[i])
    {
      ActionValueIsNoInteger(ActionOf(rows[i].playerId).value);
    }
    LoadedLogsSpec(rows, AsWritten);
    if LoadedLogsWith(rows, AsWritten).Ok? {
      TrueIndicesNone(KeepFlags(rows, AsWritten));
    }
  }

  /** A well-formed Turnover record of player 1234. */
  const TurnoverRow := CsvRow(
    Some(IntToString(1)), Some(IntToString(10)), Some(Turnover.Value()), Some(IntToString(1234)),
    Some("A"), Some(IntToString(5)), Some("T"), Some(IntToString(1)), Some(IntToString(12)),
    None, None, None, None, None, None, None, None, None, None, None, None, None, None, None,
    None, None, None, None, None)

  /** A record is dropped as written whenever its player id is an integer, however valid
      the record; with the intended check a valid record becomes its annotation. */
  lemma PlayerIdCheckDropsValidRows(row: CsvRow)
    requires ActionOf(row.actionName).Some? && Converts(row)
    ensures LoadedLogsWith([row], AsWritten) == Ok([])
    ensures LoadedLogsWith([row], Corrected) == Ok([ConvertRow(row, ActionOf(row.actionName).value).value])
  {
    if ActionOf(row.playerId).Some? {
      ActionValueIsNoInteger(ActionOf(row.playerId).value);
    }
    assert RowOutcome(row, AsWritten) == None;
    SingleRowLoad(row, AsWritten);
    CollectKeptSkip<ActionAnnotation>();
    var a := ConvertRow(row, ActionOf(row.actionName).value).value;
    assert RowOutcome(row, Corrected) == Some(Some(a));
    SingleRowLoad(row, Corrected);
    CollectKeptOne(a);
  }

  /** Loading one record is collecting its one outcome. */
  lemma SingleRowLoad(row: CsvRow, rule: KeepRule)
    ensures LoadedLogsWith([row], rule) == CollectKept([RowOutcome(row, rule)])
  {
    RowOutcomeAt([row], rule, 0);
  }

  lemma CollectKeptSkip<T>()
    ensures CollectKept<T>([None]) == Ok([])
  {
    var xs: seq<Option<Option<T>>> := [None];
    assert xs[..0] == [];
  }

  lemma CollectKeptOne<T>(v: T)
    ensures CollectKept([Some(Some(v))]) == Ok([v])
  {
    var xs: seq<Option<Option<T>>> := [Some(Some(v))];
    var none: seq<T> := [];
    assert xs[..0] == [];
    assert none + [v] == [v];
  }

  /** The Turnover record of player 1234 is such a record. */
  lemma TurnoverRowIsValid()
    ensures ActionOf(TurnoverRow.actionName) == Some(Turnover)
    ensures Converts(TurnoverRow)
    ensures ReqInt(TurnoverRow.playerId) == Some(1234)
  {
    ParseActionValue(Turnover);
    ParseIntOfString(1);
    ParseIntOfString(10);
    ParseIntOfString(1234);
    ParseIntOfString(5);
    ParseFloatOfString(12);
  }

  /** Reads the game log, skipping records without a valid action name or an integer player
      id, and building one annotation per remaining record. */
  method LoadHudlGameLogs(rows: seq<CsvRow>) returns (r: Result<seq<ActionAnnotation>, nat>)
    ensures r == LoadedLogsWith(rows, Corrected)
  {
    ghost var xs := RowOutcomes(rows, Corrected);
    var actionAnnotations: seq<ActionAnnotation> := [];
    for i := 0 to |rows|
      invariant CollectKept(xs[..i]) == Ok(actionAnnotations)
    {
      CollectKeptStep(xs, i);
      var row := rows[i];
      var actionName := ActionOf(row.actionName);
      var playerId := ReqInt(row.playerId);
      if actionName.None? || playerId.None? {
        RowOutcomeAt(rows, Corrected, i);
        continue;
      }
      var annotation := ConvertRow(row, actionName.value);
      RowOutcomeAt(rows, Corrected, i);
      if annotation.None? {
        CollectKeptHalts(xs, i + 1, |rows|);
        assert xs[..|rows|] == xs;
        return Err(i);
      }
      actionAnnotations := actionAnnotations + [annotation.value];
    }
    assert xs[..|rows|] == xs;
    return Ok(actionAnnotations);
  }
}
