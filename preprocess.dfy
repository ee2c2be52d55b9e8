/**
 * Model-image preprocessing: keep the detector's "person" entries, pick one
 * of several people from a free-text description, and compute the padded,
 * clamped crop rectangle. The detector, the image library and the file
 * system are replaced by the values they return (`DetectorReply`, `CropEnv`).
 */
module Preprocess {
  import opened Wrappers
  import opened Js
  import opened Text
  import StableSort

  /** A detected person: rounded coordinates, `area` and `centerX` from the unrounded extents. */
  datatype PersonDetection = PersonDetection(
    x: int, y: int, width: int, height: int,
    confidence: real, className: string, area: real, centerX: real)

  /** The coordinate properties a detector entry may carry; each may be missing. */
  datatype Coords = Coords(
    x1: Option<real>, y1: Option<real>, x2: Option<real>, y2: Option<real>,
    x: Option<real>, y: Option<real>, width: Option<real>, height: Option<real>)

  /** One entry of the detector's `detections` list; `flat` holds the entry's own coordinates. */
  datatype RawDetection = RawDetection(
    className: Option<string>, classId: Option<int>,
    box: Option<Coords>, flat: Coords, confidence: Option<real>)

  /** The detector call threw, or returned output whose `detections` list may be missing. */
  datatype DetectorReply = DetectorThrew | DetectorReturned(detections: Option<seq<RawDetection>>)

  const PersonLabel: string := "person"
  const NoPersonMessage: string := "사진에서 사람을 찾을 수 없습니다. 한 명 이상의 사람이 잘 보이는 사진을 사용해주세요."
  const PreprocessFailedMessage: string := "전처리 중 오류가 발생했습니다."
  const CropFailedMessage: string := "Failed to crop person from image"

  // ---------------------------------------------------------------- detection

  predicate IsPerson(r: RawDetection)
  {
    r.className == Some(PersonLabel) || r.classId == Some(0)
  }

  /** `detection.box || detection` */
  function BoxOf(r: RawDetection): Coords
  {
    if r.box.Some? then r.box.value else r.flat
  }

  /** `a || b || 0` on optional numbers. */
  function FirstTruthy(a: Option<real>, b: Option<real>): real
  {
    if TruthyNumber(a) then a.value else if TruthyNumber(b) then b.value else 0.0
  }

  /** `start + extent`, which is NaN (`None`) when either is missing. */
  function Sum(start: Option<real>, extent: Option<real>): Option<real>
  {
    if start.Some? && extent.Some? then Some(start.value + extent.value) else None
  }

  function Left(c: Coords): real { FirstTruthy(c.x1, c.x) }

  function Top(c: Coords): real { FirstTruthy(c.y1, c.y) }

  /** `(box.x2 || box.x + box.width || 0) - x` */
  function Width(c: Coords): real { FirstTruthy(c.x2, Sum(c.x, c.width)) - Left(c) }

  /** `(box.y2 || box.y + box.height || 0) - y` */
  function Height(c: Coords): real { FirstTruthy(c.y2, Sum(c.y, c.height)) - Top(c) }

  /** The record pushed for a person entry. */
  function Project(r: RawDetection): PersonDetection
  {
    var c := BoxOf(r);
    PersonDetection(
      Round(Left(c)), Round(Top(c)), Round(Width(c)), Round(Height(c)),
      if TruthyNumber(r.confidence) then r.confidence.value else 0.0,
      PersonLabel, Width(c) * Height(c), Left(c) + Width(c) / 2.0)
  }

  /** The person entries of `rs`, projected, in their order in `rs`. */
  function Persons(rs: seq<RawDetection>): seq<PersonDetection>
  {
    if |rs| == 0 then []
    else Persons(rs[..|rs| - 1]) + (if IsPerson(rs[|rs| - 1]) then [Project(rs[|rs| - 1])] else [])
  }

  /** What detection hands to the pipeline: nothing when the call failed or returned no list. */
  function Detected(reply: DetectorReply): seq<PersonDetection>
  {
    match reply
    case DetectorThrew => []
    case DetectorReturned(None) => []
    case DetectorReturned(Some(rs)) => Persons(rs)
  }

  /** The filtering loop over the detector's output. */
  method DetectPersons(reply: DetectorReply) returns (ds: seq<PersonDetection>)
    ensures ds == Detected(reply)
  {
    ds := [];
    if reply.DetectorThrew? || reply.detections.None? {
      return;
    }
    var rs := reply.detections.value;
    var i := 0;
    while i < |rs|
      invariant 0 <= i <= |rs|
      invariant ds == Persons(rs[..i])
    {
      assert rs[..i + 1][..i] == rs[..i];
      if IsPerson(rs[i]) {
        ds := ds + [Project(rs[i])];
      }
      i := i + 1;
    }
    assert rs[..|rs|] == rs;
  }

  /**
   * Detection keeps exactly the person entries: never more results than
   * entries, every result projects a person entry, every person entry is kept.
   */
  lemma {:induction false} PersonsFilter(rs: seq<RawDetection>)
    ensures |Persons(rs)| <= |rs|
    ensures forall p :: p in Persons(rs) ==> exists r :: r in rs && IsPerson(r) && p == Project(r)
    ensures forall r :: r in rs && IsPerson(r) ==> Project(r) in Persons(rs)
  {
    if |rs| > 0 {
      var init := rs[..|rs| - 1];
      PersonsFilter(init);
      forall p | p in Persons(rs) ensures exists r :: r in rs && IsPerson(r) && p == Project(r) {
        if p in Persons(init) {
          var r :| r in init && IsPerson(r) && p == Project(r);
          assert r in rs;
        } else {
          assert rs[|rs| - 1] in rs;
        }
      }
      forall r | r in rs && IsPerson(r) ensures Project(r) in Persons(rs) {
        if r != rs[|rs| - 1] {
          var k :| 0 <= k < |rs| && rs[k] == r;
          assert init[k] == r;
        }
      }
    }
  }

  /**
   * A kept entry's `area` and `centerX` come from its unrounded extents, its
   * four stored coordinates are those extents rounded to the nearest integer,
   * and its confidence is the detector's, or 0 when that is missing or 0.
   */
  lemma ProjectedGeometry(r: RawDetection)
    ensures var c, p := BoxOf(r), Project(r);
      && p.area == Width(c) * Height(c)
      && p.centerX == Left(c) + Width(c) / 2.0
      && Left(c) - 0.5 < p.x as real <= Left(c) + 0.5
      && Width(c) - 0.5 < p.width as real <= Width(c) + 0.5
      && Top(c) - 0.5 < p.y as real <= Top(c) + 0.5
      && Height(c) - 0.5 < p.height as real <= Height(c) + 0.5
      && (r.confidence.Some? && r.confidence.value != 0.0 ==> p.confidence == r.confidence.value)
      && (r.confidence.None? || r.confidence.value == 0.0 ==> p.confidence == 0.0)
      && p.className == PersonLabel
  {
  }

  // ---------------------------------------------------------------- selection

  /** The horizontal position the "center" rule measures from: a constant, not the image width. */
  const ReferenceCenter: real := 500.0

  /** Which selection rule a description picks; the first matching rule wins. */
  datatype Rule = Largest | Leftmost | Rightmost | Centered | Ordinal(n: nat)

  predicate MentionsAny(d: string, words: seq<string>)
  {
    exists i :: 0 <= i < |words| && Contains(d, words[i])
  }

  predicate SaysLeft(d: string) { MentionsAny(d, ["왼쪽", "left"]) }

  predicate SaysRight(d: string) { MentionsAny(d, ["오른쪽", "right"]) }

  predicate SaysCenter(d: string) { MentionsAny(d, ["가운데", "center", "middle"]) }

  predicate SaysFirst(d: string) { MentionsAny(d, ["첫", "first", "1"]) }

  predicate SaysSecond(d: string) { MentionsAny(d, ["두", "second", "2"]) }

  predicate SaysThird(d: string) { MentionsAny(d, ["세", "third", "3"]) }

  function RuleFor(description: Option<string>): Rule
  {
    if !TruthyText(description) then Largest
    else
      var d := ToLower(description.value);
      if SaysLeft(d) then Leftmost
      else if SaysRight(d) then Rightmost
      else if SaysCenter(d) then Centered
      else if SaysFirst(d) then Ordinal(0)
      else if SaysSecond(d) then Ordinal(1)
      else if SaysThird(d) then Ordinal(2)
      else Largest
  }

  /** Comparator `b.area - a.area`: larger areas first. */
  function AreaKey(p: PersonDetection): real { -p.area }

  /** Comparator `a.centerX - b.centerX`: leftmost first. */
  function CenterXKey(p: PersonDetection): real { p.centerX }

  /** Comparator `b.centerX - a.centerX`: rightmost first. */
  function RightKey(p: PersonDetection): real { -p.centerX }

  /** Comparator on `|centerX - 500|`: nearest the reference first. */
  function CenterDistanceKey(p: PersonDetection): real { Abs(p.centerX - ReferenceCenter) }

  function KeyOf(rule: Rule): PersonDetection -> real
  {
    match rule
    case Largest => AreaKey
    case Leftmost => CenterXKey
    case Rightmost => RightKey
    case Centered => CenterDistanceKey
    case Ordinal(_) => CenterXKey
  }

  /** Which position of the sorted array is returned: `min(n, length - 1)` for an ordinal. */
  function PositionOf(rule: Rule, length: nat): (k: nat)
    requires length > 0
    ensures k < length
  {
    match rule
    case Ordinal(n) => if n < length - 1 then n else length - 1
    case _ => 0
  }

  /** The detection `selectPerson` returns: a position of the stably sorted input. */
  function Select(ds: seq<PersonDetection>, description: Option<string>): (p: PersonDetection)
    requires |ds| > 0
    ensures p in ds
  {
    var rule := RuleFor(description);
    var sorted := StableSort.SortBy(KeyOf(rule), ds);
    StableSort.SortByPermutes(KeyOf(rule), ds);
    assert sorted[PositionOf(rule, |ds|)] in multiset(sorted);
    sorted[PositionOf(rule, |ds|)]
  }

  /** `selectPerson`: sorts the caller's array in place, then returns one of its positions. */
  method SelectPerson(a: array<PersonDetection>, description: Option<string>) returns (p: PersonDetection)
    requires a.Length > 0
    modifies a
    ensures a[..] == StableSort.SortBy(KeyOf(RuleFor(description)), old(a[..]))
    ensures multiset(a[..]) == multiset(old(a[..]))
    ensures p == Select(old(a[..]), description)
  {
    var rule := RuleFor(description);
    StableSort.SortInPlace(a, KeyOf(rule));
    StableSort.SortByPermutes(KeyOf(rule), old(a[..]));
    p := a[PositionOf(rule, a.Length)];
  }

  ghost predicate EarliestLargest(ds: seq<PersonDetection>, p: PersonDetection)
  {
    exists i :: 0 <= i < |ds| && ds[i] == p
      && (forall j :: 0 <= j < |ds| ==> ds[j].area <= p.area)
      && (forall j :: 0 <= j < i ==> ds[j].area < p.area)
  }

  ghost predicate EarliestLeftmost(ds: seq<PersonDetection>, p: PersonDetection)
  {
    exists i :: 0 <= i < |ds| && ds[i] == p
      && (forall j :: 0 <= j < |ds| ==> p.centerX <= ds[j].centerX)
      && (forall j :: 0 <= j < i ==> p.centerX < ds[j].centerX)
  }

  ghost predicate EarliestRightmost(ds: seq<PersonDetection>, p: PersonDetection)
  {
    exists i :: 0 <= i < |ds| && ds[i] == p
      && (forall j :: 0 <= j < |ds| ==> ds[j].centerX <= p.centerX)
      && (forall j :: 0 <= j < i ==> ds[j].centerX < p.centerX)
  }

  ghost predicate EarliestNearestReference(ds: seq<PersonDetection>, p: PersonDetection)
  {
    exists i :: 0 <= i < |ds| && ds[i] == p
      && (forall j :: 0 <= j < |ds| ==> Abs(p.centerX - ReferenceCenter) <= Abs(ds[j].centerX - ReferenceCenter))
      && (forall j :: 0 <= j < i ==> Abs(p.centerX - ReferenceCenter) < Abs(ds[j].centerX - ReferenceCenter))
  }

  /** For the rules that take position 0, the result is the earliest element of least key. */
  lemma SelectFirstLeast(ds: seq<PersonDetection>, description: Option<string>)
    requires |ds| > 0 && PositionOf(RuleFor(description), |ds|) == 0
    ensures exists i :: StableSort.IsFirstLeast(KeyOf(RuleFor(description)), ds, i)
                        && Select(ds, description) == ds[i]
  {
    StableSort.SortByHead(KeyOf(RuleFor(description)), ds);
  }

  /** Without a description (absent or empty) the earliest detection of largest area is chosen. */
  lemma SelectWithoutDescription(ds: seq<PersonDetection>, description: Option<string>)
    requires |ds| > 0 && !TruthyText(description)
    ensures EarliestLargest(ds, Select(ds, description))
  {
    SelectFirstLeast(ds, description);
    var i :| StableSort.IsFirstLeast(AreaKey, ds, i) && Select(ds, description) == ds[i];
    assert forall j :: 0 <= j < |ds| ==> AreaKey(ds[i]) <= AreaKey(ds[j]);
  }

  /** A description mentioning "left" (or 왼쪽) picks the earliest leftmost detection. */
  lemma SelectLeft(ds: seq<PersonDetection>, description: string)
    requires |ds| > 0 && SaysLeft(ToLower(description))
    ensures EarliestLeftmost(ds, Select(ds, Some(description)))
  {
    assert description != "";
    SelectFirstLeast(ds, Some(description));
    var i :| StableSort.IsFirstLeast(CenterXKey, ds, i) && Select(ds, Some(description)) == ds[i];
    assert forall j :: 0 <= j < |ds| ==> CenterXKey(ds[i]) <= CenterXKey(ds[j]);
  }

  /** Otherwise one mentioning "right" (or 오른쪽) picks the earliest rightmost detection. */
  lemma SelectRight(ds: seq<PersonDetection>, description: string)
    requires |ds| > 0
    requires !SaysLeft(ToLower(description)) && SaysRight(ToLower(description))
    ensures EarliestRightmost(ds, Select(ds, Some(description)))
  {
    assert description != "";
    SelectFirstLeast(ds, Some(description));
    var i :| StableSort.IsFirstLeast(RightKey, ds, i) && Select(ds, Some(description)) == ds[i];
    assert forall j :: 0 <= j < |ds| ==> RightKey(ds[i]) <= RightKey(ds[j]);
  }

  /** Otherwise "center", "middle" or 가운데 picks the earliest detection nearest x = 500. */
  lemma SelectCenter(ds: seq<PersonDetection>, description: string)
    requires |ds| > 0
    requires !SaysLeft(ToLower(description)) && !SaysRight(ToLower(description))
    requires SaysCenter(ToLower(description))
    ensures EarliestNearestReference(ds, Select(ds, Some(description)))
  {
    assert description != "";
    SelectFirstLeast(ds, Some(description));
    var i :| StableSort.IsFirstLeast(CenterDistanceKey, ds, i) && Select(ds, Some(description)) == ds[i];
    assert forall j :: 0 <= j < |ds| ==> CenterDistanceKey(ds[i]) <= CenterDistanceKey(ds[j]);
  }

  /** Otherwise an ordinal picks position `min(k, n - 1)` of the stable left-to-right order. */
  lemma SelectOrdinal(ds: seq<PersonDetection>, description: string)
    requires |ds| > 0
    requires var d := ToLower(description); !SaysLeft(d) && !SaysRight(d) && !SaysCenter(d)
    requires var d := ToLower(description); SaysFirst(d) || SaysSecond(d) || SaysThird(d)
    ensures var d, n := ToLower(description), |ds|;
      var k := if SaysFirst(d) then 0 else if SaysSecond(d) then 1 else 2;
      && StableSort.Sorted(CenterXKey, StableSort.SortBy(CenterXKey, ds))
      && Select(ds, Some(description)) == StableSort.SortBy(CenterXKey, ds)[if k < n - 1 then k else n - 1]
  {
    assert description != "";
    StableSort.SortBySorted(CenterXKey, ds);
  }

  /** "first" (or 첫, or the digit 1) picks the earliest leftmost detection, as "left" does. */
  lemma SelectFirst(ds: seq<PersonDetection>, description: string)
    requires |ds| > 0
    requires var d := ToLower(description); !SaysLeft(d) && !SaysRight(d) && !SaysCenter(d) && SaysFirst(d)
    ensures EarliestLeftmost(ds, Select(ds, Some(description)))
  {
    assert description != "";
    SelectFirstLeast(ds, Some(description));
    var i :| StableSort.IsFirstLeast(CenterXKey, ds, i) && Select(ds, Some(description)) == ds[i];
    assert forall j :: 0 <= j < |ds| ==> CenterXKey(ds[i]) <= CenterXKey(ds[j]);
  }


  /** A description that matches no rule falls back to the earliest largest detection. */
  lemma SelectFallback(ds: seq<PersonDetection>, description: string)
    requires |ds| > 0
    requires var d := ToLower(description);
      !SaysLeft(d) && !SaysRight(d) && !SaysCenter(d) && !SaysFirst(d) && !SaysSecond(d) && !SaysThird(d)
    ensures EarliestLargest(ds, Select(ds, Some(description)))
  {
    SelectFirstLeast(ds, Some(description));
    var i :| StableSort.IsFirstLeast(AreaKey, ds, i) && Select(ds, Some(description)) == ds[i];
    assert forall j :: 0 <= j < |ds| ==> AreaKey(ds[i]) <= AreaKey(ds[j]);
  }

  // ---------------------------------------------------------------- cropping

  const Padding: real := 0.1

  /** A rectangle in image coordinates before rounding. */
  datatype Region = Region(left: real, top: real, width: real, height: real)

  /** The rectangle handed to the image library, in whole pixels. */
  datatype PixelRegion = PixelRegion(left: int, top: int, width: int, height: int)

  /** The detection padded by 10% of its size on each side and clamped to the image. */
  function PaddedRegion(d: PersonDetection, imageWidth: int, imageHeight: int): Region
  {
    var left := Max(0.0, d.x as real - d.width as real * Padding);
    var top := Max(0.0, d.y as real - d.height as real * Padding);
    Region(left, top,
      Min(d.width as real * (1.0 + Padding * 2.0), imageWidth as real - left),
      Min(d.height as real * (1.0 + Padding * 2.0), imageHeight as real - top))
  }

  /** Before rounding the rectangle starts inside the image and ends at or before its far edges. */
  lemma PaddedRegionInside(d: PersonDetection, imageWidth: int, imageHeight: int)
    ensures var r := PaddedRegion(d, imageWidth, imageHeight);
      && 0.0 <= r.left && r.left + r.width <= imageWidth as real
      && 0.0 <= r.top && r.top + r.height <= imageHeight as real
  {
  }

  /** A detection lying inside the image is covered by its padded rectangle. */
  lemma PaddedRegionCovers(d: PersonDetection, imageWidth: int, imageHeight: int)
    requires 0 <= d.x && 0 <= d.width && d.x + d.width <= imageWidth
    requires 0 <= d.y && 0 <= d.height && d.y + d.height <= imageHeight
    ensures var r := PaddedRegion(d, imageWidth, imageHeight);
      && r.left <= d.x as real && (d.x + d.width) as real <= r.left + r.width
      && r.top <= d.y as real && (d.y + d.height) as real <= r.top + r.height
  {
  }

  /** Where the image leaves room, the rectangle is the detection grown by 10% on every side. */
  lemma PaddedRegionUnclamped(d: PersonDetection, imageWidth: int, imageHeight: int)
    requires 0 <= d.width && 0 <= d.height
    requires d.x as real - d.width as real * Padding >= 0.0
    requires d.y as real - d.height as real * Padding >= 0.0
    requires d.x as real + d.width as real * (1.0 + Padding) <= imageWidth as real
    requires d.y as real + d.height as real * (1.0 + Padding) <= imageHeight as real
    ensures PaddedRegion(d, imageWidth, imageHeight)
         == Region(d.x as real - d.width as real / 10.0, d.y as real - d.height as real / 10.0,
                   d.width as real * 1.2, d.height as real * 1.2)
  {
  }

  /** The four values are rounded one by one. */
  function ExtractRegion(d: PersonDetection, imageWidth: int, imageHeight: int): PixelRegion
  {
    var r := PaddedRegion(d, imageWidth, imageHeight);
    PixelRegion(Round(r.left), Round(r.top), Round(r.width), Round(r.height))
  }

  /**
   * Rounding each value separately can push the far edge one pixel past the
   * image, never more.
   */
  lemma ExtractRegionSlack(d: PersonDetection, imageWidth: int, imageHeight: int)
    ensures var p := ExtractRegion(d, imageWidth, imageHeight);
      && 0 <= p.left && p.left + p.width <= imageWidth + 1
      && 0 <= p.top && p.top + p.height <= imageHeight + 1
  {
    PaddedRegionInside(d, imageWidth, imageHeight);
  }

  /** A detection 5 pixels wide at x = 10 in a 15-pixel-wide image is cropped to 10 + 6 = 16 pixels. */
  lemma ExtractRegionOverhang()
    ensures var d := PersonDetection(10, 0, 5, 10, 1.0, PersonLabel, 50.0, 12.5);
      var p := ExtractRegion(d, 15, 100);
      p.left == 10 && p.width == 6 && p.left + p.width == 16
  {
    var d := PersonDetection(10, 0, 5, 10, 1.0, PersonLabel, 50.0, 12.5);
    assert PaddedRegion(d, 15, 100).left == 9.5;
    assert PaddedRegion(d, 15, 100).width == 5.5;
  }

  /** What the image library reports; a property reads as falsy when missing or zero. */
  datatype ImageMetadata = ImageMetadata(width: Option<int>, height: Option<int>)

  /**
   * The cropper's environment: the metadata read (`None` when it threw),
   * whether creating the directory, extracting and writing succeeded, and
   * the fresh output path.
   */
  datatype CropEnv = CropEnv(metadata: Option<ImageMetadata>, saved: bool, outputPath: string)

  predicate HasDimensions(env: CropEnv)
  {
    && env.metadata.Some?
    && env.metadata.value.width.Some? && env.metadata.value.width.value != 0
    && env.metadata.value.height.Some? && env.metadata.value.height.value != 0
  }

  /** `cropPerson`'s outcome: the new file, or the one generic crop error for every failure. */
  function Crop(d: PersonDetection, env: CropEnv): (r: Result<string, string>)
    ensures r.Success? <==> HasDimensions(env) && env.saved
    ensures r.Success? ==> r.value == env.outputPath
    ensures r.Failure? ==> r.error == CropFailedMessage
  {
    if HasDimensions(env) && env.saved then Success(env.outputPath) else Failure(CropFailedMessage)
  }

  /** `cropPerson`: reads the dimensions, computes the rectangle step by step, rounds it. */
  method CropPerson(d: PersonDetection, env: CropEnv) returns (r: Result<string, string>, extracted: Option<PixelRegion>)
    ensures r == Crop(d, env)
    ensures extracted.Some? <==> HasDimensions(env)
    ensures HasDimensions(env) ==>
      extracted.value == ExtractRegion(d, env.metadata.value.width.value, env.metadata.value.height.value)
  {
    if !HasDimensions(env) {
      return Failure(CropFailedMessage), None;
    }
    var imageWidth, imageHeight := env.metadata.value.width.value, env.metadata.value.height.value;
    var paddedWidth := d.width as real * (1.0 + Padding * 2.0);
    var paddedHeight := d.height as real * (1.0 + Padding * 2.0);
    var left := Max(0.0, d.x as real - d.width as real * Padding);
    var top := Max(0.0, d.y as real - d.height as real * Padding);
    var width := Min(paddedWidth, imageWidth as real - left);
    var height := Min(paddedHeight, imageHeight as real - top);
    extracted := Some(PixelRegion(Round(left), Round(top), Round(width), Round(height)));
    if !env.saved {
      return Failure(CropFailedMessage), extracted;
    }
    r := Success(env.outputPath);
  }

  // ---------------------------------------------------------------- pipeline

  /** Which detection the pipeline crops: none, the only one, or the selector's choice. */
  function CropTarget(ds: seq<PersonDetection>, description: Option<string>): Option<PersonDetection>
  {
    if |ds| == 0 then None
    else if |ds| == 1 then Some(ds[0])
    else Some(Select(ds, description))
  }

  /** The `catch` of the pipeline: `Error`s pass through, anything else becomes the generic message. */
  function Rethrow(t: Thrown): string
  {
    MessageOf(t, PreprocessFailedMessage)
  }

  /** `preprocessModelImage`'s outcome: the cropped file, or the message of the error it throws. */
  function Preprocess(reply: DetectorReply, description: Option<string>, env: CropEnv): Result<string, string>
  {
    match CropTarget(Detected(reply), description)
    case None => Failure(Rethrow(ErrorObject(NoPersonMessage)))
    case Some(d) =>
      match Crop(d, env)
      case Success(path) => Success(path)
      case Failure(m) => Failure(Rethrow(ErrorObject(m)))
  }

  /** `preprocessModelImage`: detect, dispatch on the count, select, crop. */
  method PreprocessModelImage(reply: DetectorReply, description: Option<string>, env: CropEnv)
    returns (r: Result<string, string>, target: Option<PersonDetection>)
    ensures r == Preprocess(reply, description, env)
    ensures target == CropTarget(Detected(reply), description)
  {
    var ds := DetectPersons(reply);
    if |ds| == 0 {
      return Failure(Rethrow(ErrorObject(NoPersonMessage))), None;
    }
    var chosen: PersonDetection;
    if |ds| == 1 {
      chosen := ds[0];
    } else {
      var a := new PersonDetection[|ds|](i requires 0 <= i < |ds| => ds[i]);
      assert a[..] == ds;
      chosen := SelectPerson(a, description);
    }
    target := Some(chosen);
    var cropped, region := CropPerson(chosen, env);
    r := match cropped
      case Success(path) => Success(path)
      case Failure(m) => Failure(Rethrow(ErrorObject(m)));
  }

  /** No detection (including a failed detector call): the no-person error, and nothing is cropped. */
  lemma PreprocessNoPerson(reply: DetectorReply, description: Option<string>, env: CropEnv)
    requires |Detected(reply)| == 0
    ensures CropTarget(Detected(reply), description) == None
    ensures Preprocess(reply, description, env) == Failure(NoPersonMessage)
  {
  }

  /** One detection: it is cropped whatever the description says, without selection. */
  lemma PreprocessOnePerson(reply: DetectorReply, d1: Option<string>, d2: Option<string>, env: CropEnv)
    requires |Detected(reply)| == 1
    ensures CropTarget(Detected(reply), d1) == CropTarget(Detected(reply), d2) == Some(Detected(reply)[0])
    ensures Preprocess(reply, d1, env) == Preprocess(reply, d2, env) == Crop(Detected(reply)[0], env)
  {
  }

  /** Several detections: the selector's choice is cropped. */
  lemma PreprocessManyPeople(reply: DetectorReply, description: Option<string>, env: CropEnv)
    requires |Detected(reply)| >= 2
    ensures CropTarget(Detected(reply), description) == Some(Select(Detected(reply), description))
    ensures Preprocess(reply, description, env) == Crop(Select(Detected(reply), description), env)
  {
  }

  /**
   * Every failure carries the no-person or the crop message: both are
   * `Error`s, so the generic message for non-`Error` throws never appears.
   */
  lemma PreprocessFailureMessages(reply: DetectorReply, description: Option<string>, env: CropEnv)
    ensures var r := Preprocess(reply, description, env);
      r.Failure? ==> r.error == NoPersonMessage || r.error == CropFailedMessage
    ensures var r := Preprocess(reply, description, env);
      r.Success? <==> |Detected(reply)| > 0 && HasDimensions(env) && env.saved
  {
  }
}
