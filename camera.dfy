/** `getCameraDetails` of the camera screen: one `CameraInfo` per camera id,
    with the lens facing, the largest JPEG output size, flash and video
    support. The camera characteristics are inputs; a failure to list the
    cameras or to read one camera's characteristics ends the loop. */
module Camera {
  import opened Wrappers
  import opened Numerics
  import opened Text

  const LENS_FACING_FRONT: int := 0
  const LENS_FACING_BACK: int := 1
  const LENS_FACING_EXTERNAL: int := 2

  const FULL_HD_WIDTH: int := 1920

  datatype Size = Size(width: int, height: int)

  /** The stream configuration map: the JPEG and preview output sizes, each
      `None` when the map returns null. */
  datatype StreamConfig = StreamConfig(jpegSizes: Option<seq<Size>>, previewSizes: Option<seq<Size>>)

  /** The characteristics the screen reads; a missing key is `None`. */
  datatype Characteristics = Characteristics(lensFacing: Option<int>, streamConfig: Option<StreamConfig>,
                                             flashAvailable: Option<bool>)

  /** Reading a camera's characteristics: it throws, or it gives them. */
  datatype CameraRead = ReadThrows | Read(chars: Characteristics)

  datatype CameraEntry = CameraEntry(id: string, read: CameraRead)

  /** One row (`CameraInfo`; megapixels and the physical sensor size are not
      modelled). */
  datatype CameraInfo = CameraInfo(id: string, facing: string, resolution: string, hasFlash: string,
                                   videoCapabilities: string)

  function FacingText(lensFacing: Option<int>): (t: string)
    ensures t == "Unknown" <==> !(lensFacing.Some? && 0 <= lensFacing.value <= 2)
    ensures lensFacing == Some(0) <==> t == "Front"
    ensures lensFacing == Some(1) <==> t == "Back"
    ensures lensFacing == Some(2) <==> t == "External"
  {
    if lensFacing == Some(LENS_FACING_BACK) then "Back"
    else if lensFacing == Some(LENS_FACING_FRONT) then "Front"
    else if lensFacing == Some(LENS_FACING_EXTERNAL) then "External"
    else "Unknown"
  }

  /** `width * height` as an `Int`, as `maxByOrNull` compares it. */
  function Area(s: Size): int
  {
    Wrap32(s.width * s.height)
  }

  /** `maxByOrNull { it.width * it.height }`: the position of the first size
      whose area no other size exceeds. */
  function LargestIndex(sizes: seq<Size>): (m: nat)
    requires |sizes| > 0
    ensures m < |sizes|
    ensures forall i :: 0 <= i < |sizes| ==> Area(sizes[i]) <= Area(sizes[m])
    ensures forall i :: 0 <= i < m ==> Area(sizes[i]) < Area(sizes[m])
  {
    if |sizes| == 1 then 0
    else
      var m := LargestIndex(sizes[..|sizes| - 1]);
      assert forall i :: 0 <= i < |sizes| - 1 ==> sizes[..|sizes| - 1][i] == sizes[i];
      if Area(sizes[m]) < Area(sizes[|sizes| - 1]) then |sizes| - 1 else m
  }

  function JpegSizes(chars: Characteristics): Option<seq<Size>>
  {
    match chars.streamConfig
    case None => None
    case Some(config) => config.jpegSizes
  }

  /** "W x H" of the largest JPEG size, "Unknown" when there are none. */
  function ResolutionText(sizes: Option<seq<Size>>): (t: string)
    ensures sizes.None? || sizes.value == [] ==> t == "Unknown"
    ensures sizes.Some? && sizes.value != [] ==>
              var s := sizes.value[LargestIndex(sizes.value)];
              t == IntToString(s.width) + " x " + IntToString(s.height)
  {
    match sizes
    case None => "Unknown"
    case Some(ss) =>
      if ss == [] then "Unknown"
      else
        var s := ss[LargestIndex(ss)];
        IntToString(s.width) + " x " + IntToString(s.height)
  }

  function FlashText(flashAvailable: Option<bool>): (t: string)
    ensures t == "Supported" <==> flashAvailable == Some(true)
  {
    if flashAvailable == Some(true) then "Supported" else "Not Supported"
  }

  predicate HasFullHdPreview(chars: Characteristics)
  {
    chars.streamConfig.Some? && chars.streamConfig.value.previewSizes.Some? &&
    exists i :: 0 <= i < |chars.streamConfig.value.previewSizes.value| &&
                chars.streamConfig.value.previewSizes.value[i].width >= FULL_HD_WIDTH
  }

  /** Whether some preview size is at least 1920 wide. */
  function AnyFullHd(sizes: seq<Size>): (b: bool)
    ensures b <==> exists i :: 0 <= i < |sizes| && sizes[i].width >= FULL_HD_WIDTH
  {
    if sizes == [] then false
    else
      assert forall i :: 1 <= i < |sizes| ==> sizes[1..][i - 1] == sizes[i];
      sizes[0].width >= FULL_HD_WIDTH || AnyFullHd(sizes[1..])
  }

  function VideoText(chars: Characteristics): (t: string)
    ensures t == "Full HD (1080p) supported" <==> HasFullHdPreview(chars)
    ensures t != "Full HD (1080p) supported" ==> t == "Standard HD supported"
  {
    match chars.streamConfig
    case None => "Standard HD supported"
    case Some(config) =>
      match config.previewSizes
      case None => "Standard HD supported"
      case Some(sizes) => if AnyFullHd(sizes) then "Full HD (1080p) supported" else "Standard HD supported"
  }

  function Describe(id: string, chars: Characteristics): CameraInfo
  {
    CameraInfo(id, FacingText(chars.lensFacing), ResolutionText(JpegSizes(chars)),
               FlashText(chars.flashAvailable), VideoText(chars))
  }

  /** The rows built before the first camera whose read throws: one per
      camera, in id order, for the longest prefix of readable cameras. */
  function CameraDetails(entries: seq<CameraEntry>): (r: seq<CameraInfo>)
    ensures |r| <= |entries|
    ensures forall i :: 0 <= i < |r| ==> entries[i].read.Read? && r[i] == Describe(entries[i].id, entries[i].read.chars)
    ensures |r| < |entries| ==> entries[|r|].read.ReadThrows?
  {
    if entries == [] then []
    else match entries[0].read
      case ReadThrows => []
      case Read(chars) =>
        var rest := CameraDetails(entries[1..]);
        assert forall i :: 1 <= i < |entries| ==> entries[1..][i - 1] == entries[i];
        [Describe(entries[0].id, chars)] + rest
  }

  /** `getCameraDetails`: the loop over the camera ids; an exception, from
      listing the ids or from reading a camera, keeps the rows built so far. */
  method GetCameraDetails(cameraList: Option<seq<CameraEntry>>) returns (result: seq<CameraInfo>)
    ensures cameraList.None? ==> result == []
    ensures cameraList.Some? ==> result == CameraDetails(cameraList.value)
  {
    result := [];
    if cameraList.None? {
      return;
    }
    var entries := cameraList.value;
    for i := 0 to |entries|
      invariant result + CameraDetails(entries[i..]) == CameraDetails(entries)
    {
      assert entries[i..][1..] == entries[i + 1..];
      match entries[i].read {
        case ReadThrows =>
          return;
        case Read(chars) =>
          var facing := FacingText(chars.lensFacing);
          var resolution := ResolutionText(JpegSizes(chars));
          var flash := FlashText(chars.flashAvailable);
          var video := VideoText(chars);
          result := result + [CameraInfo(entries[i].id, facing, resolution, flash, video)];
      }
    }
    assert entries[|entries|..] == [];
  }

  /** With every camera readable there is one row per camera id. */
  lemma AllReadable(entries: seq<CameraEntry>)
    requires forall i :: 0 <= i < |entries| ==> entries[i].read.Read?
    ensures |CameraDetails(entries)| == |entries|
  {
  }
}
