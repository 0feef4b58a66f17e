/**
 * The decision and formatting logic of the transcode service: the fixed
 * rendition catalogue and the filter that selects a ladder for a probed
 * source, the names of the per-rendition transcode outputs, the text of the
 * HLS master playlist, and the keys and content types of the uploads.
 * The transcoder, the probe, object storage and the filesystem are not
 * modelled; their outcomes enter as parameters.
 */
module Service {
  import opened Wrappers
  import opened Text
  import opened Paths

  /** One rung of the rendition ladder, holding the strings the catalogue holds. */
  datatype Rung = Rung(resolution: string, size: string, width: string, bitrate: string)

  /** The fixed catalogue, in ascending quality. */
  const Catalogue: seq<Rung> := [
    Rung("140p", "?x140", "248", "150k"),
    Rung("240p", "?x240", "426", "500k"),
    Rung("360p", "?x360", "640", "1000k"),
    Rung("480p", "?x480", "854", "1500k"),
    Rung("720p", "?x720", "1280", "4000k"),
    Rung("1080p", "?x1080", "1920", "6000k")
  ]

  /** The numbers the catalogue's width, resolution and bitrate strings spell. */
  const Widths: seq<nat> := [248, 426, 640, 854, 1280, 1920]
  const Heights: seq<nat> := [140, 240, 360, 480, 720, 1080]
  const RatesKbps: seq<nat> := [150, 500, 1000, 1500, 4000, 6000]

  // ---------------------------------------------------------------------
  // Ladder selection
  // ---------------------------------------------------------------------

  /** `s.replace(/p$/, "")`: drops one trailing 'p'. */
  function StripP(s: string): (r: string)
    ensures r <= s
    ensures EndsWith(s, "p") ==> s == r + "p"
    ensures !EndsWith(s, "p") ==> r == s
  {
    if s != [] && s[|s| - 1] == 'p' then s[..|s| - 1] else s
  }

  function RungWidth(r: Rung): Option<nat> {
    ParseInt(r.width)
  }

  function RungHeight(r: Rung): Option<nat> {
    ParseInt(StripP(r.resolution))
  }

  /** `x <= bound` where `x` is a parseInt result: NaN compares false. */
  predicate AtMost(x: Option<nat>, bound: int) {
    x.Some? && x.value <= bound
  }

  /** The filter's test: the rung is no wider and no taller than the source. */
  predicate Fits(r: Rung, width: int, height: int) {
    AtMost(RungWidth(r), width) && AtMost(RungHeight(r), height)
  }

  /** The filter callback for a source of the given width and height. */
  function FitsSource(width: int, height: int): Rung -> bool {
    r => Fits(r, width, height)
  }

  /** Array.prototype.filter: the rungs `keep` accepts, in their order. */
  function Filter(rungs: seq<Rung>, keep: Rung -> bool): (kept: seq<Rung>)
    ensures |kept| <= |rungs|
  {
    if rungs == [] then []
    else if keep(rungs[0]) then [rungs[0]] + Filter(rungs[1..], keep)
    else Filter(rungs[1..], keep)
  }

  /** The filter keeps exactly the rungs the callback accepts. */
  lemma {:induction false} FilterMembers(rungs: seq<Rung>, keep: Rung -> bool)
    ensures forall r :: r in Filter(rungs, keep) <==> r in rungs && keep(r)
  {
    if rungs != [] {
      FilterMembers(rungs[1..], keep);
      assert rungs == [rungs[0]] + rungs[1..];
    }
  }

  /** The ladder for a source of the probed width and height. */
  function SelectLadder(width: int, height: int): seq<Rung> {
    Filter(Catalogue, FitsSource(width, height))
  }

  lemma RungNumbers(r: Rung, width: nat, height: nat, rate: nat)
    requires r.width == NatToString(width)
    requires r.resolution == NatToString(height) + "p"
    requires r.bitrate == NatToString(rate) + "k"
    ensures RungWidth(r) == Some(width)
    ensures RungHeight(r) == Some(height)
    ensures ParseInt(r.bitrate) == Some(rate)
    ensures EndsWith(r.resolution, "p")
  {
    assert r.width == NatToString(width) + "";
    assert StripP(r.resolution) == NatToString(height) + "";
    ParseIntNatToString(width, "");
    ParseIntNatToString(height, "");
    ParseIntNatToString(rate, "k");
  }

  /** Each width string is the decimal text of its width. */
  lemma CatalogueWidthStrings(i: nat)
    requires i < |Catalogue|
    ensures Catalogue[i].width == NatToString(Widths[i])
  {
    if i == 0 {
      assert NatToString(248) == "248";
    } else if i == 1 {
      assert NatToString(426) == "426";
    } else if i == 2 {
      assert NatToString(640) == "640";
    } else {
      WideWidthStrings(i);
    }
  }

  lemma WideWidthStrings(i: nat)
    requires 3 <= i < |Catalogue|
    ensures Catalogue[i].width == NatToString(Widths[i])
  {
    if i == 3 {
      assert NatToString(854) == "854";
    } else if i == 4 {
      assert NatToString(1280) == "1280";
    } else {
      assert NatToString(1920) == "1920";
    }
  }

  /** Each resolution string is the decimal text of its height followed by "p". */
  lemma CatalogueResolutionStrings(i: nat)
    requires i < |Catalogue|
    ensures Catalogue[i].resolution == NatToString(Heights[i]) + "p"
  {
    if i == 0 {
      assert NatToString(140) == "140";
    } else if i == 1 {
      assert NatToString(240) == "240";
    } else if i == 2 {
      assert NatToString(360) == "360";
    } else if i == 3 {
      assert NatToString(480) == "480";
    } else if i == 4 {
      assert NatToString(720) == "720";
    } else {
      assert NatToString(1080) == "1080";
    }
  }

  /** Each bitrate string is the decimal text of its rate in kbit/s followed by "k". */
  lemma CatalogueBitrateStrings(i: nat)
    requires i < |Catalogue|
    ensures Catalogue[i].bitrate == NatToString(RatesKbps[i]) + "k"
  {
    if i == 0 {
      assert NatToString(150) == "150";
    } else if i == 1 {
      assert NatToString(500) == "500";
    } else if i == 2 {
      assert NatToString(1000) == "1000";
    } else if i == 3 {
      assert NatToString(1500) == "1500";
    } else if i == 4 {
      assert NatToString(4000) == "4000";
    } else {
      assert NatToString(6000) == "6000";
    }
  }

  /** The catalogue's strings parse to the widths, heights and bitrates it is meant to carry. */
  lemma CatalogueNumbers(i: nat)
    requires i < |Catalogue|
    ensures RungWidth(Catalogue[i]) == Some(Widths[i])
    ensures RungHeight(Catalogue[i]) == Some(Heights[i])
    ensures ParseInt(Catalogue[i].bitrate) == Some(RatesKbps[i])
    ensures EndsWith(Catalogue[i].resolution, "p")
  {
    CatalogueWidthStrings(i);
    CatalogueResolutionStrings(i);
    CatalogueBitrateStrings(i);
    RungNumbers(Catalogue[i], Widths[i], Heights[i], RatesKbps[i]);
  }

  /** Both parsed dimensions exist and strictly ascend along the rungs. */
  predicate Ascending(rungs: seq<Rung>) {
    (forall i :: 0 <= i < |rungs| ==> RungWidth(rungs[i]).Some? && RungHeight(rungs[i]).Some?) &&
    (forall i, j :: 0 <= i < j < |rungs| ==>
      RungWidth(rungs[i]).value < RungWidth(rungs[j]).value &&
      RungHeight(rungs[i]).value < RungHeight(rungs[j]).value)
  }

  lemma CatalogueAscending()
    ensures Ascending(Catalogue)
  {
    forall i | 0 <= i < |Catalogue|
      ensures RungWidth(Catalogue[i]).Some? && RungHeight(Catalogue[i]).Some?
    {
      CatalogueNumbers(i);
    }
    forall i, j | 0 <= i < j < |Catalogue|
      ensures RungWidth(Catalogue[i]).value < RungWidth(Catalogue[j]).value
      ensures RungHeight(Catalogue[i]).value < RungHeight(Catalogue[j]).value
    {
      CatalogueNumbers(i);
      CatalogueNumbers(j);
      NumbersAscend(i, j);
    }
  }

  lemma NumbersBounded(k: nat)
    requires k < |Catalogue|
    ensures 248 <= Widths[k] <= 1920 && 140 <= Heights[k] <= 1080
  {
  }

  lemma NumbersFor640x360(k: nat)
    requires k < |Catalogue|
    ensures Widths[k] <= 640 && Heights[k] <= 360 <==> k < 3
  {
  }

  lemma NumbersAscend(i: nat, j: nat)
    requires i < j < |Catalogue|
    ensures Widths[i] < Widths[j] && Heights[i] < Heights[j]
  {
  }

  /** When no rung is accepted, nothing is kept. */
  lemma {:induction false} FilterNoneFit(rungs: seq<Rung>, keep: Rung -> bool)
    requires forall k :: 0 <= k < |rungs| ==> !keep(rungs[k])
    ensures Filter(rungs, keep) == []
  {
    if rungs != [] {
      FilterNoneFit(rungs[1..], keep);
    }
  }

  /** When every rung is accepted, everything is kept. */
  lemma {:induction false} FilterAllFit(rungs: seq<Rung>, keep: Rung -> bool)
    requires forall k :: 0 <= k < |rungs| ==> keep(rungs[k])
    ensures Filter(rungs, keep) == rungs
  {
    if rungs != [] {
      FilterAllFit(rungs[1..], keep);
      assert [rungs[0]] + rungs[1..] == rungs;
    }
  }

  lemma AscendingTail(rungs: seq<Rung>)
    requires Ascending(rungs) && rungs != []
    ensures Ascending(rungs[1..])
  {
    var tail := rungs[1..];
    forall i, j | 0 <= i < j < |tail|
      ensures RungWidth(tail[i]).value < RungWidth(tail[j]).value
    {
      assert tail[i] == rungs[i + 1] && tail[j] == rungs[j + 1];
    }
  }

  /** Once the first of ascending rungs does not fit, no later one does. */
  lemma AscendingMisfit(rungs: seq<Rung>, width: int, height: int)
    requires Ascending(rungs) && rungs != [] && !Fits(rungs[0], width, height)
    ensures forall k :: 0 <= k < |rungs| ==> !Fits(rungs[k], width, height)
  {
    forall k | 1 <= k < |rungs|
      ensures !Fits(rungs[k], width, height)
    {
      assert RungWidth(rungs[0]).value < RungWidth(rungs[k]).value;
      assert RungHeight(rungs[0]).value < RungHeight(rungs[k]).value;
    }
  }

  /** When exactly the first `m` rungs are accepted, the filter keeps exactly those. */
  lemma {:induction false} FilterKeepsFirst(rungs: seq<Rung>, keep: Rung -> bool, m: nat)
    requires m <= |rungs|
    requires forall k :: 0 <= k < |rungs| ==> (keep(rungs[k]) <==> k < m)
    ensures Filter(rungs, keep) == rungs[..m]
  {
    if m == 0 {
      FilterNoneFit(rungs, keep);
    } else {
      var tail := rungs[1..];
      assert forall k :: 0 <= k < |tail| ==> tail[k] == rungs[k + 1];
      FilterKeepsFirst(tail, keep, m - 1);
      assert rungs[..m] == [rungs[0]] + tail[..m - 1];
    }
  }

  lemma FilterPrefixStep(rungs: seq<Rung>, keep: Rung -> bool)
    requires rungs != [] && keep(rungs[0])
    requires Filter(rungs[1..], keep) == rungs[1..][..|Filter(rungs[1..], keep)|]
    ensures Filter(rungs, keep) == rungs[..|Filter(rungs, keep)|]
  {
    var kept := Filter(rungs[1..], keep);
    assert Filter(rungs, keep) == [rungs[0]] + kept;
    assert rungs[..|kept| + 1] == [rungs[0]] + rungs[1..][..|kept|];
  }

  /** Over rungs that ascend in both dimensions the filter keeps a prefix. */
  lemma {:induction false} FilterAscendingIsPrefix(rungs: seq<Rung>, width: int, height: int)
    requires Ascending(rungs)
    ensures Filter(rungs, FitsSource(width, height)) == rungs[..|Filter(rungs, FitsSource(width, height))|]
  {
    var keep := FitsSource(width, height);
    if rungs != [] {
      if keep(rungs[0]) {
        AscendingTail(rungs);
        FilterAscendingIsPrefix(rungs[1..], width, height);
        FilterPrefixStep(rungs, keep);
      } else {
        AscendingMisfit(rungs, width, height);
        FilterNoneFit(rungs, keep);
      }
    }
  }

  /** The ladder is a prefix of the catalogue, so it keeps the catalogue's order. */
  lemma LadderIsPrefix(width: int, height: int)
    ensures var ladder := SelectLadder(width, height);
      ladder == Catalogue[..|ladder|]
  {
    CatalogueAscending();
    FilterAscendingIsPrefix(Catalogue, width, height);
  }

  /** A rung is kept exactly when its width fits the source width and its height fits the source height. */
  lemma LadderKeeps(width: int, height: int, i: nat)
    requires i < |Catalogue|
    ensures Catalogue[i] in SelectLadder(width, height) <==> Widths[i] <= width && Heights[i] <= height
  {
    FilterMembers(Catalogue, FitsSource(width, height));
    CatalogueNumbers(i);
  }

  /** The ladder is empty exactly when the source is narrower or shorter than the smallest rung. */
  lemma LadderEmptyIff(width: int, height: int)
    ensures SelectLadder(width, height) == [] <==> width < 248 || height < 140
  {
    LadderKeeps(width, height, 0);
    if width < 248 || height < 140 {
      forall k | 0 <= k < |Catalogue|
        ensures !Fits(Catalogue[k], width, height)
      {
        CatalogueNumbers(k);
        NumbersBounded(k);
      }
      FilterNoneFit(Catalogue, FitsSource(width, height));
    }
  }

  /** The ladder is the whole catalogue exactly when the source is at least 1920 wide and 1080 tall. */
  lemma LadderFullIff(width: int, height: int)
    ensures SelectLadder(width, height) == Catalogue <==> width >= 1920 && height >= 1080
  {
    LadderKeeps(width, height, 5);
    if width >= 1920 && height >= 1080 {
      forall k | 0 <= k < |Catalogue|
        ensures Fits(Catalogue[k], width, height)
      {
        CatalogueNumbers(k);
        NumbersBounded(k);
      }
      FilterAllFit(Catalogue, FitsSource(width, height));
    }
  }

  /** A 640x360 source gets the 140p, 240p and 360p rungs and no others. */
  lemma LadderFor640x360()
    ensures SelectLadder(640, 360) == Catalogue[..3]
  {
    forall k | 0 <= k < |Catalogue|
      ensures Fits(Catalogue[k], 640, 360) <==> k < 3
    {
      CatalogueNumbers(k);
      NumbersFor640x360(k);
    }
    FilterKeepsFirst(Catalogue, FitsSource(640, 360), 3);
  }

  // ---------------------------------------------------------------------
  // Transcode jobs
  // ---------------------------------------------------------------------

  /** One transcoder invocation: input file and format, output playlist path, target size and video bitrate. */
  datatype Job = Job(input: string, inputFormat: string, output: string, size: string, videoBitrate: string)

  /** File name of the variant playlist the transcoder writes for a rung. */
  function VariantName(fileName: string, r: Rung): (name: string)
    ensures EndsWith(name, ".m3u8")
  {
    fileName + "_" + r.resolution + ".m3u8"
  }

  /** Two rungs share a variant playlist name exactly when they share a resolution name. */
  lemma VariantNamesDistinct(fileName: string, a: Rung, b: Rung)
    ensures VariantName(fileName, a) == VariantName(fileName, b) <==> a.resolution == b.resolution
  {
    var na, nb := VariantName(fileName, a), VariantName(fileName, b);
    var lo := |fileName| + 1;
    assert na[lo..|na| - 5] == a.resolution;
    assert nb[lo..|nb| - 5] == b.resolution;
  }

  /** One job per rung of the ladder, in ladder order, all launched together. */
  function TranscodeJobs(source: string, outputDir: string, fileName: string, ext: string, ladder: seq<Rung>): (jobs: seq<Job>)
    ensures |jobs| == |ladder|
  {
    if ladder == [] then []
    else
      var r := ladder[0];
      [Job(source, ext, JoinUnder(outputDir, VariantName(fileName, r)), r.size, r.bitrate)]
        + TranscodeJobs(source, outputDir, fileName, ext, ladder[1..])
  }

  /** The i-th job transcodes the source into the variant playlist of the i-th rung, at that rung's size and rate. */
  lemma {:induction false} TranscodeJobAt(source: string, outputDir: string, fileName: string, ext: string, ladder: seq<Rung>, i: nat)
    requires i < |ladder|
    ensures TranscodeJobs(source, outputDir, fileName, ext, ladder)[i]
      == Job(source, ext, JoinUnder(outputDir, VariantName(fileName, ladder[i])), ladder[i].size, ladder[i].bitrate)
  {
    if i > 0 {
      TranscodeJobAt(source, outputDir, fileName, ext, ladder[1..], i - 1);
    }
  }

  /** Promise.all over the jobs: the conversion succeeds only if every job does. */
  predicate AllSucceed(jobs: seq<Job>, jobOk: Job -> bool) {
    forall j :: j in jobs ==> jobOk(j)
  }

  lemma CatalogueResolutionsDistinct(i: nat, j: nat)
    requires i < j < |Catalogue|
    ensures Catalogue[i].resolution != Catalogue[j].resolution
  {
    CatalogueResolutionStrings(i);
    CatalogueResolutionStrings(j);
    NumbersAscend(i, j);
    NatToStringInjective(Heights[i], Heights[j]);
    assert Catalogue[i].resolution[..|Catalogue[i].resolution| - 1] == NatToString(Heights[i]);
    assert Catalogue[j].resolution[..|Catalogue[j].resolution| - 1] == NatToString(Heights[j]);
  }

  /** Distinct rungs of a ladder write distinct output files, so no two jobs share an output. */
  lemma LadderOutputsDistinct(source: string, outputDir: string, fileName: string, ext: string, width: int, height: int)
    ensures var jobs := TranscodeJobs(source, outputDir, fileName, ext, SelectLadder(width, height));
      forall i, j :: 0 <= i < j < |jobs| ==> jobs[i].output != jobs[j].output
  {
    var ladder := SelectLadder(width, height);
    var jobs := TranscodeJobs(source, outputDir, fileName, ext, ladder);
    LadderIsPrefix(width, height);
    forall i, j | 0 <= i < j < |jobs|
      ensures jobs[i].output != jobs[j].output
    {
      assert ladder[i] == Catalogue[i] && ladder[j] == Catalogue[j];
      TranscodeJobAt(source, outputDir, fileName, ext, ladder, i);
      TranscodeJobAt(source, outputDir, fileName, ext, ladder, j);
      CatalogueResolutionsDistinct(i, j);
      VariantNamesDistinct(fileName, ladder[i], ladder[j]);
      JoinUnderInjective(outputDir, VariantName(fileName, ladder[i]), VariantName(fileName, ladder[j]));
    }
  }

  // ---------------------------------------------------------------------
  // Master playlist
  // ---------------------------------------------------------------------

  /** The fixed first two lines: EXTM3U and EXT-X-VERSION (RFC 8216, sections 4.3.1.1 and 4.3.1.2). */
  const M3uTag := "#EXTM3U"
  const VersionTag := "#EXT-X-VERSION:3"
  const MasterHeader := M3uTag + "\n" + VersionTag + "\n"

  /** File name of the master playlist. */
  function MasterName(fileName: string): string {
    fileName + ".m3u8"
  }

  /** `parseInt(bitrate) * 1000` rendered as text; JavaScript renders NaN as "NaN". */
  function BandwidthText(r: Rung): (text: string)
    ensures ParseInt(r.bitrate).Some? ==> ParseInt(text) == Some(1000 * ParseInt(r.bitrate).value)
  {
    match ParseInt(r.bitrate)
    case Some(kbps) =>
      ParseIntNatToString(kbps * 1000, "");
      assert NatToString(kbps * 1000) + "" == NatToString(kbps * 1000);
      NatToString(kbps * 1000)
    case None => "NaN"
  }

  /** RESOLUTION as the code writes it: the width, "x", and the whole rung name, trailing "p" included. */
  function ResolutionAttrAsWritten(r: Rung): string {
    r.width + "x" + r.resolution
  }

  /** RESOLUTION as intended: the width, "x", and the rung's numeric height. */
  function ResolutionAttr(r: Rung): string {
    r.width + "x" + StripP(r.resolution)
  }

  /** An attribute value of the form decimal-integer "x" decimal-integer (RFC 8216, section 4.2). */
  predicate IsDecimalResolution(s: string) {
    exists k :: 0 < k < |s| - 1 && s[k] == 'x' && AllDigits(s[..k]) && AllDigits(s[k + 1..])
  }

  function StreamInfWith(r: Rung, resolution: string): string {
    "#EXT-X-STREAM-INF:BANDWIDTH=" + BandwidthText(r) + ",RESOLUTION=" + resolution + ",NAME=\"" + r.resolution + "\""
  }

  /** The EXT-X-STREAM-INF line (RFC 8216, section 4.3.4.2) as the code writes it. */
  function StreamInfLineAsWritten(r: Rung): string {
    StreamInfWith(r, ResolutionAttrAsWritten(r))
  }

  /** The EXT-X-STREAM-INF line with a conforming RESOLUTION attribute. */
  function StreamInfLine(r: Rung): string {
    StreamInfWith(r, ResolutionAttr(r))
  }

  function StreamInfLines(ladder: seq<Rung>): (lines: seq<string>)
    ensures |lines| == |ladder|
  {
    seq(|ladder|, i requires 0 <= i < |ladder| => StreamInfLine(ladder[i]))
  }

  function StreamInfLinesAsWritten(ladder: seq<Rung>): (lines: seq<string>)
    ensures |lines| == |ladder|
  {
    seq(|ladder|, i requires 0 <= i < |ladder| => StreamInfLineAsWritten(ladder[i]))
  }

  function Uris(fileName: string, ladder: seq<Rung>): (uris: seq<string>)
    ensures |uris| == |ladder|
  {
    seq(|ladder|, i requires 0 <= i < |ladder| => VariantName(fileName, ladder[i]))
  }

  /**
   * The master file's text for given stream-info lines and URIs: the header,
   * then each stream-info line with its URI on the next line, the pairs
   * joined by single line breaks.
   */
  function MasterText(infs: seq<string>, uris: seq<string>): (text: string)
    requires |infs| == |uris|
    ensures MasterHeader <= text
    ensures infs == [] ==> text == MasterHeader
  {
    MasterHeader + JoinLines(PairUp(infs, uris))
  }

  /** The master playlist text with the corrected RESOLUTION attribute; this is what the handler writes in the model. */
  function MasterPlaylist(fileName: string, ladder: seq<Rung>): (text: string)
    ensures MasterHeader <= text
    ensures ladder == [] ==> text == MasterHeader
  {
    MasterText(StreamInfLines(ladder), Uris(fileName, ladder))
  }

  /** The master playlist text exactly as the code writes it, RESOLUTION attribute included. */
  function MasterPlaylistAsWritten(fileName: string, ladder: seq<Rung>): (text: string)
    ensures MasterHeader <= text
    ensures ladder == [] ==> text == MasterHeader
  {
    MasterText(StreamInfLinesAsWritten(ladder), Uris(fileName, ladder))
  }

  /** The lines that follow the header: for each rung its stream-info line, then its URI line. */
  function PlaylistLines(fileName: string, ladder: seq<Rung>): (lines: seq<string>)
    ensures |lines| == 2 * |ladder|
    ensures forall i :: 0 <= i < |ladder| ==>
      lines[2 * i] == StreamInfLine(ladder[i]) && lines[2 * i + 1] == VariantName(fileName, ladder[i])
  {
    Interleave(StreamInfLines(ladder), Uris(fileName, ladder))
  }

  /** Rung strings that put no line break into the playlist. */
  predicate SingleLineRung(r: Rung) {
    NoLineBreak(r.width) && NoLineBreak(r.resolution)
  }

  /** Both forms of a rung's stream-info line are single lines. */
  lemma StreamInfSingleLine(r: Rung)
    requires SingleLineRung(r)
    ensures NoLineBreak(StreamInfLine(r))
    ensures NoLineBreak(StreamInfLineAsWritten(r))
  {
    if ParseInt(r.bitrate).Some? {
      assert AllDigits(BandwidthText(r));
    }
    assert NoLineBreak(BandwidthText(r));
    assert NoLineBreak(ResolutionAttr(r));
    assert NoLineBreak(ResolutionAttrAsWritten(r));
  }

  /** No stream-info line, in either form, and no URI contains a line break. */
  lemma LadderLinesSingle(fileName: string, ladder: seq<Rung>)
    requires NoLineBreak(fileName)
    requires forall r :: r in ladder ==> SingleLineRung(r)
    ensures forall i :: 0 <= i < |ladder| ==>
      && NoLineBreak(StreamInfLines(ladder)[i])
      && NoLineBreak(StreamInfLinesAsWritten(ladder)[i])
      && NoLineBreak(Uris(fileName, ladder)[i])
  {
    forall i | 0 <= i < |ladder|
      ensures NoLineBreak(StreamInfLines(ladder)[i]) && NoLineBreak(StreamInfLinesAsWritten(ladder)[i])
      ensures NoLineBreak(Uris(fileName, ladder)[i])
    {
      assert ladder[i] in ladder;
      StreamInfSingleLine(ladder[i]);
    }
  }

  lemma PlaylistLinesSingle(fileName: string, ladder: seq<Rung>)
    requires NoLineBreak(fileName)
    requires forall r :: r in ladder ==> SingleLineRung(r)
    ensures forall j :: 0 <= j < |PlaylistLines(fileName, ladder)| ==> NoLineBreak(PlaylistLines(fileName, ladder)[j])
  {
    LadderLinesSingle(fileName, ladder);
    InterleaveNoLineBreak(StreamInfLines(ladder), Uris(fileName, ladder));
  }

  lemma HeaderLines(body: seq<string>)
    requires body != []
    ensures MasterHeader + JoinLines(body) == JoinLines([M3uTag, VersionTag] + body)
  {
    JoinLinesCons2(M3uTag, VersionTag, body);
  }

  /**
   * Read back line by line, a master text is "#EXTM3U", "#EXT-X-VERSION:3",
   * then each stream-info line followed by its URI, with no trailing line
   * break; with no pairs the header's final line break leaves an empty last
   * line.
   */
  lemma MasterTextLines(infs: seq<string>, uris: seq<string>)
    requires |infs| == |uris|
    requires forall i :: 0 <= i < |infs| ==> NoLineBreak(infs[i]) && NoLineBreak(uris[i])
    ensures SplitLines(MasterText(infs, uris)) ==
      [M3uTag, VersionTag] + (if infs == [] then [""] else Interleave(infs, uris))
  {
    var body := if infs == [] then [""] else Interleave(infs, uris);
    var lines := [M3uTag, VersionTag] + body;
    if infs != [] {
      JoinPairUp(infs, uris);
    }
    HeaderLines(body);
    InterleaveNoLineBreak(infs, uris);
    assert forall i :: 0 <= i < 2 ==> NoLineBreak(lines[i]);
    assert forall i :: 2 <= i < |lines| ==> lines[i] == body[i - 2];
    SplitJoinLines(lines);
  }

  /**
   * Read back line by line, the master playlist is "#EXTM3U", "#EXT-X-VERSION:3",
   * then one stream-info line and one URI line per rung in ladder order, with
   * no trailing line break; an empty ladder leaves the header's final line break,
   * so an empty last line.
   */
  lemma MasterPlaylistLines(fileName: string, ladder: seq<Rung>)
    requires NoLineBreak(fileName)
    requires forall r :: r in ladder ==> SingleLineRung(r)
    ensures SplitLines(MasterPlaylist(fileName, ladder)) ==
      [M3uTag, VersionTag] + (if ladder == [] then [""] else PlaylistLines(fileName, ladder))
  {
    LadderLinesSingle(fileName, ladder);
    MasterTextLines(StreamInfLines(ladder), Uris(fileName, ladder));
  }

  /** The same line structure for the text as written, with the as-written stream-info lines. */
  lemma MasterPlaylistAsWrittenLines(fileName: string, ladder: seq<Rung>)
    requires NoLineBreak(fileName)
    requires forall r :: r in ladder ==> SingleLineRung(r)
    ensures SplitLines(MasterPlaylistAsWritten(fileName, ladder)) ==
      [M3uTag, VersionTag] + (if ladder == [] then [""] else Interleave(StreamInfLinesAsWritten(ladder), Uris(fileName, ladder)))
  {
    LadderLinesSingle(fileName, ladder);
    MasterTextLines(StreamInfLinesAsWritten(ladder), Uris(fileName, ladder));
  }

  /** Line by line: the two header lines, then stream-info line i at 2 + 2i and URI i at 3 + 2i. */
  lemma MasterTextLineAt(infs: seq<string>, uris: seq<string>)
    requires |infs| == |uris|
    requires forall i :: 0 <= i < |infs| ==> NoLineBreak(infs[i]) && NoLineBreak(uris[i])
    ensures var a := SplitLines(MasterText(infs, uris));
      && |a| == (if uris == [] then 3 else 2 + 2 * |uris|)
      && a[0] == M3uTag && a[1] == VersionTag
      && (uris == [] ==> a[2] == "")
      && (forall i :: 0 <= i < |uris| ==> a[2 + 2 * i] == infs[i] && a[3 + 2 * i] == uris[i])
  {
    MasterTextLines(infs, uris);
    if uris != [] {
      var a := SplitLines(MasterText(infs, uris));
      var body := Interleave(infs, uris);
      assert forall k :: 0 <= k < |body| ==> a[2 + k] == body[k];
      forall i | 0 <= i < |uris|
        ensures a[2 + 2 * i] == infs[i] && a[3 + 2 * i] == uris[i]
      {
        assert a[2 + 2 * i] == body[2 * i];
        assert a[3 + 2 * i] == body[2 * i + 1];
      }
    }
  }

  /** Two master texts with the same URIs agree on every line but the stream-info lines. */
  lemma MasterTextsAgree(infsA: seq<string>, infsC: seq<string>, uris: seq<string>)
    requires |infsA| == |infsC| == |uris|
    requires forall i :: 0 <= i < |uris| ==> NoLineBreak(infsA[i]) && NoLineBreak(infsC[i]) && NoLineBreak(uris[i])
    ensures var a, c := SplitLines(MasterText(infsA, uris)), SplitLines(MasterText(infsC, uris));
      && |a| == |c| == (if uris == [] then 3 else 2 + 2 * |uris|)
      && a[..2] == c[..2]
      && (uris == [] ==> a == c)
      && (forall i :: 0 <= i < |uris| ==> a[3 + 2 * i] == c[3 + 2 * i])
      && (forall i :: 0 <= i < |uris| ==> a[2 + 2 * i] == infsA[i] && c[2 + 2 * i] == infsC[i])
  {
    MasterTextLineAt(infsA, uris);
    MasterTextLineAt(infsC, uris);
    var a, c := SplitLines(MasterText(infsA, uris)), SplitLines(MasterText(infsC, uris));
    assert a[..2] == [M3uTag, VersionTag] == c[..2];
    forall i | 0 <= i < |uris|
      ensures a[3 + 2 * i] == c[3 + 2 * i]
    {
      assert a[3 + 2 * i] == uris[i] == c[3 + 2 * i];
    }
    if uris == [] {
      assert a == [a[0], a[1], a[2]];
      assert c == [c[0], c[1], c[2]];
    }
  }

  /**
   * The text as written and the corrected text have the same lines, except
   * that each rung's stream-info line carries a different RESOLUTION value;
   * the two lines differ whenever the rung name ends in "p", so for such a
   * ladder the two texts differ.
   */
  lemma AsWrittenDiffersInResolution(fileName: string, ladder: seq<Rung>)
    requires NoLineBreak(fileName)
    requires forall r :: r in ladder ==> SingleLineRung(r)
    ensures var a, c := SplitLines(MasterPlaylistAsWritten(fileName, ladder)), SplitLines(MasterPlaylist(fileName, ladder));
      && |a| == |c| == (if ladder == [] then 3 else 2 + 2 * |ladder|)
      && a[..2] == c[..2]
      && (ladder == [] ==> a == c)
      && (forall i :: 0 <= i < |ladder| ==> a[3 + 2 * i] == c[3 + 2 * i])
      && (forall i :: 0 <= i < |ladder| ==>
        && a[2 + 2 * i] == StreamInfLineAsWritten(ladder[i])
        && c[2 + 2 * i] == StreamInfLine(ladder[i])
        && (EndsWith(ladder[i].resolution, "p") ==> a[2 + 2 * i] != c[2 + 2 * i]))
    ensures ladder != [] && EndsWith(ladder[0].resolution, "p") ==>
      MasterPlaylistAsWritten(fileName, ladder) != MasterPlaylist(fileName, ladder)
  {
    var infsA, infsC, uris := StreamInfLinesAsWritten(ladder), StreamInfLines(ladder), Uris(fileName, ladder);
    LadderLinesSingle(fileName, ladder);
    MasterTextsAgree(infsA, infsC, uris);
    var a, c := SplitLines(MasterText(infsA, uris)), SplitLines(MasterText(infsC, uris));
    assert MasterPlaylistAsWritten(fileName, ladder) == MasterText(infsA, uris);
    assert MasterPlaylist(fileName, ladder) == MasterText(infsC, uris);
    forall i | 0 <= i < |ladder|
      ensures a[2 + 2 * i] == StreamInfLineAsWritten(ladder[i]) && c[2 + 2 * i] == StreamInfLine(ladder[i])
      ensures EndsWith(ladder[i].resolution, "p") ==> a[2 + 2 * i] != c[2 + 2 * i]
    {
      assert a[2 + 2 * i] == infsA[i] && c[2 + 2 * i] == infsC[i];
      if EndsWith(ladder[i].resolution, "p") {
        StreamInfLonger(ladder[i]);
      }
    }
  }

  /** With a trailing "p", the as-written stream-info line is one character longer than the corrected one. */
  lemma StreamInfLonger(r: Rung)
    requires EndsWith(r.resolution, "p")
    ensures |StreamInfLineAsWritten(r)| == |StreamInfLine(r)| + 1
  {
  }

  lemma JobOutputBasename(source: string, outputDir: string, fileName: string, ext: string, ladder: seq<Rung>, i: nat)
    requires i < |ladder|
    requires '/' !in fileName && '/' !in ladder[i].resolution
    ensures Basename(TranscodeJobs(source, outputDir, fileName, ext, ladder)[i].output) == VariantName(fileName, ladder[i])
  {
    var name := VariantName(fileName, ladder[i]);
    assert '/' !in name by {
      assert name == fileName + "_" + ladder[i].resolution + ".m3u8";
    }
    TranscodeJobAt(source, outputDir, fileName, ext, ladder, i);
    BasenameJoinUnder(outputDir, name);
  }

  /** Each URI in the master playlist is the base name of the output of the job for the same rung. */
  lemma MasterUrisAreJobOutputs(source: string, outputDir: string, fileName: string, ext: string, ladder: seq<Rung>)
    requires '/' !in fileName
    requires forall r :: r in ladder ==> '/' !in r.resolution
    ensures var jobs := TranscodeJobs(source, outputDir, fileName, ext, ladder);
      forall i :: 0 <= i < |ladder| ==> PlaylistLines(fileName, ladder)[2 * i + 1] == Basename(jobs[i].output)
  {
    forall i | 0 <= i < |ladder|
      ensures PlaylistLines(fileName, ladder)[2 * i + 1] == Basename(TranscodeJobs(source, outputDir, fileName, ext, ladder)[i].output)
    {
      assert ladder[i] in ladder;
      JobOutputBasename(source, outputDir, fileName, ext, ladder, i);
    }
  }

  /**
   * For every catalogue rung BANDWIDTH is 1000 times its kbit/s rate and
   * RESOLUTION is its width, "x" and its height, both as plain decimals.
   */
  lemma CatalogueStreamInf(i: nat)
    requires i < |Catalogue|
    ensures BandwidthText(Catalogue[i]) == NatToString(1000 * RatesKbps[i])
    ensures ParseInt(BandwidthText(Catalogue[i])) == Some(1000 * RatesKbps[i])
    ensures ResolutionAttr(Catalogue[i]) == NatToString(Widths[i]) + "x" + NatToString(Heights[i])
    ensures IsDecimalResolution(ResolutionAttr(Catalogue[i]))
  {
    var r := Catalogue[i];
    CatalogueNumbers(i);
    CatalogueWidthStrings(i);
    CatalogueResolutionStrings(i);
    assert StripP(r.resolution) == NatToString(Heights[i]);
    ParseIntNatToString(1000 * RatesKbps[i], "");
    assert NatToString(1000 * RatesKbps[i]) + "" == NatToString(1000 * RatesKbps[i]);
    var attr := ResolutionAttr(r);
    var k := |NatToString(Widths[i])|;
    assert attr[..k] == NatToString(Widths[i]) && attr[k + 1..] == NatToString(Heights[i]) && attr[k] == 'x';
  }

  /** A RESOLUTION value that ends in a non-digit is not a decimal-resolution. */
  lemma NotDecimalResolution(s: string)
    requires s != [] && !IsDigit(s[|s| - 1])
    ensures !IsDecimalResolution(s)
  {
    forall k | 0 < k < |s| - 1 && s[k] == 'x'
      ensures !AllDigits(s[k + 1..])
    {
      assert s[k + 1..][|s| - k - 2] == s[|s| - 1];
    }
  }

  /**
   * As written, every rung's RESOLUTION keeps the trailing "p" of its name
   * (for the 720p rung the value is "1280x720p"), which is not a
   * decimal-resolution.
   */
  lemma ResolutionAsWrittenNotDecimal(i: nat)
    requires i < |Catalogue|
    ensures !IsDecimalResolution(ResolutionAttrAsWritten(Catalogue[i]))
  {
    CatalogueNumbers(i);
    NotDecimalResolution(ResolutionAttrAsWritten(Catalogue[i]));
  }

  // ---------------------------------------------------------------------
  // Upload
  // ---------------------------------------------------------------------

  const PlaylistContentType := "application/x-mpegURL"
  const SegmentContentType := "video/MP2T"

  /** The content type a file is uploaded with: playlist for ".m3u8" names, transport stream otherwise. */
  function ContentType(file: string): string {
    if EndsWith(file, ".m3u8") then PlaylistContentType else SegmentContentType
  }

  /** Exactly the ".m3u8" files are uploaded as playlists; every other file is uploaded as a transport-stream segment. */
  lemma ContentTypeIff(file: string)
    ensures ContentType(file) == PlaylistContentType <==> EndsWith(file, ".m3u8")
    ensures ContentType(file) == SegmentContentType <==> !EndsWith(file, ".m3u8")
  {
    assert PlaylistContentType != SegmentContentType by {
      assert |PlaylistContentType| != |SegmentContentType|;
    }
  }

  /** Every playlist the pipeline names itself, variant or master, is uploaded as a playlist. */
  lemma PlaylistsUploadAsPlaylists(fileName: string, r: Rung)
    ensures ContentType(VariantName(fileName, r)) == PlaylistContentType
    ensures ContentType(MasterName(fileName)) == PlaylistContentType
  {
    var m := MasterName(fileName);
    assert m[|m| - 5..] == ".m3u8";
  }

  /** The key of the output folder: `path.join(path.dirname(originalKey), folderName)`. */
  function UploadFolder(originalKey: string, folderName: string): string {
    JoinUnder(Dirname(originalKey), folderName)
  }

  /** The object key of an uploaded file: `path.join(path.dirname(originalKey), folderName, file)`. */
  function UploadKey(originalKey: string, folderName: string, file: string): string {
    JoinUnder(UploadFolder(originalKey, folderName), file)
  }

  /**
   * The upload key puts the file directly inside the output folder, and the
   * output folder directly inside the source key's directory.
   */
  lemma UploadKeyParts(originalKey: string, folderName: string, file: string)
    requires '/' !in folderName && folderName != "" && folderName != "."
    requires '/' !in file
    ensures Basename(UploadKey(originalKey, folderName, file)) == file
    ensures Dirname(UploadKey(originalKey, folderName, file)) == JoinUnder(Dirname(originalKey), folderName)
    ensures Basename(Dirname(UploadKey(originalKey, folderName, file))) == folderName
  {
    var folder := JoinUnder(Dirname(originalKey), folderName);
    var key := UploadKey(originalKey, folderName, file);
    BasenameJoinUnder(Dirname(originalKey), folderName);
    BasenameJoinUnder(folder, file);
    assert folder != "." && folder != [] && folder[|folder| - 1] != '/' by {
      assert folder[|folder| - |folderName|..] == folderName;
      assert folder[|folder| - 1] == folderName[|folderName| - 1];
    }
    assert key == folder + ['/'] + file;
    LastIndexOfAfter(folder, '/', file);
    assert key[..|folder|] == folder;
  }

  /** A source key at the bucket root uploads its files under the output folder at the root. */
  lemma UploadKeyAtRoot(originalKey: string, folderName: string, file: string)
    requires '/' !in originalKey
    ensures UploadKey(originalKey, folderName, file) == JoinUnder(folderName, file)
  {
  }

  /** One upload request: destination bucket, object key and content type. */
  datatype Upload = Upload(bucket: string, key: string, contentType: string)

  /** The request for one directory entry of the output folder `folder`. */
  function UploadRequest(bucket: string, folder: string, file: string): Upload {
    Upload(bucket, JoinUnder(folder, file), ContentType(file))
  }

  /** The requests for the given directory entries, in listing order. */
  function UploadRequests(bucket: string, originalKey: string, folderName: string, files: seq<string>): (requests: seq<Upload>)
    ensures |requests| == |files|
    ensures forall i :: 0 <= i < |files| ==> requests[i] == UploadRequest(bucket, UploadFolder(originalKey, folderName), files[i])
    ensures forall i :: 0 <= i < |files| ==> requests[i].key == UploadKey(originalKey, folderName, files[i])
  {
    seq(|files|, i requires 0 <= i < |files| => UploadRequest(bucket, UploadFolder(originalKey, folderName), files[i]))
  }

  /**
   * How many requests the upload loop starts: every one when they all
   * succeed, otherwise those up to and including the first that fails.
   */
  function Attempted(requests: seq<Upload>, putOk: string -> bool): (p: nat)
    ensures p <= |requests|
    ensures requests != [] ==> p >= 1
  {
    if requests == [] then 0
    else if !putOk(requests[0].key) then 1
    else 1 + Attempted(requests[1..], putOk)
  }

  /**
   * A count `p` whose requests before the last one succeed, and which is
   * either every request or ends at a failing one, is the attempted count.
   */
  lemma {:induction false} AttemptedCount(requests: seq<Upload>, putOk: string -> bool, p: nat)
    requires p <= |requests|
    requires forall j :: 0 <= j < p - 1 ==> putOk(requests[j].key)
    requires p == |requests| || (p > 0 && !putOk(requests[p - 1].key))
    ensures Attempted(requests, putOk) == p
  {
    if requests != [] && putOk(requests[0].key) {
      assert p >= 1;
      var rest := requests[1..];
      assert forall j :: 0 <= j < p - 2 ==> rest[j] == requests[j + 1];
      assert p - 1 == |rest| || (p - 1 > 0 && !putOk(rest[p - 2].key));
      AttemptedCount(rest, putOk, p - 1);
    }
  }

  /**
   * The upload loop: one request per directory entry, in listing order,
   * awaited one at a time; the first request that fails ends the loop with
   * the failure, and the entries after it are never sent.
   */
  method UploadAll(bucket: string, files: seq<string>, originalKey: string, folderName: string, putOk: string -> bool)
    returns (sent: seq<Upload>, ok: bool)
    ensures |sent| <= |files|
    ensures sent == UploadRequests(bucket, originalKey, folderName, files)[..|sent|]
    ensures forall j :: 0 <= j < |sent| - 1 ==> putOk(sent[j].key)
    ensures ok <==> |sent| == |files| && forall j :: 0 <= j < |sent| ==> putOk(sent[j].key)
    ensures !ok ==> sent != [] && !putOk(sent[|sent| - 1].key)
    ensures |sent| == Attempted(UploadRequests(bucket, originalKey, folderName, files), putOk)
  {
    ghost var all := UploadRequests(bucket, originalKey, folderName, files);
    var folder := UploadFolder(originalKey, folderName);
    sent := [];
    var i := 0;
    while i < |files|
      invariant 0 <= i <= |files|
      invariant sent == all[..i]
      invariant forall j :: 0 <= j < i ==> putOk(all[j].key)
    {
      var request := UploadRequest(bucket, folder, files[i]);
      assert request == all[i];
      sent := sent + [request];
      if !putOk(request.key) {
        AttemptedCount(all, putOk, i + 1);
        return sent, false;
      }
      i := i + 1;
    }
    AttemptedCount(all, putOk, i);
    ok := true;
  }
}
