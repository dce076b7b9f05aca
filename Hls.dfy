/**
 * The transcode engine of container/utils/ffmpeg.ts: the fixed resolution ladder,
 * `convertToHLSFormat` and the HTTP Live Streaming master playlist it writes.
 *
 * The local file system is a class whose fields the conversion updates: a map from
 * path to file content and the set of directories. One ffmpeg encode per rung is
 * abstract: the caller supplies, per rung, whether it succeeded and which playlist
 * and segments it produced.
 */
module Hls {
  import opened Wrappers
  import opened Text

  // ----- the ladder and the master playlist -----

  datatype Rung = Rung(name: string, width: nat, height: nat, bandwidth: nat)

  /** The four rungs every conversion produces, in presentation order. */
  const Ladder: seq<Rung> := [
    Rung("720p", 1280, 720, 3000000),
    Rung("480p", 854, 480, 1600000),
    Rung("360p", 640, 360, 800000),
    Rung("144p", 256, 144, 400000)
  ]

  const MasterHeader: string := "#EXTM3U"
  const StreamInfTag: string := "#EXT-X-STREAM-INF:"

  /** The stream descriptor of one rung (section 4.3.4.2 of RFC 8216). */
  function StreamInf(r: Rung): string {
    StreamInfTag + "BANDWIDTH=" + NatToString(r.bandwidth)
      + ",RESOLUTION=" + NatToString(r.width) + "x" + NatToString(r.height)
  }

  /** The relative URI of a rung's own playlist. */
  function VariantUri(r: Rung): string {
    r.name + "/index.m3u8"
  }

  /** Descriptor and URI lines of the rungs, in ladder order. */
  function RungLines(ladder: seq<Rung>): seq<string>
    decreases |ladder|
  {
    if ladder == [] then []
    else
      var last := ladder[|ladder| - 1];
      RungLines(ladder[..|ladder| - 1]) + [StreamInf(last), VariantUri(last)]
  }

  function MasterLines(ladder: seq<Rung>): seq<string> {
    [MasterHeader] + RungLines(ladder)
  }

  /** The text of master.m3u8: every line terminated by '\n'. */
  function MasterText(ladder: seq<Rung>): string {
    Unlines(MasterLines(ladder))
  }

  lemma UnlinesPush(lines: seq<string>, a: string, b: string)
    ensures Unlines(lines + [a, b]) == Unlines(lines) + (a + "\n") + (b + "\n")
  {
    UnlinesAppend(lines, [a, b]);
    calc {
      Unlines([a, b]);
      a + "\n" + Unlines([a, b][1..]);
      { assert [a, b][1..] == [b]; }
      a + "\n" + Unlines([b]);
      { assert [b][1..] == []; }
      a + "\n" + (b + "\n" + "");
      (a + "\n") + (b + "\n");
    }
  }

  /** The `masterContent +=` loop over the ladder. */
  method BuildMasterPlaylist(ladder: seq<Rung>) returns (text: string)
    ensures text == MasterText(ladder)
  {
    text := MasterHeader + "\n";
    ghost var lines := [MasterHeader];
    assert text == Unlines(lines);
    var i := 0;
    while i < |ladder|
      invariant 0 <= i <= |ladder|
      invariant lines == [MasterHeader] + RungLines(ladder[..i])
      invariant text == Unlines(lines)
    {
      var r := ladder[i];
      var inf, uri := StreamInf(r), VariantUri(r);
      UnlinesPush(lines, inf, uri);
      text := text + (inf + "\n");
      text := text + (uri + "\n");
      assert ladder[..i + 1][..i] == ladder[..i];
      lines := lines + [inf, uri];
      i := i + 1;
    }
    assert ladder[..i] == ladder;
  }

  lemma {:induction false} RungLinesShape(ladder: seq<Rung>)
    ensures |RungLines(ladder)| == 2 * |ladder|
    ensures forall i :: 0 <= i < |ladder| ==>
      RungLines(ladder)[2 * i] == StreamInf(ladder[i]) && RungLines(ladder)[2 * i + 1] == VariantUri(ladder[i])
    decreases |ladder|
  {
    if ladder != [] {
      var n := |ladder| - 1;
      var init := ladder[..n];
      var prev := RungLines(init);
      var lines := RungLines(ladder);
      RungLinesShape(init);
      assert lines == prev + [StreamInf(ladder[n]), VariantUri(ladder[n])];
      forall i | 0 <= i < |ladder|
        ensures lines[2 * i] == StreamInf(ladder[i]) && lines[2 * i + 1] == VariantUri(ladder[i])
      {
        if i < n {
          assert init[i] == ladder[i];
          assert lines[2 * i] == prev[2 * i] && lines[2 * i + 1] == prev[2 * i + 1];
        }
      }
    }
  }

  /**
   * The master playlist has 1 + 2N lines: the header, then for every rung in ladder
   * order its descriptor followed by its URI.
   */
  lemma MasterLinesShape(ladder: seq<Rung>)
    ensures |MasterLines(ladder)| == 1 + 2 * |ladder|
    ensures MasterLines(ladder)[0] == MasterHeader
    ensures forall i :: 0 <= i < |ladder| ==>
      MasterLines(ladder)[1 + 2 * i] == StreamInf(ladder[i]) && MasterLines(ladder)[2 + 2 * i] == VariantUri(ladder[i])
  {
    RungLinesShape(ladder);
  }

  predicate NamesWithoutNewline(ladder: seq<Rung>) {
    forall i :: 0 <= i < |ladder| ==> NoNewline(ladder[i].name)
  }

  lemma StreamInfHasNoNewline(r: Rung)
    ensures NoNewline(StreamInf(r))
  {
    var b, w, h := NatToString(r.bandwidth), NatToString(r.width), NatToString(r.height);
    DigitsHaveNoNewline(b);
    DigitsHaveNoNewline(w);
    DigitsHaveNoNewline(h);
    var pre := StreamInfTag + "BANDWIDTH=";
    assert NoNewline(pre);
    NoNewlineConcat(pre, b);
    assert NoNewline(",RESOLUTION=");
    NoNewlineConcat(pre + b, ",RESOLUTION=");
    NoNewlineConcat(pre + b + ",RESOLUTION=", w);
    NoNewlineConcat(pre + b + ",RESOLUTION=" + w, "x");
    NoNewlineConcat(pre + b + ",RESOLUTION=" + w + "x", h);
  }

  /** Splitting the written text into lines gives back exactly the lines above. */
  lemma MasterTextLines(ladder: seq<Rung>)
    requires NamesWithoutNewline(ladder)
    ensures SplitLines(MasterText(ladder)) == MasterLines(ladder)
    ensures |SplitLines(MasterText(ladder))| == 1 + 2 * |ladder|
  {
    var lines := MasterLines(ladder);
    MasterLinesShape(ladder);
    forall k | 0 <= k < |lines| ensures NoNewline(lines[k]) {
      if k > 0 {
        var i := (k - 1) / 2;
        if k % 2 == 1 {
          assert k == 1 + 2 * i;
          StreamInfHasNoNewline(ladder[i]);
        } else {
          assert k == 2 + 2 * i;
          assert NoNewline(ladder[i].name);
        }
      }
    }
    SplitUnlines(lines);
  }

  /**
   * The structure RFC 8216 asks of a master playlist: `#EXTM3U` first (section
   * 4.3.1.1), and every EXT-X-STREAM-INF tag followed by the URI of its variant
   * (section 4.3.4.2), a line that is not a tag.
   */
  predicate WellFormedMaster(lines: seq<string>) {
    |lines| >= 1 && lines[0] == MasterHeader
    && forall i :: 0 <= i < |lines| && StreamInfTag <= lines[i] ==>
      i + 1 < |lines| && lines[i + 1] != [] && lines[i + 1][0] != '#'
  }

  predicate NamesAreUriLines(ladder: seq<Rung>) {
    forall i :: 0 <= i < |ladder| ==> ladder[i].name == [] || ladder[i].name[0] != '#'
  }

  lemma MasterIsWellFormed(ladder: seq<Rung>)
    requires NamesAreUriLines(ladder)
    ensures WellFormedMaster(MasterLines(ladder))
  {
    var lines := MasterLines(ladder);
    MasterLinesShape(ladder);
    forall i | 0 <= i < |lines|
      ensures StreamInfTag <= lines[i] ==> i + 1 < |lines| && lines[i + 1] != [] && lines[i + 1][0] != '#'
    {
      if i == 0 {
        assert |lines[0]| < |StreamInfTag|;
      } else {
        var k := (i - 1) / 2;
        var uri := VariantUri(ladder[k]);
        assert uri != [] && uri[0] != '#' by {
          if ladder[k].name == [] {
            assert uri[0] == '/';
          } else {
            assert uri[0] == ladder[k].name[0];
          }
        }
        if i % 2 == 0 {
          assert i == 2 + 2 * k;
          assert lines[i] == uri;
          assert lines[i][0] != StreamInfTag[0];
        } else {
          assert i == 1 + 2 * k;
          assert lines[i + 1] == uri;
        }
      }
    }
  }

  // Each numeral is rendered digit by digit, through the numerals of its prefixes.

  lemma BandwidthNumeralsHigh()
    ensures NatToString(3000000) == "3000000" && NatToString(1600000) == "1600000"
  {
    assert NatToString(30) == "30";
    assert NatToString(300) == "300";
    assert NatToString(3000) == "3000";
    assert NatToString(30000) == "30000";
    assert NatToString(300000) == "300000";
    assert NatToString(16) == "16";
    assert NatToString(160) == "160";
    assert NatToString(1600) == "1600";
    assert NatToString(16000) == "16000";
    assert NatToString(160000) == "160000";
  }

  lemma BandwidthNumeralsLow()
    ensures NatToString(800000) == "800000" && NatToString(400000) == "400000"
  {
    assert NatToString(80) == "80";
    assert NatToString(800) == "800";
    assert NatToString(8000) == "8000";
    assert NatToString(80000) == "80000";
    assert NatToString(40) == "40";
    assert NatToString(400) == "400";
    assert NatToString(4000) == "4000";
    assert NatToString(40000) == "40000";
  }

  lemma WidthNumerals()
    ensures NatToString(1280) == "1280" && NatToString(854) == "854"
    ensures NatToString(640) == "640" && NatToString(256) == "256"
  {
    assert NatToString(12) == "12";
    assert NatToString(128) == "128";
    assert NatToString(85) == "85";
    assert NatToString(64) == "64";
    assert NatToString(25) == "25";
  }

  lemma HeightNumerals()
    ensures NatToString(720) == "720" && NatToString(480) == "480"
    ensures NatToString(360) == "360" && NatToString(144) == "144"
  {
    assert NatToString(72) == "72";
    assert NatToString(48) == "48";
    assert NatToString(36) == "36";
    assert NatToString(14) == "14";
  }

  lemma Descriptor720p()
    ensures StreamInf(Ladder[0]) == "#EXT-X-STREAM-INF:BANDWIDTH=3000000,RESOLUTION=1280x720"
  {
    BandwidthNumeralsHigh();
    WidthNumerals();
    HeightNumerals();
    assert StreamInfTag + "BANDWIDTH=" == "#EXT-X-STREAM-INF:BANDWIDTH=";
    assert "#EXT-X-STREAM-INF:BANDWIDTH=" + "3000000" == "#EXT-X-STREAM-INF:BANDWIDTH=3000000";
    assert "#EXT-X-STREAM-INF:BANDWIDTH=3000000" + ",RESOLUTION=" == "#EXT-X-STREAM-INF:BANDWIDTH=3000000,RESOLUTION=";
    assert "#EXT-X-STREAM-INF:BANDWIDTH=3000000,RESOLUTION=" + "1280" == "#EXT-X-STREAM-INF:BANDWIDTH=3000000,RESOLUTION=1280";
    assert "#EXT-X-STREAM-INF:BANDWIDTH=3000000,RESOLUTION=1280" + "x" == "#EXT-X-STREAM-INF:BANDWIDTH=3000000,RESOLUTION=1280x";
    assert "#EXT-X-STREAM-INF:BANDWIDTH=3000000,RESOLUTION=1280x" + "720" == "#EXT-X-STREAM-INF:BANDWIDTH=3000000,RESOLUTION=1280x720";
  }

  lemma Descriptor480p()
    ensures StreamInf(Ladder[1]) == "#EXT-X-STREAM-INF:BANDWIDTH=1600000,RESOLUTION=854x480"
  {
    BandwidthNumeralsHigh();
    WidthNumerals();
    HeightNumerals();
    assert StreamInfTag + "BANDWIDTH=" == "#EXT-X-STREAM-INF:BANDWIDTH=";
    assert "#EXT-X-STREAM-INF:BANDWIDTH=" + "1600000" == "#EXT-X-STREAM-INF:BANDWIDTH=1600000";
    assert "#EXT-X-STREAM-INF:BANDWIDTH=1600000" + ",RESOLUTION=" == "#EXT-X-STREAM-INF:BANDWIDTH=1600000,RESOLUTION=";
    assert "#EXT-X-STREAM-INF:BANDWIDTH=1600000,RESOLUTION=" + "854" == "#EXT-X-STREAM-INF:BANDWIDTH=1600000,RESOLUTION=854";
    assert "#EXT-X-STREAM-INF:BANDWIDTH=1600000,RESOLUTION=854" + "x" == "#EXT-X-STREAM-INF:BANDWIDTH=1600000,RESOLUTION=854x";
    assert "#EXT-X-STREAM-INF:BANDWIDTH=1600000,RESOLUTION=854x" + "480" == "#EXT-X-STREAM-INF:BANDWIDTH=1600000,RESOLUTION=854x480";
  }

  lemma Descriptor360p()
    ensures StreamInf(Ladder[2]) == "#EXT-X-STREAM-INF:BANDWIDTH=800000,RESOLUTION=640x360"
  {
    BandwidthNumeralsLow();
    WidthNumerals();
    HeightNumerals();
    assert StreamInfTag + "BANDWIDTH=" == "#EXT-X-STREAM-INF:BANDWIDTH=";
    assert "#EXT-X-STREAM-INF:BANDWIDTH=" + "800000" == "#EXT-X-STREAM-INF:BANDWIDTH=800000";
    assert "#EXT-X-STREAM-INF:BANDWIDTH=800000" + ",RESOLUTION=" == "#EXT-X-STREAM-INF:BANDWIDTH=800000,RESOLUTION=";
    assert "#EXT-X-STREAM-INF:BANDWIDTH=800000,RESOLUTION=" + "640" == "#EXT-X-STREAM-INF:BANDWIDTH=800000,RESOLUTION=640";
    assert "#EXT-X-STREAM-INF:BANDWIDTH=800000,RESOLUTION=640" + "x" == "#EXT-X-STREAM-INF:BANDWIDTH=800000,RESOLUTION=640x";
    assert "#EXT-X-STREAM-INF:BANDWIDTH=800000,RESOLUTION=640x" + "360" == "#EXT-X-STREAM-INF:BANDWIDTH=800000,RESOLUTION=640x360";
  }

  lemma Descriptor144p()
    ensures StreamInf(Ladder[3]) == "#EXT-X-STREAM-INF:BANDWIDTH=400000,RESOLUTION=256x144"
  {
    BandwidthNumeralsLow();
    WidthNumerals();
    HeightNumerals();
    assert StreamInfTag + "BANDWIDTH=" == "#EXT-X-STREAM-INF:BANDWIDTH=";
    assert "#EXT-X-STREAM-INF:BANDWIDTH=" + "400000" == "#EXT-X-STREAM-INF:BANDWIDTH=400000";
    assert "#EXT-X-STREAM-INF:BANDWIDTH=400000" + ",RESOLUTION=" == "#EXT-X-STREAM-INF:BANDWIDTH=400000,RESOLUTION=";
    assert "#EXT-X-STREAM-INF:BANDWIDTH=400000,RESOLUTION=" + "256" == "#EXT-X-STREAM-INF:BANDWIDTH=400000,RESOLUTION=256";
    assert "#EXT-X-STREAM-INF:BANDWIDTH=400000,RESOLUTION=256" + "x" == "#EXT-X-STREAM-INF:BANDWIDTH=400000,RESOLUTION=256x";
    assert "#EXT-X-STREAM-INF:BANDWIDTH=400000,RESOLUTION=256x" + "144" == "#EXT-X-STREAM-INF:BANDWIDTH=400000,RESOLUTION=256x144";
  }

  /** The master playlist of the fixed ladder: the header, then the four rungs from 720p down to 144p. */
  lemma LadderLines()
    ensures MasterLines(Ladder) == [MasterHeader,
      StreamInf(Ladder[0]), VariantUri(Ladder[0]), StreamInf(Ladder[1]), VariantUri(Ladder[1]),
      StreamInf(Ladder[2]), VariantUri(Ladder[2]), StreamInf(Ladder[3]), VariantUri(Ladder[3])]
  {
    FourRungLines(Ladder);
  }

  lemma FourRungLines(ladder: seq<Rung>)
    requires |ladder| == 4
    ensures MasterLines(ladder) == [MasterHeader,
      StreamInf(ladder[0]), VariantUri(ladder[0]), StreamInf(ladder[1]), VariantUri(ladder[1]),
      StreamInf(ladder[2]), VariantUri(ladder[2]), StreamInf(ladder[3]), VariantUri(ladder[3])]
  {
    var lines := MasterLines(ladder);
    MasterLinesShape(ladder);
    assert lines[1] == StreamInf(ladder[0]) && lines[2] == VariantUri(ladder[0]);
    assert lines[3] == StreamInf(ladder[1]) && lines[4] == VariantUri(ladder[1]);
    assert lines[5] == StreamInf(ladder[2]) && lines[6] == VariantUri(ladder[2]);
    assert lines[7] == StreamInf(ladder[3]) && lines[8] == VariantUri(ladder[3]);
  }

  /** The ladder's folder names neither start with `#` nor hold a newline. */
  lemma LadderNames()
    ensures NamesAreUriLines(Ladder) && NamesWithoutNewline(Ladder)
  {
    assert Ladder[0].name == "720p" && Ladder[1].name == "480p";
    assert Ladder[2].name == "360p" && Ladder[3].name == "144p";
  }

  /** The fixed ladder's master.m3u8 is well formed and splits back into its lines. */
  lemma LadderMasterLines()
    ensures WellFormedMaster(MasterLines(Ladder))
    ensures SplitLines(MasterText(Ladder)) == MasterLines(Ladder)
  {
    LadderNames();
    MasterIsWellFormed(Ladder);
    MasterTextLines(Ladder);
  }

  /** The lines of the fixed ladder's master.m3u8, which `MasterText` ends each by '\n'. */
  lemma LadderMasterText()
    ensures MasterLines(Ladder) == ["#EXTM3U",
      "#EXT-X-STREAM-INF:BANDWIDTH=3000000,RESOLUTION=1280x720", "720p/index.m3u8",
      "#EXT-X-STREAM-INF:BANDWIDTH=1600000,RESOLUTION=854x480", "480p/index.m3u8",
      "#EXT-X-STREAM-INF:BANDWIDTH=800000,RESOLUTION=640x360", "360p/index.m3u8",
      "#EXT-X-STREAM-INF:BANDWIDTH=400000,RESOLUTION=256x144", "144p/index.m3u8"]
  {
    Descriptor720p();
    Descriptor480p();
    Descriptor360p();
    Descriptor144p();
    VariantUris();
    FourRungLines(Ladder);
  }

  lemma VariantUris()
    ensures VariantUri(Ladder[0]) == "720p/index.m3u8" && VariantUri(Ladder[1]) == "480p/index.m3u8"
    ensures VariantUri(Ladder[2]) == "360p/index.m3u8" && VariantUri(Ladder[3]) == "144p/index.m3u8"
  {
  }

  // ----- the input checks -----

  /** The end of p[..n] once trailing '/' separators are dropped. */
  function TrimmedEnd(p: string, n: nat): (e: nat)
    requires n <= |p|
    ensures e <= n
    ensures e > 0 ==> p[e - 1] != '/'
    ensures forall j :: e <= j < n ==> p[j] == '/'
    decreases n
  {
    if n > 0 && p[n - 1] == '/' then TrimmedEnd(p, n - 1) else n
  }

  /** The index just past the last '/' of p[..n], or 0 when it has none. */
  function ComponentStart(p: string, n: nat): (i: nat)
    requires n <= |p|
    ensures i <= n
    ensures i > 0 ==> p[i - 1] == '/'
    ensures forall j :: i <= j < n ==> p[j] != '/'
    decreases n
  {
    if n == 0 then 0 else if p[n - 1] == '/' then n else ComponentStart(p, n - 1)
  }

  /** The index of the last '.' of p[lo..n], if any. */
  function LastDot(p: string, lo: nat, n: nat): (r: Option<nat>)
    requires lo <= n <= |p|
    ensures r.Some? ==> lo <= r.value < n && p[r.value] == '.'
    ensures r.Some? ==> forall j :: r.value < j < n ==> p[j] != '.'
    ensures r.None? ==> forall j :: lo <= j < n ==> p[j] != '.'
    decreases n
  {
    if n == lo then None
    else if p[n - 1] == '.' then Some(n - 1)
    else LastDot(p, lo, n - 1)
  }

  /** The last path component, ignoring trailing separators. */
  function BaseName(p: string): string {
    var e := TrimmedEnd(p, |p|);
    p[ComponentStart(p, e)..e]
  }

  /**
   * `path.extname` of Node's POSIX path module: from the last '.' of the last
   * component to its end; empty when the component has no '.', starts with its
   * only '.', or is "..".
   */
  function ExtName(p: string): string {
    var e := TrimmedEnd(p, |p|);
    var b := ComponentStart(p, e);
    match LastDot(p, b, e)
    case None => ""
    case Some(d) => if d == b || p[b..e] == ".." then "" else p[d..e]
  }

  /** The container check of convertToHLSFormat. */
  predicate IsMp4(p: string) {
    ToLowerAscii(ExtName(p)) == ".mp4"
  }

  /**
   * An independent reading of the extension check: the last component is longer
   * than ".mp4" and ends in ".mp4" in any letter case.
   */
  lemma IsMp4Characterization(p: string)
    ensures IsMp4(p) <==> (var base := BaseName(p);
      |base| > 4 && ToLowerAscii(base[|base| - 4..]) == ".mp4")
  {
    if IsMp4(p) {
      Mp4ExtensionIsTail(p);
    }
    var base := BaseName(p);
    if |base| > 4 && ToLowerAscii(base[|base| - 4..]) == ".mp4" {
      Mp4TailIsExtension(p);
    }
  }

  lemma Mp4ExtensionIsTail(p: string)
    requires IsMp4(p)
    ensures var base := BaseName(p);
      |base| > 4 && ToLowerAscii(base[|base| - 4..]) == ".mp4"
  {
    var e := TrimmedEnd(p, |p|);
    var b := ComponentStart(p, e);
    var base := BaseName(p);
    assert base == p[b..e];
    var x := ExtName(p);
    assert |x| == 4;
    var d := LastDot(p, b, e).value;
    assert d != b && x == p[d..e];
    assert d == e - 4;
    assert base[|base| - 4..] == x;
  }

  lemma Mp4TailIsExtension(p: string)
    requires var base := BaseName(p);
      |base| > 4 && ToLowerAscii(base[|base| - 4..]) == ".mp4"
    ensures IsMp4(p)
  {
    var e := TrimmedEnd(p, |p|);
    var b := ComponentStart(p, e);
    var base := BaseName(p);
    assert base == p[b..e];
    var tail := base[|base| - 4..];
    assert tail == p[e - 4..e];
    var lower := ToLowerAscii(tail);
    assert lower[0] == '.' && lower[1] == 'm' && lower[2] == 'p' && lower[3] == '4';
    assert p[e - 4] == '.';
    assert p[e - 3] != '.' && p[e - 2] != '.' && p[e - 1] != '.';
    assert LastDot(p, b, e - 3) == Some(e - 4);
    assert LastDot(p, b, e - 2) == Some(e - 4);
    assert LastDot(p, b, e - 1) == Some(e - 4);
    assert LastDot(p, b, e) == Some(e - 4);
    assert |p[b..e]| > 4;
    assert ExtName(p) == tail;
  }

  lemma UpperCaseExtensionAccepted()
    ensures IsMp4("A.MP4")
  {
    var p := "A.MP4";
    assert BaseName(p) == p;
    var tail := p[|p| - 4..];
    assert tail == ".MP4";
    var lower := ToLowerAscii(tail);
    assert lower[0] == '.' && lower[1] == 'm' && lower[2] == 'p' && lower[3] == '4';
    assert lower == ".mp4";
    IsMp4Characterization(p);
  }

  lemma OtherContainerRejected()
    ensures !IsMp4("a.mov")
  {
    var p := "a.mov";
    assert BaseName(p) == p;
    var lower := ToLowerAscii(p[|p| - 4..]);
    assert lower[2] == 'o';
    IsMp4Characterization(p);
  }

  /** A name that is only ".mp4" has no extension at all. */
  lemma DotFileRejected()
    ensures !IsMp4(".mp4")
  {
    assert BaseName(".mp4") == ".mp4";
    IsMp4Characterization(".mp4");
  }

  /** Only the last component counts: a dot in a directory name is no extension. */
  lemma DirectoryExtensionIgnored()
    ensures !IsMp4("in.mp4/a")
  {
    assert ComponentStart("in.mp4/a", 8) == 7;
    assert "in.mp4/a"[7..8] == "a";
    IsMp4Characterization("in.mp4/a");
  }

  /** Trailing separators are ignored. */
  lemma TrailingSlashIgnored()
    ensures IsMp4("in/a.mp4/")
  {
    assert TrimmedEnd("in/a.mp4/", 9) == 8;
    assert ComponentStart("in/a.mp4/", 8) == 3;
    assert "in/a.mp4/"[3..8] == "a.mp4";
    IsMp4Characterization("in/a.mp4/");
  }

  // ----- file layout -----

  /** `path.join(dir, name)` for a directory without trailing '/' and a plain name. */
  function Join(dir: string, name: string): string {
    dir + "/" + name
  }

  const PlaylistName: string := "index.m3u8"
  const MasterName: string := "master.m3u8"

  /** ffmpeg's `segment_%03d.ts`. */
  function SegmentName(i: nat): string {
    "segment_" + ZeroPad(NatToString(i), 3) + ".ts"
  }

  /** Reads the index back out of a segment file name. */
  function SegmentIndex(name: string): Option<nat> {
    if |name| >= 11 && name[..8] == "segment_" && name[|name| - 3..] == ".ts"
    then ParseNat(name[8..|name| - 3])
    else None
  }

  lemma SegmentNameRoundTrip(i: nat)
    ensures SegmentIndex(SegmentName(i)) == Some(i)
    ensures |SegmentName(i)| >= 14
  {
    var digits := ZeroPad(NatToString(i), 3);
    var name := SegmentName(i);
    assert name[..8] == "segment_";
    assert name[|name| - 3..] == ".ts";
    assert name[8..|name| - 3] == digits;
    PaddedRoundTrip(i, 3);
  }

  lemma SegmentNamesDistinct(i: nat, j: nat)
    ensures SegmentName(i) == SegmentName(j) ==> i == j
  {
    SegmentNameRoundTrip(i);
    SegmentNameRoundTrip(j);
  }

  lemma JoinInjective(dir: string, a: string, b: string)
    ensures Join(dir, a) == Join(dir, b) ==> a == b
  {
    if Join(dir, a) == Join(dir, b) {
      assert a == Join(dir, a)[|dir| + 1..];
    }
  }

  datatype Disk = Disk(files: map<string, string>, dirs: set<string>)

  /** `fs.existsSync`: a file or a directory. */
  predicate Exists(d: Disk, p: string) {
    p in d.files || p in d.dirs
  }

  /** What one rung's encode produced: its playlist and its segments, or a failure. */
  datatype RungOutcome = Encoded(playlist: string, segments: seq<string>) | Failed

  function RungFolder(outDir: string, r: Rung): string {
    Join(outDir, r.name)
  }

  function RungPlaylistPath(outDir: string, r: Rung): string {
    Join(RungFolder(outDir, r), PlaylistName)
  }

  function MasterPath(outDir: string): string {
    Join(outDir, MasterName)
  }

  function SegmentFiles(folder: string, segments: seq<string>): map<string, string>
    decreases |segments|
  {
    if segments == [] then map[]
    else
      var n := |segments| - 1;
      SegmentFiles(folder, segments[..n])[Join(folder, SegmentName(n)) := segments[n]]
  }

  /** The files one rung's encode leaves in its folder. */
  function RungFiles(outDir: string, r: Rung, o: RungOutcome): map<string, string> {
    match o
    case Encoded(playlist, segments) =>
      SegmentFiles(RungFolder(outDir, r), segments)[RungPlaylistPath(outDir, r) := playlist]
    case Failed => map[]
  }

  /** The files the encodes of a whole ladder leave behind. */
  function LadderFiles(outDir: string, ladder: seq<Rung>, encode: Rung -> RungOutcome): map<string, string>
    decreases |ladder|
  {
    if ladder == [] then map[]
    else
      var last := ladder[|ladder| - 1];
      LadderFiles(outDir, ladder[..|ladder| - 1], encode) + RungFiles(outDir, last, encode(last))
  }

  function LadderDirs(outDir: string, ladder: seq<Rung>): set<string> {
    set i | 0 <= i < |ladder| :: RungFolder(outDir, ladder[i])
  }

  predicate AllEncoded(ladder: seq<Rung>, encode: Rung -> RungOutcome) {
    forall i :: 0 <= i < |ladder| ==> encode(ladder[i]).Encoded?
  }

  datatype ConvertError = InputMissing(path: string) | NotMp4(ext: string) | RungFailed

  /**
   * The effect of `convertToHLSFormat(input, outDir)` on the disk, and its outcome.
   * Every rung folder is created when its encode starts. The disk given is the one
   * once every encode has ended: Promise.all does not cancel the others, so the
   * files of the rungs that succeeded appear even when the call fails. The call
   * itself rejects at the first failed encode, when other rungs may still be
   * writing. master.m3u8 is written only when all rungs succeeded.
   */
  function ConvertSpec(ladder: seq<Rung>, d: Disk, input: string, outDir: string,
                       encode: Rung -> RungOutcome): (Disk, Result<(), ConvertError>)
  {
    if !Exists(d, input) then (d, Err(InputMissing(input)))
    else if !IsMp4(input) then (d, Err(NotMp4(ToLowerAscii(ExtName(input)))))
    else
      var dirs := d.dirs + {outDir} + LadderDirs(outDir, ladder);
      var files := d.files + LadderFiles(outDir, ladder, encode);
      if AllEncoded(ladder, encode)
      then (Disk(files[MasterPath(outDir) := MasterText(ladder)], dirs), Ok(()))
      else (Disk(files, dirs), Err(RungFailed))
  }

  class LocalDisk {
    var files: map<string, string>
    var dirs: set<string>

    function State(): Disk
      reads this
    {
      Disk(files, dirs)
    }

    constructor (files: map<string, string>, dirs: set<string>)
      ensures State() == Disk(files, dirs)
    {
      this.files := files;
      this.dirs := dirs;
    }

    /** `mkdir(p, { recursive: true })` (the parents are not tracked). */
    method MakeDir(p: string)
      modifies this
      ensures State() == Disk(old(files), old(dirs) + {p})
    {
      if p !in dirs {
        dirs := dirs + {p};
      }
    }

    method WriteFile(p: string, content: string)
      modifies this
      ensures State() == Disk(old(files)[p := content], old(dirs))
    {
      files := files[p := content];
    }

    /**
     * `convertToHLSFormat(input, outDir)`; the source always encodes `Ladder`. The
     * rung encodes run concurrently; here they are started (folders created) and then
     * awaited in ladder order, which gives the same final disk.
     */
    method Convert(ladder: seq<Rung>, input: string, outDir: string, encode: Rung -> RungOutcome)
      returns (r: Result<(), ConvertError>)
      modifies this
      ensures (State(), r) == ConvertSpec(ladder, old(State()), input, outDir, encode)
    {
      if !(input in files || input in dirs) {
        return Err(InputMissing(input));
      }
      var ext := ToLowerAscii(ExtName(input));
      if ext != ".mp4" {
        return Err(NotMp4(ext));
      }
      MakeDir(outDir);
      // start one encode per rung; each creates its folder before it runs
      var i := 0;
      while i < |ladder|
        invariant 0 <= i <= |ladder|
        invariant files == old(files)
        invariant dirs == old(dirs) + {outDir} + LadderDirs(outDir, ladder[..i])
      {
        LadderDirsStep(outDir, ladder, i);
        MakeDir(RungFolder(outDir, ladder[i]));
        i := i + 1;
      }
      assert ladder[..i] == ladder;
      // wait for all of them
      var allEncoded := true;
      i := 0;
      while i < |ladder|
        invariant 0 <= i <= |ladder|
        invariant dirs == old(dirs) + {outDir} + LadderDirs(outDir, ladder)
        invariant files == old(files) + LadderFiles(outDir, ladder[..i], encode)
        invariant allEncoded == AllEncoded(ladder[..i], encode)
      {
        var rung := ladder[i];
        var outcome := encode(rung);
        LadderFilesStep(outDir, ladder, i, encode);
        UnionAssociative(old(files), LadderFiles(outDir, ladder[..i], encode), RungFiles(outDir, rung, outcome));
        files := files + RungFiles(outDir, rung, outcome);
        if outcome.Failed? {
          allEncoded := false;
        }
        i := i + 1;
      }
      assert ladder[..i] == ladder;
      if !allEncoded {
        return Err(RungFailed);
      }
      var master := BuildMasterPlaylist(ladder);
      WriteFile(MasterPath(outDir), master);
      r := Ok(());
    }
  }

  lemma UnionAssociative(a: map<string, string>, b: map<string, string>, c: map<string, string>)
    ensures (a + b) + c == a + (b + c)
  {
  }

  lemma LadderDirsStep(outDir: string, ladder: seq<Rung>, i: nat)
    requires i < |ladder|
    ensures LadderDirs(outDir, ladder[..i + 1]) == LadderDirs(outDir, ladder[..i]) + {RungFolder(outDir, ladder[i])}
  {
    var a, b := ladder[..i + 1], ladder[..i];
    assert forall k :: 0 <= k < i ==> a[k] == b[k];
    assert a[i] == ladder[i];
  }

  lemma LadderFilesStep(outDir: string, ladder: seq<Rung>, i: nat, encode: Rung -> RungOutcome)
    requires i < |ladder|
    ensures LadderFiles(outDir, ladder[..i + 1], encode) == LadderFiles(outDir, ladder[..i], encode) + RungFiles(outDir, ladder[i], encode(ladder[i]))
    ensures AllEncoded(ladder[..i + 1], encode) <==> AllEncoded(ladder[..i], encode) && encode(ladder[i]).Encoded?
  {
    assert ladder[..i + 1][..i] == ladder[..i];
    assert ladder[..i + 1][i] == ladder[i];
  }

  // ----- properties of the conversion -----

  /** A missing input or a container other than MP4 fails before the disk is touched. */
  lemma ConvertChecksInput(ladder: seq<Rung>, d: Disk, input: string, outDir: string, encode: Rung -> RungOutcome)
    ensures !Exists(d, input) ==> ConvertSpec(ladder, d, input, outDir, encode) == (d, Err(InputMissing(input)))
    ensures Exists(d, input) && !IsMp4(input) ==>
      ConvertSpec(ladder, d, input, outDir, encode).0 == d && ConvertSpec(ladder, d, input, outDir, encode).1.Err?
  {
  }

  /** The paths of the first n segments of a folder. */
  function SegmentPaths(folder: string, n: nat): set<string> {
    set j | 0 <= j < n :: Join(folder, SegmentName(j))
  }

  lemma SegmentPathFresh(folder: string, n: nat)
    ensures Join(folder, SegmentName(n)) !in SegmentPaths(folder, n)
  {
    forall j | 0 <= j < n
      ensures Join(folder, SegmentName(j)) != Join(folder, SegmentName(n))
    {
      JoinInjective(folder, SegmentName(j), SegmentName(n));
      SegmentNamesDistinct(j, n);
    }
  }

  lemma SegmentPathsStep(folder: string, n: nat)
    ensures SegmentPaths(folder, n + 1) == SegmentPaths(folder, n) + {Join(folder, SegmentName(n))}
  {
    var last := Join(folder, SegmentName(n));
    forall p | p in SegmentPaths(folder, n + 1) ensures p in SegmentPaths(folder, n) + {last} {
      var j :| 0 <= j < n + 1 && p == Join(folder, SegmentName(j));
      if j < n {
        assert p in SegmentPaths(folder, n);
      }
    }
    forall p | p in SegmentPaths(folder, n) ensures p in SegmentPaths(folder, n + 1) {
      var j :| 0 <= j < n && p == Join(folder, SegmentName(j));
    }
    assert last in SegmentPaths(folder, n + 1);
  }

  lemma {:induction false} SegmentFilesKeys(folder: string, segments: seq<string>)
    ensures SegmentFiles(folder, segments).Keys == SegmentPaths(folder, |segments|)
    decreases |segments|
  {
    if segments != [] {
      var n := |segments| - 1;
      SegmentFilesKeys(folder, segments[..n]);
      assert |segments[..n]| == n;
      SegmentPathsStep(folder, n);
    }
  }

  lemma SegmentFilesContent(folder: string, segments: seq<string>)
    ensures forall j :: 0 <= j < |segments| ==>
      Join(folder, SegmentName(j)) in SegmentFiles(folder, segments)
      && SegmentFiles(folder, segments)[Join(folder, SegmentName(j))] == segments[j]
  {
    forall j | 0 <= j < |segments|
      ensures Join(folder, SegmentName(j)) in SegmentFiles(folder, segments)
      ensures SegmentFiles(folder, segments)[Join(folder, SegmentName(j))] == segments[j]
    {
      SegmentFileAt(folder, segments, j);
    }
  }

  /** Segment j is stored under its own name, whatever comes after it. */
  lemma {:induction false} SegmentFileAt(folder: string, segments: seq<string>, j: nat)
    requires j < |segments|
    ensures Join(folder, SegmentName(j)) in SegmentFiles(folder, segments)
    ensures SegmentFiles(folder, segments)[Join(folder, SegmentName(j))] == segments[j]
    decreases |segments|
  {
    var n := |segments| - 1;
    var prev := SegmentFiles(folder, segments[..n]);
    var last := Join(folder, SegmentName(n));
    assert SegmentFiles(folder, segments) == prev[last := segments[n]];
    if j < n {
      var key := Join(folder, SegmentName(j));
      SegmentFileAt(folder, segments[..n], j);
      assert segments[..n][j] == segments[j];
      SegmentPathsDiffer(folder, j, n);
      UpdateKeepsOther(prev, last, segments[n], key);
    }
  }

  lemma UpdateKeepsOther(m: map<string, string>, k: string, v: string, other: string)
    requires other in m && other != k
    ensures other in m[k := v] && m[k := v][other] == m[other]
  {
  }

  lemma SegmentPathsDiffer(folder: string, i: nat, j: nat)
    requires i != j
    ensures Join(folder, SegmentName(i)) != Join(folder, SegmentName(j))
  {
    JoinInjective(folder, SegmentName(i), SegmentName(j));
    SegmentNamesDistinct(i, j);
  }

  lemma PlaylistIsNoSegment(folder: string, j: nat)
    ensures Join(folder, PlaylistName) != Join(folder, SegmentName(j))
  {
    var a, b := Join(folder, PlaylistName), Join(folder, SegmentName(j));
    assert a[|a| - 1] == '8';
    assert b[|b| - 1] == 's';
  }

  /**
   * A successful rung leaves `<outDir>/<name>/index.m3u8` with its playlist and
   * `<outDir>/<name>/segment_NNN.ts` with its segments, and no other file.
   */
  lemma RungFilesLayout(outDir: string, r: Rung, playlist: string, segments: seq<string>)
    ensures var fs := RungFiles(outDir, r, Encoded(playlist, segments));
      && fs.Keys == {RungPlaylistPath(outDir, r)} + SegmentPaths(RungFolder(outDir, r), |segments|)
      && fs[RungPlaylistPath(outDir, r)] == playlist
      && forall j :: 0 <= j < |segments| ==> fs[Join(RungFolder(outDir, r), SegmentName(j))] == segments[j]
  {
    RungFilesKeys(outDir, r, playlist, segments);
    forall j | 0 <= j < |segments|
      ensures RungFiles(outDir, r, Encoded(playlist, segments))[Join(RungFolder(outDir, r), SegmentName(j))] == segments[j]
    {
      RungSegmentFile(outDir, r, playlist, segments, j);
    }
  }

  lemma RungFilesKeys(outDir: string, r: Rung, playlist: string, segments: seq<string>)
    ensures RungFiles(outDir, r, Encoded(playlist, segments)).Keys
         == {RungPlaylistPath(outDir, r)} + SegmentPaths(RungFolder(outDir, r), |segments|)
  {
    SegmentFilesKeys(RungFolder(outDir, r), segments);
  }

  lemma RungSegmentFile(outDir: string, r: Rung, playlist: string, segments: seq<string>, j: nat)
    requires j < |segments|
    ensures Join(RungFolder(outDir, r), SegmentName(j)) in RungFiles(outDir, r, Encoded(playlist, segments))
    ensures RungFiles(outDir, r, Encoded(playlist, segments))[Join(RungFolder(outDir, r), SegmentName(j))] == segments[j]
  {
    var folder := RungFolder(outDir, r);
    SegmentFileAt(folder, segments, j);
    PlaylistIsNoSegment(folder, j);
  }

  lemma MasterIsNoRungFile(outDir: string, r: Rung, j: nat)
    ensures MasterPath(outDir) != RungPlaylistPath(outDir, r)
    ensures MasterPath(outDir) != Join(RungFolder(outDir, r), SegmentName(j))
  {
    var m, p, s := MasterPath(outDir), RungPlaylistPath(outDir, r), Join(RungFolder(outDir, r), SegmentName(j));
    assert m[|m| - 10] == 'a';
    assert p[|p| - 10] == 'i';
    assert m[|m| - 1] == '8';
    assert s[|s| - 1] == 's';
  }

  lemma {:induction false} LadderFilesAvoidMaster(outDir: string, ladder: seq<Rung>, encode: Rung -> RungOutcome)
    ensures MasterPath(outDir) !in LadderFiles(outDir, ladder, encode)
    decreases |ladder|
  {
    if ladder != [] {
      var last := ladder[|ladder| - 1];
      LadderFilesAvoidMaster(outDir, ladder[..|ladder| - 1], encode);
      match encode(last)
      case Failed =>
      case Encoded(playlist, segments) =>
        RungFilesLayout(outDir, last, playlist, segments);
        forall j | 0 <= j < |segments| ensures MasterPath(outDir) != Join(RungFolder(outDir, last), SegmentName(j)) {
          MasterIsNoRungFile(outDir, last, j);
        }
        MasterIsNoRungFile(outDir, last, 0);
    }
  }

  /**
   * All or nothing: the call succeeds exactly when the input exists, is an MP4 and
   * every rung encoded; when it fails, master.m3u8 is what it was before (absent if
   * it was absent).
   */
  lemma ConvertAllOrNothing(ladder: seq<Rung>, d: Disk, input: string, outDir: string, encode: Rung -> RungOutcome)
    ensures var (d', r) := ConvertSpec(ladder, d, input, outDir, encode);
      && (r.Ok? <==> Exists(d, input) && IsMp4(input) && AllEncoded(ladder, encode))
      && (r.Err? ==> (MasterPath(outDir) in d'.files <==> MasterPath(outDir) in d.files))
      && (r.Err? && MasterPath(outDir) in d.files ==> d'.files[MasterPath(outDir)] == d.files[MasterPath(outDir)])
  {
    LadderFilesAvoidMaster(outDir, ladder, encode);
  }

  /**
   * On success the master playlist is MasterText of the ladder: it depends on nothing
   * else, neither the input nor what the encoders produced, nor what was on disk.
   */
  lemma ConvertWritesMaster(ladder: seq<Rung>, d: Disk, input: string, outDir: string, encode: Rung -> RungOutcome)
    ensures var (d', r) := ConvertSpec(ladder, d, input, outDir, encode);
      r.Ok? ==> MasterPath(outDir) in d'.files && d'.files[MasterPath(outDir)] == MasterText(ladder)
  {
  }

  lemma ConvertMasterDeterministic(ladder: seq<Rung>, d1: Disk, input1: string, encode1: Rung -> RungOutcome,
                                   d2: Disk, input2: string, encode2: Rung -> RungOutcome, outDir: string)
    requires ConvertSpec(ladder, d1, input1, outDir, encode1).1.Ok?
    requires ConvertSpec(ladder, d2, input2, outDir, encode2).1.Ok?
    ensures ConvertSpec(ladder, d1, input1, outDir, encode1).0.files[MasterPath(outDir)]
         == ConvertSpec(ladder, d2, input2, outDir, encode2).0.files[MasterPath(outDir)]
  {
    ConvertWritesMaster(ladder, d1, input1, outDir, encode1);
    ConvertWritesMaster(ladder, d2, input2, outDir, encode2);
  }

  /** Every rung that encoded has its playlist and its segments on disk afterwards. */
  lemma {:induction false} LadderFilesHoldRung(outDir: string, ladder: seq<Rung>, encode: Rung -> RungOutcome, i: nat)
    requires i < |ladder| && encode(ladder[i]).Encoded?
    ensures RungPlaylistPath(outDir, ladder[i]) in LadderFiles(outDir, ladder, encode)
    ensures forall j :: 0 <= j < |encode(ladder[i]).segments| ==>
      Join(RungFolder(outDir, ladder[i]), SegmentName(j)) in LadderFiles(outDir, ladder, encode)
    decreases |ladder|
  {
    var n := |ladder| - 1;
    var o := encode(ladder[i]);
    if i == n {
      RungFilesLayout(outDir, ladder[i], o.playlist, o.segments);
    } else {
      assert ladder[..n][i] == ladder[i];
      LadderFilesHoldRung(outDir, ladder[..n], encode, i);
    }
  }

  lemma ConvertWritesRungs(ladder: seq<Rung>, d: Disk, input: string, outDir: string, encode: Rung -> RungOutcome, i: nat)
    requires i < |ladder|
    requires Exists(d, input) && IsMp4(input) && encode(ladder[i]).Encoded?
    ensures var d' := ConvertSpec(ladder, d, input, outDir, encode).0;
      && RungFolder(outDir, ladder[i]) in d'.dirs
      && RungPlaylistPath(outDir, ladder[i]) in d'.files
      && forall j :: 0 <= j < |encode(ladder[i]).segments| ==> Join(RungFolder(outDir, ladder[i]), SegmentName(j)) in d'.files
  {
    LadderFilesHoldRung(outDir, ladder, encode, i);
  }

  /**
   * Running the conversion again on the disk it produced, with the same encoder
   * results, leaves the disk exactly as it is and gives the same outcome: the
   * directories are only created when absent and every file is rewritten with the
   * same bytes.
   */
  lemma ConvertIdempotent(ladder: seq<Rung>, d: Disk, input: string, outDir: string, encode: Rung -> RungOutcome)
    ensures var (d1, r1) := ConvertSpec(ladder, d, input, outDir, encode);
      ConvertSpec(ladder, d1, input, outDir, encode) == (d1, r1)
  {
    var (d1, r1) := ConvertSpec(ladder, d, input, outDir, encode);
    if Exists(d, input) && IsMp4(input) {
      var w := LadderFiles(outDir, ladder, encode);
      var ds := LadderDirs(outDir, ladder);
      DirsAddedOnce(d.dirs, {outDir}, ds);
      assert Exists(d1, input);
      if AllEncoded(ladder, encode) {
        FilesWrittenOnceWithMaster(d.files, w, MasterPath(outDir), MasterText(ladder));
      } else {
        FilesWrittenOnce(d.files, w);
      }
    }
  }

  lemma DirsAddedOnce(a: set<string>, b: set<string>, c: set<string>)
    ensures a + b + c + b + c == a + b + c
  {
  }

  lemma FilesWrittenOnce(a: map<string, string>, w: map<string, string>)
    ensures a + w + w == a + w
  {
  }

  lemma FilesWrittenOnceWithMaster(a: map<string, string>, w: map<string, string>, m: string, t: string)
    ensures ((a + w)[m := t] + w)[m := t] == (a + w)[m := t]
  {
  }

}
