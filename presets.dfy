/** The format and preset tables the renderer offers: five target formats
    with their extension, codec, container and chapter support, six built-in
    presets, and the default preset's id. The renderer sends a format to the
    main process as its lower-cased key. */
module Presets {
  import opened Text
  import Convert

  datatype AudioFormat = M4B | M4A | MP3 | AAC | FLAC

  /** The table key of a format. */
  function Key(f: AudioFormat): string
  {
    match f
    case M4B => "M4B"
    case M4A => "M4A"
    case MP3 => "MP3"
    case AAC => "AAC"
    case FLAC => "FLAC"
  }

  datatype FormatInfo = FormatInfo(ext: string, codec: string, container: string,
                                   description: string, supportsChapters: bool)

  /** `AUDIO_FORMATS`. */
  function Info(f: AudioFormat): FormatInfo
  {
    match f
    case M4B => FormatInfo(".m4b", "aac", "ipod", "M4B (Audiobook)", true)
    case M4A => FormatInfo(".m4a", "aac", "mp4", "M4A (AAC Audio)", false)
    case MP3 => FormatInfo(".mp3", "libmp3lame", "mp3", "MP3", true)
    case AAC => FormatInfo(".aac", "aac", "adts", "AAC", false)
    case FLAC => FormatInfo(".flac", "flac", "flac", "FLAC (Lossless)", true)
  }

  /** A preset; an absent `itunesCompatibility` is false. */
  datatype Preset = Preset(id: string, name: string, targetFormat: AudioFormat, bitrate: string,
                           description: string, icon: string, isBuiltIn: bool,
                           itunesCompatibility: bool)

  /** `BUILTIN_PRESETS`, in order. */
  const BuiltinPresets: seq<Preset> := [
    Preset("audiobook-standard", "Audiobook Standard", M4B, "64k",
           "M4B format, 64kbps AAC (best for spoken word)", "\U{1F4DA}", true, true),
    Preset("audiobook-hq", "Audiobook HQ", M4B, "128k",
           "M4B format, 128kbps AAC (higher quality)", "\U{1F4D6}", true, true),
    Preset("podcast", "Podcast", MP3, "96k",
           "MP3 format, 96kbps (optimized for podcasts)", "\U{1F399}\U{FE0F}", true, false),
    Preset("mp3-compatible", "MP3 Universal", MP3, "128k",
           "MP3 format for maximum device compatibility", "\U{1F3B5}", true, false),
    Preset("music-hq", "Music HQ", M4A, "256k",
           "M4A format, 256kbps AAC (music quality)", "\U{1F3B6}", true, false),
    Preset("lossless", "Lossless Archive", FLAC, "",
           "Lossless FLAC (archival quality, large files)", "\U{1F4BE}", true, false)
  ]

  const DefaultPresetId: string := "audiobook-standard"

  /** The position of the first preset with id `id`; the lookup by which a
      stored preset id, such as `DefaultPresetId`, is resolved. */
  function FindPreset(presets: seq<Preset>, id: string): (r: Option<nat>)
    ensures r.Some? ==> r.value < |presets| && presets[r.value].id == id
    ensures r.Some? ==> forall j :: 0 <= j < r.value ==> presets[j].id != id
    ensures r.None? ==> forall i :: 0 <= i < |presets| ==> presets[i].id != id
  {
    if presets == [] then None
    else if presets[0].id == id then Some(0)
    else match FindPreset(presets[1..], id)
      case None => None
      case Some(k) => Some(k + 1)
  }

  /** The format name the renderer sends: the lower-cased key. */
  function WireName(f: AudioFormat): (s: string)
    ensures s == Lower(Key(f))
  {
    LowerKey(f);
    match f
    case M4B => "m4b"
    case M4A => "m4a"
    case MP3 => "mp3"
    case AAC => "aac"
    case FLAC => "flac"
  }

  lemma LowerKey(f: AudioFormat)
    ensures Lower(Key(f)) == match f
      case M4B => "m4b"
      case M4A => "m4a"
      case MP3 => "mp3"
      case AAC => "aac"
      case FLAC => "flac"
  {
    var k := Key(f);
    var l := Lower(k);
    match f
    case M4B => assert l[0] == 'm' && l[1] == '4' && l[2] == 'b';
    case M4A => assert l[0] == 'm' && l[1] == '4' && l[2] == 'a';
    case MP3 => assert l[0] == 'm' && l[1] == 'p' && l[2] == '3';
    case AAC => assert l[0] == 'a' && l[1] == 'a' && l[2] == 'c';
    case FLAC => assert l[0] == 'f' && l[1] == 'l' && l[2] == 'a' && l[3] == 'c';
  }

  /** Each extension is a dot and the lower-cased key. */
  lemma ExtIsLowerKey(f: AudioFormat)
    ensures Info(f).ext == "." + Lower(Key(f))
  {
    assert Info(f).ext == "." + WireName(f);
  }

  /** Every format but FLAC has the codec and container the main process's
      convert table gives its wire name; FLAC is not in that table. */
  lemma FormatsAgreeWithConvert(f: AudioFormat)
    ensures f != FLAC ==> Convert.FormatTable(WireName(f)) == Some((Info(f).codec, Info(f).container))
    ensures f == FLAC <==> Convert.FormatTable(WireName(f)).None?
  {
  }

  /** Chapters are unsupported exactly for M4A and AAC. */
  lemma ChapterSupport(f: AudioFormat)
    ensures !Info(f).supportsChapters <==> f == M4A || f == AAC
  {
  }

  /** The built-in presets have distinct ids and are all marked built-in. */
  lemma BuiltinIdsDistinct()
    ensures forall i, j :: 0 <= i < j < |BuiltinPresets| ==> BuiltinPresets[i].id != BuiltinPresets[j].id
    ensures forall i :: 0 <= i < |BuiltinPresets| ==> BuiltinPresets[i].isBuiltIn
  {
    var ps := BuiltinPresets;
    assert ps[0].id[9] == '-' && ps[1].id[9] == '-' && ps[0].id[10] == 's' && ps[1].id[10] == 'h';
    assert ps[2].id[0] == 'p' && ps[3].id[0] == 'm' && ps[4].id[0] == 'm' && ps[5].id[0] == 'l';
    assert ps[3].id[1] == 'p' && ps[4].id[1] == 'u';
  }

  /** The default id names the first built-in preset. */
  lemma DefaultPresetExists()
    ensures FindPreset(BuiltinPresets, DefaultPresetId) == Some(0)
  {
  }

  /** Only the lossless preset has an empty bitrate; every other one is
      64k, 96k, 128k or 256k, all of which the converter keeps as given. */
  lemma BuiltinBitrates()
    ensures forall i :: 0 <= i < |BuiltinPresets| ==>
      (BuiltinPresets[i].bitrate == "" <==> BuiltinPresets[i].id == "lossless")
    ensures forall i :: 0 <= i < |BuiltinPresets| && BuiltinPresets[i].bitrate != "" ==>
      BuiltinPresets[i].bitrate in {"64k", "96k", "128k", "256k"}
      && Convert.CoerceBitrate(BuiltinPresets[i].bitrate) == BuiltinPresets[i].bitrate
  {
    var ps := BuiltinPresets;
    assert ps[5].id == "lossless";
    assert ps[0].id != "lossless" && ps[1].id != "lossless" && ps[2].id != "lossless";
    assert ps[3].id != "lossless" && ps[4].id != "lossless";
  }

  /** iTunes compatibility is set on exactly the M4B presets. */
  lemma ItunesOnlyOnM4B()
    ensures forall i :: 0 <= i < |BuiltinPresets| ==>
      (BuiltinPresets[i].itunesCompatibility <==> BuiltinPresets[i].targetFormat == M4B)
  {
  }

  /** A conversion with the lossless preset's format always fails in
      pre-flight with the unsupported-format error, while every other
      built-in preset passes pre-flight for an input that exists. */
  lemma PresetsAgainstConvert(input: string, i: nat)
    requires i < |BuiltinPresets|
    ensures var p := BuiltinPresets[i];
      var plan := Convert.PlanConvert(input, WireName(p.targetFormat), p.bitrate, true);
      && (p.targetFormat == FLAC ==> plan == Convert.PlanFailed("Unsupported format: flac"))
      && (p.targetFormat != FLAC ==> plan.PlanOk? && plan.plan.bitrate == p.bitrate)
  {
    var p := BuiltinPresets[i];
    var w := WireName(p.targetFormat);
    FormatsAgreeWithConvert(p.targetFormat);
    if p.targetFormat == FLAC {
      assert w == "flac" && Convert.FormatTable(w).None?;
    } else {
      BuiltinBitrates();
      assert p.bitrate != "";
      assert Convert.CoerceBitrate(p.bitrate) == p.bitrate;
    }
  }
}
