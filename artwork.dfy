/** The artwork search of `audio:detect-artwork`: first the fixed list of
    cover file names in the first input's folder, in order; then the embedded
    picture of each input, in order. Which files exist, which can be read, and
    which inputs yield a non-empty extracted picture are inputs. */
module Artwork {
  import opened Text
  import opened Paths

  const Stems: seq<string> := ["cover", "folder", "album", "front", "artwork"]
  const Exts: seq<string> := [".jpg", ".jpeg", ".png"]

  /** The cover file names, in the order they are tried: each stem with each
      extension. */
  function Candidates(): (cs: seq<string>)
    ensures |cs| == 15
  {
    seq(15, k requires 0 <= k < 15 => Stems[k / 3] + Exts[k % 3])
  }

  datatype Source = Folder | Embedded

  /** What was found: where, the file it came from, and the MIME type of the
      data URI. */
  datatype Artwork = NotFound | Found(source: Source, file: string, mime: string)

  /** `image/png` for a `.png` extension (any letter case), else `image/jpeg`. */
  function MimeOf(path: string): string
  {
    if Lower(Extname(path)) == ".png" then "image/png" else "image/jpeg"
  }

  /** The cover `name` in `dir` exists and can be read. */
  predicate Usable(dir: string, name: string, exists_: string -> bool, readable: string -> bool)
  {
    exists_(Join(dir, name)) && readable(Join(dir, name))
  }

  /** The first candidate, from index `k` on, that exists and can be read. */
  function FirstCover(dir: string, names: seq<string>, k: nat, exists_: string -> bool, readable: string -> bool): (r: Option<nat>)
    requires k <= |names|
    decreases |names| - k
    ensures r.Some? ==> k <= r.value < |names|
  {
    if k == |names| then None
    else
      if Usable(dir, names[k], exists_, readable) then Some(k) else FirstCover(dir, names, k + 1, exists_, readable)
  }

  /** The first input, from index `k` on, whose extraction left a non-empty picture. */
  function FirstEmbedded(files: seq<string>, k: nat, extracted: string -> bool): (r: Option<nat>)
    requires k <= |files|
    decreases |files| - k
    ensures r.Some? ==> k <= r.value < |files|
  {
    if k == |files| then None
    else if extracted(files[k]) then Some(k)
    else FirstEmbedded(files, k + 1, extracted)
  }

  /** The search result. */
  function Detect(files: seq<string>, exists_: string -> bool, readable: string -> bool,
                  extracted: string -> bool): Artwork
  {
    if files == [] then NotFound
    else
      var dir := Dirname(files[0]);
      match FirstCover(dir, Candidates(), 0, exists_, readable)
      case Some(k) => Found(Folder, Join(dir, Candidates()[k]), MimeOf(Join(dir, Candidates()[k])))
      case None =>
        match FirstEmbedded(files, 0, extracted)
        case Some(k) => Found(Embedded, files[k], "image/jpeg")
        case None => NotFound
  }

  /** The handler's two loops: a candidate that exists but cannot be read is
      skipped, and so is an input whose extraction fails or leaves nothing. */
  method DetectArtwork(files: seq<string>, exists_: string -> bool, readable: string -> bool,
                       extracted: string -> bool) returns (r: Artwork)
    ensures r == Detect(files, exists_, readable, extracted)
  {
    if |files| == 0 {
      return NotFound;
    }
    var dir := Dirname(files[0]);
    var k := 0;
    while k < |Candidates()|
      invariant 0 <= k <= |Candidates()|
      invariant FirstCover(dir, Candidates(), 0, exists_, readable) == FirstCover(dir, Candidates(), k, exists_, readable)
    {
      var p := Join(dir, Candidates()[k]);
      if exists_(p) {
        if readable(p) {
          return Found(Folder, p, MimeOf(p));
        }
      }
      k := k + 1;
    }
    var j := 0;
    while j < |files|
      invariant 0 <= j <= |files|
      invariant FirstEmbedded(files, 0, extracted) == FirstEmbedded(files, j, extracted)
    {
      if extracted(files[j]) {
        return Found(Embedded, files[j], "image/jpeg");
      }
      j := j + 1;
    }
    return NotFound;
  }

  /** A found cover is the earliest usable one: every earlier candidate is
      missing or unreadable. */
  lemma {:induction false} FirstCoverIsFirst(dir: string, names: seq<string>, k: nat, exists_: string -> bool, readable: string -> bool)
    requires k <= |names|
    ensures var r := FirstCover(dir, names, k, exists_, readable);
      && (r.Some? ==> Usable(dir, names[r.value], exists_, readable))
      && (forall m :: k <= m < |names| && (r.None? || m < r.value) ==>
            !Usable(dir, names[m], exists_, readable))
    decreases |names| - k
  {
    if k < |names| && !Usable(dir, names[k], exists_, readable) {
      FirstCoverIsFirst(dir, names, k + 1, exists_, readable);
    }
  }

  lemma {:induction false} FirstEmbeddedIsFirst(files: seq<string>, k: nat, extracted: string -> bool)
    requires k <= |files|
    ensures var r := FirstEmbedded(files, k, extracted);
      && (r.Some? ==> extracted(files[r.value]))
      && (forall m :: k <= m < |files| && (r.None? || m < r.value) ==> !extracted(files[m]))
    decreases |files| - k
  {
    if k < |files| {
      FirstEmbeddedIsFirst(files, k + 1, extracted);
    }
  }

  /** No cover candidate in `dir` is usable. */
  predicate NoCover(dir: string, exists_: string -> bool, readable: string -> bool)
  {
    forall m :: 0 <= m < |Candidates()| ==> !Usable(dir, Candidates()[m], exists_, readable)
  }

  /** Candidate `k` is usable and no earlier one is; `file` is its path. */
  predicate FirstUsableCover(dir: string, k: int, file: string, exists_: string -> bool, readable: string -> bool)
  {
    && 0 <= k < |Candidates()| && file == Join(dir, Candidates()[k])
    && Usable(dir, Candidates()[k], exists_, readable)
    && forall m :: 0 <= m < k ==> !Usable(dir, Candidates()[m], exists_, readable)
  }

  /** Input `k` is `file`, yields a picture, and no earlier input does. */
  predicate FirstExtracted(files: seq<string>, k: int, file: string, extracted: string -> bool)
  {
    && 0 <= k < |files| && file == files[k] && extracted(files[k])
    && forall m :: 0 <= m < k ==> !extracted(files[m])
  }

  /** A folder cover wins over any embedded picture and is the first usable
      candidate in the first input's folder. */
  lemma DetectFolder(files: seq<string>, exists_: string -> bool, readable: string -> bool, extracted: string -> bool)
    requires files != []
    ensures var r := Detect(files, exists_, readable, extracted);
      r.Found? && r.source == Folder ==>
        exists k :: FirstUsableCover(Dirname(files[0]), k, r.file, exists_, readable)
  {
    var dir := Dirname(files[0]);
    FirstCoverIsFirst(dir, Candidates(), 0, exists_, readable);
    var c := FirstCover(dir, Candidates(), 0, exists_, readable);
    if c.Some? {
      assert FirstUsableCover(dir, c.value, Detect(files, exists_, readable, extracted).file, exists_, readable);
    }
  }

  /** An embedded picture is used only when no candidate is usable, and comes
      from the first input that yields one. */
  lemma DetectEmbedded(files: seq<string>, exists_: string -> bool, readable: string -> bool, extracted: string -> bool)
    requires files != []
    ensures var r := Detect(files, exists_, readable, extracted);
      r.Found? && r.source == Embedded ==>
        && NoCover(Dirname(files[0]), exists_, readable)
        && r.mime == "image/jpeg"
        && exists k :: FirstExtracted(files, k, r.file, extracted)
  {
    var dir := Dirname(files[0]);
    FirstCoverIsFirst(dir, Candidates(), 0, exists_, readable);
    FirstEmbeddedIsFirst(files, 0, extracted);
    var e := FirstEmbedded(files, 0, extracted);
    if FirstCover(dir, Candidates(), 0, exists_, readable).None? && e.Some? {
      assert FirstExtracted(files, e.value, files[e.value], extracted);
    }
  }

  /** Nothing is found exactly when no candidate is usable and no input yields
      a picture. */
  lemma DetectNotFound(files: seq<string>, exists_: string -> bool, readable: string -> bool, extracted: string -> bool)
    requires files != []
    ensures Detect(files, exists_, readable, extracted).NotFound? <==>
      NoCover(Dirname(files[0]), exists_, readable) && forall m :: 0 <= m < |files| ==> !extracted(files[m])
  {
    FirstCoverIsFirst(Dirname(files[0]), Candidates(), 0, exists_, readable);
    FirstEmbeddedIsFirst(files, 0, extracted);
  }

  /** Without inputs nothing is searched. */
  lemma NoFilesNotFound(exists_: string -> bool, readable: string -> bool, extracted: string -> bool)
    ensures Detect([], exists_, readable, extracted) == NotFound
  {
  }

  /** A folder cover is labelled PNG exactly when it is one of the `.png`
      candidates, and JPEG otherwise. */
  lemma MimeOfCandidates(dir: string, k: nat)
    requires k < 15
    ensures MimeOf(Join(dir, Candidates()[k])) == (if Exts[k % 3] == ".png" then "image/png" else "image/jpeg")
  {
    var stem := Stems[k / 3];
    var ext := Exts[k % 3];
    var name := stem + ext;
    assert Candidates()[k] == name;
    StemHasNoDot(k / 3);
    ExtShape(k % 3);
    JoinBase(dir, name);
    ExtOfStemExt(stem, ext);
    ExtLower(k % 3);
  }

  lemma StemHasNoDot(i: nat)
    requires i < 5
    ensures |Stems[i]| > 0 && forall j :: 0 <= j < |Stems[i]| ==> Stems[i][j] != '.' && Stems[i][j] != '/'
  {
  }

  lemma ExtShape(i: nat)
    requires i < 3
    ensures |Exts[i]| > 1 && Exts[i][0] == '.'
    ensures forall j :: 0 < j < |Exts[i]| ==> Exts[i][j] != '.' && Exts[i][j] != '/'
    ensures Exts[i][0] != '/'
  {
  }

  lemma ExtLower(i: nat)
    requires i < 3
    ensures Lower(Exts[i]) == Exts[i]
  {
  }

  /** The extension of `stem + ext`, when only `ext` holds a dot, at its start. */
  lemma ExtOfStemExt(stem: string, ext: string)
    requires |stem| > 0 && forall j :: 0 <= j < |stem| ==> stem[j] != '.'
    requires |ext| > 0 && ext[0] == '.' && forall j :: 0 < j < |ext| ==> ext[j] != '.'
    ensures ExtOfBase(stem + ext) == ext
  {
    var b := stem + ext;
    var r := LastIndexOf(b, '.');
    assert b[|stem|] == '.';
    assert r.Some? && r.value == |stem|;
    assert b[|stem|..] == ext;
    assert b[0] == stem[0] && b[0] != ".."[0];
  }

  /** The cover and folder names. */
  lemma CandidatesFirst()
    ensures Candidates()[0..6] == ["cover.jpg", "cover.jpeg", "cover.png", "folder.jpg", "folder.jpeg", "folder.png"]
  {
    var c := Candidates();
    assert c[0] == "cover.jpg" by { assert Stems[0] + Exts[0] == "cover.jpg"; }
    assert c[1] == "cover.jpeg" by { assert Stems[0] + Exts[1] == "cover.jpeg"; }
    assert c[2] == "cover.png" by { assert Stems[0] + Exts[2] == "cover.png"; }
    assert c[3] == "folder.jpg" by { assert Stems[1] + Exts[0] == "folder.jpg"; }
    assert c[4] == "folder.jpeg" by { assert Stems[1] + Exts[1] == "folder.jpeg"; }
    assert c[5] == "folder.png" by { assert Stems[1] + Exts[2] == "folder.png"; }
  }

  /** The album and front names. */
  lemma CandidatesMiddle()
    ensures Candidates()[6..12] == ["album.jpg", "album.jpeg", "album.png", "front.jpg", "front.jpeg", "front.png"]
  {
    var c := Candidates();
    assert c[6] == "album.jpg" by { assert Stems[2] + Exts[0] == "album.jpg"; }
    assert c[7] == "album.jpeg" by { assert Stems[2] + Exts[1] == "album.jpeg"; }
    assert c[8] == "album.png" by { assert Stems[2] + Exts[2] == "album.png"; }
    assert c[9] == "front.jpg" by { assert Stems[3] + Exts[0] == "front.jpg"; }
    assert c[10] == "front.jpeg" by { assert Stems[3] + Exts[1] == "front.jpeg"; }
    assert c[11] == "front.png" by { assert Stems[3] + Exts[2] == "front.png"; }
  }

  /** The artwork names. */
  lemma CandidatesLast()
    ensures Candidates()[12..15] == ["artwork.jpg", "artwork.jpeg", "artwork.png"]
  {
    var c := Candidates();
    assert c[12] == "artwork.jpg" by { assert Stems[4] + Exts[0] == "artwork.jpg"; }
    assert c[13] == "artwork.jpeg" by { assert Stems[4] + Exts[1] == "artwork.jpeg"; }
    assert c[14] == "artwork.png" by { assert Stems[4] + Exts[2] == "artwork.png"; }
  }

  /** The candidate names are exactly the listed fifteen, in this order. */
  lemma CandidatesListed()
    ensures Candidates() == [
      "cover.jpg", "cover.jpeg", "cover.png",
      "folder.jpg", "folder.jpeg", "folder.png",
      "album.jpg", "album.jpeg", "album.png",
      "front.jpg", "front.jpeg", "front.png",
      "artwork.jpg", "artwork.jpeg", "artwork.png"
    ]
  {
    var c := Candidates();
    CandidatesFirst();
    CandidatesMiddle();
    CandidatesLast();
    assert c == c[..6] + c[6..12] + c[12..];
  }
}
