/**
 * The command-line gphoto2 camera (cameras/gphoto2_eos_camera.py): `start` decides
 * from the output of `gphoto2 --auto-detect` whether a Canon camera is connected;
 * each `read_frame` records a one-second movie with gphoto2, finds the file gphoto2
 * reports having saved ("Saving file as <path>"), and keeps one decoded frame.
 *
 * The subprocesses are reduced to their outcomes (the text they printed, or failure),
 * and the file system plus OpenCV to a map from a path to the frame read from it.
 */
module Gphoto2Camera {

  import opened Common
  import TextUtil

  /** The fixed prefix of the pattern, lower-cased: `Saving file as (.+?)\n`, IGNORECASE. */
  const Marker := "saving file as "

  /** The index of the first newline at or after k, if any. */
  function NewlineFrom(s: string, k: nat): (r: Option<nat>)
    requires k <= |s|
    ensures r.Some? ==> k <= r.value < |s| && s[r.value] == '\n' &&
                        forall j :: k <= j < r.value ==> s[j] != '\n'
    ensures r.None? ==> forall j :: k <= j < |s| ==> s[j] != '\n'
    decreases |s| - k
  {
    if k == |s| then None else if s[k] == '\n' then Some(k) else NewlineFrom(s, k + 1)
  }

  /**
   * The pattern matches at i: the marker in any case, then at least one character
   * other than a newline, then a newline.
   */
  predicate MatchesAt(s: string, i: nat) {
    i + |Marker| < |s| &&
    TextUtil.Lower(s[i..i + |Marker|]) == Marker &&
    s[i + |Marker|] != '\n' &&
    NewlineFrom(s, i + |Marker|).Some?
  }

  /** re.search: the leftmost position at or after i where the pattern matches. */
  function FirstMatch(s: string, i: nat): (r: Option<nat>)
    requires i <= |s|
    ensures r.Some? ==> i <= r.value < |s| && MatchesAt(s, r.value) &&
                        forall j :: i <= j < r.value ==> !MatchesAt(s, j)
    ensures r.None? ==> forall j :: i <= j < |s| ==> !MatchesAt(s, j)
    decreases |s| - i
  {
    if i == |s| then None else if MatchesAt(s, i) then Some(i) else FirstMatch(s, i + 1)
  }

  /** group(1) of a match at i: everything after the marker up to the newline. */
  function Group(s: string, i: nat): string
    requires MatchesAt(s, i)
  {
    s[i + |Marker|..NewlineFrom(s, i + |Marker|).value]
  }

  /**
   * The path read_frame loads: the stripped group of the first match in gphoto2's
   * output, or the target path when the output reports none.
   */
  function SavePath(stdout: string, target: string): string {
    var m := FirstMatch(stdout, 0);
    if m.Some? then TextUtil.Strip(Group(stdout, m.value)) else target
  }

  /** SavePath takes the leftmost report, and falls back to the target when there is none. */
  lemma SavePathChoice(stdout: string, target: string)
    ensures NoMatch(stdout) ==> SavePath(stdout, target) == target
    ensures forall i :: LeftmostMatch(stdout, i) ==> SavePath(stdout, target) == TextUtil.Strip(Group(stdout, i))
  {
    var m := FirstMatch(stdout, 0);
    forall i | LeftmostMatch(stdout, i)
      ensures m == Some(i)
    {
      LeftmostUnique(stdout, i, m);
    }
  }

  lemma LeftmostUnique(s: string, i: int, m: Option<nat>)
    requires m == FirstMatch(s, 0) && LeftmostMatch(s, i)
    ensures m == Some(i)
  {
  }

  /** The pattern matches nowhere in s. */
  predicate NoMatch(s: string) {
    forall i :: 0 <= i < |s| ==> !MatchesAt(s, i)
  }

  /** The pattern matches at i and nowhere before. */
  predicate LeftmostMatch(s: string, i: int) {
    0 <= i < |s| && MatchesAt(s, i) && forall j :: 0 <= j < i ==> !MatchesAt(s, j)
  }

  /** The report's prefix, in gphoto2's capitalisation, matches the marker. */
  lemma MarkerMatches(s: string)
    requires |s| >= |Marker| && s[..|Marker|] == "Saving file as "
    ensures TextUtil.Lower(s[0..|Marker|]) == Marker
  {
    var l := TextUtil.Lower(s[0..|Marker|]);
    assert l[0] == 's' && l[7] == 'f';
    assert forall k :: 0 <= k < |Marker| ==> l[k] == Marker[k];
  }

  /**
   * A report at the start of the output is the one used: "Saving file as " + p + a
   * newline yields p stripped, whatever follows, for any non-empty one-line p.
   */
  lemma ReportedPath(p: string, rest: string, target: string)
    requires |p| >= 1 && forall k :: 0 <= k < |p| ==> p[k] != '\n'
    ensures SavePath("Saving file as " + p + "\n" + rest, target) == TextUtil.Strip(p)
  {
    var s := "Saving file as " + p + "\n" + rest;
    var e := |Marker| + |p|;
    assert s[..|Marker|] == "Saving file as ";
    MarkerMatches(s);
    assert s[e] == '\n';
    assert forall j :: |Marker| <= j < e ==> s[j] == p[j - |Marker|];
    assert NewlineFrom(s, |Marker|) == Some(e);
    assert MatchesAt(s, 0);
    assert s[|Marker|..e] == p;
  }

  /** The marker must be followed by something on the same line: an empty report is no report. */
  lemma EmptyReportIgnored(target: string)
    ensures SavePath("Saving file as \n", target) == target
  {
    var s := "Saving file as \n";
    forall i | 0 <= i < |s|
      ensures !MatchesAt(s, i)
    {
      if i == 0 {
        assert s[|Marker|] == '\n';
      }
    }
  }

  /** The outcome of `gphoto2 --auto-detect`. */
  datatype Detect =
    | Detected(stdout: string)
    | DetectFailed        // CalledProcessError, FileNotFoundError or TimeoutExpired
    | DetectEscaped       // any other error of subprocess.run, which start does not catch

  /** The outcome of `gphoto2 --capture-movie=1`. */
  datatype Recording =
    | Recorded(stdout: string)
    | RecordingFailed     // CalledProcessError, TimeoutExpired or any other exception

  /** The frame OpenCV reads from a movie file: the image and frame.shape[1], shape[0]. */
  datatype Frame = Frame(image: ImageId, width: nat, height: nat)

  /** The frame read_frame keeps, given the file found at the path it waited for. */
  function Kept(file: Option<Frame>): Option<Frame> {
    if file.Some? && file.value.width > 0 && file.value.height > 0 then file else None
  }

  class EosCamera {
    var isReady: bool
    var resolution: (int, int)
    const aspectRatio: real

    /** __init__: not ready, 640x480, aspect ratio fixed from that resolution. */
    constructor ()
      ensures !isReady && resolution == (640, 480) && aspectRatio == 640.0 / 480.0
    {
      isReady := false;
      resolution := (640, 480);
      aspectRatio := 640.0 / 480.0;
    }

    /**
     * start: ready exactly when auto-detect ran and printed "Canon" (case-sensitive); an
     * error start does not catch escapes (`raised`) and leaves readiness as it was.
     */
    method Start(detect: Detect) returns (raised: bool)
      modifies this
      ensures raised <==> detect.DetectEscaped?
      ensures !raised ==> (isReady <==> detect.Detected? && TextUtil.Contains(detect.stdout, "Canon"))
      ensures raised ==> isReady == old(isReady)
      ensures resolution == old(resolution)
    {
      raised := false;
      match detect
      case DetectFailed =>
        isReady := false;
      case Detected(out) =>
        isReady := TextUtil.Contains(out, "Canon");
      case DetectEscaped =>
        raised := true;
    }

    /**
     * read_frame: nothing when not opened or when recording fails; otherwise the frame
     * read from the reported path (`files` says what each existing path decodes to),
     * if it is not empty, which also becomes the resolution.
     */
    method ReadFrame(target: string, recording: Recording, files: map<string, Frame>) returns (r: Option<ImageId>)
      modifies this
      ensures isReady == old(isReady)
      ensures !old(isReady) || recording.RecordingFailed? ==> r == None && resolution == old(resolution)
      ensures old(isReady) && recording.Recorded? ==>
        var path := SavePath(recording.stdout, target);
        var kept := Kept(if path in files then Some(files[path]) else None);
        (kept.Some? ==> r == Some(kept.value.image) && resolution == (kept.value.width, kept.value.height)) &&
        (kept.None? ==> r == None && resolution == old(resolution))
    {
      if !isReady {
        return None;
      }
      if recording.RecordingFailed? {
        return None;
      }
      var actualPath := SavePath(recording.stdout, target);
      if actualPath in files {
        var frame := files[actualPath];
        if frame.width > 0 && frame.height > 0 {
          resolution := (frame.width, frame.height);
          return Some(frame.image);
        }
      }
      r := None;
    }

    /** release: no longer ready; releasing again changes nothing. */
    method Release()
      modifies this
      ensures !isReady && resolution == old(resolution)
    {
      if isReady {
        isReady := false;
      }
    }

    function IsOpened(): bool
      reads this
    {
      isReady
    }
  }
}
