/**
 * The state of one photo shoot (utils/session_manager.py): chosen layout, the number of
 * photos expected, the polaroids captured so far and the final composed image.
 */
module SessionManager {

  import opened Common

  /** The abstract value of a SessionManager's fields. */
  datatype Session = Session(
    active: bool,
    layoutId: Option<string>,
    totalPhotos: int,
    captured: seq<ImageId>,
    finalImagePath: Option<string>)
  {
    /** is_complete */
    predicate IsComplete() {
      |captured| >= totalPhotos
    }

    /** get_photo_count */
    function PhotoCount(): nat {
      |captured|
    }

    /** get_current_index: the 1-based index of the NEXT photo. */
    function CurrentIndex(): int {
      |captured| + 1
    }
  }

  /** reset_session */
  function Cleared(): Session {
    Session(false, None, 0, [], None)
  }

  /** start_session(layout_id, total_photos) */
  function Started(layoutId: string, totalPhotos: int): Session {
    Cleared().(active := true, layoutId := Some(layoutId), totalPhotos := totalPhotos)
  }

  /** add_polaroid */
  function Added(s: Session, p: ImageId): Session {
    s.(captured := s.captured + [p])
  }

  /** The session after add_polaroid has been called with each of ps in turn. */
  function AddedAll(s: Session, ps: seq<ImageId>): Session
    decreases |ps|
  {
    if ps == [] then s else AddedAll(Added(s, ps[0]), ps[1..])
  }

  /**
   * add_polaroid appends at the end and changes nothing else: after any run of captures
   * the list is the old list followed by the new polaroids in order.
   */
  lemma {:induction false} AddedAllAppends(s: Session, ps: seq<ImageId>)
    ensures AddedAll(s, ps).captured == s.captured + ps
    ensures AddedAll(s, ps).(captured := s.captured) == s
    decreases |ps|
  {
    if ps != [] {
      AddedAllAppends(Added(s, ps[0]), ps[1..]);
      assert s.captured + [ps[0]] + ps[1..] == s.captured + ps;
    }
  }

  /**
   * A session started for n photos and fed the polaroids ps is complete exactly when
   * at least n were captured; the next index is always one past the count. In
   * particular a session with total 0 is complete at once.
   */
  lemma SessionProgress(layoutId: string, n: int, ps: seq<ImageId>)
    ensures AddedAll(Started(layoutId, n), ps).IsComplete() <==> |ps| >= n
    ensures AddedAll(Started(layoutId, n), ps).PhotoCount() == |ps|
    ensures AddedAll(Started(layoutId, n), ps).CurrentIndex() == |ps| + 1
    ensures AddedAll(Started(layoutId, n), ps).active
  {
    AddedAllAppends(Started(layoutId, n), ps);
  }

  class SessionManager {
    var active: bool
    var layoutId: Option<string>
    var totalPhotos: int
    var captured: seq<ImageId>
    var finalImagePath: Option<string>

    function State(): Session
      reads this
    {
      Session(active, layoutId, totalPhotos, captured, finalImagePath)
    }

    /** __init__ on a fresh instance: reset_session. */
    constructor ()
      ensures State() == Cleared()
    {
      active, layoutId, totalPhotos, captured, finalImagePath := false, None, 0, [], None;
    }

    /** reset_session: inactive, no layout, total 0, nothing captured, no final path. */
    method ResetSession()
      modifies this
      ensures State() == Cleared()
    {
      active, layoutId, totalPhotos, captured, finalImagePath := false, None, 0, [], None;
    }

    /** start_session: a fresh active session, whatever the earlier state. */
    method StartSession(layout: string, total: int)
      modifies this
      ensures State() == Started(layout, total)
    {
      ResetSession();
      active := true;
      layoutId := Some(layout);
      totalPhotos := total;
    }

    /** add_polaroid */
    method AddPolaroid(p: ImageId)
      modifies this
      ensures State() == Added(old(State()), p)
    {
      captured := captured + [p];
    }

    method IsComplete() returns (r: bool)
      ensures r == State().IsComplete()
    {
      r := |captured| >= totalPhotos;
    }

    method GetPhotoCount() returns (r: nat)
      ensures r == State().PhotoCount()
    {
      r := |captured|;
    }

    method GetCurrentIndex() returns (r: int)
      ensures r == State().CurrentIndex()
    {
      r := |captured| + 1;
    }
  }

  /**
   * The class-level singleton slot (SessionManager._instance together with the
   * hasattr guard in __init__).
   */
  class SessionSingleton {
    var instance: SessionManager?

    constructor ()
      ensures instance == null
    {
      instance := null;
    }

    /**
     * SessionManager(): the first call creates and resets the one instance; every
     * later call returns that instance and leaves its session as it was.
     */
    method Construct() returns (s: SessionManager)
      modifies this
      ensures instance == s
      ensures old(instance) == null ==> fresh(s) && s.State() == Cleared()
      ensures old(instance) != null ==> s == old(instance) && s.State() == old(s.State())
    {
      if instance == null {
        s := new SessionManager();
        instance := s;
      } else {
        s := instance;
      }
    }
  }
}
