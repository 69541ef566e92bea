/** The photo capture component
    (React/React-Frontend/vite-project/src/components/ReactWebCame.jsx).

    A session holds the image last captured or restored (`capturedImage`,
    null at first). Capturing a frame shows it and writes it to the
    browser's object store under the one key "latestImage"; mounting a
    session reads that key back. The object store outlives sessions, so it
    is an object of its own that a new session is given. */
module WebcamCapture {
  import opened Wrappers

  const LatestImageKey := "latestImage"

  /** JavaScript truthiness of a string that may be null or undefined. */
  predicate Truthy(value: Option<string>)
  {
    value.Some? && value.value != ""
  }

  /** What `db.get(STORE_NAME, key)` finds: the stored value, or undefined. */
  function Lookup(entries: map<string, string>, key: string): (found: Option<string>)
    ensures found.Some? <==> key in entries
    ensures found.Some? ==> found.value == entries[key]
  {
    if key in entries then Some(entries[key]) else None
  }

  /** The IndexedDB object store "CapturedImages" of database "WebcamDB". */
  class ImageStore {
    var entries: map<string, string>

    constructor ()
      ensures entries == map[]
    {
      entries := map[];
    }

    /** What this component ever leaves in the store: at most one entry,
        under "latestImage", holding a non-empty image. */
    predicate HoldsAtMostLatest()
      reads this
    {
      && entries.Keys <= {LatestImageKey}
      && forall k :: k in entries ==> entries[k] != ""
    }

    /** `db.put(STORE_NAME, value, key)`: overwrites the entry for `key`. */
    method Put(key: string, value: string)
      modifies this
      ensures entries == old(entries)[key := value]
    {
      entries := entries[key := value];
    }

    /** `db.get(STORE_NAME, key)`: a read that changes nothing. */
    method Get(key: string) returns (value: Option<string>)
      ensures value.Some? <==> key in entries
      ensures value.Some? ==> value.value == entries[key]
    {
      value := Lookup(entries, key);
    }
  }

  class CaptureSession {
    const db: ImageStore
    var capturedImage: Option<string>

    /** `useState(null)`: a new session shows no image yet; creating it
        does not touch the store. */
    constructor (db: ImageStore)
      ensures this.db == db && capturedImage == None
    {
      this.db := db;
      capturedImage := None;
    }

    /** `saveToIndexedDB`: the store entry for "latestImage" is overwritten;
        no other key is written. */
    method SaveToIndexedDB(imageData: string)
      modifies db
      ensures db.entries == old(db.entries)[LatestImageKey := imageData]
    {
      db.Put(LatestImageKey, imageData);
    }

    /** `loadFromIndexedDB`: shows the stored image if it is truthy, and
        otherwise keeps the image shown; the store is only read. */
    method LoadFromIndexedDB()
      modifies this
      ensures db.entries == old(db.entries)
      ensures Truthy(Lookup(db.entries, LatestImageKey)) ==>
        capturedImage == Lookup(db.entries, LatestImageKey)
      ensures !Truthy(Lookup(db.entries, LatestImageKey)) ==> capturedImage == old(capturedImage)
    {
      var savedImage := db.Get(LatestImageKey);
      if Truthy(savedImage) {
        capturedImage := savedImage;
      }
    }

    /** `capture`: `screenshot` is what `webcamRef.current?.getScreenshot()`
        yields (None for a null ref or a null frame). A truthy frame is shown
        and stored under "latestImage"; anything else changes nothing. The
        store keeps holding at most the latest image. */
    method Capture(screenshot: Option<string>)
      modifies this, db
      ensures Truthy(screenshot) ==>
        && capturedImage == screenshot
        && db.entries == old(db.entries)[LatestImageKey := screenshot.value]
      ensures !Truthy(screenshot) ==>
        capturedImage == old(capturedImage) && db.entries == old(db.entries)
      ensures old(db.HoldsAtMostLatest()) ==> db.HoldsAtMostLatest()
    {
      if Truthy(screenshot) {
        capturedImage := screenshot;
        SaveToIndexedDB(screenshot.value);
      }
    }
  }

  /** Mounting the component: a new session whose effect loads the stored
      image. On a miss it shows nothing. */
  method Mount(db: ImageStore) returns (session: CaptureSession)
    ensures fresh(session) && session.db == db
    ensures Truthy(Lookup(db.entries, LatestImageKey)) ==>
      session.capturedImage == Lookup(db.entries, LatestImageKey)
    ensures !Truthy(Lookup(db.entries, LatestImageKey)) ==> session.capturedImage == None
  {
    session := new CaptureSession(db);
    session.LoadFromIndexedDB();
  }

  /** Round trip through the store: a frame captured in one session is the
      image a later session shows after mounting. */
  method CaptureThenRemount(db: ImageStore, frame: string) returns (restored: Option<string>)
    requires frame != ""
    modifies db
    ensures restored == Some(frame)
    ensures db.entries == old(db.entries)[LatestImageKey := frame]
  {
    var first := Mount(db);
    first.Capture(Some(frame));
    var second := Mount(db);
    restored := second.capturedImage;
  }

  /** A second capture overwrites the first: with a store that starts
      empty, only the second frame is left, under the one key. */
  method CaptureTwice(first: string, second: string) returns (db: ImageStore)
    requires first != "" && second != ""
    ensures fresh(db)
    ensures db.entries == map[LatestImageKey := second]
    ensures db.HoldsAtMostLatest()
  {
    db := new ImageStore();
    var session := Mount(db);
    session.Capture(Some(first));
    session.Capture(Some(second));
  }
}
