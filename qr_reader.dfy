/**
  The scanner component as a state machine. Its fields are the component's
  state and refs; its methods are the events: starting the camera, the
  scheduled start of the sampling interval, an interval tick, the decoder's
  reply to a frame, stopping the camera, choosing a file, the reply to an
  upload, saving, clearing, and the storage effects.

  Timer and stream handles are drawn from one counter. `liveTimers` is the
  set of intervals still running and `openStreams` the set of camera streams
  whose tracks were never stopped; these are what the refs point into.
  `pendingStarts` counts scheduled `startScanning` calls, `outstanding` the
  frame decode requests and `uploadsPending` the file decode requests that
  have not yet been answered.
*/
module QrReader {
  import opened Wrappers
  import opened Strings
  import opened Sampler
  import opened ScanHistory

  datatype Mode = Upload | Camera

  /** The `type` and `size` of a chosen file. */
  datatype ImageFile = ImageFile(mimeType: string, size: int)

  const MaxUploadBytes: int := 5 * 1024 * 1024

  const CameraDeniedError: string := "Camera permission denied. Please check your browser settings."
  const InvalidFileError: string := "Please select a valid image file"
  const FileTooLargeError: string := "File size must be less than 5MB"
  const NoQrInImageError: string := "No QR code found in the image"
  const UploadFailedError: string := "Failed to read QR code. Please try again."
  const NothingToSaveError: string := "No QR data to save"

  /** The handles an optional ref holds. */
  function Held(ref: Option<nat>): set<nat> {
    if ref.Some? then {ref.value} else {}
  }

  /** Whether `handleFile` goes past its two checks. */
  function FileAccepted(file: Option<ImageFile>): (ok: bool)
    ensures file.Some? && StartsWith(file.value.mimeType, "image/") && file.value.size <= MaxUploadBytes ==> ok
    ensures file.Some? && !StartsWith(file.value.mimeType, "image/") ==> !ok
    ensures ok ==> file.Some? && file.value.size <= 5242880 && |file.value.mimeType| >= 6 && file.value.mimeType[5] == '/'
    ensures file.Some? && file.value.size > 5242880 ==> !ok
    ensures file.Some? && |file.value.mimeType| > 0 && file.value.mimeType[0] != 'i' ==> !ok
  {
    assert file.Some? && StartsWith(file.value.mimeType, "image/") ==> file.value.mimeType[5] == file.value.mimeType[..6][5] && file.value.mimeType[0] == file.value.mimeType[..6][0];
    file.Some? && StartsWith(file.value.mimeType, "image/") && file.value.size <= MaxUploadBytes
  }

  class Reader {
    var mode: Mode
    var qrData: Option<string>
    var error: string
    var preview: Option<string>
    var loading: bool
    var history: seq<ScanEntry>
    var store: map<string, ScanBlob>
    var qrFound: bool
    var scanning: bool
    var scanInterval: Option<nat>
    var stream: Option<nat>
    var liveTimers: set<nat>
    var openStreams: set<nat>
    var nextHandle: nat
    var pendingStarts: nat
    var outstanding: nat
    var uploadsPending: nat

    /**
      At most one interval runs and it is the one the ref holds; the held
      stream is open; every handle was issued; published data is non-empty.
    */
    ghost predicate Valid()
      reads this
    {
      && liveTimers == Held(scanInterval)
      && Held(stream) <= openStreams
      && (forall h :: h in liveTimers ==> h < nextHandle)
      && (forall h :: h in openStreams ==> h < nextHandle)
      && (qrData.Some? ==> qrData.value != "")
    }

    /** Mounting: the initial state, then `loadHistoryFromStorage` on `saved`. */
    constructor(saved: map<string, ScanBlob>)
      ensures Valid()
      ensures mode == Upload && qrData.None? && error == "" && preview.None? && !loading
      ensures !qrFound && !scanning && scanInterval.None? && stream.None?
      ensures liveTimers == {} && openStreams == {} && nextHandle == 1 && pendingStarts == 0 && outstanding == 0 && uploadsPending == 0
      ensures history == (if LoadScans(saved).0.Some? then LoadScans(saved).0.value else [])
      ensures store == LoadScans(saved).1
      ensures forall e :: e in history ==> IsSavable(e)
    {
      var (loaded, s) := LoadScans(saved);
      mode := Upload;
      qrData := None;
      error := "";
      preview := None;
      loading := false;
      history := if loaded.Some? then loaded.value else [];
      store := s;
      qrFound := false;
      scanning := false;
      scanInterval := None;
      stream := None;
      liveTimers := {};
      openStreams := {};
      nextHandle := 1;
      pendingStarts := 0;
      outstanding := 0;
      uploadsPending := 0;
    }

    /**
      `startCamera`: clears error, data and both flags; with permission the new
      stream replaces the held one (which stays open) and a start of the
      sampling interval is scheduled; without it, only the error is set.
    */
    method StartCamera(granted: bool)
      requires Valid()
      modifies this
      ensures Valid()
      ensures qrData.None? && !qrFound && !scanning
      ensures error == (if granted then "" else CameraDeniedError)
      ensures granted ==>
        && stream == Some(old(nextHandle))
        && openStreams == old(openStreams) + {old(nextHandle)}
        && nextHandle == old(nextHandle) + 1
        && pendingStarts == old(pendingStarts) + 1
      ensures !granted ==> unchanged(`stream, `openStreams, `nextHandle, `pendingStarts)
      ensures granted && old(stream).Some? ==> old(stream).value in openStreams && stream != old(stream)
      ensures unchanged(`mode, `preview, `loading, `history, `store, `scanInterval, `liveTimers, `outstanding, `uploadsPending)
    {
      if granted {
        OpenStream();
      }
      error := if granted then "" else CameraDeniedError;
      qrData := None;
      qrFound := false;
      scanning := false;
    }

    /** A granted stream: it gets a fresh handle, the ref holds it and a start of the interval is scheduled. */
    method OpenStream()
      requires Valid()
      modifies this`stream, this`openStreams, this`nextHandle, this`pendingStarts
      ensures Valid()
      ensures stream == Some(old(nextHandle)) && openStreams == old(openStreams) + {old(nextHandle)}
      ensures nextHandle == old(nextHandle) + 1 && pendingStarts == old(pendingStarts) + 1
      ensures old(stream).Some? ==> old(stream).value in openStreams && stream != old(stream)
    {
      assert old(stream).Some? ==> old(stream).value < nextHandle;
      stream := Some(nextHandle);
      openStreams := openStreams + {nextHandle};
      nextHandle := nextHandle + 1;
      pendingStarts := pendingStarts + 1;
    }

    /** `stopCamera`: the held interval is cleared, the held stream stopped, both refs emptied. */
    method StopCamera()
      requires Valid()
      modifies this
      ensures Valid()
      ensures scanInterval.None? && stream.None? && liveTimers == {}
      ensures openStreams == old(openStreams) - Held(old(stream))
      ensures old(scanInterval).None? && old(stream).None? ==> unchanged(this)
      ensures unchanged(`mode, `qrData, `error, `preview, `loading, `history, `store, `qrFound, `scanning)
      ensures unchanged(`nextHandle, `pendingStarts, `outstanding, `uploadsPending)
    {
      if scanInterval.Some? {
        liveTimers := liveTimers - {scanInterval.value};
        scanInterval := None;
      }
      if stream.Some? {
        openStreams := openStreams - {stream.value};
        stream := None;
      }
    }

    /** The scheduled `startScanning`: the running interval is cleared and a new one started. */
    method StartScanning()
      requires Valid() && pendingStarts > 0
      modifies this
      ensures Valid()
      ensures scanInterval == Some(old(nextHandle)) && liveTimers == {old(nextHandle)}
      ensures nextHandle == old(nextHandle) + 1 && pendingStarts == old(pendingStarts) - 1
      ensures unchanged(`mode, `qrData, `error, `preview, `loading, `history, `store, `qrFound, `scanning)
      ensures unchanged(`stream, `openStreams, `outstanding, `uploadsPending)
    {
      pendingStarts := pendingStarts - 1;
      if scanInterval.Some? {
        liveTimers := liveTimers - {scanInterval.value};
      }
      scanInterval := Some(nextHandle);
      liveTimers := liveTimers + {nextHandle};
      nextHandle := nextHandle + 1;
    }

    /**
      One tick of the running interval. `video` is the video element (None when
      not mounted), `overlayDetached` says the overlay canvas exists but has no
      parent. A frame is sent, and marked in flight, only when nothing is found
      or in flight, the frame has both dimensions and the crop has pixels.
    */
    method Tick(timer: nat, video: Option<Frame>, viewportWidth: int, overlayDetached: bool) returns (sent: Option<Crop>)
      requires Valid() && timer in liveTimers
      modifies this
      ensures Valid()
      ensures sent.None? <==>
        || old(qrFound) || old(scanning) || video.None?
        || video.value.width == 0 || video.value.height == 0
        || overlayDetached
        || !BlobProduced(CenterCrop(video.value, CropFraction(viewportWidth)))
      ensures sent.None? ==> unchanged(this)
      ensures sent.Some? ==>
        && sent.value == CenterCrop(video.value, CropFraction(viewportWidth))
        && scanning && outstanding == old(outstanding) + 1
      ensures unchanged(`mode, `qrData, `error, `preview, `loading, `history, `store, `qrFound)
      ensures unchanged(`scanInterval, `stream, `liveTimers, `openStreams, `nextHandle, `pendingStarts, `uploadsPending)
    {
      sent := None;
      if video.None? || qrFound || scanning {
        return;
      }
      var frame := video.value;
      if frame.width == 0 || frame.height == 0 {
        return;
      }
      var crop := CenterCrop(frame, CropFraction(viewportWidth));
      if overlayDetached {
        return;
      }
      if !BlobProduced(crop) {
        return;
      }
      scanning := true;
      outstanding := outstanding + 1;
      sent := Some(crop);
    }

    /**
      The decoder's reply to a frame: data publishes it, sets found and stops
      the camera; anything else only clears the in-flight flag.
    */
    method OnDecodeReply(reply: DecodeReply)
      requires Valid() && outstanding > 0
      modifies this
      ensures Valid()
      ensures outstanding == old(outstanding) - 1
      ensures DecodedText(reply).Some? ==>
        && qrFound && qrData == DecodedText(reply)
        && scanInterval.None? && stream.None? && liveTimers == {}
        && openStreams == old(openStreams) - Held(old(stream))
        && unchanged(`scanning)
      ensures DecodedText(reply).None? ==>
        && !scanning
        && unchanged(`qrFound, `qrData, `scanInterval, `stream, `liveTimers, `openStreams)
      ensures unchanged(`mode, `error, `preview, `loading, `history, `store)
      ensures unchanged(`nextHandle, `pendingStarts, `uploadsPending)
    {
      outstanding := outstanding - 1;
      var text := DecodedText(reply);
      if text.Some? {
        qrFound := true;
        qrData := text;
        StopCamera();
      } else {
        scanning := false;
      }
    }

    /**
      `handleFile`: a missing file or one whose type does not start with
      `image/` and a file over 5 MiB only set their error; an accepted file
      stops the camera, switches to upload mode, shows its preview and sends
      it to the decoder.
    */
    method HandleFile(file: Option<ImageFile>, previewUrl: string) returns (accepted: bool)
      requires Valid()
      modifies this
      ensures Valid()
      ensures accepted <==> FileAccepted(file)
      ensures !accepted ==>
        && error == (if file.None? || !StartsWith(file.value.mimeType, "image/") then InvalidFileError else FileTooLargeError)
        && unchanged(`mode, `qrData, `preview, `loading, `qrFound, `scanning, `scanInterval, `stream, `liveTimers, `openStreams)
        && unchanged(`uploadsPending)
      ensures accepted ==>
        && mode == Upload && error == "" && qrData.None? && preview == Some(previewUrl) && loading
        && scanInterval.None? && stream.None? && liveTimers == {}
        && openStreams == old(openStreams) - Held(old(stream))
        && uploadsPending == old(uploadsPending) + 1
        && unchanged(`qrFound, `scanning)
      ensures unchanged(`history, `store, `nextHandle, `pendingStarts, `outstanding)
    {
      if file.None? || !StartsWith(file.value.mimeType, "image/") {
        error := InvalidFileError;
        return false;
      }
      if file.value.size > MaxUploadBytes {
        error := FileTooLargeError;
        return false;
      }
      AcceptFile(previewUrl);
      accepted := true;
    }

    /** An accepted file: the camera stops, upload mode shows the preview, and the decode request goes out. */
    method AcceptFile(previewUrl: string)
      requires Valid()
      modifies this
      ensures Valid()
      ensures mode == Upload && error == "" && qrData.None? && preview == Some(previewUrl) && loading
      ensures scanInterval.None? && stream.None? && liveTimers == {}
      ensures openStreams == old(openStreams) - Held(old(stream))
      ensures uploadsPending == old(uploadsPending) + 1
      ensures unchanged(`qrFound, `scanning, `history, `store, `nextHandle, `pendingStarts, `outstanding)
    {
      StopCamera();
      mode := Upload;
      error := "";
      qrData := None;
      preview := Some(previewUrl);
      loading := true;
      uploadsPending := uploadsPending + 1;
    }

    /** The reply to an upload: data is published, otherwise the matching error is set; loading ends. */
    method OnUploadReply(reply: DecodeReply)
      requires Valid() && uploadsPending > 0
      modifies this
      ensures Valid()
      ensures !loading && uploadsPending == old(uploadsPending) - 1
      ensures DecodedText(reply).Some? ==> qrData == DecodedText(reply) && unchanged(`error)
      ensures reply.TransportError? ==> error == UploadFailedError && unchanged(`qrData)
      ensures reply.Answered? && DecodedText(reply).None? ==> error == NoQrInImageError && unchanged(`qrData)
      ensures unchanged(`mode, `preview, `history, `store, `qrFound, `scanning, `scanInterval, `stream, `liveTimers)
      ensures unchanged(`openStreams, `nextHandle, `pendingStarts, `outstanding)
    {
      var text := DecodedText(reply);
      if reply.TransportError? {
        error := UploadFailedError;
      } else if text.Some? {
        qrData := text;
      } else {
        error := NoQrInImageError;
      }
      loading := false;
      uploadsPending := uploadsPending - 1;
    }

    /** The save button: with no data it sets the error; otherwise `addToHistory` at `now` and the error is cleared. */
    method SaveButton(now: int)
      requires Valid()
      modifies this
      ensures Valid()
      ensures old(qrData).None? ==> error == NothingToSaveError && unchanged(`history)
      ensures old(qrData).Some? ==> error == "" && history == AddScan(old(history), old(qrData).value, now)
      ensures unchanged(`mode, `qrData, `preview, `loading, `store, `qrFound, `scanning, `scanInterval, `stream, `liveTimers)
      ensures unchanged(`openStreams, `nextHandle, `pendingStarts, `outstanding, `uploadsPending)
    {
      if qrData.None? || qrData.value == "" {
        error := NothingToSaveError;
        return;
      }
      history := AddScan(history, qrData.value, now);
      error := "";
    }

    /** `handleClear`: result, error, preview and loading are reset and both flags cleared. */
    method HandleClear()
      requires Valid()
      modifies this
      ensures Valid()
      ensures qrData.None? && error == "" && preview.None? && !loading && !qrFound && !scanning
      ensures unchanged(`mode, `history, `store, `scanInterval, `stream, `liveTimers, `openStreams)
      ensures unchanged(`nextHandle, `pendingStarts, `outstanding, `uploadsPending)
    {
      qrData := None;
      error := "";
      preview := None;
      loading := false;
      qrFound := false;
      scanning := false;
    }

    /** `clearHistory`: empties the list when the user confirms. */
    method ClearHistory(confirmed: bool)
      modifies `history
      ensures history == if confirmed then [] else old(history)
    {
      if confirmed {
        history := [];
      }
    }

    /** `removeFromHistory`. */
    method RemoveFromHistory(id: int)
      modifies `history
      ensures history == RemoveScan(old(history), id)
    {
      history := RemoveScan(history, id);
    }

    /** The persist effect, run after the history changes. */
    method PersistHistory()
      modifies `store
      ensures store == PersistScans(history, old(store))
    {
      store := PersistScans(history, store);
    }
  }

  /**
    A scan from start to finish: the first tick sends the centre crop, a second
    tick while it is in flight sends nothing, and the reply's data ends the
    scan with the interval cleared and the stream stopped.
  */
  method ScanToCompletion() returns (first: Option<Crop>, second: Option<Crop>, data: Option<string>, stopped: bool)
    ensures first == Some(Crop(324.0, 478.0, 198.0))
    ensures second.None?
    ensures data == Some("hello")
    ensures stopped
  {
    var r := new Reader(map[]);
    r.StartCamera(true);
    r.StartScanning();
    var t := r.scanInterval.value;
    var frame := Frame(1280, 720);
    first := r.Tick(t, Some(frame), 1024, false);
    second := r.Tick(t, Some(frame), 1024, false);
    r.OnDecodeReply(Answered(Some("hello")));
    data := r.qrData;
    stopped := r.liveTimers == {} && r.openStreams == {};
  }

  /**
    Restarting the camera while a frame is in flight clears the in-flight flag,
    so the next tick sends a second frame before the first is answered.
  */
  method RestartWhileInFlight() returns (inFlight: nat, streamsOpen: nat)
    ensures inFlight == 2
    ensures streamsOpen == 2
  {
    var frame := Frame(640, 480);
    assert CenterCrop(frame, CropFraction(400)).side == 312.0;
    var r := new Reader(map[]);
    r.StartCamera(true);
    r.StartScanning();
    var s1 := r.Tick(r.scanInterval.value, Some(frame), 400, false);
    assert r.outstanding == 1 && r.openStreams == {1};
    r.StartCamera(true);
    assert r.openStreams == {1, 3};
    r.StartScanning();
    var s2 := r.Tick(r.scanInterval.value, Some(frame), 400, false);
    inFlight := r.outstanding;
    streamsOpen := |r.openStreams|;
  }

  /** A file of exactly 5 MiB is accepted; one byte more is refused with the size error. */
  method UploadSizeBoundary() returns (atLimit: bool, overLimit: bool, overLimitError: string)
    ensures atLimit && !overLimit
    ensures overLimitError == FileTooLargeError
  {
    var r := new Reader(map[]);
    atLimit := r.HandleFile(Some(ImageFile("image/png", 5242880)), "blob:a");
    overLimit := r.HandleFile(Some(ImageFile("image/png", 5242881)), "blob:b");
    overLimitError := r.error;
  }
}
