/**
  The older, camera-only scanner component. It differs from the newer one in
  four ways that matter here: starting the camera keeps the previous result,
  the permission error is shorter, starting the interval does not clear the
  running one, and a tick checks only the frame width and always crops 45% of
  the smaller side.
*/
module LegacyReader {
  import opened Wrappers
  import opened Strings
  import opened Sampler
  import opened ScanHistory

  const LegacyDeniedError: string := "Camera permission denied"
  const LegacyCropFraction: real := 0.45

  function Held(ref: Option<nat>): set<nat> {
    if ref.Some? then {ref.value} else {}
  }

  /** `qrData?.startsWith("http")`: any data beginning with those four letters. */
  function LegacyIsUrl(qrData: Option<string>): (link: bool)
    ensures link <==> qrData.Some? && |qrData.value| >= 4 && qrData.value[..4] == "http"
    ensures link ==> qrData.value[0] == 'h'
    ensures qrData.Some? && DetectQrType(qrData.value) == Url ==> link
  {
    if qrData.None? then false
    else
      var v := qrData.value;
      SchemeStartsWithHttp(v);
      assert StartsWith(v, "http") ==> v[0] == v[..4][0];
      StartsWith(v, "http")
  }

  /** Both URL schemes the newer reader looks for begin with "http". */
  lemma SchemeStartsWithHttp(v: string)
    ensures StartsWith(v, "http://") || StartsWith(v, "https://") ==> StartsWith(v, "http")
  {
    if StartsWith(v, "http://") {
      StartsWithTransitive(v, "http://", "http");
    } else if StartsWith(v, "https://") {
      StartsWithTransitive(v, "https://", "http");
    }
  }

  /** Data the newer reader classifies as a URL is a link here too; the converse fails. */
  lemma LegacyIsUrlComparedToDetect(data: string)
    ensures DetectQrType(data) == Url ==> LegacyIsUrl(Some(data))
    ensures LegacyIsUrl(Some("httpbin")) && DetectQrType("httpbin") == Text
  {
    if DetectQrType(data) == Url {
      if StartsWith(data, "http://") {
        assert data[..4] == data[..7][..4];
      } else {
        assert data[..4] == data[..8][..4];
      }
    }
    assert "httpbin"[..4] == "http";
    FirstCharDiffers("httpbin", "WIFI:");
    FirstCharDiffers("httpbin", "mailto:");
    FirstCharDiffers("httpbin", "tel:");
    FirstCharDiffers("httpbin", "BEGIN:VCARD");
    assert !StartsWith("httpbin", "http://") by { assert "httpbin"[..7][4] == 'b'; }
  }

  /** A frame with width but no height yields an empty crop, so no frame is sent. */
  lemma ZeroHeightSendsNothing(w: nat)
    ensures !BlobProduced(CenterCrop(Frame(w, 0), LegacyCropFraction))
  {
  }

  class LegacyScanner {
    var qrData: Option<string>
    var error: string
    var qrFound: bool
    var scanning: bool
    var scanInterval: Option<nat>
    var stream: Option<nat>
    var liveTimers: set<nat>
    var openStreams: set<nat>
    var nextHandle: nat
    var pendingStarts: nat
    var outstanding: nat

    /** The refs point at live handles, every handle was issued, published data is non-empty. */
    ghost predicate Valid()
      reads this
    {
      && Held(scanInterval) <= liveTimers
      && Held(stream) <= openStreams
      && (forall h :: h in liveTimers ==> h < nextHandle)
      && (forall h :: h in openStreams ==> h < nextHandle)
      && (qrData.Some? ==> qrData.value != "")
    }

    constructor()
      ensures Valid()
      ensures qrData.None? && error == "" && !qrFound && !scanning
      ensures scanInterval.None? && stream.None? && liveTimers == {} && openStreams == {}
      ensures nextHandle == 1 && pendingStarts == 0 && outstanding == 0
    {
      qrData := None;
      error := "";
      qrFound := false;
      scanning := false;
      scanInterval := None;
      stream := None;
      liveTimers := {};
      openStreams := {};
      nextHandle := 1;
      pendingStarts := 0;
      outstanding := 0;
    }

    /** `startCamera`: clears the error and both flags but keeps the last result. */
    method StartCamera(granted: bool)
      requires Valid()
      modifies this
      ensures Valid()
      ensures !qrFound && !scanning
      ensures error == (if granted then "" else LegacyDeniedError)
      ensures granted ==>
        && stream == Some(old(nextHandle))
        && openStreams == old(openStreams) + {old(nextHandle)}
        && nextHandle == old(nextHandle) + 1
        && pendingStarts == old(pendingStarts) + 1
      ensures !granted ==> unchanged(`stream, `openStreams, `nextHandle, `pendingStarts)
      ensures unchanged(`qrData, `scanInterval, `liveTimers, `outstanding)
    {
      error := "";
      qrFound := false;
      scanning := false;
      if granted {
        stream := Some(nextHandle);
        openStreams := openStreams + {nextHandle};
        nextHandle := nextHandle + 1;
        pendingStarts := pendingStarts + 1;
      } else {
        error := LegacyDeniedError;
      }
    }

    /** `stopCamera`: only the interval and stream the refs hold are stopped. */
    method StopCamera()
      requires Valid()
      modifies this
      ensures Valid()
      ensures scanInterval.None? && stream.None?
      ensures liveTimers == old(liveTimers) - Held(old(scanInterval))
      ensures openStreams == old(openStreams) - Held(old(stream))
      ensures old(scanInterval).None? && old(stream).None? ==> unchanged(this)
      ensures unchanged(`qrData, `error, `qrFound, `scanning, `nextHandle, `pendingStarts, `outstanding)
    {
      if scanInterval.Some? {
        liveTimers := liveTimers - {scanInterval.value};
        scanInterval := None;
      }
      if stream.Some? {
        openStreams := openStreams - {stream.value};
        stream := None;
      }
    }

    /** The scheduled `startScanning`: a new interval, the previous one left running. */
    method StartScanning()
      requires Valid() && pendingStarts > 0
      modifies this
      ensures Valid()
      ensures scanInterval == Some(old(nextHandle))
      ensures liveTimers == old(liveTimers) + {old(nextHandle)} && |liveTimers| == |old(liveTimers)| + 1
      ensures nextHandle == old(nextHandle) + 1 && pendingStarts == old(pendingStarts) - 1
      ensures unchanged(`qrData, `error, `qrFound, `scanning, `stream, `openStreams, `outstanding)
    {
      pendingStarts := pendingStarts - 1;
      scanInterval := Some(nextHandle);
      liveTimers := liveTimers + {nextHandle};
      nextHandle := nextHandle + 1;
    }

    /** One tick of any running interval: the width is checked, the height is not. */
    method Tick(timer: nat, video: Option<Frame>) returns (sent: Option<Crop>)
      requires Valid() && timer in liveTimers
      modifies this
      ensures Valid()
      ensures sent.None? <==>
        || old(qrFound) || old(scanning) || video.None? || video.value.width == 0
        || !BlobProduced(CenterCrop(video.value, LegacyCropFraction))
      ensures sent.None? ==> unchanged(this)
      ensures sent.Some? ==>
        && sent.value == CenterCrop(video.value, LegacyCropFraction)
        && scanning && outstanding == old(outstanding) + 1
      ensures unchanged(`qrData, `error, `qrFound, `scanInterval, `stream, `liveTimers, `openStreams)
      ensures unchanged(`nextHandle, `pendingStarts)
    {
      sent := None;
      if video.None? || qrFound || scanning {
        return;
      }
      var frame := video.value;
      if frame.width == 0 {
        return;
      }
      var crop := CenterCrop(frame, LegacyCropFraction);
      if !BlobProduced(crop) {
        return;
      }
      scanning := true;
      outstanding := outstanding + 1;
      sent := Some(crop);
    }

    /** The decoder's reply: data publishes it, sets found and stops the camera; otherwise in-flight is cleared. */
    method OnDecodeReply(reply: DecodeReply)
      requires Valid() && outstanding > 0
      modifies this
      ensures Valid()
      ensures outstanding == old(outstanding) - 1
      ensures DecodedText(reply).Some? ==>
        && qrFound && qrData == DecodedText(reply)
        && scanInterval.None? && stream.None?
        && liveTimers == old(liveTimers) - Held(old(scanInterval))
        && openStreams == old(openStreams) - Held(old(stream))
        && unchanged(`scanning)
      ensures DecodedText(reply).None? ==>
        && !scanning
        && unchanged(`qrFound, `qrData, `scanInterval, `stream, `liveTimers, `openStreams)
      ensures unchanged(`error, `nextHandle, `pendingStarts)
    {
      outstanding := outstanding - 1;
      var text := DecodedText(reply);
      if text.Some? {
        qrFound := true;
        qrData := text;
        StopCamera();
      } else {
        scanning := false;
      }
    }
  }

  /**
    Starting the camera twice schedules two interval starts; stopping the
    camera afterwards clears only the second interval, so one keeps running.
  */
  method TimerLeak() returns (runningAfterStop: nat, streamsAfterStop: nat)
    ensures runningAfterStop == 1
    ensures streamsAfterStop == 1
  {
    var s := new LegacyScanner();
    s.StartCamera(true);
    s.StartCamera(true);
    s.StartScanning();
    s.StartScanning();
    s.StopCamera();
    assert s.liveTimers == {3};
    assert s.openStreams == {1};
    runningAfterStop := |s.liveTimers|;
    streamsAfterStop := |s.openStreams|;
  }
}
