/** The voice-activity detector of the RTC library's `SoundVolumeMonitor`:
    the loudest sample of a recorded buffer, its level in decibels, the
    speech/silence decision against a threshold, and the recording flag
    that `start` and `stop` guard. The recorder, the timer and the
    floating-point logarithm are outside the model: the recorder's
    initialisation and the buffer it fills are inputs, and so is the
    decibel value of a non-silent buffer. */
module SoundVolume {
  import opened Common

  /** A Java `short`: one signed 16-bit PCM sample. */
  type Short = x: int | -32768 <= x <= 32767

  /** The default speech threshold in decibels. */
  const VolumeThreshold: int := -100

  /** The level reported for a buffer without any sound. */
  const SilenceLevel: int := -160

  /** The default timer period and sampling rate of `start()`. */
  const MonitorInterval: int := 1
  const SamplingRate: int := 22050

  /** `Math.abs` on a sample widened to `int` (no overflow at -32768). */
  function Abs(x: int): (r: nat)
    ensures r == x || r == -x
    ensures r >= x && r >= -x
  {
    if x < 0 then -x else x
  }

  /** The largest absolute sample value, 0 for an empty buffer: the value
      the scan of `getMaxAmplitude` ends with. */
  function MaxAbs(s: seq<Short>): (m: nat)
    ensures m <= 32768
    ensures forall i :: 0 <= i < |s| ==> Abs(s[i]) <= m
    ensures m == 0 || exists i :: 0 <= i < |s| && Abs(s[i]) == m
  {
    if s == [] then 0
    else
      var init := s[..|s| - 1];
      var m0 := MaxAbs(init);
      assert forall i :: 0 <= i < |init| ==> s[i] == init[i];
      var last := Abs(s[|s| - 1]);
      if m0 < last then last else m0
  }

  /** A buffer has a zero maximum exactly when every sample is zero. */
  lemma SilentIffZero(s: seq<Short>)
    ensures MaxAbs(s) == 0 <==> forall i :: 0 <= i < |s| ==> s[i] == 0
  {
    if MaxAbs(s) != 0 {
      var i :| 0 <= i < |s| && Abs(s[i]) == MaxAbs(s);
      assert s[i] != 0;
    }
  }

  /** `getMaxAmplitude`: scans every sample of `buffer`, whatever
      `bytesRead` says, keeping the largest absolute value seen. */
  method GetMaxAmplitude(buffer: array<Short>, bytesRead: int) returns (maxAmplitude: int)
    ensures 0 <= maxAmplitude <= 32768
    ensures forall i :: 0 <= i < buffer.Length ==> Abs(buffer[i]) <= maxAmplitude
    ensures maxAmplitude == 0 || exists i :: 0 <= i < buffer.Length && Abs(buffer[i]) == maxAmplitude
    ensures maxAmplitude == MaxAbs(buffer[..])
  {
    maxAmplitude := 0;
    for n := 0 to buffer.Length
      invariant maxAmplitude == MaxAbs(buffer[..n])
    {
      assert buffer[..n + 1][..n] == buffer[..n];
      var sample := buffer[n];
      if Abs(sample) > maxAmplitude {
        maxAmplitude := Abs(sample);
      }
    }
    assert buffer[..buffer.Length] == buffer[..];
  }

  /** `calculateValue`: a non-positive amplitude is reported as silence
      (-160 dB). Any other amplitude gives `logValue`, the truncated
      `20 * ln(maxAmplitude / 32767)` the floating-point branch computes. */
  function CalculateValue(maxAmplitude: int, logValue: int): (value: int)
    ensures maxAmplitude <= 0 ==> value == SilenceLevel
    ensures maxAmplitude > 0 ==> value == logValue
  {
    if maxAmplitude <= 0 then SilenceLevel else logValue
  }

  /** `detectSound`: speech exactly when the level is above the threshold;
      a level equal to the threshold is silence. */
  function DetectSound(threshold: int, volumeValue: int): (status: VadStatus)
    ensures status == Speech <==> volumeValue > threshold
    ensures status == Silence <==> volumeValue <= threshold
  {
    if volumeValue > threshold then Speech else Silence
  }

  /** One run of the timer task: the status passed to the listener for a
      buffer the recorder filled; `logValue` stands for the decibel value of
      the floating-point branch. */
  method Tick(buffer: array<Short>, bytesRead: int, logValue: int) returns (status: VadStatus)
    ensures status == DetectSound(VolumeThreshold, CalculateValue(MaxAbs(buffer[..]), logValue))
    ensures (forall i :: 0 <= i < buffer.Length ==> buffer[i] == 0) ==> status == Silence
    ensures (exists i :: 0 <= i < buffer.Length && buffer[i] != 0) ==> (status == Speech <==> logValue > VolumeThreshold)
  {
    var amplitude := GetMaxAmplitude(buffer, bytesRead);
    SilentIffZero(buffer[..]);
    var value := CalculateValue(amplitude, logValue);
    status := DetectSound(VolumeThreshold, value);
  }

  /** Samples the recorder left unfilled stay zero and do not change the
      maximum. */
  lemma MaxAbsZeroPadded(s: seq<Short>, zeros: seq<Short>)
    requires forall i :: 0 <= i < |zeros| ==> zeros[i] == 0
    ensures MaxAbs(s + zeros) == MaxAbs(s)
  {
    var t := s + zeros;
    if MaxAbs(t) != 0 {
      var i :| 0 <= i < |t| && Abs(t[i]) == MaxAbs(t);
      assert t[i] == s[i];
    }
    if MaxAbs(s) != 0 {
      var i :| 0 <= i < |s| && Abs(s[i]) == MaxAbs(s);
      assert t[i] == s[i];
    }
  }

  /** Whatever the floating-point branch would say, a silent buffer is
      classified as silence under the default threshold. */
  lemma SilentBufferIsSilence(s: seq<Short>, logValue: int)
    requires forall i :: 0 <= i < |s| ==> s[i] == 0
    ensures DetectSound(VolumeThreshold, CalculateValue(MaxAbs(s), logValue)) == Silence
  {
    SilentIffZero(s);
  }

  /** An exception `start` lets escape to its caller. */
  datatype StartError = IllegalArgument

  /** The state of a monitor: the `isRecording` flag, whether an
      `AudioRecord`, a `Timer` and a listener are held, whether the timer
      still runs the sampling task, the buffer size and the timer period. */
  class SoundVolumeMonitor {
    var isRecording: bool
    var recorderHeld: bool
    var timerHeld: bool
    /** The timer runs the sampling task; a task that throws ends the
        timer's thread, and the task never runs again. */
    var taskScheduled: bool
    var hasListener: bool
    var bufferSize: int
    var interval: int

    /** A timer is held exactly while recording; recording needs a recorder
        and a valid buffer size; the task only runs on a held timer with a
        positive period. */
    ghost predicate Valid()
      reads this
    {
      && (timerHeld <==> isRecording)
      && (isRecording ==> recorderHeld && bufferSize >= 1)
      && (taskScheduled ==> timerHeld && interval > 0)
    }

    constructor ()
      ensures Valid()
      ensures !isRecording && !recorderHeld && !timerHeld && !taskScheduled && !hasListener
    {
      isRecording, recorderHeld, timerHeld, taskScheduled, hasListener := false, false, false, false, false;
      bufferSize, interval := 0, 0;
    }

    /** `start(monitorInterval, samplingRate)`: nothing while recording.
        Otherwise the buffer size becomes `minBufferSize` (the platform's
        minimum for the sampling rate, negative for an error). A size below
        1 makes the `AudioRecord` constructor throw before the recorder is
        replaced. Otherwise the recorder is created, and recording and the
        timer start only when it reports `initialised`; a period below 1
        then makes the timer refuse the task, after `isRecording` is set. */
    method Start(monitorInterval: int, minBufferSize: int, initialised: bool) returns (error: Option<StartError>)
      requires Valid()
      modifies this`isRecording, this`recorderHeld, this`timerHeld, this`taskScheduled, this`bufferSize, this`interval
      ensures Valid()
      ensures old(isRecording) ==> error == None && unchanged(this)
      ensures !old(isRecording) ==> bufferSize == minBufferSize
      ensures !old(isRecording) && minBufferSize < 1 ==>
                && error == Some(IllegalArgument)
                && !isRecording && !timerHeld && !taskScheduled
                && recorderHeld == old(recorderHeld) && interval == old(interval)
      ensures !old(isRecording) && minBufferSize >= 1 ==>
                && recorderHeld
                && isRecording == initialised && timerHeld == initialised
                && (initialised && monitorInterval >= 1 ==> error == None && taskScheduled && interval == monitorInterval)
                && (initialised && monitorInterval < 1 ==> error == Some(IllegalArgument) && !taskScheduled && interval == old(interval))
                && (!initialised ==> error == None && !taskScheduled && interval == old(interval))
    {
      if isRecording {
        return None;
      }
      bufferSize := minBufferSize;
      if minBufferSize < 1 {
        return Some(IllegalArgument);
      }
      recorderHeld := true;
      if initialised {
        isRecording := true;
        error := StartTimer(monitorInterval);
      } else {
        error := None;
      }
    }

    /** `start()`: the default period of 1, so only the buffer size can
        make it throw. */
    method StartDefault(minBufferSize: int, initialised: bool) returns (error: Option<StartError>)
      requires Valid()
      modifies this`isRecording, this`recorderHeld, this`timerHeld, this`taskScheduled, this`bufferSize, this`interval
      ensures Valid()
      ensures old(isRecording) ==> error == None && unchanged(this)
      ensures !old(isRecording) ==>
                && bufferSize == minBufferSize
                && (error.Some? <==> minBufferSize < 1)
                && (minBufferSize >= 1 ==> recorderHeld && isRecording == initialised && taskScheduled == initialised)
                && (minBufferSize >= 1 && initialised ==> interval == MonitorInterval)
    {
      error := Start(MonitorInterval, minBufferSize, initialised);
    }

    /** `startTimer`: a new timer, then the sampling task at a fixed rate;
        the timer rejects a period below 1 and schedules nothing. */
    method StartTimer(monitorInterval: int) returns (error: Option<StartError>)
      modifies this`timerHeld, this`taskScheduled, this`interval
      ensures timerHeld
      ensures monitorInterval >= 1 ==> error == None && taskScheduled && interval == monitorInterval
      ensures monitorInterval < 1 ==> error == Some(IllegalArgument) && !taskScheduled && interval == old(interval)
    {
      timerHeld := true;
      taskScheduled := false;
      if monitorInterval < 1 {
        return Some(IllegalArgument);
      }
      taskScheduled := true;
      interval := monitorInterval;
      error := None;
    }

    /** `stopTimer`: cancels and drops the timer when one is held. */
    method StopTimer()
      requires Valid()
      modifies this`timerHeld, this`taskScheduled
      ensures !timerHeld && !taskScheduled
    {
      if timerHeld {
        timerHeld := false;
        taskScheduled := false;
      }
    }

    /** `stop`: nothing unless recording. Otherwise the timer is cancelled,
        the flag cleared and the recorder dropped, whether or not releasing
        it fails. */
    method Stop()
      requires Valid()
      modifies this`isRecording, this`recorderHeld, this`timerHeld, this`taskScheduled
      ensures Valid()
      ensures !old(isRecording) ==> unchanged(this)
      ensures old(isRecording) ==> !isRecording && !timerHeld && !taskScheduled && !recorderHeld
    {
      if !isRecording {
        return;
      }
      StopTimer();
      isRecording := false;
      recorderHeld := false;
    }

    /** `setSoundVolumeListener(listener)`: `present` says whether the
        listener is non-null. */
    method SetSoundVolumeListener(present: bool)
      modifies this`hasListener
      ensures hasListener == present
    {
      hasListener := present;
    }

    /** One run of the sampling task: a zeroed buffer of `bufferSize`
        samples, of which the recorder fills the first `|recorded|`; the
        status goes to the listener. Without a listener the report throws,
        which ends the timer's thread: the task never runs again, while
        `isRecording` stays set. */
    method RunTask(recorded: seq<Short>, logValue: int) returns (reported: Option<VadStatus>)
      requires Valid() && taskScheduled
      requires |recorded| <= bufferSize
      modifies this`taskScheduled
      ensures Valid() && isRecording
      ensures hasListener ==>
                && taskScheduled
                && reported == Some(DetectSound(VolumeThreshold, CalculateValue(MaxAbs(recorded), logValue)))
      ensures !hasListener ==> !taskScheduled && reported == None
    {
      var buffer := new Short[bufferSize](_ => 0);
      forall i | 0 <= i < |recorded| {
        buffer[i] := recorded[i];
      }
      assert buffer[..] == recorded + buffer[|recorded|..];
      MaxAbsZeroPadded(recorded, buffer[|recorded|..]);
      var status := Tick(buffer, |recorded|, logValue);
      if hasListener {
        reported := Some(status);
      } else {
        taskScheduled := false;
        reported := None;
      }
    }
  }
}
