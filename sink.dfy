/**
 * The audio path of spoppy/sink.py, run one step at a time: the decoder hands
 * batches of frames to `SpoppyAlsaSink.on_music_delivery`, which queues them;
 * each pass of the `run` loop takes the oldest batch, tells the player it was
 * delivered and writes it to `Sink`, which opens and configures the ALSA device
 * from the first batch it ever sees.
 */
module AudioSink {
  import opened Wrappers

  /** The decoder's sample types; only 16-bit native-endian is accepted by the device. */
  datatype SampleType = Int16NativeEndian | OtherSampleType(code: int)

  type Frames = seq<bv8>

  /** The session a batch came from; it is carried along and never read. */
  type SessionRef = nat

  /**
   * The decoder's live format object; `frameSize` is the value its
   * `frame_size()` method returns.
   */
  datatype LiveFormat = LiveFormat(sampleType: SampleType, sampleRate: int, channels: int, frameSize: int)

  /** The `AudioFormat` namedtuple a batch carries. */
  datatype AudioFormat = AudioFormat(sampleType: SampleType, sampleRate: int, frameSize: int, channels: int)

  /**
   * The copy of the live format taken at delivery time: the queued batch
   * keeps the sample type, rate, channel count and frame size the live format
   * reported when the batch arrived.
   */
  function CloneFormat(f: LiveFormat): (r: AudioFormat)
    ensures r.sampleType == f.sampleType && r.sampleRate == f.sampleRate
    ensures r.channels == f.channels && r.frameSize == f.frameSize
  {
    AudioFormat(f.sampleType, f.sampleRate, f.frameSize, f.channels)
  }

  // ---------------------------------------------------------------------
  // Sink: the ALSA device wrapper
  // ---------------------------------------------------------------------

  /** The PCM sample format set on the device, chosen by the machine's byte order. */
  datatype PcmFormat = S16LE | S16BE

  /** The device as configured, with everything written to it. */
  datatype Device = Device(name: string, format: PcmFormat, rate: int, channels: int, periodSize: int, writes: seq<Frames>)

  /** The failed `assert` on the sample type. */
  datatype SinkError = SampleTypeAssertion

  /**
   * The device after one accepted write: a missing device is first created and
   * configured from this batch; an existing one is only written to.
   */
  function DeviceAfterWrite(device: Option<Device>, name: string, littleEndian: bool,
                            format: AudioFormat, frames: Frames, numFrames: int): (r: Device)
    ensures device.Some? ==> r.writes == device.value.writes + [frames]
    ensures device.Some? ==> r.(writes := device.value.writes) == device.value
    ensures device.None? ==> r.writes == [frames] && r.name == name
    ensures device.None? ==> (r.format == S16LE <==> littleEndian)
    ensures device.None? ==> r.rate == format.sampleRate && r.channels == format.channels
    ensures device.None? ==> r.periodSize == numFrames * format.frameSize
  {
    match device
    case None =>
      Device(name, if littleEndian then S16LE else S16BE, format.sampleRate, format.channels,
             numFrames * format.frameSize, [frames])
    case Some(d) => d.(writes := d.writes + [frames])
  }

  /** A batch as the run loop takes it off the queue. */
  datatype Batch = Batch(session: SessionRef, format: AudioFormat, frames: Frames, numFrames: int)

  /** The device after writing every batch in turn, oldest first. */
  function DeviceAfterWrites(device: Option<Device>, name: string, littleEndian: bool, batches: seq<Batch>): Option<Device>
    decreases |batches|
  {
    if batches == [] then device
    else
      var b := batches[|batches| - 1];
      Some(DeviceAfterWrite(DeviceAfterWrites(device, name, littleEndian, batches[..|batches| - 1]),
                            name, littleEndian, b.format, b.frames, b.numFrames))
  }

  function FramesOf(batches: seq<Batch>): (r: seq<Frames>)
    ensures |r| == |batches| && forall i :: 0 <= i < |batches| ==> r[i] == batches[i].frames
  {
    if batches == [] then [] else FramesOf(batches[..|batches| - 1]) + [batches[|batches| - 1].frames]
  }

  /** An existing device keeps its configuration whatever is written to it; the writes pile up in order. */
  lemma {:induction false} ExistingDeviceKeepsConfiguration(d: Device, name: string, littleEndian: bool, batches: seq<Batch>)
    ensures var e := DeviceAfterWrites(Some(d), name, littleEndian, batches);
      && e.Some?
      && e.value.(writes := d.writes) == d
      && e.value.writes == d.writes + FramesOf(batches)
    decreases |batches|
  {
    if batches == [] {
      assert d.(writes := d.writes) == d;
    } else {
      var init := batches[..|batches| - 1];
      ExistingDeviceKeepsConfiguration(d, name, littleEndian, init);
      assert FramesOf(batches) == FramesOf(init) + [batches[|batches| - 1].frames];
    }
  }

  /**
   * Written from scratch, the device is configured from the first batch alone
   * (its rate, its channels, and a period of its frame count times its frame
   * size) and holds every batch's frames in order.
   */
  lemma {:induction false} DeviceConfiguredByFirstBatch(name: string, littleEndian: bool, batches: seq<Batch>)
    requires batches != []
    ensures var d := DeviceAfterWrites(None, name, littleEndian, batches);
      var first := batches[0];
      && d.Some?
      && d.value.name == name && d.value.format == (if littleEndian then S16LE else S16BE)
      && d.value.rate == first.format.sampleRate && d.value.channels == first.format.channels
      && d.value.periodSize == first.numFrames * first.format.frameSize
      && d.value.writes == FramesOf(batches)
    decreases |batches|
  {
    var init := batches[..|batches| - 1];
    if init == [] {
      assert batches == [batches[0]];
    } else {
      DeviceConfiguredByFirstBatch(name, littleEndian, init);
      assert init[0] == batches[0];
      assert FramesOf(batches) == FramesOf(init) + [batches[|batches| - 1].frames];
    }
  }

  /** `Sink`: holds the one ALSA device, created lazily. */
  class Sink {
    const deviceName: string
    /** `sys.byteorder == 'little'`. */
    const littleEndian: bool
    var device: Option<Device>

    constructor (deviceName: string, littleEndian: bool)
      ensures this.deviceName == deviceName && this.littleEndian == littleEndian
      ensures device == None
    {
      this.deviceName := deviceName;
      this.littleEndian := littleEndian;
      device := None;
    }

    /** Everything written to the device so far. */
    function Writes(): seq<Frames>
      reads this
    {
      match device
      case None => []
      case Some(d) => d.writes
    }

    /**
     * `Sink.on_music_delivery`: the sample type must be 16-bit native-endian;
     * the device is created and configured only if there is none yet; then the
     * frames are written and the device's answer, `accepted`, is returned.
     */
    method OnMusicDelivery(format: AudioFormat, frames: Frames, numFrames: int, accepted: nat)
      returns (r: Result<nat, SinkError>)
      modifies this`device
      ensures format.sampleType != Int16NativeEndian ==>
        r == Failure(SampleTypeAssertion) && device == old(device)
      ensures format.sampleType == Int16NativeEndian ==>
        && r == Success(accepted)
        && device == Some(DeviceAfterWrite(old(device), deviceName, littleEndian, format, frames, numFrames))
      ensures old(device).Some? ==> device.Some? && device.value.(writes := old(device).value.writes) == old(device).value
    {
      if format.sampleType != Int16NativeEndian {
        assert device.Some? ==> device.value.(writes := device.value.writes) == device.value;
        return Failure(SampleTypeAssertion);
      }
      match device {
        case None =>
          // the device is opened and configured from this batch, then written to
          device := Some(Device(deviceName, if littleEndian then S16LE else S16BE, format.sampleRate,
                                format.channels, numFrames * format.frameSize, [frames]));
        case Some(existing) =>
          device := Some(existing.(writes := existing.writes + [frames]));
      }
      r := Success(accepted);
    }
  }

  // ---------------------------------------------------------------------
  // The player and SpoppyAlsaSink
  // ---------------------------------------------------------------------

  /** One `player.music_delivered(sample_rate, num_frames)` call. */
  datatype Delivery = Delivery(sampleRate: int, numFrames: int)

  /** The player, as far as the sink sees it: the calls it receives. */
  class Player {
    var delivered: seq<Delivery>

    constructor ()
      ensures delivered == []
    {
      delivered := [];
    }

    method MusicDelivered(sampleRate: int, numFrames: int)
      modifies this
      ensures delivered == old(delivered) + [Delivery(sampleRate, numFrames)]
    {
      delivered := delivered + [Delivery(sampleRate, numFrames)];
    }
  }

  /** `_settings`: the rate and frame count of the first delivery. */
  datatype Settings = Settings(sampleRate: int, numFrames: int)

  /** What the outside world observes, in order. */
  datatype Event = Notified(delivery: Delivery) | Wrote(frames: Frames)

  /** How one pass of the run loop ended. */
  datatype Step =
    | Exited              // the stop event was set: the queue was dropped and `run` returned
    | Waiting             // paused: the thread polls `playing`
    | TimedOut            // nothing arrived within the queue timeout
    | Delivered           // one batch was announced and written
    | Crashed(error: SinkError)  // the sink's assertion failed and ended the thread

  /** `SpoppyAlsaSink`: the queue between the decoder and the device, drained by one thread. */
  class SpoppyAlsaSink {
    const player: Player
    const sink: Sink
    var playing: bool
    var queue: seq<Batch>
    var settings: Option<Settings>
    /** The thread is inside `while not self.playing`, where the stop event is not looked at. */
    var parked: bool
    /** `run` has returned or raised. */
    var finished: bool
    /** Player notifications and device writes, interleaved as they happen. */
    ghost var trace: seq<Event>

    /** A queued batch always finds the settings recorded. */
    ghost predicate Valid()
      reads this
    {
      queue != [] ==> settings.Some?
    }

    /** `SpoppyAlsaSink(player, session, stop_event)`: playing, with an empty queue and a fresh `Sink()`. */
    constructor (player: Player, littleEndian: bool)
      ensures Valid()
      ensures this.player == player && fresh(sink)
      ensures sink.deviceName == "default" && sink.littleEndian == littleEndian && sink.device == None
      ensures playing && queue == [] && settings == None
      ensures !parked && !finished && trace == []
    {
      playing := true;
      this.player := player;
      sink := new Sink("default", littleEndian);
      queue := [];
      settings := None;
      parked := false;
      finished := false;
      trace := [];
    }

    /** `clear`: drop every queued batch, one non-blocking `get` at a time. */
    method Clear()
      requires Valid()
      modifies this`queue
      ensures Valid()
      ensures queue == []
    {
      while queue != []
        decreases |queue|
      {
        queue := queue[1..];
      }
    }

    method Pause()
      modifies this`playing
      ensures !playing
    {
      playing := false;
    }

    method Play()
      modifies this`playing
      ensures playing
    {
      playing := true;
    }

    method Setup(sampleRate: int, numFrames: int)
      modifies this`settings
      ensures settings == Some(Settings(sampleRate, numFrames))
    {
      settings := Some(Settings(sampleRate, numFrames));
    }

    /**
     * `on_music_delivery` (the decoder's callback): record the settings if
     * none are recorded yet, queue the batch with a copy of its format, and
     * report every frame as taken.
     */
    method OnMusicDelivery(session: SessionRef, format: LiveFormat, frames: Frames, numFrames: int)
      returns (r: int)
      requires Valid()
      modifies this`queue, this`settings
      ensures Valid()
      ensures r == numFrames
      ensures queue == old(queue) + [Batch(session, CloneFormat(format), frames, numFrames)]
      ensures settings == if old(settings).None? then Some(Settings(format.sampleRate, numFrames)) else old(settings)
    {
      if settings.None? {
        Setup(format.sampleRate, numFrames);
      }
      var cloned := CloneFormat(format);
      queue := queue + [Batch(session, cloned, frames, numFrames)];
      r := numFrames;
    }

    /**
     * One pass of `run`. The stop event (`stopSet`) is looked at only when the
     * thread is not parked in the pause poll; on it the queue is dropped and
     * the loop ends. While paused nothing happens. Otherwise the oldest batch
     * is taken, the settings are read, the player is told, and the batch is
     * written; `accepted` is the device's answer to that write.
     */
    method RunStep(stopSet: bool, accepted: nat) returns (step: Step)
      requires Valid() && !finished
      modifies this, player, sink
      ensures Valid()
      ensures playing == old(playing) && settings == old(settings)
      ensures !old(parked) && stopSet ==>
        && step == Exited && finished && queue == []
        && parked == old(parked) && trace == old(trace)
        && player.delivered == old(player.delivered) && sink.device == old(sink.device)
      ensures (old(parked) || !stopSet) && !playing ==>
        && step == Waiting && parked && !finished && queue == old(queue) && trace == old(trace)
        && player.delivered == old(player.delivered) && sink.device == old(sink.device)
      ensures (old(parked) || !stopSet) && playing && old(queue) == [] ==>
        && step == TimedOut && !parked && !finished && queue == [] && trace == old(trace)
        && player.delivered == old(player.delivered) && sink.device == old(sink.device)
      ensures (old(parked) || !stopSet) && playing && old(queue) != [] ==>
        var b := old(queue)[0];
        var note := Delivery(b.format.sampleRate, b.numFrames);
        && !parked && queue == old(queue)[1..]
        && player.delivered == old(player.delivered) + [note]
        && (b.format.sampleType == Int16NativeEndian ==>
              && step == Delivered && !finished
              && trace == old(trace) + [Notified(note), Wrote(b.frames)]
              && sink.device == Some(DeviceAfterWrite(old(sink.device), sink.deviceName, sink.littleEndian,
                                                      b.format, b.frames, b.numFrames)))
        && (b.format.sampleType != Int16NativeEndian ==>
              && step == Crashed(SampleTypeAssertion) && finished
              && trace == old(trace) + [Notified(note)]
              && sink.device == old(sink.device))
    {
      if !parked && stopSet {
        Clear();
        finished := true;
        return Exited;
      }
      if !playing {
        parked := true;
        return Waiting;
      }
      parked := false;
      if queue == [] {
        return TimedOut;
      }
      var b := queue[0];
      queue := queue[1..];
      // `self._settings['num_frames']` and `['sample_rate']`: present, by Valid().
      var current := settings.value;
      player.MusicDelivered(b.format.sampleRate, b.numFrames);
      trace := trace + [Notified(Delivery(b.format.sampleRate, b.numFrames))];
      var written := sink.OnMusicDelivery(b.format, b.frames, b.numFrames, accepted);
      if written.Failure? {
        finished := true;
        return Crashed(written.error);
      }
      trace := trace + [Wrote(b.frames)];
      step := Delivered;
    }
  }

  // ---------------------------------------------------------------------
  // Driving the sink: the decoder and the run thread, step by step
  // ---------------------------------------------------------------------

  /** The arguments of one decoder callback. */
  datatype Incoming = Incoming(session: SessionRef, format: LiveFormat, frames: Frames, numFrames: int)

  function BatchesOf(xs: seq<Incoming>): (r: seq<Batch>)
    ensures |r| == |xs|
    ensures forall i :: 0 <= i < |xs| ==>
      r[i] == Batch(xs[i].session, CloneFormat(xs[i].format), xs[i].frames, xs[i].numFrames)
  {
    if xs == [] then []
    else
      var x := xs[|xs| - 1];
      BatchesOf(xs[..|xs| - 1]) + [Batch(x.session, CloneFormat(x.format), x.frames, x.numFrames)]
  }

  /** The player notifications for these batches, in order. */
  function NotesOf(batches: seq<Batch>): (r: seq<Delivery>)
    ensures |r| == |batches|
    ensures forall i :: 0 <= i < |batches| ==> r[i] == Delivery(batches[i].format.sampleRate, batches[i].numFrames)
  {
    if batches == [] then []
    else
      var b := batches[|batches| - 1];
      NotesOf(batches[..|batches| - 1]) + [Delivery(b.format.sampleRate, b.numFrames)]
  }

  /** The settings after these deliveries: the first delivery ever wins. */
  function SettingsAfter(settings: Option<Settings>, xs: seq<Incoming>): Option<Settings>
  {
    if settings.Some? || xs == [] then settings
    else Some(Settings(xs[0].format.sampleRate, xs[0].numFrames))
  }

  predicate Playable(xs: seq<Incoming>)
  {
    forall i :: 0 <= i < |xs| ==> xs[i].format.sampleType == Int16NativeEndian
  }

  /** The decoder delivers each of `incoming` in turn. */
  method Enqueue(s: SpoppyAlsaSink, incoming: seq<Incoming>)
    requires s.Valid()
    modifies s`queue, s`settings
    ensures s.Valid()
    ensures s.queue == old(s.queue) + BatchesOf(incoming)
    ensures s.settings == SettingsAfter(old(s.settings), incoming)
  {
    for i := 0 to |incoming|
      invariant s.Valid()
      invariant s.queue == old(s.queue) + BatchesOf(incoming[..i])
      invariant s.settings == SettingsAfter(old(s.settings), incoming[..i])
    {
      var x := incoming[i];
      var taken := s.OnMusicDelivery(x.session, x.format, x.frames, x.numFrames);
      assert incoming[..i + 1][..i] == incoming[..i];
    }
    assert incoming[..|incoming|] == incoming;
  }

  /** The run thread, while playing and not stopped, makes `n` passes over a queue of playable batches. */
  method Drain(s: SpoppyAlsaSink, n: nat, accepted: nat)
    requires s.Valid() && !s.finished && s.playing && n <= |s.queue|
    requires forall k :: 0 <= k < n ==> s.queue[k].format.sampleType == Int16NativeEndian
    modifies s, s.player, s.sink
    ensures s.Valid() && !s.finished && s.playing && s.settings == old(s.settings)
    ensures n > 0 ==> !s.parked
    ensures s.queue == old(s.queue)[n..]
    ensures s.sink.device == DeviceAfterWrites(old(s.sink.device), s.sink.deviceName, s.sink.littleEndian, old(s.queue)[..n])
    ensures s.player.delivered == old(s.player.delivered) + NotesOf(old(s.queue)[..n])
  {
    for i := 0 to n
      invariant s.Valid() && !s.finished && s.playing && s.settings == old(s.settings)
      invariant i > 0 ==> !s.parked
      invariant s.queue == old(s.queue)[i..]
      invariant s.sink.device == DeviceAfterWrites(old(s.sink.device), s.sink.deviceName, s.sink.littleEndian, old(s.queue)[..i])
      invariant s.player.delivered == old(s.player.delivered) + NotesOf(old(s.queue)[..i])
    {
      var step := s.RunStep(false, accepted);
      assert old(s.queue)[..i + 1][..i] == old(s.queue)[..i];
    }
  }

  /**
   * The run thread makes `waits` passes while paused; with `stopSet`, it is
   * already parked in the pause poll.
   */
  method StayPaused(s: SpoppyAlsaSink, waits: nat, stopSet: bool) returns (steps: seq<Step>)
    requires s.Valid() && !s.finished && !s.playing && (stopSet ==> s.parked)
    modifies s, s.player, s.sink
    ensures s.Valid() && !s.finished && !s.playing && (waits > 0 || stopSet ==> s.parked)
    ensures s.queue == old(s.queue) && s.settings == old(s.settings)
    ensures s.sink.device == old(s.sink.device) && s.player.delivered == old(s.player.delivered)
    ensures |steps| == waits && forall i :: 0 <= i < waits ==> steps[i] == Waiting
  {
    steps := [];
    for i := 0 to waits
      invariant s.Valid() && !s.finished && !s.playing && (i > 0 || stopSet ==> s.parked)
      invariant s.queue == old(s.queue) && s.settings == old(s.settings)
      invariant s.sink.device == old(s.sink.device) && s.player.delivered == old(s.player.delivered)
      invariant |steps| == i && forall k :: 0 <= k < i ==> steps[k] == Waiting
    {
      var step := s.RunStep(stopSet, 0);
      steps := steps + [step];
    }
  }

  /**
   * Starting from an unopened device, the run thread plays out a queue of
   * playable deliveries: every batch is written in order, and the device is
   * configured from the first.
   */
  method DrainAll(s: SpoppyAlsaSink, incoming: seq<Incoming>) returns (written: seq<Frames>)
    requires s.Valid() && !s.finished && s.playing && Playable(incoming)
    requires s.queue == BatchesOf(incoming) && s.sink.device == None
    modifies s, s.player, s.sink
    ensures s.Valid() && !s.finished && s.playing && s.settings == old(s.settings) && s.queue == []
    ensures written == s.sink.Writes()
    ensures |written| == |incoming| && forall i :: 0 <= i < |incoming| ==> written[i] == incoming[i].frames
    ensures s.player.delivered == old(s.player.delivered) + NotesOf(BatchesOf(incoming))
    ensures incoming == [] ==> s.sink.device == None
    ensures incoming != [] ==>
      var first := incoming[0];
      && s.sink.device.Some? && s.sink.device.value.name == s.sink.deviceName
      && s.sink.device.value.format == (if s.sink.littleEndian then S16LE else S16BE)
      && s.sink.device.value.rate == first.format.sampleRate && s.sink.device.value.channels == first.format.channels
      && s.sink.device.value.periodSize == first.numFrames * first.format.frameSize
  {
    Drain(s, |incoming|, 0);
    assert BatchesOf(incoming)[..|incoming|] == BatchesOf(incoming);
    if incoming != [] {
      DeviceConfiguredByFirstBatch(s.sink.deviceName, s.sink.littleEndian, BatchesOf(incoming));
    }
    written := s.sink.Writes();
  }

  /**
   * Batches reach the device, and their notifications reach the player, in
   * the order the decoder delivered them; the settings and the device's
   * configuration come from the first batch.
   */
  method PlayInOrder(incoming: seq<Incoming>, littleEndian: bool)
    returns (written: seq<Frames>, notified: seq<Delivery>, settings: Option<Settings>, device: Option<Device>)
    requires Playable(incoming)
    ensures |written| == |incoming| && forall i :: 0 <= i < |incoming| ==> written[i] == incoming[i].frames
    ensures |notified| == |incoming|
    ensures forall i :: 0 <= i < |incoming| ==>
      notified[i] == Delivery(incoming[i].format.sampleRate, incoming[i].numFrames)
    ensures incoming == [] ==> settings == None && device == None
    ensures incoming != [] ==>
      var first := incoming[0];
      && settings == Some(Settings(first.format.sampleRate, first.numFrames))
      && device.Some? && device.value.name == "default"
      && device.value.format == (if littleEndian then S16LE else S16BE)
      && device.value.rate == first.format.sampleRate && device.value.channels == first.format.channels
      && device.value.periodSize == first.numFrames * first.format.frameSize
  {
    var player := new Player();
    var s := new SpoppyAlsaSink(player, littleEndian);
    Enqueue(s, incoming);
    assert s.queue == BatchesOf(incoming);
    assert s.settings == SettingsAfter(None, incoming);
    written := DrainAll(s, incoming);
    notified := player.delivered;
    assert notified == NotesOf(BatchesOf(incoming));
    NotesOfIncoming(incoming);
    settings := s.settings;
    device := s.sink.device;
  }

  /** The player hears each delivery's own rate and frame count, in delivery order. */
  lemma NotesOfIncoming(incoming: seq<Incoming>)
    ensures forall i :: 0 <= i < |incoming| ==>
      NotesOf(BatchesOf(incoming))[i] == Delivery(incoming[i].format.sampleRate, incoming[i].numFrames)
  {
  }

  /**
   * While paused, the run thread writes nothing and keeps every queued batch;
   * once playing again, all of them are written in order.
   */
  method PauseHoldsBatches(incoming: seq<Incoming>, waits: nat, littleEndian: bool)
    returns (steps: seq<Step>, writtenWhilePaused: seq<Frames>, written: seq<Frames>)
    requires Playable(incoming)
    ensures |steps| == waits && forall i :: 0 <= i < waits ==> steps[i] == Waiting
    ensures writtenWhilePaused == []
    ensures |written| == |incoming| && forall i :: 0 <= i < |incoming| ==> written[i] == incoming[i].frames
  {
    var player := new Player();
    var s := new SpoppyAlsaSink(player, littleEndian);
    s.Pause();
    Enqueue(s, incoming);
    assert s.queue == BatchesOf(incoming);
    steps := StayPaused(s, waits, false);
    writtenWhilePaused := s.sink.Writes();
    s.Play();
    written := DrainAll(s, incoming);
  }

  /**
   * `clear` drops what is queued: only batches delivered afterwards reach the
   * device. It does not forget the settings of the first delivery.
   */
  method ClearDropsQueued(dropped: seq<Incoming>, kept: seq<Incoming>, littleEndian: bool)
    returns (written: seq<Frames>, settings: Option<Settings>)
    requires Playable(kept)
    ensures |written| == |kept| && forall i :: 0 <= i < |kept| ==> written[i] == kept[i].frames
    ensures dropped != [] ==> settings == Some(Settings(dropped[0].format.sampleRate, dropped[0].numFrames))
    ensures dropped == [] && kept != [] ==> settings == Some(Settings(kept[0].format.sampleRate, kept[0].numFrames))
  {
    var player := new Player();
    var s := new SpoppyAlsaSink(player, littleEndian);
    Enqueue(s, dropped);
    s.Clear();
    Enqueue(s, kept);
    assert s.queue == BatchesOf(kept);
    written := DrainAll(s, kept);
    settings := s.settings;
  }

  /** With the stop event set, the next pass drops the queue and ends the thread without writing. */
  method StopDropsQueue(incoming: seq<Incoming>, littleEndian: bool)
    returns (step: Step, written: seq<Frames>, remaining: nat, finished: bool)
    ensures step == Exited && written == [] && remaining == 0 && finished
  {
    var player := new Player();
    var s := new SpoppyAlsaSink(player, littleEndian);
    Enqueue(s, incoming);
    step := s.RunStep(true, 0);
    written := s.sink.Writes();
    remaining := |s.queue|;
    finished := s.finished;
  }

  /**
   * Once the thread is parked in the pause poll, a stop event goes unnoticed
   * however long it waits; after `play`, one more batch is written before the
   * stop takes effect and the rest of the queue is dropped.
   */
  method StopWhilePaused(incoming: seq<Incoming>, waits: nat, littleEndian: bool)
    returns (pausedSteps: seq<Step>, resumed: Step, next: Step, written: seq<Frames>, remaining: nat)
    requires incoming != [] && incoming[0].format.sampleType == Int16NativeEndian
    ensures |pausedSteps| == waits + 1 && forall i :: 0 <= i <= waits ==> pausedSteps[i] == Waiting
    ensures resumed == Delivered && next == Exited
    ensures written == [incoming[0].frames] && remaining == 0
  {
    var player := new Player();
    var s := new SpoppyAlsaSink(player, littleEndian);
    s.Pause();
    Enqueue(s, incoming);
    var first := s.RunStep(false, 0);
    var later := StayPaused(s, waits, true);
    pausedSteps := [first] + later;
    s.Play();
    resumed := s.RunStep(true, 0);
    assert s.sink.device.value.writes == [incoming[0].frames];
    next := s.RunStep(true, 0);
    written := s.sink.Writes();
    remaining := |s.queue|;
  }

  /**
   * A batch of another sample type is still announced to the player, then the
   * sink's assertion ends the run thread before anything is written.
   */
  method CrashOnForeignSampleType(x: Incoming, littleEndian: bool)
    returns (step: Step, notified: seq<Delivery>, written: seq<Frames>, finished: bool)
    requires x.format.sampleType != Int16NativeEndian
    ensures step == Crashed(SampleTypeAssertion) && finished && written == []
    ensures notified == [Delivery(x.format.sampleRate, x.numFrames)]
  {
    var player := new Player();
    var s := new SpoppyAlsaSink(player, littleEndian);
    Enqueue(s, [x]);
    step := s.RunStep(false, 0);
    notified := player.delivered;
    written := s.sink.Writes();
    finished := s.finished;
  }
}
