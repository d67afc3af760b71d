/**
 * The decision logic of hear/main.py: choosing the Yeti microphone in
 * `record_audio`, listing the input devices, cleaning the transcriber's
 * output and removing the WAV file in `transcribe_audio`, and the answer
 * `listen` gives. The device list, the recording and the transcriber's
 * outcome are parameters; the disk is a set of file names.
 */
module Hear {
  import opened Wrappers
  import opened Text

  /** One entry of `sd.query_devices()`: its `"name"` and `"max_input_channels"`. */
  datatype Device = Device(name: string, maxInputChannels: int)

  /** The message of the exception `record_audio` raises when no device qualifies. */
  const YetiNotFound: string := "Yeti microphone not found!"

  /** What `listen` answers when the transcription is `None` or empty. */
  const NoTranscription: string := "No transcription found"

  /** The markers the transcriber prints, removed in this order. */
  const TokenMarker: string := "[50257, 50362]"
  const StartMarker: string := "<|startoftranscript|>"
  const NoTimestampsMarker: string := "<|notimestamps|>"

  /**
   * The device `record_audio` looks for: its name contains "yeti" in any
   * mix of upper and lower case, and it has at least one input channel.
   */
  predicate IsYeti(d: Device)
    ensures IsYeti(d) ==> d.maxInputChannels > 0
  {
    Occurs("yeti", Lower(d.name)) && d.maxInputChannels > 0
  }

  /** The name test ignores case: a device qualifies exactly when it does under its lower-cased name. */
  lemma YetiIgnoresCase(d: Device)
    ensures IsYeti(d) <==> IsYeti(d.(name := Lower(d.name)))
  {
    LowerIdempotent(d.name);
  }

  /** The lowest index of a qualifying device, or `|devices|` when there is none. */
  function FirstYeti(devices: seq<Device>): (i: nat)
    ensures i <= |devices|
    ensures i < |devices| ==> IsYeti(devices[i])
    ensures forall j :: 0 <= j < i ==> !IsYeti(devices[j])
  {
    if devices == [] || IsYeti(devices[0]) then 0
    else
      var i := FirstYeti(devices[1..]);
      assert forall j :: 1 <= j < i + 1 ==> devices[j] == devices[1..][j - 1];
      1 + i
  }

  /**
   * The device search of `record_audio`: the first qualifying device in
   * index order, or the exception when none qualifies.
   */
  method FindYeti(devices: seq<Device>) returns (r: Result<nat, string>)
    ensures r.Ok? <==> exists j :: 0 <= j < |devices| && IsYeti(devices[j])
    ensures r.Ok? ==> r.value < |devices| && IsYeti(devices[r.value])
    ensures r.Ok? ==> forall j :: 0 <= j < r.value ==> !IsYeti(devices[j])
    ensures r.Err? ==> r.error == YetiNotFound
    ensures r == if FirstYeti(devices) < |devices| then Ok(FirstYeti(devices)) else Err(YetiNotFound)
  {
    var deviceIndex: Option<nat> := None;
    for i := 0 to |devices|
      invariant deviceIndex.None?
      invariant forall j :: 0 <= j < i ==> !IsYeti(devices[j])
    {
      if IsYeti(devices[i]) {
        deviceIndex := Some(i);
        break;
      }
    }
    if deviceIndex.None? {
      r := Err(YetiNotFound);
    } else {
      r := Ok(deviceIndex.value);
    }
  }

  /**
   * `list_audio_devices`: the indices it prints, those of the devices with
   * at least one input channel, in index order.
   */
  method ListAudioDevices(devices: seq<Device>) returns (listed: seq<nat>)
    ensures forall i: nat :: i in listed <==> i < |devices| && devices[i].maxInputChannels > 0
    ensures forall j, k :: 0 <= j < k < |listed| ==> listed[j] < listed[k]
  {
    listed := [];
    for i := 0 to |devices|
      invariant forall j :: 0 <= j < |listed| ==> listed[j] < i
      invariant forall x: nat :: x < i ==> (x in listed <==> devices[x].maxInputChannels > 0)
      invariant forall j, k :: 0 <= j < k < |listed| ==> listed[j] < listed[k]
    {
      if devices[i].maxInputChannels > 0 {
        listed := listed + [i];
      }
    }
  }

  /**
   * The cleanup in `transcribe_audio`: each marker removed in turn, with a
   * strip after each removal. The result has no surrounding whitespace and
   * is never longer than the transcriber's output.
   */
  function CleanTranscript(stdout: string): (r: string)
    ensures IsStripped(r)
    ensures |r| <= |stdout|
  {
    var a := Strip(RemoveAll(stdout, TokenMarker));
    var b := Strip(RemoveAll(a, StartMarker));
    Strip(RemoveAll(b, NoTimestampsMarker))
  }

  /** An output carrying none of the markers is only stripped. */
  lemma CleanTranscriptUnmarked(stdout: string)
    requires !Occurs(TokenMarker, stdout) && !Occurs(StartMarker, stdout) && !Occurs(NoTimestampsMarker, stdout)
    ensures CleanTranscript(stdout) == Strip(stdout)
  {
    var t := Strip(stdout);
    RemoveAbsent(stdout, TokenMarker);
    StripKeepsAbsent(stdout, StartMarker);
    RemoveAbsent(t, StartMarker);
    StripStripped(t);
    StripKeepsAbsent(stdout, NoTimestampsMarker);
    RemoveAbsent(t, NoTimestampsMarker);
  }

  /** A pattern absent from a string is absent from its strip. */
  lemma StripKeepsAbsent(s: string, pat: string)
    requires !Occurs(pat, s)
    ensures !Occurs(pat, Strip(s))
  {
    var lead := LeadCount(s);
    if Occurs(pat, Strip(s)) {
      OccursInSlice(pat, s, lead, lead + |Strip(s)|);
    }
  }

  /** What the transcription command does: it exits normally with its output, or raises `CalledProcessError`. */
  datatype Run = Completed(stdout: string) | ProcessError

  /** The result of `transcribe_audio` (a string, `None`, or the message of what it raised) and the disk after it. */
  datatype Transcribed = Transcribed(result: Result<Option<string>, string>, disk: set<string>)

  /** The message of the `FileNotFoundError` that `os.remove` raises for a missing file. */
  function MissingFile(path: string): string {
    "[Errno 2] No such file or directory: '" + path + "'"
  }

  /**
   * `transcribe_audio`: on a normal exit the output is cleaned and the WAV
   * removed, and a missing WAV makes `os.remove` raise past the
   * `CalledProcessError` handler; on `CalledProcessError` the WAV is removed
   * if it exists and the result is `None`. Either way the WAV is gone.
   */
  function TranscribeAudio(disk: set<string>, wav: string, run: Run): (t: Transcribed)
    ensures t.disk == disk - {wav}
    ensures t.result.Err? <==> run.Completed? && wav !in disk
    ensures run.ProcessError? ==> t.result == Ok(None)
    ensures run.Completed? && wav in disk ==> t.result == Ok(Some(CleanTranscript(run.stdout)))
  {
    var removed := if wav in disk then disk - {wav} else disk;
    assert removed == disk - {wav};
    match run
    case Completed(stdout) =>
      if wav in disk then Transcribed(Ok(Some(CleanTranscript(stdout))), removed)
      else Transcribed(Err(MissingFile(wav)), disk)
    case ProcessError =>
      Transcribed(Ok(None), removed)
  }

  /**
   * `listen`: lists the devices, records through the first Yeti (`record`
   * gives the recording's file name, written to disk, or the message of
   * what the recording raised) and transcribes it. The answer is the
   * transcription when it is non-empty, "No transcription found" when it is
   * `None` or empty, and the exception's message otherwise. A recorded WAV
   * never stays on disk, and the transcription never fails on it.
   */
  method Listen(devices: seq<Device>, disk: set<string>, record: nat -> Result<string, string>, run: Run)
    returns (answer: string, diskAfter: set<string>)
    ensures FirstYeti(devices) == |devices| ==> answer == YetiNotFound && diskAfter == disk
    ensures FirstYeti(devices) < |devices| && record(FirstYeti(devices)).Err? ==>
      answer == record(FirstYeti(devices)).error && diskAfter == disk
    ensures FirstYeti(devices) < |devices| && record(FirstYeti(devices)).Ok? ==>
      && diskAfter == disk - {record(FirstYeti(devices)).value}
      && answer == if run.Completed? && CleanTranscript(run.stdout) != [] then CleanTranscript(run.stdout)
                   else NoTranscription
  {
    var _ := ListAudioDevices(devices);
    var device := FindYeti(devices);
    if device.Err? {
      return device.error, disk;
    }
    var recording := record(device.value);
    if recording.Err? {
      return recording.error, disk;
    }
    var wav := recording.value;
    var t := TranscribeAudio(disk + {wav}, wav, run);
    diskAfter := t.disk;
    // `os.remove` cannot raise here: the recording has just written the WAV.
    assert t.result.Ok?;
    if t.result.value.Some? && t.result.value.value != [] {
      answer := t.result.value.value;
    } else {
      answer := NoTranscription;
    }
  }
}
