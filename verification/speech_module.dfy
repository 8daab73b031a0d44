/**
 * speech_module.py: finding VLC's PulseAudio sink input in the output of
 * `pactl list sink-inputs`, and the listening routine: a wake phrase, then
 * VLC turned down while the command is recorded and turned back up
 * afterwards, whatever happens.
 */
module SpeechModule {
  import opened Wrappers
  import opened PyStr

  /** The header that starts each sink input in the `pactl` listing. */
  const SinkMarker: string := "Sink Input #"

  /** The index of the first block that mentions VLC in any case. */
  function FirstVlcBlock(blocks: seq<string>): (r: Option<nat>)
    ensures r.Some? ==> r.value < |blocks| && Contains(Lower(blocks[r.value]), "vlc")
    ensures r.Some? ==> forall j :: 0 <= j < r.value ==> !Contains(Lower(blocks[j]), "vlc")
    ensures r.None? <==> forall j :: 0 <= j < |blocks| ==> !Contains(Lower(blocks[j]), "vlc")
    decreases |blocks|
  {
    if blocks == [] then None
    else if Contains(Lower(blocks[0]), "vlc") then Some(0)
    else
      match FirstVlcBlock(blocks[1..])
      case None => None
      case Some(i) => Some(i + 1)
  }

  /** `get_vlc_sink_id`, given the listing (None when `pactl` fails): the
      stripped first line of the first sink input mentioning VLC, "0" when
      there is none. */
  function GetVlcSinkId(output: Option<string>): (id: string)
    ensures output.None? ==> id == "0"
    ensures output.Some? && FirstVlcBlock(Split(output.value, SinkMarker)[1..]).None? ==> id == "0"
    ensures output.Some? && FirstVlcBlock(Split(output.value, SinkMarker)[1..]).Some? ==>
      var blocks := Split(output.value, SinkMarker)[1..];
      id == Strip(Split(blocks[FirstVlcBlock(blocks).value], "\n")[0])
  {
    match output
    case None => "0"
    case Some(text) =>
      var blocks := Split(text, SinkMarker)[1..];
      match FirstVlcBlock(blocks)
      case None => "0"
      case Some(i) => Strip(Split(blocks[i], "\n")[0])
  }

  /** A listing without any sink input gives "0", even when it mentions VLC. */
  lemma NoSinkInputs(output: string)
    requires !Contains(output, SinkMarker)
    ensures GetVlcSinkId(Some(output)) == "0"
  {
  }

  /** The marker's first character occurs nowhere else in it, so an
      occurrence cannot begin inside text that precedes a marker. */
  lemma MarkerFoundAfterPrefix(p: string, r: string)
    requires !Contains(p, SinkMarker)
    ensures FindFirst(p + SinkMarker + r, SinkMarker) == Some(|p|)
  {
    var s := p + SinkMarker + r;
    var m := |SinkMarker|;
    assert s[|p|..|p| + m] == SinkMarker;
    assert OccursAt(s, SinkMarker, |p|);
    forall j | 0 <= j < |p|
      ensures !OccursAt(s, SinkMarker, j)
    {
      if j + m <= |p| {
        if OccursAt(s, SinkMarker, j) {
          assert s[j..j + m] == p[j..j + m];
          assert OccursAt(p, SinkMarker, j);
        }
      } else {
        var d := |p| - j;
        assert s[j..j + m][d] == s[|p|] == SinkMarker[0];
        assert SinkMarker[d] != SinkMarker[0];
      }
    }
  }

  /** Text before the first sink input is ignored: prefixing the listing
      with text that holds no sink input does not change the id. */
  lemma PrefixIgnored(p: string, rest: string)
    requires !Contains(p, SinkMarker)
    ensures GetVlcSinkId(Some(p + SinkMarker + rest)) == GetVlcSinkId(Some(SinkMarker + rest))
  {
    MarkerFoundAfterPrefix(p, rest);
    MarkerFoundAfterPrefix([], rest);
    var s := p + SinkMarker + rest;
    assert s[|p| + |SinkMarker|..] == rest;
    var t := [] + SinkMarker + rest;
    assert t == SinkMarker + rest;
    assert t[|SinkMarker|..] == rest;
    assert Split(s, SinkMarker)[1..] == Split(rest, SinkMarker);
    assert Split(t, SinkMarker)[1..] == Split(rest, SinkMarker);
  }

  /** What the speech recogniser produced, or the exception it raised. */
  datatype Heard = Heard(text: string) | WaitTimeout | UnknownValue | RequestFailed

  /** The wake gate: the recognised text contains "ok jarvis" or "ok bro". */
  predicate WakeGate(wake: Heard) {
    wake.Heard? && (Contains(Lower(wake.text), "ok jarvis") || Contains(Lower(wake.text), "ok bro"))
  }

  /** The `pactl` call that sets VLC's volume. */
  function SetVolume(sinkId: string, level: string): seq<string> {
    ["pactl", "set-sink-input-volume", sinkId, level]
  }

  /** `listen`: the recognised wake text, the recognised command, and the
      `pactl` listings seen when the volume is lowered and restored. Returns
      the lower-cased command ("" on any failure or without the wake phrase)
      and the volume calls made, in order. */
  method Listen(wake: Heard, command: Heard, pactlAtLower: Option<string>, pactlAtRestore: Option<string>)
    returns (result: string, volumeCalls: seq<seq<string>>)
    ensures !WakeGate(wake) ==> result == "" && volumeCalls == []
    ensures WakeGate(wake) ==> volumeCalls == [
      SetVolume(GetVlcSinkId(pactlAtLower), "30%"), SetVolume(GetVlcSinkId(pactlAtRestore), "80%")]
    ensures WakeGate(wake) ==> result == (if command.Heard? then Lower(command.text) else "")
    ensures result != "" ==> WakeGate(wake) && command.Heard?
  {
    volumeCalls := [];
    if !wake.Heard? {
      return "", volumeCalls;
    }
    var text := Lower(wake.text);
    if Contains(text, "ok jarvis") || Contains(text, "ok bro") {
      volumeCalls := volumeCalls + [SetVolume(GetVlcSinkId(pactlAtLower), "30%")];
      var finalCommand := "";
      if command.Heard? {
        finalCommand := Lower(command.text);
      }
      // the `finally` clause runs on every way out of the inner `try`
      volumeCalls := volumeCalls + [SetVolume(GetVlcSinkId(pactlAtRestore), "80%")];
      return finalCommand, volumeCalls;
    }
    return "", volumeCalls;
  }
}
