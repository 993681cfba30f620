/**
 * The direct Kokoro service of backend/services/official_kokoro_tts_service.py:
 * display names derived from voice ids, the voice list (from the model or
 * the built-in fallback), the empty-text check of `generate_speech` and the
 * lazily created model. Loading the ONNX model and synthesising audio are
 * outside the model: their outcomes are parameters.
 */
module Voices {
  import opened Wrappers
  import opened Strings

  // ---------------------------------------------------------------- display names

  /** `region_map.get(code, "")`. */
  function Region(code: char): (r: string)
    ensures r != "" <==> code in {'a', 'b', 'j', 'z', 'i', 'f'}
  {
    match code
    case 'a' => "US"
    case 'b' => "UK"
    case 'j' => "Japanese"
    case 'z' => "Chinese"
    case 'i' => "Italian"
    case 'f' => "French"
    case _ => ""
  }

  /** `gender_map.get(code, "")`. */
  function Gender(code: char): (r: string)
    ensures r != "" <==> code in {'f', 'm'}
  {
    match code
    case 'f' => "Female"
    case 'm' => "Male"
    case _ => ""
  }

  /** The bracketed part of a display name: `" ({gender}, {region})"`. */
  function Suffix(gender: char, region: char): (r: string)
    ensures |r| == 5 + |Gender(gender)| + |Region(region)|
    ensures r[..2] == " (" && r[|r| - 1] == ')'
  {
    " (" + (Gender(gender) + (", " + (Region(region) + ")")))
  }

  /**
   * `_get_display_name`: ids shorter than four characters (the empty one
   * included) come back unchanged; otherwise the capitalised name after the
   * third character, then the gender and region the first two characters
   * code for.
   */
  function DisplayName(id: string): (r: string)
    ensures |id| < 4 ==> r == id
    ensures |id| >= 4 ==> |r| == |id| + 2 + |Gender(id[1])| + |Region(id[0])|
  {
    if |id| < 4 then id else Capitalize(id[3..]) + Suffix(id[1], id[0])
  }

  /** A display name starts with the capitalised name, followed by " (", and closes with ")". */
  lemma DisplayNameShape(id: string)
    requires |id| >= 4
    ensures StartsWith(DisplayName(id), Capitalize(id[3..]) + " (")
    ensures DisplayName(id)[|DisplayName(id)| - 1] == ')'
  {
    var name := Capitalize(id[3..]);
    var tail := Suffix(id[1], id[0]);
    assert DisplayName(id) == name + tail;
    assert (name + tail)[..|name| + 2] == name + tail[..2];
  }

  /** The character between the codes and the name plays no part. */
  lemma DisplayNameIgnoresSeparator(id: string, c: char)
    requires |id| >= 4
    ensures DisplayName(id[..2] + [c] + id[3..]) == DisplayName(id)
  {
    var other := id[..2] + [c] + id[3..];
    assert other[0] == id[0] && other[1] == id[1] && other[3..] == id[3..];
  }

  /** `capitalize()` ignores the case the name was written in. */
  lemma {:induction false} CapitalizeLower(s: string)
    ensures Capitalize(Lower(s)) == Capitalize(s)
  {
    if |s| > 0 {
      var l := Lower(s);
      assert l[1..] == Lower(s[1..]);
      assert Lower(l[1..]) == Lower(s[1..]);
      assert UpperChar(LowerChar(s[0])) == UpperChar(s[0]);
    }
  }

  /** Ids that differ only in the case of their name get the same display name. */
  lemma DisplayNameCaseBlind(id: string)
    requires |id| >= 4
    ensures DisplayName(id[..3] + Lower(id[3..])) == DisplayName(id)
  {
    var other := id[..3] + Lower(id[3..]);
    assert other[0] == id[0] && other[1] == id[1] && other[3..] == Lower(id[3..]);
    CapitalizeLower(id[3..]);
  }

  // ---------------------------------------------------------------- voice lists

  datatype VoiceEntry = VoiceEntry(id: string, name: string)

  /** The list comprehension over the model's voices: one entry per id, in order. */
  function VoiceEntries(ids: seq<string>): (r: seq<VoiceEntry>)
    ensures |r| == |ids|
  {
    seq(|ids|, k requires 0 <= k < |ids| => VoiceEntry(ids[k], DisplayName(ids[k])))
  }

  function Ids(entries: seq<VoiceEntry>): (r: seq<string>)
    ensures |r| == |entries|
  {
    seq(|entries|, k requires 0 <= k < |entries| => entries[k].id)
  }

  /** Every entry carries the display name of its id. */
  predicate AllNamed(entries: seq<VoiceEntry>) {
    forall k :: 0 <= k < |entries| ==> entries[k].name == DisplayName(entries[k].id)
  }

  /** The ids of the list are the model's voices, in their order, and each is named by `DisplayName`. */
  lemma VoiceEntriesIds(ids: seq<string>)
    ensures Ids(VoiceEntries(ids)) == ids
    ensures AllNamed(VoiceEntries(ids))
  {
  }

  /** The hard-coded list returned when the model cannot be reached. */
  function Fallback(): seq<VoiceEntry> {
    UsFemale() + UsMale() + British() + European() + Japanese() + Chinese()
  }

  function UsFemale(): seq<VoiceEntry> {
    [ VoiceEntry("af_sarah", "Sarah (Female, US)"), VoiceEntry("af_bella", "Bella (Female, US)"),
      VoiceEntry("af_heart", "Heart (Female, US)"), VoiceEntry("af_jessica", "Jessica (Female, US)"),
      VoiceEntry("af_nicole", "Nicole (Female, US)"), VoiceEntry("af_alloy", "Alloy (Female, US)"),
      VoiceEntry("af_aoede", "Aoede (Female, US)"), VoiceEntry("af_kore", "Kore (Female, US)"),
      VoiceEntry("af_nova", "Nova (Female, US)"), VoiceEntry("af_river", "River (Female, US)"),
      VoiceEntry("af_sky", "Sky (Female, US)") ]
  }

  function UsMale(): seq<VoiceEntry> {
    [ VoiceEntry("am_adam", "Adam (Male, US)"), VoiceEntry("am_echo", "Echo (Male, US)"),
      VoiceEntry("am_eric", "Eric (Male, US)"), VoiceEntry("am_fenrir", "Fenrir (Male, US)"),
      VoiceEntry("am_liam", "Liam (Male, US)"), VoiceEntry("am_michael", "Michael (Male, US)"),
      VoiceEntry("am_onyx", "Onyx (Male, US)"), VoiceEntry("am_puck", "Puck (Male, US)") ]
  }

  function British(): seq<VoiceEntry> {
    [ VoiceEntry("bf_alice", "Alice (Female, UK)"), VoiceEntry("bf_emma", "Emma (Female, UK)"),
      VoiceEntry("bf_isabella", "Isabella (Female, UK)"), VoiceEntry("bf_lily", "Lily (Female, UK)"),
      VoiceEntry("bm_daniel", "Daniel (Male, UK)"), VoiceEntry("bm_fable", "Fable (Male, UK)"),
      VoiceEntry("bm_george", "George (Male, UK)"), VoiceEntry("bm_lewis", "Lewis (Male, UK)") ]
  }

  function European(): seq<VoiceEntry> {
    [ VoiceEntry("ff_siwis", "Siwis (Female, French)"), VoiceEntry("if_sara", "Sara (Female, Italian)"),
      VoiceEntry("im_nicola", "Nicola (Male, Italian)") ]
  }

  function Japanese(): seq<VoiceEntry> {
    [ VoiceEntry("jf_alpha", "Alpha (Female, Japanese)"), VoiceEntry("jf_gongitsune", "Gongitsune (Female, Japanese)"),
      VoiceEntry("jf_nezumi", "Nezumi (Female, Japanese)"), VoiceEntry("jf_tebukuro", "Tebukuro (Female, Japanese)"),
      VoiceEntry("jm_kumo", "Kumo (Male, Japanese)") ]
  }

  function Chinese(): seq<VoiceEntry> {
    [ VoiceEntry("zf_xiaobei", "Xiaobei (Female, Chinese)"), VoiceEntry("zf_xiaoni", "Xiaoni (Female, Chinese)"),
      VoiceEntry("zf_xiaoxiao", "Xiaoxiao (Female, Chinese)"), VoiceEntry("zf_xiaoyi", "Xiaoyi (Female, Chinese)"),
      VoiceEntry("zm_yunjian", "Yunjian (Male, Chinese)"), VoiceEntry("zm_yunxi", "Yunxi (Male, Chinese)"),
      VoiceEntry("zm_yunxia", "Yunxia (Male, Chinese)"), VoiceEntry("zm_yunyang", "Yunyang (Male, Chinese)") ]
  }

  // ---------------------------------------------------------------- the service

  /** A loaded Kokoro model: the files it was read from and the voices it offers. */
  datatype Model = Model(modelPath: string, voicesPath: string, voices: seq<string>)

  /** What `kokoro.create` was asked for. */
  datatype Request = Request(text: string, voice: string, speed: real, lang: string)

  datatype Audio = Audio(samples: seq<int>, sampleRate: nat)

  /** The `(audio_data, sample_rate, relative_path)` triple, with the request that produced it. */
  datatype Speech = Speech(audio: Audio, relativePath: string, request: Request)

  datatype SpeechError =
    | EmptyText                 // ValueError("Text cannot be empty")
    | InitFailed(detail: string) // RuntimeError from `_get_kokoro`, re-raised
    | SynthesisFailed(detail: string)

  const DefaultKokoroDir := "D:/F5-TTS/kokoro-tts"
  const InitFailurePrefix := "Failed to initialize Kokoro model: "

  /** `DirectKokoroTTSService`, whose model is created on first use and then kept. */
  class DirectKokoroService {
    const kokoroDir: string
    const modelPath: string
    const voicesPath: string
    var model: Option<Model>
    /** How many models have been created. */
    ghost var loads: nat

    /** The model exists exactly when it has been created, and it is created at most once. */
    ghost predicate Valid()
      reads this
    {
      loads <= 1 && (model.Some? <==> loads == 1)
    }

    /** `__init__`: `env` is `KOKORO_TTS_PATH`; the existence check only logs. */
    constructor(env: Option<string>)
      ensures kokoroDir == env.GetOr(DefaultKokoroDir)
      ensures modelPath == PathJoin(kokoroDir, "kokoro-v1.0.onnx") && voicesPath == PathJoin(kokoroDir, "voices-v1.0.bin")
      ensures model == None && Valid()
    {
      kokoroDir := env.GetOr(DefaultKokoroDir);
      modelPath := PathJoin(env.GetOr(DefaultKokoroDir), "kokoro-v1.0.onnx");
      voicesPath := PathJoin(env.GetOr(DefaultKokoroDir), "voices-v1.0.bin");
      model := None;
      loads := 0;
    }

    /**
     * `_get_kokoro`: the cached model if there is one; otherwise `load`,
     * the outcome of `Kokoro(model_path, voices_path)` (the voices it
     * offers, or the error it raised), is kept on success and turned into
     * a RuntimeError on failure.
     */
    method GetKokoro(load: Result<seq<string>, string>) returns (r: Result<Model, string>)
      requires Valid()
      modifies this
      ensures Valid()
      ensures old(model).Some? ==> r == Ok(old(model).value) && model == old(model) && loads == old(loads)
      ensures old(model).None? && load.Ok? ==> r == Ok(Model(modelPath, voicesPath, load.value)) && model == Some(r.value)
      ensures old(model).None? && load.Err? ==> r == Err(InitFailurePrefix + load.error) && model == None && loads == 0
    {
      if model.None? {
        if load.Err? {
          return Err(InitFailurePrefix + load.error);
        }
        model := Some(Model(modelPath, voicesPath, load.value));
        loads := loads + 1;
      }
      r := Ok(model.value);
    }

    /**
     * `get_available_voices` (and its alias `get_available_speakers`): the
     * model's voices, or the fallback list when the model cannot be created
     * or `kokoro.get_voices()` raises (`listingFails`).
     */
    method GetAvailableVoices(load: Result<seq<string>, string>, listingFails: bool) returns (entries: seq<VoiceEntry>)
      requires Valid()
      modifies this
      ensures Valid()
      ensures old(model).Some? ==> model == old(model) && loads == old(loads)
      ensures old(model).None? ==> model == (if load.Ok? then Some(Model(modelPath, voicesPath, load.value)) else None)
      ensures model.Some? && !listingFails ==> entries == VoiceEntries(model.value.voices)
      ensures model.None? || listingFails ==> entries == Fallback()
    {
      var m := GetKokoro(load);
      if m.Err? || listingFails {
        return Fallback();
      }
      entries := VoiceEntries(m.value.voices);
    }

    /**
     * `generate_speech`: empty or blank text is refused before the model
     * is touched; otherwise the model is fetched (or created) and asked for
     * the audio, whose outcome is `synthesized`. The file name uses `uuid`.
     */
    method GenerateSpeech(text: string, speakerId: string, speed: real, load: Result<seq<string>, string>,
                          uuid: string, synthesized: Result<Audio, string>)
      returns (r: Result<Speech, SpeechError>)
      requires Valid()
      modifies this
      ensures Valid()
      ensures r == Err(EmptyText) <==> Strip(text) == ""
      ensures Strip(text) == "" ==> model == old(model) && loads == old(loads)
      ensures Strip(text) != "" && old(model).Some? ==> model == old(model) && loads == old(loads)
      ensures Strip(text) != "" && old(model).None? ==> model == (if load.Ok? then Some(Model(modelPath, voicesPath, load.value)) else None)
      ensures Strip(text) != "" && old(model).None? && load.Err? ==> r == Err(InitFailed(InitFailurePrefix + load.error))
      ensures r.Ok? ==> model.Some? && synthesized.Ok? && r.value == Speech(synthesized.value,
                PathJoin("generated_audio_files", "kokoro_" + uuid + ".wav"), Request(text, speakerId, speed, "en-us"))
      ensures Strip(text) != "" && model.Some? && synthesized.Ok? ==> r.Ok?
      ensures Strip(text) != "" && model.Some? && synthesized.Err? ==> r == Err(SynthesisFailed(synthesized.error))
    {
      if text == "" || Strip(text) == "" {
        return Err(EmptyText);
      }
      var m := GetKokoro(load);
      if m.Err? {
        return Err(InitFailed(m.error));
      }
      var request := Request(text, speakerId, speed, "en-us");
      if synthesized.Err? {
        return Err(SynthesisFailed(synthesized.error));
      }
      var relativePath := PathJoin("generated_audio_files", "kokoro_" + uuid + ".wav");
      r := Ok(Speech(synthesized.value, relativePath, request));
    }
  }
}
