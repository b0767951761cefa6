/**
 * The `transcribe` command: pick the model directory for the language tag,
 * run the decode loop, build the transcription and the JSON report.
 */
module Transcriber {
  import opened Naming
  import opened Transcript
  import opened Recognition
  import opened Wrappers

  const RuTag: string := "ru"
  const RuModelDir: string := "model_ru"
  const EnModelDir: string := "model_en"

  /**
   * The model directory for a language tag: "model_ru" exactly for "ru",
   * "model_en" for every other tag (a fallback, not a validation).
   */
  function ModelDir(language: string): (dir: string)
    ensures dir == RuModelDir <==> language == RuTag
    ensures dir == EnModelDir <==> language != RuTag
  {
    if language == RuTag then RuModelDir else EnModelDir
  }

  /** Unsupported or empty tags load the English model. */
  lemma EnglishFallback()
    ensures ModelDir("en") == EnModelDir
    ensures ModelDir("fr") == EnModelDir
    ensures ModelDir("english") == EnModelDir
    ensures ModelDir("") == EnModelDir
    ensures ModelDir("RU") == EnModelDir
  {
  }

  /** The JSON object written to the log file. */
  datatype Report = Report(file: string, transcription: string)

  /** A log file and the report written to it. */
  datatype LogWrite = LogWrite(logFile: string, report: Report)

  /**
   * transcribe_audio. The audio file's frames are `audio`; `models` maps
   * each model directory present on disk to the recognizer loading it
   * yields. Returns the model directory chosen and the write performed:
   * none when that directory is missing, since loading it raises before
   * anything is written.
   */
  method TranscribeAudio(path: string, language: string, audio: seq<Frame>, models: map<string, Recognizer>)
    returns (modelDir: string, written: Option<LogWrite>)
    ensures modelDir == ModelDir(language)
    ensures written.Some? <==> modelDir in models
    ensures written.Some? ==> written.value.logFile == TranscriptionLogName(path) && Sep !in written.value.logFile
    ensures written.Some? ==> written.value.report.file == Basename(path)
    ensures written.Some? ==> written.value.report.transcription == TranscriptionText(Results(models[modelDir], audio))
    ensures written.Some? ==> Trimmed(written.value.report.transcription)
  {
    if language == RuTag {
      modelDir := RuModelDir;
    } else {
      modelDir := EnModelDir;
    }
    if modelDir !in models {
      written := None;
      return;
    }
    var rec := models[modelDir];
    var results, fed := CollectResults(audio, rec);
    var text := Strip(Join(" ", Texts(results)));
    var report := Report(Basename(path), text);
    written := Some(LogWrite(Basename(path) + TranscriptionSuffix, report));
  }

  /**
   * Silence: when the recognizer's result after every prefix of the chunks
   * and its final result carry no text, the transcription is empty.
   */
  lemma SilentRecording(rec: Recognizer, audio: seq<Frame>)
    requires forall n :: 1 <= n <= |Chunks(audio)| ==> TextOf(rec.result(Chunks(audio)[..n])) == ""
    requires TextOf(rec.final(Chunks(audio))) == ""
    ensures TranscriptionText(Results(rec, audio)) == ""
  {
    var results := Results(rec, audio);
    ResultsShape(rec, audio);
    SilentTranscription(results);
  }
}
