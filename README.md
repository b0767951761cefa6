# Speed/volume and transcription CLI — verified model of its decision layer

`app.py` is a two-command tool: `modify <wav> <speed> <volume_change>` writes a
sped-up, re-gained copy of a WAV file, and `transcribe <wav> <language>` runs
an offline speech recognizer over the file and writes a JSON report. The audio
processing and the recognition itself happen in foreign libraries; this
project models the logic `app.py` adds around them and proves its properties:

- **Command dispatch** (`Cli`): `main` as a function from `argv` to an
  `Outcome` — `Usage`, `ArityError`, `UnknownCommand`, `ModifyCall` or
  `TranscribeCall` — with the exit status 1 on every misuse and the file
  each call would write.
- **Output naming** (`Naming`): POSIX `os.path.basename`,
  `modified_<basename>` and `<basename>_transcription.json`.
- **Language resolution and the decode loop** (`Transcriber`,
  `Recognition`): `"ru"` selects `model_ru`, anything else `model_en`; the
  `while True` loop that reads up to 4000 frames at a time until an empty
  read, keeps a result only when the recognizer accepts the chunk, and
  appends the final result. The recognizer is an oracle whose answers are
  functions of every chunk fed to it so far, so its internal state is
  represented without modelling recognition. `CollectResults` is the loop
  as a method, proved against the specification functions `Chunks` and
  `Kept`.
- **Transcript** (`Transcript`): each result's `text` (`""` when missing),
  joined with single spaces and stripped as Python's `str.strip()` does.
  `Split` is the inverse used to show that joining loses nothing.

The audio is read with `read(4000, dtype='int16')`, which reads 4000
frames, so a multi-channel chunk holds 4000 samples per channel; the model
treats a chunk as up to 4000 frames.

Files: `wrappers.dfy` (Option), `naming.dfy`, `transcript.dfy`,
`recognition.dfy`, `transcribe.dfy`, `cli.dfy`.

## Model

| member | source | states |
|---|---|---|
| Naming.Basename | app.py:25 | the basename holds no '/', is a suffix of the path, and is the whole path or follows a '/' |
| Naming.BasenameUnique | app.py:59 | any separator-free suffix that starts the path or follows a '/' is the basename: the basename is what follows the last '/' |
| Naming.ModifiedName | app.py:25 | the `modify` output name has no '/' (it is written in the working directory) and is the prefix plus the basename in length |
| Naming.TranscriptionLogName | app.py:63 | the `transcribe` log name has no '/' and is the basename plus the suffix in length |
| Naming.OutputNamesRecoverBasename | app.py:63 | dropping the fixed prefix or suffix recovers the basename; two inputs share an output name exactly when they share a basename |
| Naming.BareNameOutputs | app.py:25 | a path without '/' is its own basename: `sample-3s.wav` gives `modified_sample-3s.wav` and `sample-3s.wav_transcription.json` |
| Naming.DirectoryDropped | app.py:59-63 | the directory part is dropped: `dir/name` gives `modified_name` and `name_transcription.json` |
| Naming.TrailingSeparatorNames | app.py:25 | a path ending in '/' has an empty basename, giving `modified_` and `_transcription.json` |
| Transcript.TextOf | app.py:55 | `result.get('text', '')`; characterised through Texts, SilentTranscription and EmptyTextKeepsSeparators |
| Transcript.Texts | app.py:55 | one text per result, in order, each the `text` field or `""` |
| Transcript.Join | app.py:56 | `' '.join`; characterised by JoinSplit and SplitJoin (split is its inverse) and JoinOfEmptyParts |
| Transcript.JoinSplit | app.py:56 | joining the pieces of a split with the separator gives the string back |
| Transcript.SplitJoin | app.py:56 | when no part holds the separator, splitting the joined parts gives them back, empty parts included |
| Transcript.JoinOfEmptyParts | app.py:56 | joining empty parts yields only separators |
| Transcript.StripLeft | app.py:56 | the result is a suffix, everything removed is whitespace, and it does not start with whitespace |
| Transcript.StripRight | app.py:56 | the result is a prefix, everything removed is whitespace, and it does not end with whitespace |
| Transcript.Strip | app.py:56 | the result has no surrounding whitespace, is empty exactly when the input is all whitespace, and is the input with only leading and trailing whitespace removed |
| Transcript.StripUnique | app.py:56 | strip removes exactly the leading and trailing whitespace and nothing inside |
| Transcript.StripTrimmed | app.py:56 | a string without surrounding whitespace is unchanged; strip is idempotent |
| Transcript.TranscriptionText | app.py:55-56 | the transcription never has leading or trailing whitespace |
| Transcript.TranscriptionKeepsTexts | app.py:55-56 | interior separators are not collapsed: when no text holds a space, the joined texts split back into exactly the texts (empty ones included) and the transcription is that join with only its leading and trailing whitespace removed; when the join has no such whitespace, the transcription itself splits back into the texts |
| Transcript.EmptyFinalText | app.py:55-56 | texts `a` and an empty final text give `a`: the trailing separator is stripped |
| Transcript.SilentTranscription | app.py:55-56 | results whose texts are all empty or missing give an empty transcription |
| Transcript.EmptyTextKeepsSeparators | app.py:55-56 | texts `a`, missing, `b` give `a  b` |
| Recognition.Read | app.py:44 | a read returns the next min(n, remaining) frames from the cursor |
| Recognition.ChunksFrom | app.py:43-46 | the chunks successive 4000-frame reads deliver from the cursor until the empty read; characterised by ChunkSizes, ChunksCoverAudio and ChunkCount |
| Recognition.Chunks | app.py:43-46 | the chunks of the whole file, from cursor 0; characterised by the same three lemmas |
| Recognition.ChunkSizes | app.py:43-46 | every chunk fed to the recognizer has between 1 and 4000 frames, and all but the last exactly 4000 |
| Recognition.ChunksCoverAudio | app.py:43-46 | the chunks concatenate to the audio from the cursor on, in order |
| Recognition.ChunkCount | app.py:43-46 | n frames are read in ceil(n / 4000) chunks |
| Recognition.Kept | app.py:47-50 | the results the loop keeps while feeding the chunks; characterised by KeptIsOrderedFilter and KeptAfterFeed |
| Recognition.Results | app.py:42-52 | the list after the loop: the kept results, then the final result; characterised by ResultsShape |
| Recognition.AcceptedPrefixes | app.py:47-50 | the accepted prefix lengths, strictly increasing, each accepted, and every accepted one present |
| Recognition.KeptIsOrderedFilter | app.py:47-50 | the kept results are exactly one per accepted chunk, the recognizer's result at that point, in chunk order |
| Recognition.NothingAccepted | app.py:47-50 | when no chunk is accepted nothing is kept; partial hypotheses never enter the list |
| Recognition.KeptAfterFeed | app.py:47-50 | feeding one chunk keeps one more result exactly when it is accepted |
| Recognition.ResultsShape | app.py:42-52 | the results list has (accepted chunks) + 1 entries: the accepted results in order, then the final result |
| Recognition.CollectResults | app.py:42-52 | the loop feeds exactly the chunks of the audio and returns the kept results followed by the final one |
| Transcriber.ModelDir | app.py:32-35 | `model_ru` exactly when the tag is `ru`, `model_en` for every other tag |
| Transcriber.EnglishFallback | app.py:32-35 | `en`, `fr`, `english`, `""` and `RU` all load `model_en` |
| Transcriber.TranscribeAudio | app.py:30-65 | loads the resolved model directory; when it is missing nothing is written; otherwise writes `<basename>_transcription.json` with `file` the basename and `transcription` the stripped join of the loop's results |
| Transcriber.SilentRecording | app.py:42-56 | when the recognizer's result after each prefix of the chunks and its final result carry no text, the transcription is empty |
| Cli.Dispatch | app.py:70-99 | usage exactly below three entries; `modify` runs exactly with five entries, `transcribe` exactly with four; unknown commands are rejected; calls get `argv[2]` as the path |
| Cli.ExitStatus | app.py:71-99 | `main` itself calls `sys.exit(1)` exactly when no command runs |
| Cli.OutputFile | app.py:80-95 | the file a command would write: Some exactly when a command is invoked, and it has no '/' |
| Cli.Run | app.py:70-99 | a file is written exactly when a command runs and, for `transcribe`, its model directory exists; it is then OutputFile's file with status 0; otherwise nothing is written and the status is 1 (misuse, or the uncaught error of a missing model) |
| Cli.DispatchCommandLine | app.py:77-95 | dispatch and the canonical command line are inverse on calls: no argument is dropped or ignored |
| Cli.TooFewArguments | app.py:71-75 | fewer than three entries: usage, exit 1, nothing written |
| Cli.ModifyArity | app.py:80-87 | `modify` runs exactly with five entries, passing path, speed and volume; otherwise exit 1 |
| Cli.TranscribeArity | app.py:89-95 | `transcribe` runs exactly with four entries, passing path and language; otherwise exit 1 |
| Cli.UnknownCommandExits | app.py:97-99 | any other command exits 1 whatever follows |
| Cli.SampleInvocations | app.py:70-99 | the sample `modify` and `transcribe` command lines dispatch as expected |

## Left out

- Audio decoding, `speedup`, the gain change and WAV export (app.py:16-26): floating-point signal processing inside pydub; `modify` is modelled only by its output name.
- The module-level ffmpeg path assignment (app.py:11): process-global configuration of a foreign binary.
- Model loading and recognizer internals (app.py:33-52): `models` maps each model directory present on disk to an oracle recognizer, and a missing directory aborts without output; `SetWords` has no effect on the text and is omitted; `PartialResult` is called and its value discarded, so it is not modelled.
- Opening the sound file and its sample rate (app.py:38-39): the audio is a sequence of frames given as a parameter.
- JSON decoding of recognizer output and JSON writing with indent and `ensure_ascii` (app.py:48, 52, 64-65): a result is modelled as the map of its string-valued fields; the report is a `Report` value.
- `float(...)` and `int(...)` on the arguments (app.py:85-86): `ModifyCall` carries the raw strings; a malformed number raises at run time, which is not modelled.
- Printed messages and the process exit itself (app.py:27, 67, 72-98); only the exit status is modelled.
- Cli.Run: treats `modify` as always writing its output, since the failures of decoding and export happen inside pydub and are not modelled.
- Runtime errors other than a missing model directory (missing or unreadable input file, malformed numbers): they raise in the libraries and are not modelled.
