/**
 * Names of the files the tool writes. Both commands write into the working
 * directory, under a name built from the POSIX basename of the input path.
 */
module Naming {

  /** The POSIX path separator. */
  const Sep: char := '/'

  const ModifiedPrefix: string := "modified_"
  const TranscriptionSuffix: string := "_transcription.json"

  /**
   * `os.path.basename` on POSIX: the part of the path after its last '/',
   * the whole path when it has none, and "" when it ends in '/'.
   * The ensures pin the result down: it is a suffix of the path, holds no
   * separator, and is either the whole path or preceded by a separator.
   */
  function Basename(path: string): (b: string)
    ensures Sep !in b
    ensures |b| <= |path| && path[|path| - |b|..] == b
    ensures |b| < |path| ==> path[|path| - |b| - 1] == Sep
    decreases |path|
  {
    if path == [] || path[|path| - 1] == Sep then []
    else
      var init := path[..|path| - 1];
      var b := Basename(init);
      assert path[|path| - |b| - 1..] == init[|init| - |b|..] + [path[|path| - 1]];
      b + [path[|path| - 1]]
  }

  /** The basename is the only separator-free suffix that starts the path or follows a separator. */
  lemma BasenameUnique(path: string, k: nat)
    requires k <= |path|
    requires Sep !in path[k..]
    requires k == 0 || path[k - 1] == Sep
    ensures Basename(path) == path[k..]
  {
  }

  /** Output path of `modify`: "modified_" followed by the input's basename. */
  function ModifiedName(path: string): (name: string)
    ensures Sep !in name
    ensures |name| == |ModifiedPrefix| + |Basename(path)|
  {
    assert Sep !in ModifiedPrefix;
    ModifiedPrefix + Basename(path)
  }

  /** Output path of `transcribe`: the input's basename followed by "_transcription.json". */
  function TranscriptionLogName(path: string): (name: string)
    ensures Sep !in name
    ensures |name| == |Basename(path)| + |TranscriptionSuffix|
  {
    assert Sep !in TranscriptionSuffix;
    Basename(path) + TranscriptionSuffix
  }

  /**
   * Both output names keep the basename recoverable: dropping the fixed
   * prefix or suffix gives it back, so two inputs share an output file
   * exactly when they share a basename.
   */
  lemma OutputNamesRecoverBasename(path: string, other: string)
    ensures ModifiedName(path)[|ModifiedPrefix|..] == Basename(path)
    ensures TranscriptionLogName(path)[..|Basename(path)|] == Basename(path)
    ensures ModifiedName(path) == ModifiedName(other) <==> Basename(path) == Basename(other)
    ensures TranscriptionLogName(path) == TranscriptionLogName(other) <==> Basename(path) == Basename(other)
  {
    if ModifiedName(path) == ModifiedName(other) {
      assert ModifiedName(path)[|ModifiedPrefix|..] == ModifiedName(other)[|ModifiedPrefix|..];
    }
    if TranscriptionLogName(path) == TranscriptionLogName(other) {
      assert |Basename(path)| == |Basename(other)|;
      assert TranscriptionLogName(path)[..|Basename(path)|] == TranscriptionLogName(other)[..|Basename(other)|];
    }
  }

  /** A path without a directory is its own basename: `sample-3s.wav` gives `modified_sample-3s.wav`. */
  lemma BareNameOutputs(name: string)
    requires Sep !in name
    ensures ModifiedName(name) == ModifiedPrefix + name
    ensures TranscriptionLogName(name) == name + TranscriptionSuffix
  {
    BasenameUnique(name, 0);
  }

  /** The directory part is dropped: `dir/sample-3s.wav` gives `sample-3s.wav_transcription.json`. */
  lemma DirectoryDropped(dir: string, name: string)
    requires Sep !in name
    ensures ModifiedName(dir + [Sep] + name) == ModifiedPrefix + name
    ensures TranscriptionLogName(dir + [Sep] + name) == name + TranscriptionSuffix
  {
    var path := dir + [Sep] + name;
    assert path[|dir| + 1..] == name;
    BasenameUnique(path, |dir| + 1);
  }

  /** A path ending in '/' has an empty basename, so the output names are the bare prefix and suffix. */
  lemma TrailingSeparatorNames(dir: string)
    ensures ModifiedName(dir + [Sep]) == ModifiedPrefix
    ensures TranscriptionLogName(dir + [Sep]) == TranscriptionSuffix
  {
  }
}
