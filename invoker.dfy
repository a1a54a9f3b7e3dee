/**
 * The second stage, `methyl_task`: the manifest of processed samples and the numeric settings
 * become one shell command line for the methylKit R script, and the script's output directory
 * becomes the stage's result.
 */
module Invoker {
  import opened Common
  import opened Text
  import opened Formatter

  /** The failure of the external command: `check=True` raises on a non-zero exit status. */
  datatype InvokeError = EngineFailed(status: int)

  /** The sample names, in order. */
  function Names(samples: seq<ProcessedBED>): (names: seq<string>)
    ensures |names| == |samples|
    ensures forall k :: 0 <= k < |samples| ==> names[k] == samples[k].sampleName
  {
    if |samples| == 0 then [] else Names(samples[..|samples| - 1]) + [samples[|samples| - 1].sampleName]
  }

  /** The local paths of the processed tables, in order. */
  function Paths(samples: seq<ProcessedBED>): (paths: seq<string>)
    ensures |paths| == |samples|
    ensures forall k :: 0 <= k < |samples| ==> paths[k] == samples[k].bedFile.localPath
  {
    if |samples| == 0 then [] else Paths(samples[..|samples| - 1]) + [samples[|samples| - 1].bedFile.localPath]
  }

  /** The treatment flags as 1 (treated) and 0 (control), in order. */
  function Flags(samples: seq<ProcessedBED>): (flags: seq<int>)
    ensures |flags| == |samples|
    ensures forall k :: 0 <= k < |samples| ==> flags[k] == if samples[k].treatment then 1 else 0
  {
    if |samples| == 0 then []
    else Flags(samples[..|samples| - 1]) + [if samples[|samples| - 1].treatment then 1 else 0]
  }

  /** `map(str, flags)`. */
  function Labels(flags: seq<int>): (labels: seq<string>)
    ensures |labels| == |flags|
    ensures forall k :: 0 <= k < |flags| ==> labels[k] == IntToString(flags[k])
  {
    if |flags| == 0 then [] else [IntToString(flags[0])] + Labels(flags[1..])
  }

  /** The positional arguments of the command, the program and script names first. */
  function Arguments(names: string, paths: string, outputDir: string,
                     baseCov: int, tiling: int, tileCoverage: int, difference: int,
                     qValue: string, treatments: string): seq<string>
  {
    ["Rscript", "methylkit_task.R", names, paths, outputDir,
     IntToString(baseCov), IntToString(tiling), IntToString(tileCoverage), IntToString(difference),
     qValue, treatments]
  }

  function MethylkitDir(workDir: string, trackName: string): string {
    Resolve(workDir, trackName + "/methylkit")
  }

  function ResultsLocation(remoteDir: string, trackName: string): string {
    remoteDir + "/" + trackName + "/methylkit_results"
  }

  /** The command line `methyl_task` hands to the shell. */
  function Command(samples: seq<ProcessedBED>, workDir: string, trackName: string,
                   baseCov: int, tiling: int, tileCoverage: int, difference: int, qValue: string): string
  {
    Join(" ", Arguments(Join(",", Names(samples)), Join(",", Paths(samples)), MethylkitDir(workDir, trackName),
      baseCov, tiling, tileCoverage, difference, qValue, Join(",", Labels(Flags(samples)))))
  }

  /**
   * `methyl_task`. `render` stands for Python's `str` on the q-value cutoff, and `exitStatus`
   * for the status the R script exits with; the command line itself is returned in `command`.
   */
  method MethylTask(samples: seq<ProcessedBED>, remoteDir: string, workDir: string, trackName: string,
                    baseCov: int, tiling: int, tileCoverage: int, difference: int, qVal: real,
                    render: real -> string, exitStatus: int)
    returns (command: string, result: Result<DirRef, InvokeError>)
    ensures command == Command(samples, workDir, trackName, baseCov, tiling, tileCoverage, difference, render(qVal))
    ensures result ==
      if exitStatus == 0 then Success(DirRef(MethylkitDir(workDir, trackName), ResultsLocation(remoteDir, trackName)))
      else Failure(EngineFailed(exitStatus))
  {
    var fileNames: seq<string> := [];
    var filePaths: seq<string> := [];
    var treatments: seq<int> := [];
    var i := 0;
    while i < |samples|
      invariant 0 <= i <= |samples|
      invariant fileNames == Names(samples[..i])
      invariant filePaths == Paths(samples[..i])
      invariant treatments == Flags(samples[..i])
    {
      assert samples[..i + 1][..i] == samples[..i];
      var s := samples[i];
      fileNames := fileNames + [s.sampleName];
      filePaths := filePaths + [s.bedFile.localPath];
      if s.treatment {
        treatments := treatments + [1];
      } else {
        treatments := treatments + [0];
      }
      i := i + 1;
    }
    assert samples[..i] == samples;
    var names := Join(",", fileNames);
    var paths := Join(",", filePaths);
    var treatmentsStr := Join(",", Labels(treatments));
    var outputDir := Resolve(workDir, trackName + "/methylkit");
    command := Join(" ", ["Rscript", "methylkit_task.R", names, paths, outputDir,
      IntToString(baseCov), IntToString(tiling), IntToString(tileCoverage), IntToString(difference),
      render(qVal), treatmentsStr]);
    if exitStatus != 0 {
      result := Failure(EngineFailed(exitStatus));
    } else {
      result := Success(DirRef(outputDir, remoteDir + "/" + trackName + "/methylkit_results"));
    }
  }

  /** The names, paths and treatments strings have one comma-separated entry per sample, aligned. */
  lemma ManifestAligned(samples: seq<ProcessedBED>)
    requires |samples| >= 1
    requires forall k :: 0 <= k < |samples| ==> ',' !in samples[k].sampleName && ',' !in samples[k].bedFile.localPath
    ensures |Split(Join(",", Names(samples)), ',')| == |samples|
    ensures |Split(Join(",", Paths(samples)), ',')| == |samples|
    ensures |Split(Join(",", Labels(Flags(samples))), ',')| == |samples|
    ensures forall k :: 0 <= k < |samples| ==>
      Split(Join(",", Names(samples)), ',')[k] == samples[k].sampleName &&
      Split(Join(",", Paths(samples)), ',')[k] == samples[k].bedFile.localPath &&
      Split(Join(",", Labels(Flags(samples))), ',')[k] == if samples[k].treatment then "1" else "0"
  {
    SplitJoin(Names(samples), ',');
    SplitJoin(Paths(samples), ',');
    var labels := Labels(Flags(samples));
    forall k | 0 <= k < |samples|
      ensures ',' !in labels[k]
    {
      IntToStringHasNoSeparator(Flags(samples)[k], ',');
    }
    SplitJoin(labels, ',');
    assert IntToString(1) == "1" && IntToString(0) == "0";
  }

  // ---------------------------------------------------------------------------------------
  // How `sh` reads the command line (`shell=True`)

  /**
   * The characters treated as word separators. `sh` separates words by spaces and tabs; an
   * unquoted newline would instead end the command. `Words` is therefore only a model of lines
   * without a newline, and every lemma below is about such lines: their parts exclude it.
   */
  predicate IsBlank(c: char) {
    c == ' ' || c == '\t' || c == '\n'
  }

  predicate NoBlank(s: string) {
    forall k :: 0 <= k < |s| ==> !IsBlank(s[k])
  }

  /** `s` without its leading blanks. */
  function DropBlanks(s: string): (r: string)
    ensures |r| <= |s| && r == s[|s| - |r|..]
    ensures |r| > 0 ==> !IsBlank(r[0])
  {
    if |s| > 0 && IsBlank(s[0]) then DropBlanks(s[1..]) else s
  }

  /** The longest prefix of `s` without a blank. */
  function WordPrefix(s: string): (w: string)
    ensures w <= s && NoBlank(w)
    ensures |w| < |s| ==> IsBlank(s[|w|])
  {
    if |s| == 0 || IsBlank(s[0]) then "" else [s[0]] + WordPrefix(s[1..])
  }

  /**
   * The words `sh` reads from a line that holds no quote, expansion or operator character:
   * runs of blanks separate words, and no word is empty.
   */
  function Words(s: string): seq<string>
    decreases |s|
  {
    var t := DropBlanks(s);
    if |t| == 0 then []
    else
      var w := WordPrefix(t);
      [w] + Words(t[|w|..])
  }

  /** The non-empty strings of `parts`, in order. */
  function NonEmpty(parts: seq<string>): seq<string> {
    if |parts| == 0 then []
    else if parts[0] == "" then NonEmpty(parts[1..])
    else [parts[0]] + NonEmpty(parts[1..])
  }

  lemma {:induction false} NonEmptyKeepsAll(parts: seq<string>)
    requires forall i :: 0 <= i < |parts| ==> parts[i] != ""
    ensures NonEmpty(parts) == parts
  {
    if |parts| > 0 {
      NonEmptyKeepsAll(parts[1..]);
      assert [parts[0]] + parts[1..] == parts;
    }
  }

  lemma {:induction false} WordPrefixOf(a: string, r: string)
    requires NoBlank(a)
    requires |r| == 0 || IsBlank(r[0])
    ensures WordPrefix(a + r) == a
  {
    if |a| == 0 {
      assert a + r == r;
    } else {
      WordPrefixOf(a[1..], r);
      assert (a + r)[1..] == a[1..] + r;
      assert [a[0]] + a[1..] == a;
    }
  }

  lemma LeadingBlank(r: string)
    ensures Words(" " + r) == Words(r)
  {
    assert (" " + r)[1..] == r;
    assert DropBlanks(" " + r) == DropBlanks(r);
  }

  /** A word that starts the line, followed by a blank or nothing, is read as the first word. */
  lemma FirstWord(a: string, r: string)
    requires a != "" && NoBlank(a)
    requires |r| == 0 || IsBlank(r[0])
    ensures Words(a + r) == [a] + Words(r)
  {
    var s := a + r;
    assert s[0] == a[0];
    assert DropBlanks(s) == s;
    WordPrefixOf(a, r);
    assert s[|a|..] == r;
  }

  lemma WordsOfEmpty()
    ensures Words("") == []
  {
    assert DropBlanks("") == "";
  }

  lemma WordsOfOne(a: string)
    requires NoBlank(a)
    ensures Words(a) == NonEmpty([a])
  {
    WordsOfEmpty();
    assert [a][1..] == [];
    if a != "" {
      FirstWord(a, "");
      assert a + "" == a;
    }
  }

  /** A word and a blank before the rest of the line: the word, then the words of the rest. */
  lemma WordThenRest(a: string, rest: string)
    requires NoBlank(a)
    ensures Words(a + " " + rest) == (if a == "" then [] else [a]) + Words(rest)
  {
    if a == "" {
      assert a + " " + rest == " " + rest;
      LeadingBlank(rest);
    } else {
      WordBeforeBlank(a, rest);
    }
  }

  lemma WordBeforeBlank(a: string, rest: string)
    requires a != "" && NoBlank(a)
    ensures Words(a + " " + rest) == [a] + Words(rest)
  {
    assert a + " " + rest == a + (" " + rest);
    FirstWord(a, " " + rest);
    LeadingBlank(rest);
  }

  lemma NonEmptyCons(parts: seq<string>)
    requires |parts| > 0
    ensures NonEmpty(parts) == (if parts[0] == "" then [] else [parts[0]]) + NonEmpty(parts[1..])
  {
  }

  lemma WordsOfCons(parts: seq<string>)
    requires |parts| > 1 && NoBlank(parts[0])
    requires Words(Join(" ", parts[1..])) == NonEmpty(parts[1..])
    ensures Words(Join(" ", parts)) == NonEmpty(parts)
  {
    assert Join(" ", parts) == parts[0] + " " + Join(" ", parts[1..]);
    WordThenRest(parts[0], Join(" ", parts[1..]));
    NonEmptyCons(parts);
  }

  /** `sh` reads back the non-empty parts of a space-join of parts without blanks. */
  lemma {:induction false} WordsOfJoin(parts: seq<string>)
    requires forall i :: 0 <= i < |parts| ==> NoBlank(parts[i])
    ensures Words(Join(" ", parts)) == NonEmpty(parts)
  {
    if |parts| == 0 {
      WordsOfEmpty();
    } else if |parts| == 1 {
      WordsOfOne(parts[0]);
    } else {
      WordsOfJoin(parts[1..]);
      WordsOfCons(parts);
    }
  }

  /** A character `sh` takes literally in an unquoted word. */
  predicate ShellPlain(c: char) {
    'a' <= c <= 'z' || 'A' <= c <= 'Z' || '0' <= c <= '9' ||
    c == '_' || c == '-' || c == '.' || c == ',' || c == '/' || c == ':' || c == '+' || c == '@' || c == '%'
  }

  predicate AllPlain(s: string) {
    forall k :: 0 <= k < |s| ==> ShellPlain(s[k])
  }

  /** A non-empty word that `sh` passes on unchanged. */
  predicate ShellWord(s: string) {
    |s| > 0 && AllPlain(s)
  }

  lemma PlainConcat(a: string, b: string)
    requires AllPlain(a) && AllPlain(b)
    ensures AllPlain(a + b)
  {
    assert forall k :: 0 <= k < |a + b| ==> (a + b)[k] == if k < |a| then a[k] else b[k - |a|];
  }

  lemma {:induction false} PlainJoin(sep: string, parts: seq<string>)
    requires AllPlain(sep)
    requires forall i :: 0 <= i < |parts| ==> AllPlain(parts[i])
    ensures AllPlain(Join(sep, parts))
    ensures |parts| > 0 && parts[0] != "" ==> Join(sep, parts) != ""
  {
    if |parts| > 1 {
      PlainJoin(sep, parts[1..]);
      PlainConcat(parts[0], sep);
      PlainConcat(parts[0] + sep, Join(sep, parts[1..]));
    }
  }

  lemma IntToStringPlain(i: int)
    ensures ShellWord(IntToString(i))
  {
    var r := IntToString(i);
    assert forall k :: 0 <= k < |r| ==> ShellPlain(r[k]) by {
      forall k | 0 <= k < |r|
        ensures ShellPlain(r[k])
      {
        if k > 0 {
          assert IsDigit(r[k]);
        }
      }
    }
  }

  /**
   * `sh` reads the command line back as the eleven arguments in their fixed order, when each
   * variable argument is a non-empty word of plain characters.
   */
  lemma CommandArguments(names: string, paths: string, outputDir: string,
                         baseCov: int, tiling: int, tileCoverage: int, difference: int,
                         qValue: string, treatments: string)
    requires ShellWord(names) && ShellWord(paths) && ShellWord(outputDir) && ShellWord(qValue) && ShellWord(treatments)
    ensures Words(Join(" ", Arguments(names, paths, outputDir, baseCov, tiling, tileCoverage, difference, qValue, treatments)))
      == ["Rscript", "methylkit_task.R", names, paths, outputDir,
          IntToString(baseCov), IntToString(tiling), IntToString(tileCoverage), IntToString(difference),
          qValue, treatments]
  {
    var args := Arguments(names, paths, outputDir, baseCov, tiling, tileCoverage, difference, qValue, treatments);
    IntToStringPlain(baseCov);
    IntToStringPlain(tiling);
    IntToStringPlain(tileCoverage);
    IntToStringPlain(difference);
    assert ShellWord("Rscript") && ShellWord("methylkit_task.R");
    forall i | 0 <= i < |args|
      ensures NoBlank(args[i]) && args[i] != ""
    {
      assert ShellWord(args[i]);
    }
    WordsOfJoin(args);
    NonEmptyKeepsAll(args);
  }

  /** The treatments string is made of digits, minus signs and commas only. */
  lemma TreatmentsArePlain(samples: seq<ProcessedBED>)
    ensures AllPlain(Join(",", Labels(Flags(samples))))
    ensures |samples| > 0 ==> ShellWord(Join(",", Labels(Flags(samples))))
  {
    var labels := Labels(Flags(samples));
    forall k | 0 <= k < |labels|
      ensures ShellWord(labels[k])
    {
      IntToStringPlain(Flags(samples)[k]);
    }
    assert AllPlain(",");
    PlainJoin(",", labels);
  }

  /** Names and paths of plain characters give plain comma-joined lists. */
  lemma ManifestPlain(samples: seq<ProcessedBED>)
    requires |samples| > 0
    requires forall k :: 0 <= k < |samples| ==> ShellWord(samples[k].sampleName) && ShellWord(samples[k].bedFile.localPath)
    ensures ShellWord(Join(",", Names(samples))) && ShellWord(Join(",", Paths(samples)))
    ensures ShellWord(Join(",", Labels(Flags(samples))))
  {
    var names, paths := Names(samples), Paths(samples);
    forall i | 0 <= i < |samples|
      ensures ShellWord(names[i]) && ShellWord(paths[i])
    {
      assert names[i] == samples[i].sampleName && paths[i] == samples[i].bedFile.localPath;
    }
    WordListPlain(names);
    WordListPlain(paths);
    TreatmentsArePlain(samples);
  }

  lemma WordListPlain(words: seq<string>)
    requires |words| > 0 && forall i :: 0 <= i < |words| ==> ShellWord(words[i])
    ensures ShellWord(Join(",", words))
  {
    assert AllPlain(",");
    PlainJoin(",", words);
  }

  /** A working directory and a track name of plain characters give a plain output directory. */
  lemma OutputDirPlain(workDir: string, trackName: string)
    requires AllPlain(workDir) && AllPlain(trackName)
    ensures ShellWord(MethylkitDir(workDir, trackName))
  {
    assert AllPlain("/") && AllPlain("/methylkit");
    PlainConcat(trackName, "/methylkit");
    PlainConcat(workDir, "/");
    PlainConcat(workDir + "/", trackName + "/methylkit");
    assert workDir + "/" + (trackName + "/methylkit") == Resolve(workDir, trackName + "/methylkit")
      || trackName + "/methylkit" == Resolve(workDir, trackName + "/methylkit");
  }

  /**
   * The command `MethylTask` builds is read by `sh` as its eleven arguments when there is at
   * least one sample and the names, the local paths, the working directory, the track name and
   * the q-value text are made of plain characters.
   */
  lemma ManifestCommandWords(samples: seq<ProcessedBED>, workDir: string, trackName: string,
                             baseCov: int, tiling: int, tileCoverage: int, difference: int, qValue: string)
    requires |samples| > 0
    requires forall k :: 0 <= k < |samples| ==> ShellWord(samples[k].sampleName) && ShellWord(samples[k].bedFile.localPath)
    requires AllPlain(workDir) && AllPlain(trackName) && ShellWord(qValue)
    ensures Words(Command(samples, workDir, trackName, baseCov, tiling, tileCoverage, difference, qValue))
      == ["Rscript", "methylkit_task.R", Join(",", Names(samples)), Join(",", Paths(samples)),
          MethylkitDir(workDir, trackName),
          IntToString(baseCov), IntToString(tiling), IntToString(tileCoverage), IntToString(difference),
          qValue, Join(",", Labels(Flags(samples)))]
  {
    ManifestPlain(samples);
    OutputDirPlain(workDir, trackName);
    CommandArguments(Join(",", Names(samples)), Join(",", Paths(samples)), MethylkitDir(workDir, trackName),
      baseCov, tiling, tileCoverage, difference, qValue, Join(",", Labels(Flags(samples))));
  }

  /** Every string of `ws` is a non-empty word of plain characters. */
  predicate AllWords(ws: seq<string>) {
    forall i :: 0 <= i < |ws| ==> ShellWord(ws[i])
  }

  lemma AllWordsConcat(a: seq<string>, b: seq<string>)
    requires AllWords(a) && AllWords(b)
    ensures AllWords(a + b)
  {
    assert forall i :: 0 <= i < |a + b| ==> (a + b)[i] == if i < |a| then a[i] else b[i - |a|];
  }

  /** `sh` reads a space-join of plain words back as those words. */
  lemma WordsOfPlainJoin(ws: seq<string>)
    requires AllWords(ws)
    ensures Words(Join(" ", ws)) == ws
  {
    WordsOfJoin(ws);
    NonEmptyKeepsAll(ws);
  }

  lemma {:induction false} NonEmptyAppend(a: seq<string>, b: seq<string>)
    ensures NonEmpty(a + b) == NonEmpty(a) + NonEmpty(b)
  {
    if |a| == 0 {
      assert a + b == b;
    } else {
      NonEmptyAppend(a[1..], b);
      assert (a + b)[0] == a[0];
      assert (a + b)[1..] == a[1..] + b;
      NonEmptyCons(a + b);
      NonEmptyCons(a);
    }
  }

  /** The program and the script name are plain words. */
  lemma ScriptIsWords()
    ensures AllWords(["Rscript", "methylkit_task.R"])
  {
    assert ShellWord("Rscript") && ShellWord("methylkit_task.R");
  }

  lemma SettingsAreWords(baseCov: int, tiling: int, tileCoverage: int, difference: int, qValue: string)
    requires ShellWord(qValue)
    ensures AllWords([IntToString(baseCov), IntToString(tiling), IntToString(tileCoverage), IntToString(difference), qValue])
  {
    IntToStringPlain(baseCov);
    IntToStringPlain(tiling);
    IntToStringPlain(tileCoverage);
    IntToStringPlain(difference);
  }

  /** The command for an empty manifest, as a space-join in which three arguments are empty. */
  lemma EmptyManifestJoin(workDir: string, trackName: string,
                          baseCov: int, tiling: int, tileCoverage: int, difference: int, qValue: string)
    ensures Command([], workDir, trackName, baseCov, tiling, tileCoverage, difference, qValue)
      == Join(" ", ["Rscript", "methylkit_task.R"] + ["", ""] +
                   [MethylkitDir(workDir, trackName), IntToString(baseCov), IntToString(tiling),
                    IntToString(tileCoverage), IntToString(difference), qValue] + [""])
  {
    assert Names([]) == [] && Paths([]) == [] && Labels(Flags([])) == [];
    assert Arguments("", "", MethylkitDir(workDir, trackName), baseCov, tiling, tileCoverage, difference, qValue, "")
      == ["Rscript", "methylkit_task.R"] + ["", ""] +
         [MethylkitDir(workDir, trackName), IntToString(baseCov), IntToString(tiling),
          IntToString(tileCoverage), IntToString(difference), qValue] + [""];
  }

  /** `sh` drops the empty arguments of such a join and keeps the others in order. */
  lemma WordsDropEmpty(head: seq<string>, settings: seq<string>)
    requires AllWords(head) && AllWords(settings)
    ensures Words(Join(" ", head + ["", ""] + settings + [""])) == head + settings
  {
    NoBlankArguments(head, settings);
    WordsOfJoin(head + ["", ""] + settings + [""]);
    DropEmptyArguments(head, settings);
  }

  /** Dropping the empty strings from `head + ["", ""] + settings + [""]` leaves `head + settings`. */
  lemma DropEmptyArguments(head: seq<string>, settings: seq<string>)
    requires AllWords(head) && AllWords(settings)
    ensures NonEmpty(head + ["", ""] + settings + [""]) == head + settings
  {
    NonEmptyAppend(head + ["", ""] + settings, [""]);
    NonEmptyAppend(head + ["", ""], settings);
    NonEmptyAppend(head, ["", ""]);
    NonEmptyKeepsAll(head);
    NonEmptyKeepsAll(settings);
    assert NonEmpty(["", ""]) == [] by {
      assert ["", ""][1..] == [""];
      assert [""][1..] == [];
    }
    assert NonEmpty([""]) == [] by {
      assert [""][1..] == [];
    }
  }

  lemma NoBlankArguments(head: seq<string>, settings: seq<string>)
    requires AllWords(head) && AllWords(settings)
    ensures forall i :: 0 <= i < |head + ["", ""] + settings + [""]| ==> NoBlank((head + ["", ""] + settings + [""])[i])
  {
    var args := head + ["", ""] + settings + [""];
    forall i | 0 <= i < |args|
      ensures NoBlank(args[i])
    {
      if i < |head| {
        assert args[i] == head[i];
      } else if |head| + 2 <= i < |head| + 2 + |settings| {
        assert args[i] == settings[i - |head| - 2];
      } else {
        assert args[i] == "";
      }
    }
  }

  /**
   * With no samples the names, paths and treatments strings are empty, and `sh` drops them:
   * the script receives eight arguments, the output directory second after the script name.
   */
  lemma EmptyManifestCommand(workDir: string, trackName: string,
                             baseCov: int, tiling: int, tileCoverage: int, difference: int, qValue: string)
    requires AllPlain(workDir) && AllPlain(trackName) && ShellWord(qValue)
    ensures Words(Command([], workDir, trackName, baseCov, tiling, tileCoverage, difference, qValue))
      == ["Rscript", "methylkit_task.R"] + [MethylkitDir(workDir, trackName),
          IntToString(baseCov), IntToString(tiling), IntToString(tileCoverage), IntToString(difference), qValue]
  {
    EmptyManifestJoin(workDir, trackName, baseCov, tiling, tileCoverage, difference, qValue);
    DirAndSettingsAreWords(workDir, trackName, baseCov, tiling, tileCoverage, difference, qValue);
    EmptyManifestWords(MethylkitDir(workDir, trackName),
      IntToString(baseCov), IntToString(tiling), IntToString(tileCoverage), IntToString(difference), qValue);
  }

  lemma EmptyManifestWords(dir: string, a: string, b: string, c: string, d: string, q: string)
    requires AllWords([dir, a, b, c, d, q])
    ensures Words(Join(" ", ["Rscript", "methylkit_task.R"] + ["", ""] + [dir, a, b, c, d, q] + [""]))
      == ["Rscript", "methylkit_task.R"] + [dir, a, b, c, d, q]
  {
    ScriptIsWords();
    WordsDropEmpty(["Rscript", "methylkit_task.R"], [dir, a, b, c, d, q]);
  }

  lemma DirAndSettingsAreWords(workDir: string, trackName: string,
                               baseCov: int, tiling: int, tileCoverage: int, difference: int, qValue: string)
    requires AllPlain(workDir) && AllPlain(trackName) && ShellWord(qValue)
    ensures AllWords([MethylkitDir(workDir, trackName),
      IntToString(baseCov), IntToString(tiling), IntToString(tileCoverage), IntToString(difference), qValue])
  {
    var dir := MethylkitDir(workDir, trackName);
    var settings := [dir, IntToString(baseCov), IntToString(tiling), IntToString(tileCoverage), IntToString(difference), qValue];
    OutputDirPlain(workDir, trackName);
    SettingsAreWords(baseCov, tiling, tileCoverage, difference, qValue);
    AllWordsConcat([dir], settings[1..]);
    assert [dir] + settings[1..] == settings;
  }

  /** A join with one part cut at a space is the join of the two halves in its place. */
  lemma {:induction false} JoinCutPart(pre: seq<string>, x: string, y: string, post: seq<string>)
    ensures Join(" ", pre + [x + " " + y] + post) == Join(" ", pre + [x, y] + post)
  {
    if |pre| == 0 {
      assert pre + [x + " " + y] + post == [x + " " + y] + post;
      assert pre + [x, y] + post == [x, y] + post;
      assert ([x, y] + post)[1..] == [y] + post;
      if |post| > 0 {
        assert ([x + " " + y] + post)[1..] == post;
        assert ([y] + post)[1..] == post;
      }
    } else {
      JoinCutPart(pre[1..], x, y, post);
      assert (pre + [x + " " + y] + post)[1..] == pre[1..] + [x + " " + y] + post;
      assert (pre + [x, y] + post)[1..] == pre[1..] + [x, y] + post;
    }
  }

  /** The command for a track name with a space, as a join in which that space now separates two parts. */
  lemma SpacedTrackNameJoin(samples: seq<ProcessedBED>, workDir: string, first: string, second: string,
                            baseCov: int, tiling: int, tileCoverage: int, difference: int, qValue: string)
    ensures Command(samples, workDir, first + " " + second, baseCov, tiling, tileCoverage, difference, qValue)
      == Join(" ", ["Rscript", "methylkit_task.R", Join(",", Names(samples)), Join(",", Paths(samples))] +
                   [Resolve(workDir, first), second + "/methylkit"] +
                   [IntToString(baseCov), IntToString(tiling), IntToString(tileCoverage), IntToString(difference),
                    qValue, Join(",", Labels(Flags(samples)))])
  {
    var names, paths, treatments := Join(",", Names(samples)), Join(",", Paths(samples)), Join(",", Labels(Flags(samples)));
    var x, y := Resolve(workDir, first), second + "/methylkit";
    ResolveAppend(workDir, first, " " + second + "/methylkit");
    assert first + " " + second + "/methylkit" == first + (" " + second + "/methylkit");
    var pre := ["Rscript", "methylkit_task.R", names, paths];
    var post := [IntToString(baseCov), IntToString(tiling), IntToString(tileCoverage), IntToString(difference), qValue, treatments];
    assert MethylkitDir(workDir, first + " " + second) == x + " " + y;
    assert Arguments(names, paths, x + " " + y, baseCov, tiling, tileCoverage, difference, qValue, treatments)
      == pre + [x + " " + y] + post;
    JoinCutPart(pre, x, y, post);
  }

  /** `sh` reads a join of twelve plain words as twelve words, each in its place. */
  lemma TwelveWords(names: string, paths: string, x: string, y: string, post: seq<string>)
    requires ShellWord(names) && ShellWord(paths) && ShellWord(x) && ShellWord(y)
    requires |post| == 6 && AllWords(post)
    ensures var words := Words(Join(" ", ["Rscript", "methylkit_task.R", names, paths] + [x, y] + post));
      |words| == 12 && words[4] == x && words[5] == y && words[6] == post[0]
  {
    HeadWords(names, paths);
    assert AllWords([x, y]);
    ThreeRuns(["Rscript", "methylkit_task.R", names, paths], [x, y], post);
  }

  lemma HeadWords(names: string, paths: string)
    requires ShellWord(names) && ShellWord(paths)
    ensures AllWords(["Rscript", "methylkit_task.R", names, paths])
  {
    ScriptIsWords();
    AllWordsConcat(["Rscript", "methylkit_task.R"], [names, paths]);
    assert ["Rscript", "methylkit_task.R"] + [names, paths] == ["Rscript", "methylkit_task.R", names, paths];
  }

  lemma ThreeRuns(pre: seq<string>, mid: seq<string>, post: seq<string>)
    requires AllWords(pre) && AllWords(mid) && AllWords(post)
    ensures Words(Join(" ", pre + mid + post)) == pre + mid + post
  {
    AllWordsConcat(pre, mid);
    AllWordsConcat(pre + mid, post);
    WordsOfPlainJoin(pre + mid + post);
  }

  /** The directory text on each side of the track name's space is plain. */
  lemma DirHalvesPlain(workDir: string, first: string, second: string)
    requires AllPlain(workDir) && AllPlain(first) && AllPlain(second)
    ensures ShellWord(Resolve(workDir, first)) && ShellWord(second + "/methylkit")
  {
    assert AllPlain("/") && AllPlain("/methylkit");
    PlainConcat(workDir, "/");
    PlainConcat(workDir + "/", first);
    PlainConcat(second, "/methylkit");
  }

  lemma SettingsAndTreatmentsAreWords(samples: seq<ProcessedBED>,
                                      baseCov: int, tiling: int, tileCoverage: int, difference: int, qValue: string)
    requires |samples| > 0 && ShellWord(qValue)
    ensures AllWords([IntToString(baseCov), IntToString(tiling), IntToString(tileCoverage), IntToString(difference),
                      qValue, Join(",", Labels(Flags(samples)))])
  {
    SettingsAreWords(baseCov, tiling, tileCoverage, difference, qValue);
    TreatmentsArePlain(samples);
    SixWords(IntToString(baseCov), IntToString(tiling), IntToString(tileCoverage), IntToString(difference),
      qValue, Join(",", Labels(Flags(samples))));
  }

  lemma SixWords(a: string, b: string, c: string, d: string, e: string, f: string)
    requires AllWords([a, b, c, d, e]) && ShellWord(f)
    ensures AllWords([a, b, c, d, e, f])
  {
    assert [a, b, c, d, e, f] == [a, b, c, d, e] + [f];
    AllWordsConcat([a, b, c, d, e], [f]);
  }

  /**
   * A track name with a space splits the output directory into two words, so `sh` hands the
   * script twelve arguments and every argument after the directory moves one place: the base
   * coverage position receives the directory's tail.
   */
  lemma SpacedTrackNameShiftsArguments(samples: seq<ProcessedBED>, workDir: string, first: string, second: string,
                                       baseCov: int, tiling: int, tileCoverage: int, difference: int, qValue: string)
    requires |samples| > 0
    requires forall k :: 0 <= k < |samples| ==> ShellWord(samples[k].sampleName) && ShellWord(samples[k].bedFile.localPath)
    requires AllPlain(workDir) && AllPlain(first) && AllPlain(second) && ShellWord(qValue)
    ensures var words := Words(Command(samples, workDir, first + " " + second, baseCov, tiling, tileCoverage, difference, qValue));
      |words| == 12 && words[4] == Resolve(workDir, first) && words[5] == second + "/methylkit" &&
      words[6] == IntToString(baseCov)
  {
    SpacedTrackNameJoin(samples, workDir, first, second, baseCov, tiling, tileCoverage, difference, qValue);
    ManifestPlain(samples);
    DirHalvesPlain(workDir, first, second);
    SettingsAndTreatmentsAreWords(samples, baseCov, tiling, tileCoverage, difference, qValue);
    TwelveWords(Join(",", Names(samples)), Join(",", Paths(samples)), Resolve(workDir, first), second + "/methylkit",
      [IntToString(baseCov), IntToString(tiling), IntToString(tileCoverage), IntToString(difference),
       qValue, Join(",", Labels(Flags(samples)))]);
  }
}
