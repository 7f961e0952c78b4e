/**
 * Interactive input rules of utils/prompt.go. Standard input is a given sequence of lines
 * (for `ReadMnemonic`) or of scan results (for `ReadLine`); printing is not modelled.
 */
module Prompt {
  import opened Wrappers
  import opened GoStrings

  // ---------------------------------------------------------------------------
  // ReadMnemonic

  /** What `ReadMnemonic` ends with: the joined phrase, or `log.Fatalf` after a failed read
      (standard input ran out before the phrase was complete). */
  datatype MnemonicResult = Mnemonic(phrase: string) | ReadFailed

  /** A trimmed line that ends input: "done" in any letter case, tested letter by letter
      (`DoneIsLowerDone` shows this is the source's `strings.ToLower(line) == "done"`). */
  predicate IsDone(line: string) {
    |line| == 4 && ToLowerChar(line[0]) == 'd' && ToLowerChar(line[1]) == 'o'
    && ToLowerChar(line[2]) == 'n' && ToLowerChar(line[3]) == 'e'
  }

  lemma DoneIsLowerDone(line: string)
    ensures IsDone(line) <==> ToLower(line) == "done"
  {
    if ToLower(line) == "done" {
      assert ToLower(line)[0] == 'd' && ToLower(line)[1] == 'o' && ToLower(line)[2] == 'n' && ToLower(line)[3] == 'e';
    }
    if IsDone(line) {
      assert ToLower(line) == "done";
    }
  }

  /** How the loop body treats one line, given how many words were collected before it. */
  datatype LineKind = DoneLine | Phrase(words: seq<string>) | OneWord(word: string) | Ignored

  function KindOf(line: string, collected: nat): (r: LineKind)
    ensures r.Phrase? ==> |r.words| > 1 && forall k :: 0 <= k < |r.words| ==> IsWord(r.words[k])
    ensures r.OneWord? ==> IsWord(r.word)
  {
    var t := TrimSpace(line);
    if IsDone(t) then DoneLine
    else
      var input := Fields(t);
      FieldsAreWords(t);
      if |input| > 1 && collected == 0 then Phrase(input)
      else if |input| == 1 then OneWord(input[0])
      else Ignored
  }

  /** The word list that reading `lines` produces when `words` were collected already;
      `None` when input runs out first. */
  function CollectWords(words: seq<string>, lines: seq<string>): Option<seq<string>>
    decreases |lines|
  {
    if lines == [] then None
    else
      match KindOf(lines[0], |words|)
      case DoneLine => Some(words)
      case Phrase(input) => Some(words + input)
      case OneWord(w) => CollectWords(words + [w], lines[1..])
      case Ignored => CollectWords(words, lines[1..])
  }

  /** The result `ReadMnemonic` gives for `lines`. */
  function MnemonicOf(lines: seq<string>): MnemonicResult {
    match CollectWords([], lines)
    case None => ReadFailed
    case Some(ws) => Mnemonic(Join(ws, " "))
  }

  /** The read loop of `ReadMnemonic`, proved to compute `MnemonicOf`. */
  method ReadMnemonic(lines: seq<string>) returns (r: MnemonicResult)
    ensures r == MnemonicOf(lines)
  {
    var words: seq<string> := [];
    var i := 0;
    while true
      invariant 0 <= i <= |lines|
      invariant CollectWords(words, lines[i..]) == CollectWords([], lines)
      decreases |lines| - i
    {
      if i == |lines| {
        return ReadFailed;
      }
      var line := TrimSpace(lines[i]);
      assert lines[i..][0] == lines[i] && lines[i..][1..] == lines[i + 1..];
      i := i + 1;
      if IsDone(line) {
        break;
      }
      var inputWords := Fields(line);
      if |inputWords| > 1 && |words| == 0 {
        words := words + inputWords;
        break;
      } else if |inputWords| == 1 {
        words := words + [inputWords[0]];
      } else if |inputWords| == 0 {
        continue;
      }
    }
    r := Mnemonic(Join(words, " "));
  }

  /** Every collected entry is a word (non-empty, no white space). */
  lemma {:induction false} CollectedAreWords(words: seq<string>, lines: seq<string>)
    requires forall k :: 0 <= k < |words| ==> IsWord(words[k])
    ensures CollectWords(words, lines).Some? ==>
      forall k :: 0 <= k < |CollectWords(words, lines).value| ==> IsWord(CollectWords(words, lines).value[k])
    decreases |lines|
  {
    if lines != [] {
      match KindOf(lines[0], |words|)
      case DoneLine =>
      case Phrase(input) =>
      case OneWord(w) => CollectedAreWords(words + [w], lines[1..]);
      case Ignored => CollectedAreWords(words, lines[1..]);
    }
  }

  /** Input only ever adds words: earlier words are never dropped or reordered. */
  lemma {:induction false} CollectedExtends(words: seq<string>, lines: seq<string>)
    ensures CollectWords(words, lines).Some? ==> words <= CollectWords(words, lines).value
    decreases |lines|
  {
    if lines != [] {
      match KindOf(lines[0], |words|)
      case DoneLine =>
      case Phrase(input) =>
        assert words <= words + input;
      case OneWord(w) =>
        CollectedExtends(words + [w], lines[1..]);
        assert words <= words + [w];
      case Ignored => CollectedExtends(words, lines[1..]);
    }
  }

  /** The phrase splits back, with `strings.Fields`, into exactly the collected words:
      the single-space join loses nothing. */
  lemma PhraseSplitsIntoWords(lines: seq<string>)
    requires CollectWords([], lines).Some?
    ensures MnemonicOf(lines).Mnemonic?
    ensures Fields(MnemonicOf(lines).phrase) == CollectWords([], lines).value
  {
    CollectedAreWords([], lines);
    FieldsOfJoin(CollectWords([], lines).value);
  }

  /** A line that `TrimSpace` turns into "done" (any case) ends input and adds no word. */
  lemma DoneEndsInput(words: seq<string>, line: string, rest: seq<string>)
    requires IsDone(TrimSpace(line))
    ensures CollectWords(words, [line] + rest) == Some(words)
  {
    assert ([line] + rest)[0] == line;
  }

  /** A line of several words typed before any other word is the whole phrase. */
  lemma WholePhraseAtOnce(line: string, rest: seq<string>)
    requires !IsDone(TrimSpace(line)) && |Fields(TrimSpace(line))| > 1
    ensures CollectWords([], [line] + rest) == Some(Fields(TrimSpace(line)))
  {
    PhraseKind(line);
    CollectPhraseFirst(line, rest, Fields(TrimSpace(line)));
  }

  lemma PhraseKind(line: string)
    requires !IsDone(TrimSpace(line)) && |Fields(TrimSpace(line))| > 1
    ensures KindOf(line, 0) == Phrase(Fields(TrimSpace(line)))
  {
  }

  lemma CollectPhraseFirst(line: string, rest: seq<string>, input: seq<string>)
    requires KindOf(line, 0) == Phrase(input)
    ensures CollectWords([], [line] + rest) == Some(input)
  {
    var lines := [line] + rest;
    assert lines[0] == line;
    CollectPhrase([], lines, input);
    EmptyConcat(input);
  }

  lemma CollectPhrase(words: seq<string>, lines: seq<string>, input: seq<string>)
    requires lines != [] && KindOf(lines[0], |words|) == Phrase(input)
    ensures CollectWords(words, lines) == Some(words + input)
  {
  }

  lemma EmptyConcat(input: seq<string>)
    ensures [] + input == input
  {
  }

  /** A one-word line appends its word and reading goes on. */
  lemma OneWordContinues(words: seq<string>, line: string, rest: seq<string>)
    requires !IsDone(TrimSpace(line)) && |Fields(TrimSpace(line))| == 1
    ensures CollectWords(words, [line] + rest) == CollectWords(words + Fields(TrimSpace(line)), rest)
  {
    var input := Fields(TrimSpace(line));
    assert ([line] + rest)[0] == line && ([line] + rest)[1..] == rest;
    assert KindOf(line, |words|) == OneWord(input[0]);
    assert [input[0]] == input;
  }

  /** A blank line, and a several-word line once words were collected, are skipped without effect. */
  lemma IgnoredLine(words: seq<string>, line: string, rest: seq<string>)
    requires !IsDone(TrimSpace(line))
    requires |Fields(TrimSpace(line))| == 0 || (|Fields(TrimSpace(line))| > 1 && |words| > 0)
    ensures CollectWords(words, [line] + rest) == CollectWords(words, rest)
  {
    assert ([line] + rest)[0] == line && ([line] + rest)[1..] == rest;
    assert KindOf(line, |words|) == Ignored;
  }

  lemma DoneKind()
    ensures IsDone(TrimSpace("done"))
  {
    assert TrimLeft("done") == "done" && TrimRight("done") == "done";
  }

  lemma WordKind(w: string, collected: nat)
    requires IsWord(w) && !IsDone(w)
    ensures KindOf(w, collected) == OneWord(w)
  {
    TrimSpaceOfWord(w);
    FieldsOfWord(w);
  }

  lemma CollectOneWord(words: seq<string>, w: string, tail: seq<string>)
    requires KindOf(w, |words|) == OneWord(w)
    ensures CollectWords(words, [w] + tail) == CollectWords(words + [w], tail)
  {
    assert ([w] + tail)[0] == w && ([w] + tail)[1..] == tail;
  }

  /** Lines each holding exactly one word, none of them "done". */
  predicate WordLines(typed: seq<string>) {
    typed == [] || (IsWord(typed[0]) && !IsDone(typed[0]) && WordLines(typed[1..]))
  }

  /** Word-by-word entry: single-word lines followed by a "done" line give exactly those words. */
  lemma {:induction false} WordByWord(words: seq<string>, typed: seq<string>, done: string, rest: seq<string>)
    requires WordLines(typed) && IsDone(TrimSpace(done))
    ensures CollectWords(words, typed + [done] + rest) == Some(words + typed)
    decreases |typed|
  {
    if typed == [] {
      DoneEndsInput(words, done, rest);
      SplitFirst(words, typed, done, rest);
    } else {
      var w, more := typed[0], typed[1..];
      SplitFirst(words, typed, done, rest);
      WordKind(w, |words|);
      WordByWord(words + [w], more, done, rest);
      CollectOneWord(words, w, more + [done] + rest);
    }
  }

  lemma SplitFirst(words: seq<string>, typed: seq<string>, done: string, rest: seq<string>)
    ensures typed == [] ==> (typed + [done] + rest == [done] + rest && words + typed == words)
    ensures typed != [] ==>
              (typed + [done] + rest == [typed[0]] + (typed[1..] + [done] + rest)
               && words + [typed[0]] + typed[1..] == words + typed)
  {
    if typed != [] {
      assert typed == [typed[0]] + typed[1..];
    }
  }

  // ---------------------------------------------------------------------------
  // ReadLine and its validators

  /** One `fmt.Scanln` call: the token it read, or a read failure. */
  datatype Scan = Scanned(input: string) | ScanFailed

  /** `Accepted` and `Exited` are the two returns of `ReadLine`. `Exhausted` is where the model's
      finite input ends while the source would go on prompting. */
  datatype LineResult = Accepted(value: string) | Exited | Exhausted

  /** A read that `ReadLine` passes over: a failed scan, or an input other than "exit"
      that the validator rejects. */
  predicate Skipped(s: Scan, validator: string -> bool) {
    s.ScanFailed? || (s.input != "exit" && !validator(s.input))
  }

  /** The retry loop of `ReadLine`. "exit" is tested before the validator is consulted. */
  method ReadLine(inputs: seq<Scan>, validator: string -> bool) returns (r: LineResult)
    ensures r.Accepted? ==> exists k :: (0 <= k < |inputs| && inputs[k] == Scanned(r.value)
      && r.value != "exit" && validator(r.value)
      && forall j :: 0 <= j < k ==> Skipped(inputs[j], validator))
    ensures r.Exited? ==> exists k :: (0 <= k < |inputs| && inputs[k] == Scanned("exit")
      && forall j :: 0 <= j < k ==> Skipped(inputs[j], validator))
    ensures r.Exhausted? <==> forall k :: 0 <= k < |inputs| ==> Skipped(inputs[k], validator)
  {
    var i := 0;
    while i < |inputs|
      invariant 0 <= i <= |inputs|
      invariant forall j :: 0 <= j < i ==> Skipped(inputs[j], validator)
    {
      var read := inputs[i];
      if read.ScanFailed? {
        i := i + 1;
        continue;
      }
      var input := read.input;
      if input == "exit" {
        return Exited;
      }
      if !validator(input) {
        i := i + 1;
        continue;
      }
      return Accepted(input);
    }
    return Exhausted;
  }

  /** The validator of `ReadAddress`: rejects the empty string and nothing else. */
  function AddressValidator(input: string): (ok: bool)
    ensures ok <==> input != ""
  {
    input != ""
  }

  /** The validator of `ReadAmount`: rejects the empty string, then whatever
      `strconv.ParseFloat` (the parameter `parsesAsFloat`) rejects. */
  function AmountValidator(parsesAsFloat: string -> bool, input: string): (ok: bool)
    ensures ok <==> input != "" && parsesAsFloat(input)
  {
    if input == "" then false else parsesAsFloat(input)
  }

  /** `ReadAddress`: the first input that was scanned and is not empty decides: "exit" exits,
      anything else is the address. */
  method ReadAddress(inputs: seq<Scan>) returns (r: LineResult)
    ensures r.Accepted? ==> (r.value != "" && r.value != "exit"
      && exists k :: (0 <= k < |inputs| && inputs[k] == Scanned(r.value)
      && forall j :: 0 <= j < k ==> inputs[j] == ScanFailed || inputs[j] == Scanned("")))
    ensures r.Exited? ==> exists k :: (0 <= k < |inputs| && inputs[k] == Scanned("exit")
      && forall j :: 0 <= j < k ==> inputs[j] == ScanFailed || inputs[j] == Scanned(""))
    ensures r.Exhausted? <==> forall k :: 0 <= k < |inputs| ==> inputs[k] == ScanFailed || inputs[k] == Scanned("")
  {
    r := ReadLine(inputs, AddressValidator);
  }

  /** A read that `ReadAmount` passes over: a failed scan, or an input other than "exit" that is
      empty or does not parse as a float. */
  predicate AmountSkipped(parsesAsFloat: string -> bool, s: Scan) {
    s.ScanFailed? || (s.input != "exit" && !AmountValidator(parsesAsFloat, s.input))
  }

  /** `ReadAmount`: the first input that was scanned and is a float decides: "exit" is the error
      return, anything else is the amount. The conversion to `float64` is not modelled: the
      accepted text is returned. */
  method ReadAmount(inputs: seq<Scan>, parsesAsFloat: string -> bool) returns (r: LineResult)
    ensures r.Accepted? ==> (r.value != "" && r.value != "exit" && parsesAsFloat(r.value)
      && exists k :: (0 <= k < |inputs| && inputs[k] == Scanned(r.value)
      && forall j :: 0 <= j < k ==> AmountSkipped(parsesAsFloat, inputs[j])))
    ensures r.Exited? ==> exists k :: (0 <= k < |inputs| && inputs[k] == Scanned("exit")
      && forall j :: 0 <= j < k ==> AmountSkipped(parsesAsFloat, inputs[j]))
    ensures r.Exhausted? <==> forall k :: 0 <= k < |inputs| ==> AmountSkipped(parsesAsFloat, inputs[k])
  {
    r := ReadLine(inputs, s => AmountValidator(parsesAsFloat, s));
  }
}
