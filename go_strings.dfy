/**
 * The parts of Go's `strings` package that the command-line code relies on:
 * `TrimSpace`, `Fields`, `Join` and `ToLower`. White space is Go's `unicode.IsSpace`.
 */
module GoStrings {

  /** Go's `unicode.IsSpace`: tab, line feed, vertical tab, form feed, carriage return, space,
      U+0085, U+00A0 and the Unicode space separators. */
  predicate IsSpace(c: char) {
    var n := c as int;
    (9 <= n <= 13) || n == 32 || n == 0x85 || n == 0xA0 || n == 0x1680 || (0x2000 <= n <= 0x200A)
    || n == 0x2028 || n == 0x2029 || n == 0x202F || n == 0x205F || n == 0x3000
  }

  /** A word as `strings.Fields` produces it: non-empty and free of white space. */
  predicate IsWord(w: string) {
    |w| > 0 && forall k :: 0 <= k < |w| ==> !IsSpace(w[k])
  }

  function TrimLeft(s: string): (r: string)
    ensures |r| <= |s| && r == s[|s| - |r|..]
    ensures r != [] ==> !IsSpace(r[0])
  {
    if s != [] && IsSpace(s[0]) then TrimLeft(s[1..]) else s
  }

  function TrimRight(s: string): (r: string)
    ensures |r| <= |s| && r == s[..|r|]
    ensures r != [] ==> !IsSpace(r[|r| - 1])
  {
    if s != [] && IsSpace(s[|s| - 1]) then TrimRight(s[..|s| - 1]) else s
  }

  /** `strings.TrimSpace`: drops leading and trailing white space. */
  function TrimSpace(s: string): (r: string)
    ensures r != [] ==> !IsSpace(r[0]) && !IsSpace(r[|r| - 1])
  {
    TrimRight(TrimLeft(s))
  }

  /** The length of the leading run of non-space characters. */
  function WordLength(t: string): (n: nat)
    ensures n <= |t|
    ensures n < |t| ==> IsSpace(t[n])
  {
    if t == [] || IsSpace(t[0]) then 0 else 1 + WordLength(t[1..])
  }

  /** `strings.Fields`: the maximal runs of non-space characters, in order. */
  function Fields(s: string): seq<string>
    decreases |s|
  {
    var t := TrimLeft(s);
    if t == [] then [] else
    var n := WordLength(t);
    [t[..n]] + Fields(t[n..])
  }

  /** `strings.Join`. */
  function Join(ws: seq<string>, sep: string): string {
    if |ws| == 0 then ""
    else if |ws| == 1 then ws[0]
    else ws[0] + sep + Join(ws[1..], sep)
  }

  /** `unicode.ToLower` on ASCII letters; every other character is left alone. */
  function ToLowerChar(c: char): char {
    if 'A' <= c <= 'Z' then (c as int + 32) as char else c
  }

  /** `strings.ToLower` on ASCII letters (see `ToLowerChar`). */
  function ToLower(s: string): (r: string)
    ensures |r| == |s|
  {
    seq(|s|, k requires 0 <= k < |s| => ToLowerChar(s[k]))
  }

  lemma {:induction false} WordLengthNoSpace(t: string, k: nat)
    requires k < WordLength(t)
    ensures !IsSpace(t[k])
    decreases |t|
  {
    if k > 0 {
      WordLengthNoSpace(t[1..], k - 1);
    }
  }

  /** The run measured by `WordLength` is a word whenever the text does not start with a blank. */
  lemma LeadingWord(t: string)
    requires t != [] && !IsSpace(t[0])
    ensures IsWord(t[..WordLength(t)])
  {
    var n := WordLength(t);
    forall k | 0 <= k < n ensures !IsSpace(t[..n][k]) {
      WordLengthNoSpace(t, k);
    }
  }

  /** Every entry of `Fields(s)` is a word. */
  lemma {:induction false} FieldsAreWords(s: string)
    ensures forall k :: 0 <= k < |Fields(s)| ==> IsWord(Fields(s)[k])
    decreases |s|
  {
    var t := TrimLeft(s);
    if t != [] {
      var n := WordLength(t);
      var rest := Fields(t[n..]);
      LeadingWord(t);
      FieldsAreWords(t[n..]);
      assert Fields(s) == [t[..n]] + rest;
      forall k | 0 < k < |rest| + 1 ensures IsWord(([t[..n]] + rest)[k]) {
        assert ([t[..n]] + rest)[k] == rest[k - 1];
      }
    }
  }

  /** `WordLength` is the length of a word that is followed by a blank or by nothing. */
  lemma {:induction false} WordLengthIs(t: string, n: nat)
    requires n <= |t|
    requires forall k :: 0 <= k < n ==> !IsSpace(t[k])
    requires n < |t| ==> IsSpace(t[n])
    ensures WordLength(t) == n
    decreases n
  {
    if n > 0 {
      WordLengthIs(t[1..], n - 1);
    }
  }

  lemma FieldsOfWord(w: string)
    requires IsWord(w)
    ensures Fields(w) == [w]
  {
    assert TrimLeft(w) == w;
    WordLengthIs(w, |w|);
    assert w[..|w|] == w;
    assert w[|w|..] == [];
    assert Fields([]) == [];
  }

  lemma TrimSpaceOfWord(w: string)
    requires IsWord(w)
    ensures TrimSpace(w) == w
  {
    assert TrimLeft(w) == w;
    assert TrimRight(w) == w;
  }

  lemma FieldsSkipsSpace(c: char, rest: string)
    requires IsSpace(c)
    ensures Fields([c] + rest) == Fields(rest)
  {
    assert ([c] + rest)[1..] == rest;
    assert TrimLeft([c] + rest) == TrimLeft(rest);
  }

  lemma FieldsOfWordThen(w: string, rest: string)
    requires IsWord(w)
    ensures Fields(w + " " + rest) == [w] + Fields(rest)
  {
    var s := w + " " + rest;
    assert s[0] == w[0];
    assert TrimLeft(s) == s;
    assert s[|w|] == ' ';
    WordLengthIs(s, |w|);
    assert s[..|w|] == w;
    assert s[|w|..] == [' '] + rest;
    FieldsSkipsSpace(' ', rest);
  }

  /** Joining words with single spaces and splitting the result with `Fields` gives the words back. */
  lemma {:induction false} FieldsOfJoin(ws: seq<string>)
    requires forall k :: 0 <= k < |ws| ==> IsWord(ws[k])
    ensures Fields(Join(ws, " ")) == ws
    decreases |ws|
  {
    if |ws| == 0 {
    } else if |ws| == 1 {
      FieldsOfWord(ws[0]);
    } else {
      TailWords(ws);
      FieldsOfJoin(ws[1..]);
      JoinStep(ws);
    }
  }

  /** One step of `FieldsOfJoin`: a word in front of a phrase that splits back. */
  lemma JoinStep(ws: seq<string>)
    requires |ws| > 1 && IsWord(ws[0]) && Fields(Join(ws[1..], " ")) == ws[1..]
    ensures Fields(Join(ws, " ")) == ws
  {
    FieldsOfJoinCons(ws);
    ConsOfTail(Fields(Join(ws, " ")), Fields(Join(ws[1..], " ")), ws);
  }

  lemma ConsOfTail(x: seq<string>, y: seq<string>, ws: seq<string>)
    requires |ws| > 0 && x == [ws[0]] + y && y == ws[1..]
    ensures x == ws
  {
    assert [ws[0]] + ws[1..] == ws;
  }

  lemma FieldsOfJoinCons(ws: seq<string>)
    requires |ws| > 1 && IsWord(ws[0])
    ensures Fields(Join(ws, " ")) == [ws[0]] + Fields(Join(ws[1..], " "))
  {
    JoinCons(ws);
    FieldsOfWordThen(ws[0], Join(ws[1..], " "));
  }

  lemma TailWords(ws: seq<string>)
    requires |ws| > 0 && forall k :: 0 <= k < |ws| ==> IsWord(ws[k])
    ensures forall k :: 0 <= k < |ws| - 1 ==> IsWord(ws[1..][k])
  {
    forall k | 0 <= k < |ws| - 1 ensures IsWord(ws[1..][k]) { assert ws[1..][k] == ws[k + 1]; }
  }

  lemma JoinCons(ws: seq<string>)
    requires |ws| > 1
    ensures Join(ws, " ") == ws[0] + " " + Join(ws[1..], " ")
  {
  }
}
