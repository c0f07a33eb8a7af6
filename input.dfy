/** Reading a command line (task.py:208-211): the line is split into
    words at runs of whitespace, and the first word, lower-cased, is the
    command; the rest are its arguments. */
module Input {
  import opened Errors
  import opened Text

  /** The characters Python's `str.isspace()` accepts, which is where
      `str.split()` without arguments breaks a line. */
  predicate IsSpace(c: char) {
    || c == ' ' || '\t' <= c <= '\r'
    || '\U{1c}' <= c <= '\U{1f}'
    || c == '\U{85}' || c == '\U{a0}' || c == '\U{1680}'
    || '\U{2000}' <= c <= '\U{200a}'
    || c == '\U{2028}' || c == '\U{2029}' || c == '\U{202f}' || c == '\U{205f}' || c == '\U{3000}'
  }

  /** A word as `split()` returns it: non-empty and without whitespace. */
  predicate IsWord(w: string) {
    |w| > 0 && forall i :: 0 <= i < |w| ==> !IsSpace(w[i])
  }

  /** The longest prefix of `s` without whitespace. */
  function Word(s: string): (w: string)
    ensures |w| <= |s| && w == s[..|w|]
    ensures forall i :: 0 <= i < |w| ==> !IsSpace(w[i])
    ensures |w| < |s| ==> IsSpace(s[|w|])
  {
    if |s| == 0 || IsSpace(s[0]) then "" else [s[0]] + Word(s[1..])
  }

  /** `s.split()`: the maximal runs of non-whitespace characters, in order. */
  function Split(s: string): (words: seq<string>)
    ensures forall i :: 0 <= i < |words| ==> IsWord(words[i])
    decreases |s|
  {
    if |s| == 0 then []
    else if IsSpace(s[0]) then Split(s[1..])
    else
      var w := Word(s);
      [w] + Split(s[|w|..])
  }

  /** A line of only whitespace has no words. */
  lemma {:induction false} SplitEmpty(s: string)
    ensures Split(s) == [] <==> forall i :: 0 <= i < |s| ==> IsSpace(s[i])
    decreases |s|
  {
    if |s| > 0 && IsSpace(s[0]) {
      SplitEmpty(s[1..]);
      assert forall i :: 1 <= i < |s| ==> s[i] == s[1..][i - 1];
    }
  }

  lemma {:induction false} WordOfPrefix(w: string, rest: string)
    requires forall i :: 0 <= i < |w| ==> !IsSpace(w[i])
    requires |rest| > 0 ==> IsSpace(rest[0])
    ensures Word(w + rest) == w
  {
    if |w| > 0 {
      assert (w + rest)[1..] == w[1..] + rest;
      WordOfPrefix(w[1..], rest);
      assert [w[0]] + w[1..] == w;
    } else {
      assert w + rest == rest;
    }
  }

  /** Words joined by single spaces split back into the same words. */
  lemma {:induction false} SplitJoin(words: seq<string>)
    requires forall i :: 0 <= i < |words| ==> IsWord(words[i])
    ensures Split(Join(words, " ")) == words
  {
    if |words| == 1 {
      var w := words[0];
      WordOfPrefix(w, "");
      assert w + "" == w;
      assert w[|w|..] == "";
    } else if |words| > 1 {
      var w := words[0];
      var rest := Join(words[1..], " ");
      var line := Join(words, " ");
      assert line == w + (" " + rest);
      WordOfPrefix(w, " " + rest);
      assert line[|w|..] == " " + rest;
      assert (" " + rest)[1..] == rest;
      SplitJoin(words[1..]);
      assert [w] + words[1..] == words;
    }
  }

  /** `str.lower()` on one character, for ASCII letters. */
  function LowerChar(c: char): char {
    if 'A' <= c <= 'Z' then (c as int + 32) as char else c
  }

  /** No upper-case ASCII letter in `s`. */
  predicate IsLower(s: string) {
    forall i :: 0 <= i < |s| ==> !('A' <= s[i] <= 'Z')
  }

  /** `str.lower()`, for ASCII letters: it leaves no upper-case letter,
      changes nothing that has none, and keeps whitespace where it was. */
  function Lower(s: string): (r: string)
    ensures |r| == |s|
    ensures IsLower(r)
    ensures IsLower(s) ==> r == s
    ensures forall i :: 0 <= i < |s| ==> (IsSpace(r[i]) <==> IsSpace(s[i]))
  {
    seq(|s|, i requires 0 <= i < |s| => LowerChar(s[i]))
  }

  /** `parse_input`: the first word, lower-cased, is the command and the
      remaining words are the arguments. A line without any word makes the
      unpacking raise ValueError, which nothing catches. */
  function ParseInput(line: string): (r: Result<(string, seq<string>)>)
    ensures r.Ok? <==> exists i :: 0 <= i < |line| && !IsSpace(line[i])
    ensures r.Err? ==> r.error == ValueError
    ensures r.Ok? ==> IsWord(r.value.0) && IsLower(r.value.0)
    ensures r.Ok? ==> forall i :: 0 <= i < |r.value.1| ==> IsWord(r.value.1[i])
    ensures r.Ok? ==>
      && |Split(line)| > 0
      && Split(line) == [Split(line)[0]] + r.value.1
      && r.value.0 == Lower(Split(line)[0])
  {
    var words := Split(line);
    SplitEmpty(line);
    if |words| == 0 then Err(ValueError)
    else
      assert words == [words[0]] + words[1..];
      Ok((Lower(words[0]), words[1..]))
  }

  /** A command and arguments written out with single spaces read back as
      the command lower-cased and the same arguments. */
  lemma ParseInputRoundTrip(command: string, args: seq<string>)
    requires IsWord(command)
    requires forall i :: 0 <= i < |args| ==> IsWord(args[i])
    ensures ParseInput(Join([command] + args, " ")) == Ok((Lower(command), args))
  {
    var words := [command] + args;
    assert forall i :: 0 <= i < |words| ==> IsWord(words[i]);
    SplitJoin(words);
    assert words[1..] == args;
  }
}
