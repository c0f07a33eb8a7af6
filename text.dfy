/** Text helpers shared by the fields and the command replies: ASCII digits,
    zero-padded decimal numbers as `strftime` writes them, and `str.join`. */
module Text {

  predicate IsAsciiDigit(c: char) {
    '0' <= c <= '9'
  }

  /** The value of a decimal digit character. */
  function DigitValue(c: char): (n: int)
    requires IsAsciiDigit(c)
    ensures 0 <= n <= 9
  {
    c as int - '0' as int
  }

  /** The character of a decimal digit. */
  function DigitChar(n: int): (c: char)
    requires 0 <= n <= 9
    ensures IsAsciiDigit(c) && DigitValue(c) == n
  {
    ('0' as int + n) as char
  }

  /** `n` in two digits with a leading zero (`%d`, `%m`). */
  function Pad2(n: int): (s: string)
    requires 0 <= n < 100
    ensures |s| == 2 && IsAsciiDigit(s[0]) && IsAsciiDigit(s[1])
    ensures DigitValue(s[0]) * 10 + DigitValue(s[1]) == n
  {
    [DigitChar(n / 10), DigitChar(n % 10)]
  }

  /** `n` in four digits with leading zeros (`%Y`). */
  function Pad4(n: int): (s: string)
    requires 0 <= n < 10000
    ensures |s| == 4 && forall i :: 0 <= i < 4 ==> IsAsciiDigit(s[i])
    ensures DigitValue(s[0]) * 1000 + DigitValue(s[1]) * 100 + DigitValue(s[2]) * 10 + DigitValue(s[3]) == n
  {
    var high, low := Pad2(n / 100), Pad2(n % 100);
    assert n == 100 * (n / 100) + n % 100;
    high + low
  }

  /** `sep.join(parts)`. */
  function Join(parts: seq<string>, sep: string): string {
    if |parts| == 0 then ""
    else if |parts| == 1 then parts[0]
    else parts[0] + sep + Join(parts[1..], sep)
  }

  /** Three parts joined by `sep`. */
  lemma ThreePieces(pieces: seq<string>, sep: string)
    requires |pieces| == 3
    ensures Join(pieces, sep) == pieces[0] + sep + pieces[1] + sep + pieces[2]
  {
    assert pieces[1..][1..] == [pieces[2]];
    assert Join(pieces[1..], sep) == pieces[1] + sep + pieces[2];
  }

  /** Splits `s` at every occurrence of the character `c` (Python's
      `s.split(c)` for a one-character separator). */
  function SplitAt(s: string, c: char): (parts: seq<string>)
    ensures |parts| >= 1
    ensures forall i :: 0 <= i < |parts| ==> c !in parts[i]
  {
    if |s| == 0 then [""]
    else
      var rest := SplitAt(s[1..], c);
      if s[0] == c then [""] + rest
      else [[s[0]] + rest[0]] + rest[1..]
  }

  /** Joining at a character and splitting at it again gives back the parts,
      as long as no part contains that character. */
  lemma {:induction false} SplitAtJoin(parts: seq<string>, c: char)
    requires |parts| >= 1
    requires forall i :: 0 <= i < |parts| ==> c !in parts[i]
    ensures SplitAt(Join(parts, [c]), c) == parts
    decreases |parts|, |parts[0]|
  {
    if |parts| == 1 {
      SplitAtPlain(parts[0], c);
    } else if |parts[0]| == 0 {
      var tail := parts[1..];
      assert Join(parts, [c]) == [c] + Join(tail, [c]);
      SplitAtJoin(tail, c);
      assert [c] + Join(tail, [c]) == [c] + Join(tail, [c]);
      assert SplitAt(Join(parts, [c]), c) == [""] + tail;
      assert parts == [""] + tail;
    } else {
      var first := parts[0];
      var shorter := [first[1..]] + parts[1..];
      assert forall i :: 0 <= i < |shorter| ==> c !in shorter[i] by {
        forall i | 0 <= i < |shorter| ensures c !in shorter[i] {
          if i == 0 {
            assert forall x :: x in first[1..] ==> x in first;
          } else {
            assert shorter[i] == parts[i];
          }
        }
      }
      SplitAtJoin(shorter, c);
      var joined := Join(parts, [c]);
      assert joined == [first[0]] + Join(shorter, [c]);
      assert joined[0] == first[0] && joined[1..] == Join(shorter, [c]);
      assert first[0] != c by { assert first[0] in first; }
      assert [first[0]] + first[1..] == first;
      assert SplitAt(joined, c) == [first] + parts[1..];
      assert [first] + parts[1..] == parts;
    }
  }

  lemma {:induction false} SplitAtPlain(s: string, c: char)
    requires c !in s
    ensures SplitAt(s, c) == [s]
  {
    if |s| > 0 {
      assert c !in s[1..] by { assert forall x :: x in s[1..] ==> x in s; }
      SplitAtPlain(s[1..], c);
      assert [s[0]] + s[1..] == s;
    }
  }

  /** Splitting at a character and joining with it again gives back the text. */
  lemma {:induction false} JoinSplitAt(s: string, c: char)
    ensures Join(SplitAt(s, c), [c]) == s
  {
    if |s| > 0 {
      JoinSplitAt(s[1..], c);
      var rest := SplitAt(s[1..], c);
      if s[0] == c {
        assert SplitAt(s, c) == [""] + rest;
        assert Join([""] + rest, [c]) == "" + [c] + Join(rest, [c]);
      } else {
        var parts := SplitAt(s, c);
        assert parts == [[s[0]] + rest[0]] + rest[1..];
        if |rest| == 1 {
          assert Join(parts, [c]) == [s[0]] + rest[0];
        } else {
          assert parts[1..] == rest[1..];
          assert Join(rest, [c]) == rest[0] + [c] + Join(rest[1..], [c]);
          assert Join(parts, [c]) == [s[0]] + rest[0] + [c] + Join(rest[1..], [c]);
        }
      }
      assert [s[0]] + s[1..] == s;
    }
  }
}
