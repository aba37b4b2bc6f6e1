/** The two Kotlin string functions the request translation relies on:
    `padStart(length, padChar)` and `split(delimiter)` with a one-character
    delimiter, no limit and case-sensitive matching.
 */
module KotlinText {

  /** `n` copies of `c`. */
  function Repeat(c: char, n: nat): (r: string)
    ensures |r| == n
    ensures forall i :: 0 <= i < n ==> r[i] == c
  {
    if n == 0 then "" else [c] + Repeat(c, n - 1)
  }

  /** `s.padStart(length, padChar)`: `s` itself when it is already `length`
      characters or longer, otherwise `s` prefixed with enough `padChar`s to
      reach exactly `length`. */
  function PadStart(s: string, length: nat, padChar: char): (r: string)
    ensures |r| == if |s| >= length then |s| else length
    ensures r[|r| - |s|..] == s
    ensures forall i :: 0 <= i < |r| - |s| ==> r[i] == padChar
  {
    if |s| >= length then s else Repeat(padChar, length - |s|) + s
  }

  /** `s.split(delimiter)`: the maximal delimiter-free pieces of `s`, in order,
      empty pieces included; the empty string splits into one empty piece. */
  function Split(s: string, delimiter: char): (parts: seq<string>)
    ensures |parts| >= 1
    ensures forall i :: 0 <= i < |parts| ==> delimiter !in parts[i]
    decreases |s|
  {
    if |s| == 0 then [""]
    else
      var rest := Split(s[1..], delimiter);
      if s[0] == delimiter then [""] + rest
      else [[s[0]] + rest[0]] + rest[1..]
  }

  /** `parts.joinToString(delimiter)`, the inverse of `Split`. */
  function Join(parts: seq<string>, delimiter: char): string
    requires |parts| >= 1
    decreases |parts|
  {
    if |parts| == 1 then parts[0] else parts[0] + [delimiter] + Join(parts[1..], delimiter)
  }

  /** Joining the pieces back together restores the original string. */
  lemma {:induction false} JoinSplit(s: string, delimiter: char)
    ensures Join(Split(s, delimiter), delimiter) == s
    decreases |s|
  {
    if |s| > 0 {
      JoinSplit(s[1..], delimiter);
      var rest := Split(s[1..], delimiter);
      if s[0] != delimiter {
        if |rest| == 1 {
          assert Split(s, delimiter) == [[s[0]] + rest[0]];
        } else {
          assert Split(s, delimiter)[1..] == rest[1..];
        }
      } else {
        assert Split(s, delimiter)[1..] == rest;
      }
    }
  }

  /** Splitting a delimiter-free string yields the string alone. */
  lemma {:induction false} SplitPlain(s: string, delimiter: char)
    requires delimiter !in s
    ensures Split(s, delimiter) == [s]
    decreases |s|
  {
    if |s| > 0 {
      assert delimiter !in s[1..];
      SplitPlain(s[1..], delimiter);
      assert s[0] != delimiter;
      assert [s[0]] + s[1..] == s;
    }
  }

  /** A delimiter-free head followed by the delimiter splits off as one piece. */
  lemma {:induction false} SplitHead(head: string, delimiter: char, tail: string)
    requires delimiter !in head
    ensures Split(head + [delimiter] + tail, delimiter) == [head] + Split(tail, delimiter)
    decreases |head|
  {
    var s := head + [delimiter] + tail;
    if |head| == 0 {
      assert s[1..] == tail;
    } else {
      assert s[1..] == head[1..] + [delimiter] + tail;
      assert delimiter !in head[1..];
      SplitHead(head[1..], delimiter, tail);
      assert [head[0]] + head[1..] == head;
    }
  }

  /** Splitting delimiter-free pieces joined by the delimiter gives the pieces back. */
  lemma {:induction false} SplitJoin(parts: seq<string>, delimiter: char)
    requires |parts| >= 1
    requires forall i :: 0 <= i < |parts| ==> delimiter !in parts[i]
    ensures Split(Join(parts, delimiter), delimiter) == parts
    decreases |parts|
  {
    if |parts| == 1 {
      SplitPlain(parts[0], delimiter);
    } else {
      SplitJoin(parts[1..], delimiter);
      SplitHead(parts[0], delimiter, Join(parts[1..], delimiter));
    }
  }
}
