/** Python's `str.split(sep)` and `sep.join(parts)` for a one-character separator. */
module Text {

  /** `s.split(sep)`: the pieces between separators; never an empty list. */
  function SplitOn(s: string, sep: char): (parts: seq<string>)
    ensures |parts| >= 1
    ensures forall i :: 0 <= i < |parts| ==> sep !in parts[i]
    decreases |s|
  {
    if |s| == 0 then [""]
    else
      var rest := SplitOn(s[1..], sep);
      if s[0] == sep then [""] + rest
      else [[s[0]] + rest[0]] + rest[1..]
  }

  /** `sep.join(parts)`. */
  function Join(parts: seq<string>, sep: char): string
  {
    if |parts| == 0 then ""
    else if |parts| == 1 then parts[0]
    else parts[0] + [sep] + Join(parts[1..], sep)
  }

  /** Joining the pieces of a split gives the string back. */
  lemma {:induction false} JoinSplit(s: string, sep: char)
    ensures Join(SplitOn(s, sep), sep) == s
    decreases |s|
  {
    if |s| > 0 {
      var rest := SplitOn(s[1..], sep);
      JoinSplit(s[1..], sep);
      if s[0] == sep {
        assert SplitOn(s, sep) == [""] + rest;
        assert ([""] + rest)[1..] == rest;
      } else {
        var parts := SplitOn(s, sep);
        assert parts == [[s[0]] + rest[0]] + rest[1..];
        if |rest| > 1 {
          assert parts[1..] == rest[1..];
          assert Join(rest, sep) == rest[0] + [sep] + Join(rest[1..], sep);
        }
      }
    }
  }

  /** Splitting a join of separator-free pieces gives the pieces back. */
  lemma {:induction false} SplitJoin(parts: seq<string>, sep: char)
    requires |parts| >= 1
    requires forall i :: 0 <= i < |parts| ==> sep !in parts[i]
    ensures SplitOn(Join(parts, sep), sep) == parts
    decreases |parts|, |parts[0]|
  {
    var head := parts[0];
    if |head| == 0 {
      if |parts| > 1 {
        var tail := parts[1..];
        SplitJoin(tail, sep);
        assert Join(parts, sep) == [sep] + Join(tail, sep);
        assert ([sep] + Join(tail, sep))[1..] == Join(tail, sep);
        assert [""] + tail == parts;
      }
    } else {
      var shorter := [head[1..]] + parts[1..];
      assert sep !in head[1..] by {
        assert forall k :: 0 <= k < |head| - 1 ==> head[1..][k] == head[k + 1];
      }
      SplitJoin(shorter, sep);
      if |parts| == 1 {
        assert Join(parts, sep) == head;
        assert Join(shorter, sep) == head[1..];
      } else {
        assert shorter[1..] == parts[1..];
        assert Join(parts, sep) == [head[0]] + Join(shorter, sep);
      }
      assert Join(parts, sep)[1..] == Join(shorter, sep);
      assert SplitOn(Join(parts, sep), sep) == [[head[0]] + head[1..]] + parts[1..];
      assert [head[0]] + head[1..] == head;
      assert [head] + parts[1..] == parts;
    }
  }
}
