/** The string helpers the router and the configuration rely on: splitting, joining, trimming. */
module Strings {

  predicate Free(s: string, sep: char) { forall i :: 0 <= i < |s| ==> s[i] != sep }

  /** strings.Split for a one-character separator: never empty. */
  function Split(s: string, sep: char): (parts: seq<string>)
    ensures |parts| >= 1
    ensures forall i :: 0 <= i < |parts| ==> Free(parts[i], sep)
  {
    if s == "" then [""]
    else
      var rest := Split(s[1..], sep);
      if s[0] == sep then [""] + rest else [[s[0]] + rest[0]] + rest[1..]
  }

  function Join(parts: seq<string>, sep: char): string
    requires parts != []
  {
    if |parts| == 1 then parts[0] else parts[0] + [sep] + Join(parts[1..], sep)
  }

  lemma {:induction false} SplitFree(s: string, sep: char)
    requires Free(s, sep)
    ensures Split(s, sep) == [s]
  {
    if s != "" {
      SplitFree(s[1..], sep);
      assert [s[0]] + s[1..] == s;
    }
  }

  lemma {:induction false} SplitAfter(s: string, rest: string, sep: char)
    requires Free(s, sep)
    ensures Split(s + [sep] + rest, sep) == [s] + Split(rest, sep)
  {
    if s == "" {
      assert "" + [sep] + rest == [sep] + rest;
    } else {
      SplitAfter(s[1..], rest, sep);
      assert (s + [sep] + rest)[1..] == s[1..] + [sep] + rest;
      assert [s[0]] + s[1..] == s;
      assert ([s[1..]] + Split(rest, sep))[1..] == Split(rest, sep);
    }
  }

  /** Splitting undoes joining. */
  lemma {:induction false} SplitJoin(parts: seq<string>, sep: char)
    requires parts != [] && forall i :: 0 <= i < |parts| ==> Free(parts[i], sep)
    ensures Split(Join(parts, sep), sep) == parts
  {
    if |parts| == 1 {
      SplitFree(parts[0], sep);
    } else {
      SplitJoin(parts[1..], sep);
      SplitAfter(parts[0], Join(parts[1..], sep), sep);
    }
  }

  /** Joining undoes splitting. */
  lemma {:induction false} JoinSplit(s: string, sep: char)
    ensures Join(Split(s, sep), sep) == s
  {
    if s != "" {
      var rest := Split(s[1..], sep);
      JoinSplit(s[1..], sep);
      if s[0] == sep {
        assert ([""] + rest)[1..] == rest;
      } else {
        var first := [s[0]] + rest[0];
        assert ([first] + rest[1..])[1..] == rest[1..];
        if |rest| > 1 {
          assert first + [sep] + Join(rest[1..], sep) == [s[0]] + (rest[0] + [sep] + Join(rest[1..], sep));
        }
      }
    }
  }

  function TrimLeft(s: string, c: char): string {
    if s != "" && s[0] == c then TrimLeft(s[1..], c) else s
  }

  function TrimRight(s: string, c: char): string {
    if s != "" && s[|s| - 1] == c then TrimRight(s[..|s| - 1], c) else s
  }

  /** strings.Trim for a one-character cutset. */
  function Trim(s: string, c: char): string { TrimRight(TrimLeft(s, c), c) }

  predicate Only(s: string, c: char) { forall i :: 0 <= i < |s| ==> s[i] == c }

  lemma {:induction false} TrimLeftPadded(pad: string, s: string, c: char)
    requires Only(pad, c)
    ensures TrimLeft(pad + s, c) == TrimLeft(s, c)
    decreases |pad|
  {
    if pad == "" {
      assert pad + s == s;
    } else {
      assert (pad + s)[1..] == pad[1..] + s;
      TrimLeftPadded(pad[1..], s, c);
    }
  }

  lemma {:induction false} TrimRightPadded(s: string, pad: string, c: char)
    requires Only(pad, c)
    ensures TrimRight(s + pad, c) == TrimRight(s, c)
    decreases |pad|
  {
    if pad == "" {
      assert s + pad == s;
    } else {
      var n := |pad| - 1;
      assert (s + pad)[..|s + pad| - 1] == s + pad[..n];
      TrimRightPadded(s, pad[..n], c);
    }
  }

  lemma {:induction false} TrimLeftBefore(s: string, pad: string, c: char)
    requires Only(pad, c)
    ensures TrimLeft(s + pad, c) == if TrimLeft(s, c) == "" then "" else TrimLeft(s, c) + pad
    decreases |s|
  {
    if s == "" {
      assert s + pad == pad + "";
      TrimLeftPadded(pad, "", c);
    } else if s[0] == c {
      assert (s + pad)[1..] == s[1..] + pad;
      TrimLeftBefore(s[1..], pad, c);
    }
  }

  /** Trimming removes any padding. */
  lemma TrimPadded(before: string, s: string, after: string, c: char)
    requires Only(before, c) && Only(after, c)
    ensures Trim(before + s + after, c) == Trim(s, c)
  {
    assert before + s + after == before + (s + after);
    TrimLeftPadded(before, s + after, c);
    TrimLeftBefore(s, after, c);
    TrimRightPadded(TrimLeft(s, c), after, c);
  }

  lemma {:induction false} TrimLeftEnds(s: string, c: char)
    ensures TrimLeft(s, c) == "" || TrimLeft(s, c)[0] != c
    decreases |s|
  {
    if s != "" && s[0] == c {
      TrimLeftEnds(s[1..], c);
    }
  }

  lemma {:induction false} TrimRightEnds(s: string, c: char)
    ensures TrimRight(s, c) <= s
    ensures TrimRight(s, c) == "" || TrimRight(s, c)[|TrimRight(s, c)| - 1] != c
    decreases |s|
  {
    if s != "" && s[|s| - 1] == c {
      TrimRightEnds(s[..|s| - 1], c);
    }
  }

  lemma TrimEnds(s: string, c: char)
    ensures var t := Trim(s, c); t == "" || (t[0] != c && t[|t| - 1] != c)
  {
    TrimLeftEnds(s, c);
    TrimRightEnds(TrimLeft(s, c), c);
  }

  lemma TrimNothing(s: string, c: char)
    requires s == "" || (s[0] != c && s[|s| - 1] != c)
    ensures Trim(s, c) == s
  {
  }

  /** How a joined string begins and ends. */
  lemma {:induction false} JoinEnds(parts: seq<string>, sep: char)
    requires parts != [] && forall i :: 0 <= i < |parts| ==> Free(parts[i], sep)
    ensures var s := Join(parts, sep);
      && (|parts| == 1 ==> s == parts[0])
      && (|parts| > 1 ==> s != "" && (s[0] == sep <==> parts[0] == ""))
      && (|parts| > 1 ==> (s[|s| - 1] == sep <==> parts[|parts| - 1] == ""))
    decreases |parts|
  {
    if |parts| > 1 {
      JoinEnds(parts[1..], sep);
    }
  }
}
