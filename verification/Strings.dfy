// The functions of Go's strings package that the commands use.
module Strings {

  // unicode.IsSpace.
  predicate IsSpace(c: char) {
    || c == ' ' || '\t' <= c <= '\r' || c == '\U{85}' || c == '\U{A0}' || c == '\U{1680}'
    || '\U{2000}' <= c <= '\U{200A}' || c == '\U{2028}' || c == '\U{2029}' || c == '\U{202F}'
    || c == '\U{205F}' || c == '\U{3000}'
  }

  predicate AllSpace(s: string) {
    forall i :: 0 <= i < |s| ==> IsSpace(s[i])
  }

  predicate NoSpace(s: string) {
    forall i :: 0 <= i < |s| ==> !IsSpace(s[i])
  }

  // strings.Split.
  function Split(s: string, sep: char): (parts: seq<string>)
    ensures |parts| > 0
  {
    if s == "" then [""]
    else
      var parts := Split(s[1..], sep);
      if s[0] == sep then [""] + parts else [[s[0]] + parts[0]] + parts[1..]
  }

  // strings.TrimSpace.
  function TrimLeft(s: string): string {
    if s != "" && IsSpace(s[0]) then TrimLeft(s[1..]) else s
  }

  function TrimRight(s: string): string {
    if s != "" && IsSpace(s[|s| - 1]) then TrimRight(s[..|s| - 1]) else s
  }

  function TrimSpace(s: string): string {
    TrimRight(TrimLeft(s))
  }

  // The length of the first word of s, which starts at its first character.
  function WordLength(s: string): (n: nat)
    ensures n <= |s|
  {
    if s == "" || IsSpace(s[0]) then 0 else 1 + WordLength(s[1..])
  }

  // strings.Fields.
  function Fields(s: string): seq<string>
    decreases |s|
  {
    if s == "" then []
    else if IsSpace(s[0]) then Fields(s[1..])
    else [s[..WordLength(s)]] + Fields(s[WordLength(s)..])
  }

  // ---------------------------------------------------------------- what they do

  lemma {:induction false} SplitFirst(part: string, rest: string, sep: char)
    requires sep !in part
    ensures Split(part + [sep] + rest, sep) == [part] + Split(rest, sep)
  {
    var all := part + [sep] + rest;
    if part == "" {
      assert all == [sep] + rest;
    } else {
      assert all[0] == part[0] && all[1..] == part[1..] + [sep] + rest;
      SplitFirst(part[1..], rest, sep);
      assert part == [part[0]] + part[1..];
    }
  }

  lemma {:induction false} SplitOne(part: string, sep: char)
    requires sep !in part
    ensures Split(part, sep) == [part]
  {
    if part != "" {
      SplitOne(part[1..], sep);
      assert part == [part[0]] + part[1..];
    }
  }

  lemma {:induction false} TrimLeftDrops(space: string, s: string)
    requires AllSpace(space) && (s == "" || !IsSpace(s[0]))
    ensures TrimLeft(space + s) == s
  {
    hide IsSpace;
    if space == "" {
      assert space + s == s;
    } else {
      assert (space + s)[0] == space[0] && (space + s)[1..] == space[1..] + s;
      TrimLeftDrops(space[1..], s);
    }
  }

  lemma {:induction false} TrimRightDrops(s: string, space: string)
    requires AllSpace(space) && (s == "" || !IsSpace(s[|s| - 1]))
    ensures TrimRight(s + space) == s
  {
    hide IsSpace;
    var all := s + space;
    if space == "" {
      assert all == s;
    } else {
      var n := |space| - 1;
      assert all[|all| - 1] == space[n] && all[..|all| - 1] == s + space[..n];
      TrimRightDrops(s, space[..n]);
    }
  }

  // Trimming takes off the white space at both ends, and no more.
  lemma TrimSpaceDrops(before: string, s: string, after: string)
    requires AllSpace(before) && AllSpace(after) && (s == "" || (!IsSpace(s[0]) && !IsSpace(s[|s| - 1])))
    ensures TrimSpace(before + s + after) == s
  {
    hide IsSpace, TrimLeft, TrimRight;
    if s == "" {
      var space := before + s + after;
      assert forall i :: 0 <= i < |space| ==> space[i] in before || space[i] in after;
      assert space + "" == space;
      TrimLeftDrops(space, "");
      assert "" + "" == "";
      TrimRightDrops("", "");
    } else {
      assert before + s + after == before + (s + after);
      TrimLeftDrops(before, s + after);
      TrimRightDrops(s, after);
    }
  }
}
