/** The functions of Go's `strings` package that the provider relies on, on sequences of characters. */
module GoStrings {

  /** `strings.Index(s, c)` for a one-character needle: the first position of `c`, or -1. */
  function Index(s: string, c: char): (i: int)
    ensures -1 <= i < |s|
    ensures i == -1 ==> forall j :: 0 <= j < |s| ==> s[j] != c
    ensures 0 <= i ==> s[i] == c && forall j :: 0 <= j < i ==> s[j] != c
  {
    if s == "" then -1
    else if s[0] == c then 0
    else
      var j := Index(s[1..], c);
      assert forall k :: 1 <= k < |s| ==> s[k] == s[1..][k - 1];
      if j == -1 then -1 else j + 1
  }

  /** `strings.LastIndex(s, c)`: the last position of `c`, or -1. */
  function LastIndex(s: string, c: char): (i: int)
    ensures -1 <= i < |s|
    ensures i == -1 ==> forall j :: 0 <= j < |s| ==> s[j] != c
    ensures 0 <= i ==> s[i] == c && forall j :: i < j < |s| ==> s[j] != c
  {
    if s == "" then -1
    else if s[|s| - 1] == c then |s| - 1
    else LastIndex(s[..|s| - 1], c)
  }

  /** `strings.ReplaceAll(s, needle, "")`: drops every leftmost, non-overlapping occurrence of `needle`. */
  function RemoveAll(s: string, needle: string): string
    requires needle != ""
  {
    if s == "" then ""
    else if needle <= s then RemoveAll(s[|needle|..], needle)
    else [s[0]] + RemoveAll(s[1..], needle)
  }

  /** Without an occurrence nothing is dropped... */
  lemma {:induction false} RemoveAllNone(s: string, needle: string)
    requires needle != "" && !Contains(s, needle)
    ensures RemoveAll(s, needle) == s
  {
    if s != "" {
      assert s[0..] == s;
      assert forall k :: 0 <= k <= |s| - 1 ==> s[1..][k..] == s[k + 1..];
      RemoveAllNone(s[1..], needle);
    }
  }

  /** ... and otherwise the first occurrence goes, and the search goes on behind it. */
  lemma {:induction false} RemoveAllFirst(front: string, needle: string, back: string)
    requires needle != ""
    requires forall k :: 0 <= k < |front| ==> !(needle <= (front + needle + back)[k..])
    ensures RemoveAll(front + needle + back, needle) == front + RemoveAll(back, needle)
  {
    var s := front + needle + back;
    if front == "" {
      assert s == needle + back && s[|needle|..] == back;
    } else {
      var t := front[1..] + needle + back;
      assert s[0..] == s && s[1..] == t && s[0] == front[0];
      assert forall k :: 0 <= k < |front| - 1 ==> t[k..] == s[k + 1..];
      RemoveAllFirst(front[1..], needle, back);
      assert [front[0]] + front[1..] == front;
    }
  }

  /** `strings.Split(s, sep)` for a one-character separator. */
  function Split(s: string, sep: char): (parts: seq<string>)
    ensures parts != []
    ensures forall p :: p in parts ==> sep !in p
    decreases |s|
  {
    var i := Index(s, sep);
    if i == -1 then [s] else [s[..i]] + Split(s[i + 1..], sep)
  }

  /** `strings.Join(parts, sep)` for a one-character separator. */
  function Join(parts: seq<string>, sep: char): string {
    if parts == [] then ""
    else if |parts| == 1 then parts[0]
    else parts[0] + [sep] + Join(parts[1..], sep)
  }

  /** `strings.Contains(s, needle)`. */
  predicate Contains(s: string, needle: string) {
    exists k :: 0 <= k <= |s| && needle <= s[k..]
  }

  /** The first part of a string whose first separator sits right after `head`. */
  lemma SplitHead(head: string, rest: string, sep: char)
    requires sep !in head
    ensures Split(head + [sep] + rest, sep)[0] == head
    ensures Split(head, sep)[0] == head
  {
    var s := head + [sep] + rest;
    assert s[..|head|] == head;
    assert Index(s, sep) == |head| by {
      assert s[|head|] == sep;
    }
  }
}
