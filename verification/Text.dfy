/** Splitting and joining text on one separator character. */
module Text {

  function IndexOf(s: string, c: char): (i: nat)
    ensures i <= |s|
    ensures c !in s[..i]
    ensures i < |s| ==> s[i] == c
  {
    if s == [] || s[0] == c then 0
    else
      var j := IndexOf(s[1..], c);
      assert s[..1 + j] == [s[0]] + s[1..][..j];
      1 + j
  }

  /** `str::split`: always at least one piece. */
  function Split(s: string, c: char): (parts: seq<string>)
    ensures |parts| > 0
    decreases |s|
  {
    var i := IndexOf(s, c);
    if i == |s| then [s] else [s[..i]] + Split(s[i + 1..], c)
  }

  function Join(parts: seq<string>, c: char): string {
    if parts == [] then ""
    else if |parts| == 1 then parts[0]
    else parts[0] + [c] + Join(parts[1..], c)
  }

  lemma {:induction false} IndexOfFirst(head: string, c: char, rest: string)
    requires c !in head
    ensures IndexOf(head + [c] + rest, c) == |head|
  {
    if head != [] {
      IndexOfFirst(head[1..], c, rest);
      assert (head + [c] + rest)[1..] == head[1..] + [c] + rest;
    }
  }

  lemma {:induction false} IndexOfAbsent(s: string, c: char)
    requires c !in s
    ensures IndexOf(s, c) == |s|
  {
    if s != [] {
      IndexOfAbsent(s[1..], c);
    }
  }

  lemma {:induction false} SplitOfJoin(parts: seq<string>, c: char)
    requires parts != []
    requires forall p :: p in parts ==> c !in p
    ensures Split(Join(parts, c), c) == parts
  {
    var s := Join(parts, c);
    if |parts| == 1 {
      assert s == parts[0] && parts[0] in parts;
      IndexOfAbsent(s, c);
    } else {
      IndexOfFirst(parts[0], c, Join(parts[1..], c));
      SplitOfJoin(parts[1..], c);
      assert s[..|parts[0]|] == parts[0];
      assert s[|parts[0]| + 1..] == Join(parts[1..], c);
    }
  }

  lemma {:induction false} JoinOfSplit(s: string, c: char)
    ensures Join(Split(s, c), c) == s
    decreases |s|
  {
    var i := IndexOf(s, c);
    if i < |s| {
      var rest := s[i + 1..];
      var parts := [s[..i]] + Split(rest, c);
      assert Split(s, c) == parts && parts[1..] == Split(rest, c);
      calc {
        Join(parts, c);
        s[..i] + [c] + Join(parts[1..], c);
        { JoinOfSplit(rest, c); }
        s[..i] + [c] + rest;
        s;
      }
    }
  }

  lemma {:induction false} SplitPieces(s: string, c: char)
    ensures forall p :: p in Split(s, c) ==> c !in p && (forall x :: x in p ==> x in s)
    decreases |s|
  {
    var i := IndexOf(s, c);
    if i < |s| {
      SplitPieces(s[i + 1..], c);
    }
  }

  lemma {:induction false} JoinIsClean(parts: seq<string>, c: char, x: char)
    requires x != c
    ensures x in Join(parts, c) <==> exists i :: 0 <= i < |parts| && x in parts[i]
  {
    if |parts| > 1 {
      JoinIsClean(parts[1..], c, x);
      assert forall i :: 0 < i < |parts| ==> parts[i] == parts[1..][i - 1];
    }
  }

  predicate IsWhitespace(c: char) {
    || c == ' ' || '\t' <= c <= '\r' || c == '\U{85}' || c == '\U{A0}' || c == '\U{1680}'
    || '\U{2000}' <= c <= '\U{200A}' || c == '\U{2028}' || c == '\U{2029}'
    || c == '\U{202F}' || c == '\U{205F}' || c == '\U{3000}'
  }

  /** `value.trim().is_empty()` */
  predicate IsBlank(s: string) {
    forall i :: 0 <= i < |s| ==> IsWhitespace(s[i])
  }

  function TrimStart(s: string): string {
    if s != "" && IsWhitespace(s[0]) then TrimStart(s[1..]) else s
  }

  function TrimEnd(s: string): string {
    if s != "" && IsWhitespace(s[|s| - 1]) then TrimEnd(s[..|s| - 1]) else s
  }

  /** `str::trim` */
  function Trim(s: string): string {
    TrimEnd(TrimStart(s))
  }
}
