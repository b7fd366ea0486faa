/** Output text as a sequence of characters, and the one piece of stream
    formatting the table uses: `setw(n)` followed by a single formatted item,
    which pads the item with the fill character up to n characters, on the
    right when std::ios::left is set and on the left otherwise. */
module Text {

  function Max(a: int, b: int): int
  {
    if a >= b then a else b
  }

  /** n copies of c. */
  function Fill(c: char, n: nat): (r: string)
    ensures |r| == n
    ensures forall k :: 0 <= k < n ==> r[k] == c
  {
    seq(n, _ => c)
  }

  /** What `os << std::setw(width) << item` appends, with fill character `fill`
      and `leftAlign` the state of std::ios::left. A width at or below the item's
      length (zero or negative included) adds nothing; setw never truncates. */
  function Padded(width: int, item: string, leftAlign: bool, fill: char): (r: string)
    ensures |r| == Max(width, |item|)
    ensures leftAlign ==> r[..|item|] == item
    ensures leftAlign ==> forall k :: |item| <= k < |r| ==> r[k] == fill
    ensures !leftAlign ==> r[|r| - |item|..] == item
    ensures !leftAlign ==> forall k :: 0 <= k < |r| - |item| ==> r[k] == fill
  {
    if width <= |item| then item
    else if leftAlign then item + Fill(fill, width - |item|)
    else Fill(fill, width - |item|) + item
  }

  /** A fill-character item padded with the same fill character is a run of
      max(width, 1) of that character, whatever the justification. */
  lemma PaddedRun(width: int, c: char, leftAlign: bool)
    ensures Padded(width, [c], leftAlign, c) == Fill(c, Max(width, 1))
  {
    var r := Padded(width, [c], leftAlign, c);
    assert forall k :: 0 <= k < |r| ==> r[k] == c;
  }

  /** Padding never introduces a character that is neither in the item nor the fill. */
  lemma PaddedAvoids(x: char, width: int, item: string, leftAlign: bool, fill: char)
    requires x !in item && x != fill
    ensures x !in Padded(width, item, leftAlign, fill)
  {
    var r := Padded(width, item, leftAlign, fill);
    if leftAlign {
      assert forall k :: 0 <= k < |item| ==> r[k] == item[k];
    } else {
      assert forall k :: |r| - |item| <= k < |r| ==> r[k] == item[k - (|r| - |item|)];
    }
  }

  lemma AppendAssoc(a: string, b: string, c: string)
    ensures a + (b + c) == a + b + c
  {
  }

  /** Six parts appended one by one after `s` are `s` followed by all six. */
  lemma AppendGrouped(s: string, a: string, b: string, c: string, d: string, e: string, f: string)
    ensures s + a + b + c + d + e + f == s + (a + b + c + d + e + f)
  {
  }

  /** The parts written one after another. */
  function Concat(parts: seq<string>): string
  {
    if parts == [] then [] else Concat(parts[..|parts| - 1]) + parts[|parts| - 1]
  }

  /** Writing one more part of the list after those written so far. */
  lemma ConcatSnoc(parts: seq<string>, i: nat)
    requires i < |parts|
    ensures Concat(parts[..i + 1]) == Concat(parts[..i]) + parts[i]
  {
    assert parts[..i + 1][..i] == parts[..i];
  }

  /** Parts holding one x each make a text holding |parts| of them. */
  lemma {:induction false} ConcatCount(x: char, parts: seq<string>)
    requires forall i :: 0 <= i < |parts| ==> Count(x, parts[i]) == 1
    ensures Count(x, Concat(parts)) == |parts|
  {
    if parts != [] {
      var n := |parts| - 1;
      ConcatCount(x, parts[..n]);
      CountAppend(x, Concat(parts[..n]), parts[n]);
    }
  }

  /** Number of occurrences of x in s (used to count lines and column bars). */
  function Count(x: char, s: string): nat
  {
    if s == [] then 0
    else Count(x, s[..|s| - 1]) + (if s[|s| - 1] == x then 1 else 0)
  }

  lemma {:induction false} CountAppend(x: char, a: string, b: string)
    ensures Count(x, a + b) == Count(x, a) + Count(x, b)
  {
    if b == [] {
      assert a + b == a;
    } else {
      assert (a + b)[..|a + b| - 1] == a + b[..|b| - 1];
      CountAppend(x, a, b[..|b| - 1]);
    }
  }

  lemma {:induction false} CountAbsent(x: char, s: string)
    requires x !in s
    ensures Count(x, s) == 0
  {
    if s != [] {
      assert s[..|s| - 1] + [s[|s| - 1]] == s;
      CountAbsent(x, s[..|s| - 1]);
    }
  }

  lemma CountOne(x: char, c: char)
    ensures Count(x, [c]) == if x == c then 1 else 0
  {
    assert [c][..0] == [];
  }
}
