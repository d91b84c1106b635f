/** Result types, Go's 64-bit integers and Go's string trimming, shared by every component. */
module Prelude {

  datatype Option<+T> = None | Some(value: T)

  datatype Result<+T, +E> = Success(value: T) | Failure(error: E)

  type byte = x: int | 0 <= x < 256
  type Bytes = seq<byte>
  type uint32 = x: int | 0 <= x < 0x1_0000_0000

  const TWO_63: int := 0x8000_0000_0000_0000
  const TWO_64: int := 0x1_0000_0000_0000_0000

  type int64 = x: int | -TWO_63 <= x < TWO_63

  /** The value Go's int64 arithmetic leaves for a mathematical result x. */
  function Wrap64(x: int): (r: int64)
    ensures -TWO_63 <= x < TWO_63 ==> r == x
    ensures TWO_63 <= x < TWO_63 + TWO_64 ==> r == x - TWO_64
  {
    var m := x % TWO_64;
    if m >= TWO_63 then m - TWO_64 else m
  }

  function Min(a: int, b: int): int {
    if a <= b then a else b
  }

  function Max(a: int, b: int): int {
    if a <= b then b else a
  }

  function Last<T>(s: seq<T>): T
    requires |s| > 0
  {
    s[|s| - 1]
  }
}

/** strings.TrimSpace. */
module Text {

  predicate IsSpace(c: char) {
    var n := c as int;
    || 0x09 <= n <= 0x0D || n == 0x20 || n == 0x85 || n == 0xA0
    || n == 0x1680 || 0x2000 <= n <= 0x200A || n == 0x2028 || n == 0x2029
    || n == 0x202F || n == 0x205F || n == 0x3000
  }

  /** The characters of Unicode's White_Space property. */
  const WHITE_SPACE: string :=
    "\t\n\U{0B}\U{0C}\r \U{85}\U{A0}\U{1680}\U{2000}\U{2001}\U{2002}\U{2003}\U{2004}\U{2005}\U{2006}" +
    "\U{2007}\U{2008}\U{2009}\U{200A}\U{2028}\U{2029}\U{202F}\U{205F}\U{3000}"

  lemma SpacesAreWhiteSpace(c: char)
    ensures IsSpace(c) <==> c in WHITE_SPACE
  {
    if IsSpace(c) {
      var n := c as int;
      var i := if n <= 0x0D then n - 9 else if n == 0x20 then 5 else if n == 0x85 then 6 else if n == 0xA0 then 7
               else if n == 0x1680 then 8 else if n <= 0x200A then n - 0x2000 + 9 else if n == 0x2028 then 20
               else if n == 0x2029 then 21 else if n == 0x202F then 22 else if n == 0x205F then 23 else 24;
      assert WHITE_SPACE[i] == c;
    }
  }

  function TrimLeft(s: string): string {
    if s != [] && IsSpace(s[0]) then TrimLeft(s[1..]) else s
  }

  function TrimRight(s: string): string {
    if s != [] && IsSpace(s[|s| - 1]) then TrimRight(s[..|s| - 1]) else s
  }

  function TrimSpace(s: string): string {
    TrimRight(TrimLeft(s))
  }

  /** No space at either end. */
  predicate Trimmed(s: string) {
    s == [] || (!IsSpace(s[0]) && !IsSpace(s[|s| - 1]))
  }

  ghost predicate Blank(s: string) {
    forall i :: 0 <= i < |s| ==> IsSpace(s[i])
  }

  lemma {:induction false} TrimLeftSplits(s: string) returns (pre: string)
    ensures Blank(pre) && s == pre + TrimLeft(s)
    ensures TrimLeft(s) == [] || !IsSpace(TrimLeft(s)[0])
  {
    if s != [] && IsSpace(s[0]) {
      var rest := TrimLeftSplits(s[1..]);
      pre := [s[0]] + rest;
    } else {
      pre := [];
    }
  }

  lemma {:induction false} TrimRightSplits(s: string) returns (post: string)
    ensures Blank(post) && s == TrimRight(s) + post
    ensures TrimRight(s) == [] || !IsSpace(TrimRight(s)[|TrimRight(s)| - 1])
  {
    if s != [] && IsSpace(s[|s| - 1]) {
      var rest := TrimRightSplits(s[..|s| - 1]);
      post := rest + [s[|s| - 1]];
      assert s == s[..|s| - 1] + [s[|s| - 1]];
    } else {
      post := [];
    }
  }

  /** TrimSpace removes outer blanks only, and leaves a string with none. */
  lemma TrimSpaceSplits(s: string) returns (pre: string, post: string)
    ensures Blank(pre) && Blank(post) && s == pre + TrimSpace(s) + post
    ensures Trimmed(TrimSpace(s))
  {
    pre := TrimLeftSplits(s);
    post := TrimRightSplits(TrimLeft(s));
    var t := TrimSpace(s);
    if t != [] {
      assert TrimLeft(s)[0] == t[0];
    }
  }

  /** Exactly the strings without outer blanks pass through unchanged. */
  lemma TrimSpaceFixedPoint(s: string)
    ensures TrimSpace(s) == s <==> Trimmed(s)
  {
    if TrimSpace(s) == s {
      var _, _ := TrimSpaceSplits(s);
    }
  }
}
