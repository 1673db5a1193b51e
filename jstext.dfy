/** The JavaScript string primitives the renderer relies on, on `seq<char>`. */
module JsText {

  function Max(a: int, b: int): int { if a < b then b else a }

  /** `' '.repeat(n)`. */
  function Spaces(n: nat): (r: string)
    ensures |r| == n
    ensures forall i :: 0 <= i < n ==> r[i] == ' '
  {
    seq(n, _ => ' ')
  }

  /** `s.padEnd(width)`: spaces appended up to `width`; a longer `s` is never cut. */
  function PadEnd(s: string, width: int): (r: string)
    ensures |r| == Max(|s|, width)
    ensures r[..|s|] == s
    ensures forall i :: |s| <= i < |r| ==> r[i] == ' '
  {
    s + Spaces(if width <= |s| then 0 else width - |s|)
  }

  /** `s.padStart(width)`: spaces prepended up to `width`; a longer `s` is never cut. */
  function PadStart(s: string, width: int): (r: string)
    ensures |r| == Max(|s|, width)
    ensures r[|r| - |s|..] == s
    ensures forall i :: 0 <= i < |r| - |s| ==> r[i] == ' '
  {
    Spaces(if width <= |s| then 0 else width - |s|) + s
  }

  /** `s.lastIndexOf(c)` for a one-character needle: -1 when absent. */
  function LastIndexOf(s: string, c: char): (r: int)
    ensures -1 <= r < |s|
    ensures r == -1 <==> c !in s
    ensures 0 <= r ==> s[r] == c
    ensures forall j :: r < j < |s| ==> s[j] != c
  {
    if |s| == 0 then -1
    else if s[|s| - 1] == c then |s| - 1
    else
      var r := LastIndexOf(s[..|s| - 1], c);
      assert forall j :: 0 <= j < |s| - 1 ==> s[..|s| - 1][j] == s[j];
      r
  }

  function Clamp(i: int, n: nat): (r: nat)
    ensures r <= n
  {
    if i < 0 then 0 else if i > n then n else i
  }

  /**
   * `s.substring(start, end)`: both bounds are clamped into `[0, |s|]` and
   * swapped when `start > end`.
   */
  function Substring(s: string, start: int, end: int): (r: string)
    ensures 0 <= start <= end <= |s| ==> r == s[start..end]
    ensures end <= 0 && start <= 0 ==> r == []
  {
    var a, b := Clamp(start, |s|), Clamp(end, |s|);
    if a <= b then s[a..b] else s[b..a]
  }

  /**
   * Regrouping a concatenation, stated once so that the proofs that need it
   * take it as one step instead of searching for it.
   */
  lemma ConcatAssociative<T>(a: seq<T>, b: seq<T>, c: seq<T>)
    ensures (a + b) + c == a + (b + c)
  {
  }

  lemma NoneAfter(s: string, i: nat, c: char)
    requires i < |s|
    requires forall j :: i < j < |s| ==> s[j] != c
    ensures c !in s[i..][1..]
  {
    var t := s[i..][1..];
    assert forall k :: 0 <= k < |t| ==> t[k] == s[i + 1 + k];
  }
}
