/** The Python string operations the renderer relies on: `str.strip()`,
    `''.join(parts)` and `'\n'.join(lines)`. */
module PyText {

  /** Python's `str.isspace()` for one character: exactly the characters that
      `str.strip()` without an argument removes from both ends. */
  const Whitespace: set<char> := {
    '\U{9}', '\U{A}', '\U{B}', '\U{C}', '\U{D}', '\U{1C}', '\U{1D}', '\U{1E}', '\U{1F}',
    '\U{20}', '\U{85}', '\U{A0}', '\U{1680}', '\U{2000}', '\U{2001}', '\U{2002}', '\U{2003}',
    '\U{2004}', '\U{2005}', '\U{2006}', '\U{2007}', '\U{2008}', '\U{2009}', '\U{200A}',
    '\U{2028}', '\U{2029}', '\U{202F}', '\U{205F}', '\U{3000}'
  }

  predicate IsSpace(c: char) {
    c in Whitespace
  }

  predicate AllSpace(s: string) {
    forall i :: 0 <= i < |s| ==> IsSpace(s[i])
  }

  /** The index of the first non-whitespace character of `s` at or after `i`
      (`|s|` when there is none): where `s.lstrip()` starts cutting. */
  function SkipSpace(s: string, i: nat): (k: nat)
    requires i <= |s|
    ensures i <= k <= |s|
    ensures forall m :: i <= m < k ==> IsSpace(s[m])
    ensures k < |s| ==> !IsSpace(s[k])
    decreases |s| - i
  {
    if i < |s| && IsSpace(s[i]) then SkipSpace(s, i + 1) else i
  }

  /** The end of `s[lo..hi]` once its trailing whitespace is dropped: where
      `s.rstrip()` stops. */
  function SkipSpaceBack(s: string, lo: nat, hi: nat): (k: nat)
    requires lo <= hi <= |s|
    ensures lo <= k <= hi
    ensures forall m :: k <= m < hi ==> IsSpace(s[m])
    ensures lo < k ==> !IsSpace(s[k - 1])
  {
    if lo < hi && IsSpace(s[hi - 1]) then SkipSpaceBack(s, lo, hi - 1) else hi
  }

  /** `s.strip()`: `s` without its leading and trailing whitespace. The result
      is a run of `s` with only whitespace before and after it; it is empty
      exactly when `s` is blank, and otherwise neither of its ends is
      whitespace, so nothing but the surrounding whitespace is removed. */
  function Strip(s: string): (r: string)
    ensures exists i, j :: 0 <= i <= j <= |s| && r == s[i..j] && AllSpace(s[..i]) && AllSpace(s[j..])
    ensures r != [] ==> !IsSpace(r[0]) && !IsSpace(r[|r| - 1])
    ensures r == [] <==> AllSpace(s)
  {
    var i := SkipSpace(s, 0);
    var j := SkipSpaceBack(s, i, |s|);
    assert i < j ==> s[i..j][0] == s[i] && s[i..j][j - i - 1] == s[j - 1];
    assert AllSpace(s[..i]) && AllSpace(s[j..]);
    s[i..j]
  }

  /** The stripped text is determined: any run of `s` with only whitespace
      around it and no whitespace at its ends is `Strip(s)`. */
  lemma StripUnique(s: string, i: nat, j: nat)
    requires i <= j <= |s|
    requires AllSpace(s[..i]) && AllSpace(s[j..])
    requires i < j ==> !IsSpace(s[i]) && !IsSpace(s[j - 1])
    ensures Strip(s) == s[i..j]
  {
    var r := Strip(s);
    if i == j {
      forall m | 0 <= m < |s| ensures IsSpace(s[m]) {
        if m < i { assert s[m] == s[..i][m]; } else { assert s[m] == s[j..][m - j]; }
      }
    } else {
      var a := SkipSpace(s, 0);
      assert a == i;
      var b := SkipSpaceBack(s, a, |s|);
      assert b == j;
    }
  }

  /** `''.join(parts)`: the parts written one after another. */
  function Concat(parts: seq<string>): string
  {
    if parts == [] then "" else parts[0] + Concat(parts[1..])
  }

  /** `'\n'.join(lines)`: the lines with one newline between neighbours and none
      at either end. */
  function JoinLines(lines: seq<string>): string
  {
    if |lines| == 0 then ""
    else if |lines| == 1 then lines[0]
    else lines[0] + "\n" + JoinLines(lines[1..])
  }

  /** The joined text is blank exactly when every part is blank. */
  lemma {:induction false} ConcatBlank(parts: seq<string>)
    ensures AllSpace(Concat(parts)) <==> forall k :: 0 <= k < |parts| ==> AllSpace(parts[k])
  {
    if parts != [] {
      ConcatBlank(parts[1..]);
      var c := Concat(parts);
      var head, tail := parts[0], Concat(parts[1..]);
      assert c == head + tail;
      if AllSpace(c) {
        assert AllSpace(head) by {
          forall k | 0 <= k < |head| ensures IsSpace(head[k]) { assert head[k] == c[k]; }
        }
        assert AllSpace(tail) by {
          forall k | 0 <= k < |tail| ensures IsSpace(tail[k]) { assert tail[k] == c[|head| + k]; }
        }
        forall k | 0 <= k < |parts| ensures AllSpace(parts[k]) {
          if k > 0 { assert parts[k] == parts[1..][k - 1]; }
        }
      }
      if forall k :: 0 <= k < |parts| ==> AllSpace(parts[k]) {
        assert AllSpace(head);
        assert forall k :: 0 <= k < |parts[1..]| ==> AllSpace(parts[1..][k]) by {
          forall k | 0 <= k < |parts[1..]| ensures AllSpace(parts[1..][k]) { assert parts[1..][k] == parts[k + 1]; }
        }
        forall k | 0 <= k < |c| ensures IsSpace(c[k]) {
          if k < |head| { assert c[k] == head[k]; } else { assert c[k] == tail[k - |head|]; }
        }
      }
    }
  }

  /** Joining two non-empty runs of lines puts one newline between them. */
  lemma {:induction false} JoinLinesAppend(a: seq<string>, b: seq<string>)
    requires a != [] && b != []
    ensures JoinLines(a + b) == JoinLines(a) + "\n" + JoinLines(b)
  {
    if |a| == 1 {
      assert (a + b)[1..] == b;
    } else {
      assert (a + b)[1..] == a[1..] + b;
      JoinLinesAppend(a[1..], b);
    }
  }
}
