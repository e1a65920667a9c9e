/** The JavaScript string primitives the backend and the pages rely on:
    the white-space class `\s` (which `trim` shares), line terminators,
    `trim`, ASCII `toLowerCase`, `includes`, `indexOf`/`lastIndexOf`,
    `split` on one character, and the decimal rendering of a number inside a
    template literal. */
module Text {
  import opened Wrappers

  /** JavaScript's `\s`: WhiteSpace and LineTerminator code points. */
  predicate IsSpace(c: char) {
    c == ' ' || c == '\t' || c == '\n' || c == '\r' || c == '\U{0B}' || c == '\U{0C}' ||
    c == '\U{A0}' || c == '\U{1680}' || '\U{2000}' <= c <= '\U{200A}' ||
    c == '\U{2028}' || c == '\U{2029}' || c == '\U{202F}' || c == '\U{205F}' ||
    c == '\U{3000}' || c == '\U{FEFF}'
  }

  /** The characters that end a line for `^`, `$` and `.` in a regular expression. */
  predicate IsLineTerminator(c: char) {
    c == '\n' || c == '\r' || c == '\U{2028}' || c == '\U{2029}'
  }

  /** Drops the leading white space: what is left is a suffix of `s` that does
      not start with white space, and everything dropped was white space. */
  function TrimStart(s: string): (r: string)
    ensures |r| <= |s| && r == s[|s| - |r|..]
    ensures forall k :: 0 <= k < |s| - |r| ==> IsSpace(s[k])
    ensures r != [] ==> !IsSpace(r[0])
  {
    if s != [] && IsSpace(s[0]) then TrimStart(s[1..]) else s
  }

  /** Drops the trailing white space: what is left is a prefix of `s` that does
      not end with white space, and everything dropped was white space. */
  function TrimEnd(s: string): (r: string)
    ensures |r| <= |s| && r == s[..|r|]
    ensures forall k :: |r| <= k < |s| ==> IsSpace(s[k])
    ensures r != [] ==> !IsSpace(r[|r| - 1])
  {
    if s != [] && IsSpace(s[|s| - 1]) then TrimEnd(s[..|s| - 1]) else s
  }

  /** `String.prototype.trim`: the piece of `s` left once the white space at
      either end is dropped; it neither starts nor ends with white space, and
      everything dropped before and after it is white space. */
  function Trim(s: string): (r: string)
    ensures r != [] ==> !IsSpace(r[0]) && !IsSpace(r[|r| - 1])
    ensures exists i :: (0 <= i && OccursAt(s, r, i) &&
                         (forall k :: 0 <= k < i ==> IsSpace(s[k])) &&
                         (forall k :: i + |r| <= k < |s| ==> IsSpace(s[k])))
  {
    var t := TrimStart(s);
    var r := TrimEnd(t);
    assert OccursAt(s, r, |s| - |t|);
    r
  }

  /** Trimming a string without leading or trailing white space changes nothing. */
  lemma TrimNoSpace(s: string)
    requires s != [] ==> !IsSpace(s[0]) && !IsSpace(s[|s| - 1])
    ensures Trim(s) == s
  {
  }

  /** Leading white space in front of a piece that starts with a
      non-space character comes only from the part before it. */
  lemma {:induction false} TrimStartFrame(pre: string, body: string, post: string)
    requires body != [] && !IsSpace(body[0])
    ensures TrimStart(pre + body + post) == TrimStart(pre) + body + post
  {
    if pre != [] {
      assert (pre + body + post)[0] == pre[0];
      assert (pre + body + post)[1..] == pre[1..] + body + post;
      TrimStartFrame(pre[1..], body, post);
    } else {
      assert pre + body + post == body + post;
      assert (body + post)[0] == body[0];
    }
  }

  /** Trailing white space after a piece that ends with a non-space
      character comes only from the part after it. */
  lemma {:induction false} TrimEndFrame(body: string, post: string)
    requires body != [] && !IsSpace(body[|body| - 1])
    ensures TrimEnd(body + post) == body + TrimEnd(post)
  {
    if post != [] {
      var n := |post| - 1;
      assert (body + post)[..|body + post| - 1] == body + post[..n];
      TrimEndFrame(body, post[..n]);
    } else {
      assert body + post == body;
    }
  }

  /** Trimming drops white space only from the outer parts. */
  lemma TrimFramed(pre: string, body: string, post: string)
    requires body != [] && !IsSpace(body[0]) && !IsSpace(body[|body| - 1])
    ensures Trim(pre + body + post) == TrimStart(pre) + body + TrimEnd(post)
  {
    TrimStartFrame(pre, body, post);
    var head := TrimStart(pre);
    TrimEndFrame(head + body, post);
  }

  /** Trimming twice is trimming once. */
  lemma TrimIdempotent(s: string)
    ensures Trim(Trim(s)) == Trim(s)
  {
    TrimNoSpace(Trim(s));
  }

  function LowerChar(c: char): (d: char)
    ensures 'A' <= c <= 'Z' ==> 'a' <= d <= 'z'
    ensures !('A' <= c <= 'Z') ==> d == c
  {
    if 'A' <= c <= 'Z' then (c as int - 'A' as int + 'a' as int) as char else c
  }

  /** `toLowerCase`, restricted to the ASCII letters. */
  function Lower(s: string): (r: string)
    ensures |r| == |s|
    ensures forall i :: 0 <= i < |s| ==> r[i] == LowerChar(s[i])
  {
    seq(|s|, i requires 0 <= i < |s| => LowerChar(s[i]))
  }

  /** `t` occurs in `s` starting at index `i`. */
  predicate OccursAt(s: string, t: string, i: nat) {
    i + |t| <= |s| && s[i..i + |t|] == t
  }

  /** `s.startsWith(p)`. */
  predicate StartsWith(s: string, p: string) {
    |p| <= |s| && s[..|p|] == p
  }

  /** `s.includes(t)`, computed by trying each start position in turn. */
  function Contains(s: string, t: string): bool
  {
    |t| <= |s| && (s[..|t|] == t || Contains(s[1..], t))
  }

  /** `Contains` holds exactly when `t` occurs in `s` at some position. */
  lemma {:induction false} ContainsIff(s: string, t: string)
    ensures Contains(s, t) <==> exists i :: 0 <= i && OccursAt(s, t, i)
  {
    if |t| <= |s| && s[..|t|] != t {
      assert s != [];
      ContainsIff(s[1..], t);
      if Contains(s[1..], t) {
        var i :| 0 <= i && OccursAt(s[1..], t, i);
        assert OccursAt(s, t, i + 1);
      }
      if exists i :: 0 <= i && OccursAt(s, t, i) {
        var i :| 0 <= i && OccursAt(s, t, i);
        assert i != 0;
        assert OccursAt(s[1..], t, i - 1);
      }
    } else if |t| <= |s| {
      assert OccursAt(s, t, 0);
    }
  }

  /** An occurrence at a known position makes `includes` true. */
  lemma ContainsAt(s: string, t: string, i: nat)
    requires OccursAt(s, t, i)
    ensures Contains(s, t)
  {
    ContainsIff(s, t);
  }

  /** `s.indexOf(c)`, with `undefined` for -1. */
  function IndexOf(s: string, c: char): (r: Option<nat>)
    ensures r.None? <==> c !in s
    ensures r.Some? ==> r.value < |s| && s[r.value] == c && c !in s[..r.value]
  {
    if s == [] then None
    else if s[0] == c then Some(0)
    else
      match IndexOf(s[1..], c)
      case None => None
      case Some(i) =>
        assert s[..i + 1] == [s[0]] + s[1..][..i];
        Some(i + 1)
  }

  /** `s.lastIndexOf(c)`, with `undefined` for -1. */
  function LastIndexOf(s: string, c: char): (r: Option<nat>)
    ensures r.None? <==> c !in s
    ensures r.Some? ==> r.value < |s| && s[r.value] == c && c !in s[r.value + 1..]
  {
    if s == [] then None
    else if s[|s| - 1] == c then Some(|s| - 1)
    else
      var r := LastIndexOf(s[..|s| - 1], c);
      assert s == s[..|s| - 1] + [s[|s| - 1]];
      r
  }

  /** The position of a character with none of it before is its `indexOf`. */
  lemma IndexOfUnique(s: string, c: char, k: nat)
    requires k < |s| && s[k] == c && c !in s[..k]
    ensures IndexOf(s, c) == Some(k)
  {
  }

  /** The position of a character with none of it after is its
      `lastIndexOf`. */
  lemma LastIndexOfUnique(s: string, c: char, k: nat)
    requires k < |s| && s[k] == c && c !in s[k + 1..]
    ensures LastIndexOf(s, c) == Some(k)
  {
  }

  /** Without the first character, which is not `c`, the first `c` moves
      back by one. */
  lemma IndexOfTail(s: string, c: char)
    requires s != [] && s[0] != c
    ensures IndexOf(s, c).Some? <==> IndexOf(s[1..], c).Some?
    ensures IndexOf(s, c).Some? ==> IndexOf(s, c).value == IndexOf(s[1..], c).value + 1
  {
  }

  /** Without the first character, the last `c` moves back by one, unless
      the first character was the only `c`. */
  lemma LastIndexOfTail(s: string, c: char)
    requires s != []
    ensures LastIndexOf(s[1..], c).Some? ==> LastIndexOf(s, c) == Some(LastIndexOf(s[1..], c).value + 1)
    ensures LastIndexOf(s[1..], c).None? && LastIndexOf(s, c).Some? ==> LastIndexOf(s, c).value == 0
  {
    var b := LastIndexOf(s[1..], c);
    if b.Some? {
      assert s[b.value + 2..] == s[1..][b.value + 1..];
      LastIndexOfUnique(s, c, b.value + 1);
    }
  }

  /** `s.split(sep)` for a one-character separator: the pieces between the
      separators, at least one, none of which holds the separator. */
  function Split(s: string, sep: char): (pieces: seq<string>)
    ensures |pieces| >= 1
    ensures forall k :: 0 <= k < |pieces| ==> sep !in pieces[k]
    decreases |s|
  {
    match IndexOf(s, sep)
    case None => [s]
    case Some(i) => [s[..i]] + Split(s[i + 1..], sep)
  }

  /** `pieces.join(sep)`. */
  function Join(pieces: seq<string>, sep: char): string
    requires |pieces| >= 1
  {
    if |pieces| == 1 then pieces[0] else pieces[0] + [sep] + Join(pieces[1..], sep)
  }

  /** Splitting and joining again with the same separator gives back the input. */
  lemma {:induction false} JoinSplit(s: string, sep: char)
    ensures Join(Split(s, sep), sep) == s
    decreases |s|
  {
    var k := IndexOf(s, sep);
    if k.Some? {
      var i := k.value;
      var rest := Split(s[i + 1..], sep);
      assert Split(s, sep) == [s[..i]] + rest;
      JoinSplit(s[i + 1..], sep);
      assert s == s[..i] + [sep] + s[i + 1..];
    }
  }

  function DigitChar(d: nat): char
    requires d < 10
  {
    "0123456789"[d]
  }

  /** The decimal rendering of `n` in a template literal. */
  function NatToString(n: nat): (r: string)
    ensures |r| >= 1
    ensures forall i :: 0 <= i < |r| ==> '0' <= r[i] <= '9'
  {
    if n < 10 then [DigitChar(n)] else NatToString(n / 10) + [DigitChar(n % 10)]
  }

  /** The number a string of decimal digits denotes. */
  function DigitsValue(s: string): nat
    requires forall i :: 0 <= i < |s| ==> '0' <= s[i] <= '9'
  {
    if s == [] then 0 else 10 * DigitsValue(s[..|s| - 1]) + (s[|s| - 1] as int - '0' as int)
  }

  /** Reading back the digits of a rendered number gives the number. */
  lemma {:induction false} NatToStringRoundTrip(n: nat)
    ensures DigitsValue(NatToString(n)) == n
  {
    if n >= 10 {
      NatToStringRoundTrip(n / 10);
      var s := NatToString(n);
      assert s[..|s| - 1] == NatToString(n / 10);
    }
  }

  /** `${i}` for an integer that may be negative. */
  function IntToString(i: int): string
  {
    if i < 0 then "-" + NatToString(-i) else NatToString(i)
  }
}
