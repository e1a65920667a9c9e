/** The words of a text: its maximal runs of characters that are not white
    space, and the words joined again by single spaces. */
module TextWords {
  import opened Text

  /** The length of the run of characters that are not white space at the
      front of `s`: it ends at the first white space or at the end. */
  function WordLength(s: string): (n: nat)
    ensures n <= |s|
    ensures n < |s| ==> IsSpace(s[n])
    ensures s != [] && !IsSpace(s[0]) ==> n >= 1
  {
    if s == [] || IsSpace(s[0]) then 0 else 1 + WordLength(s[1..])
  }

  /** The words of `s`, in order. */
  function Words(s: string): seq<string>
    decreases |s|
  {
    var t := TrimStart(s);
    if t == [] then []
    else
      var n := WordLength(t);
      [t[..n]] + Words(t[n..])
  }

  /** A non-empty string without white space. */
  predicate IsWord(w: string) {
    w != [] && forall i :: 0 <= i < |w| ==> !IsSpace(w[i])
  }

  /** `words.join(' ')`. */
  function Spaced(words: seq<string>): string
  {
    if words == [] then [] else Join(words, ' ')
  }
}
