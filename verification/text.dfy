/**
  Whitespace tokenisation as done by Python's `str.split()` with no separator,
  which is what pandas' `Series.str.split()` applies to every cell.
 */
module Text {

  /** Python's `str.isspace` for one code point. */
  predicate IsSpace(c: char) {
    || c == ' '
    || ('\t' <= c <= '\r')              // tab, line feed, vertical tab, form feed, carriage return
    || ('\U{1C}' <= c <= '\U{1F}')      // file, group, record and unit separators
    || c == '\U{85}' || c == '\U{A0}' || c == '\U{1680}'
    || ('\U{2000}' <= c <= '\U{200A}')
    || c == '\U{2028}' || c == '\U{2029}' || c == '\U{202F}' || c == '\U{205F}' || c == '\U{3000}'
  }

  predicate NoSpace(s: string) {
    forall i :: 0 <= i < |s| ==> !IsSpace(s[i])
  }

  /** A separator: whitespace only, possibly none at all. */
  predicate AllSpace(s: string) {
    forall i :: 0 <= i < |s| ==> IsSpace(s[i])
  }

  /** A token: a non-empty run of non-whitespace characters. */
  predicate IsWord(w: string) {
    |w| > 0 && NoSpace(w)
  }

  /** Length of the longest whitespace-free prefix of `s`. */
  function WordLength(s: string): (n: nat)
    ensures n <= |s|
    ensures NoSpace(s[..n])
    ensures n < |s| ==> IsSpace(s[n])
  {
    if s == [] || IsSpace(s[0]) then 0
    else
      var n := 1 + WordLength(s[1..]);
      assert forall i :: 1 <= i < n ==> s[..n][i] == s[1..][..n - 1][i - 1];
      n
  }

  /**
    `s.split()`: the maximal whitespace-free runs of `s`, in order; leading,
    trailing and repeated whitespace produce no empty tokens.
   */
  function Split(s: string): (words: seq<string>)
    ensures forall i :: 0 <= i < |words| ==> IsWord(words[i])
    decreases |s|
  {
    if s == [] then []
    else if IsSpace(s[0]) then Split(s[1..])
    else
      var n := WordLength(s);
      [s[..n]] + Split(s[n..])
  }

  /** `" ".join(words)`. */
  function Join(words: seq<string>): string {
    if |words| == 0 then []
    else if |words| == 1 then words[0]
    else words[0] + " " + Join(words[1..])
  }

  /**
    The words with a separator before, between and after them:
    `seps[0] + words[0] + seps[1] + ... + words[n - 1] + seps[n]`.
   */
  function Spaced(words: seq<string>, seps: seq<string>): string
    requires |seps| == |words| + 1
    decreases |words|
  {
    if words == [] then seps[0] else seps[0] + words[0] + Spaced(words[1..], seps[1..])
  }

  /** The characters of `s` that are not whitespace, in order. */
  function Visible(s: string): string {
    if s == [] then []
    else if IsSpace(s[0]) then Visible(s[1..])
    else [s[0]] + Visible(s[1..])
  }

  /** `"".join(words)`. */
  function Concat(words: seq<string>): string {
    if words == [] then [] else words[0] + Concat(words[1..])
  }

  lemma {:induction false} WordLengthOfWord(w: string, rest: string)
    requires IsWord(w)
    requires rest == [] || IsSpace(rest[0])
    ensures WordLength(w + rest) == |w|
    decreases |w|
  {
    var s := w + rest;
    assert s[0] == w[0];
    if |w| == 1 {
      assert s[1..] == rest;
    } else {
      assert s[1..] == w[1..] + rest;
      assert IsWord(w[1..]) by {
        forall i | 0 <= i < |w[1..]| ensures !IsSpace(w[1..][i]) {
          assert w[1..][i] == w[i + 1];
        }
      }
      WordLengthOfWord(w[1..], rest);
    }
  }

  /** A token followed by whitespace (or nothing) splits off as the first token. */
  lemma SplitWordThen(w: string, rest: string)
    requires IsWord(w)
    requires rest == [] || IsSpace(rest[0])
    ensures Split(w + rest) == [w] + Split(rest)
  {
    WordLengthOfWord(w, rest);
    var s := w + rest;
    assert s[..|w|] == w;
    assert s[|w|..] == rest;
  }

  /** Splitting words joined by single spaces gives back exactly those words. */
  lemma {:induction false} SplitJoin(words: seq<string>)
    requires forall i :: 0 <= i < |words| ==> IsWord(words[i])
    ensures Split(Join(words)) == words
  {
    if |words| == 0 {
    } else if |words| == 1 {
      SplitWordThen(words[0], []);
      assert words[0] + [] == words[0];
    } else {
      var tail := Join(words[1..]);
      SplitJoin(words[1..]);
      assert Split(" " + tail) == Split(tail) by {
        assert (" " + tail)[1..] == tail;
      }
      assert words[0] + " " + tail == words[0] + (" " + tail);
      SplitWordThen(words[0], " " + tail);
      assert words == [words[0]] + words[1..];
    }
  }

  /** Leading whitespace produces no token. */
  lemma {:induction false} SplitAfterSpace(ws: string, rest: string)
    requires AllSpace(ws)
    ensures Split(ws + rest) == Split(rest)
    decreases |ws|
  {
    if ws != [] {
      assert (ws + rest)[0] == ws[0];
      assert (ws + rest)[1..] == ws[1..] + rest;
      assert AllSpace(ws[1..]) by {
        forall i | 0 <= i < |ws[1..]| ensures IsSpace(ws[1..][i]) {
          assert ws[1..][i] == ws[i + 1];
        }
      }
      SplitAfterSpace(ws[1..], rest);
    } else {
      assert ws + rest == rest;
    }
  }

  /**
    Every run of whitespace separates two tokens, however long it is and
    whichever whitespace characters it holds; whitespace at either end
    produces no token.
   */
  lemma {:induction false} SplitSpaced(words: seq<string>, seps: seq<string>)
    requires |seps| == |words| + 1
    requires forall i :: 0 <= i < |words| ==> IsWord(words[i])
    requires forall i :: 0 <= i < |seps| ==> AllSpace(seps[i])
    requires forall i :: 0 < i < |words| ==> |seps[i]| > 0
    ensures Split(Spaced(words, seps)) == words
    decreases |words|
  {
    if words == [] {
      SplitAfterSpace(seps[0], []);
      assert seps[0] + [] == seps[0];
    } else {
      var tail := Spaced(words[1..], seps[1..]);
      assert forall i :: 0 <= i < |seps[1..]| ==> seps[1..][i] == seps[i + 1];
      SplitSpaced(words[1..], seps[1..]);
      assert tail == [] || IsSpace(tail[0]) by {
        if |words| == 1 {
          assert tail == seps[1];
        } else {
          assert |seps[1]| > 0;
          assert tail[0] == seps[1][0];
        }
      }
      SplitWordThen(words[0], tail);
      assert seps[0] + words[0] + tail == seps[0] + (words[0] + tail);
      SplitAfterSpace(seps[0], words[0] + tail);
      assert words == [words[0]] + words[1..];
    }
  }

  /** Re-splitting a normalised string changes nothing: splitting is idempotent. */
  lemma SplitNormalises(s: string)
    ensures Split(Join(Split(s))) == Split(s)
  {
    SplitJoin(Split(s));
  }

  lemma {:induction false} VisibleAppend(a: string, b: string)
    ensures Visible(a + b) == Visible(a) + Visible(b)
    decreases |a|
  {
    if a == [] {
      assert a + b == b;
    } else {
      assert (a + b)[0] == a[0];
      assert (a + b)[1..] == a[1..] + b;
      VisibleAppend(a[1..], b);
    }
  }

  lemma {:induction false} VisibleOfNoSpace(w: string)
    requires NoSpace(w)
    ensures Visible(w) == w
    decreases |w|
  {
    if w != [] {
      assert NoSpace(w[1..]) by {
        forall i | 0 <= i < |w[1..]| ensures !IsSpace(w[1..][i]) {
          assert w[1..][i] == w[i + 1];
        }
      }
      VisibleOfNoSpace(w[1..]);
    }
  }

  lemma ConcatCons(w: string, rest: seq<string>)
    ensures Concat([w] + rest) == w + Concat(rest)
  {
    assert ([w] + rest)[1..] == rest;
  }

  /** The tokens, glued together, are exactly the non-whitespace characters of the input. */
  lemma {:induction false} SplitKeepsVisible(s: string)
    ensures Concat(Split(s)) == Visible(s)
    decreases |s|
  {
    if s == [] {
    } else if IsSpace(s[0]) {
      SplitKeepsVisible(s[1..]);
    } else {
      var n := WordLength(s);
      var w, rest := s[..n], s[n..];
      assert Split(s) == [w] + Split(rest);
      ConcatCons(w, Split(rest));
      SplitKeepsVisible(rest);
      assert s == w + rest;
      VisibleAppend(w, rest);
      VisibleOfNoSpace(w);
    }
  }
}
