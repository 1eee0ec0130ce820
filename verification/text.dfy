/**
 Python's whitespace handling on `str`, as the command-file runner and the
 `encrypt` command use it: `strip()`, `split()` with no separator, and
 `sep.join(parts)`.
 */
module Text {

  /** The characters for which Python's `str.isspace()` holds. */
  predicate IsSpace(c: char) {
    || c == ' '
    || ('\t' <= c <= '\r')
    || ('\U{1C}' <= c <= '\U{1F}')
    || c == '\U{85}'
    || c == '\U{A0}'
    || c == '\U{1680}'
    || ('\U{2000}' <= c <= '\U{200A}')
    || c == '\U{2028}'
    || c == '\U{2029}'
    || c == '\U{202F}'
    || c == '\U{205F}'
    || c == '\U{3000}'
  }

  /** A non-empty run of non-whitespace characters: what `split()` produces. */
  predicate IsWord(w: string) {
    |w| > 0 && forall i :: 0 <= i < |w| ==> !IsSpace(w[i])
  }

  /** `s.lstrip()`: the longest suffix of `s` that does not start with whitespace. */
  function TrimLeft(s: string): (r: string)
    ensures |r| <= |s| && r == s[|s| - |r|..]
    ensures forall i :: 0 <= i < |s| - |r| ==> IsSpace(s[i])
    ensures |r| > 0 ==> !IsSpace(r[0])
    decreases |s|
  {
    if |s| > 0 && IsSpace(s[0]) then TrimLeft(s[1..]) else s
  }

  /** `s.rstrip()`: the longest prefix of `s` that does not end with whitespace. */
  function TrimRight(s: string): (r: string)
    ensures |r| <= |s| && r == s[..|r|]
    ensures forall i :: |r| <= i < |s| ==> IsSpace(s[i])
    ensures |r| > 0 ==> !IsSpace(r[|r| - 1])
    decreases |s|
  {
    if |s| > 0 && IsSpace(s[|s| - 1]) then TrimRight(s[..|s| - 1]) else s
  }

  /** `s.strip()`: the middle of `s` left once the whitespace at both ends is cut off. */
  function Strip(s: string): (r: string)
    ensures |r| <= |s|
    ensures |r| > 0 ==> !IsSpace(r[0]) && !IsSpace(r[|r| - 1])
  {
    TrimRight(TrimLeft(s))
  }

  /** Length of the leading run of non-whitespace characters of `s`. */
  function WordLength(s: string): (n: nat)
    ensures n <= |s|
    ensures forall i :: 0 <= i < n ==> !IsSpace(s[i])
    ensures n < |s| ==> IsSpace(s[n])
  {
    if |s| == 0 || IsSpace(s[0]) then 0 else 1 + WordLength(s[1..])
  }

  /** `s.split()`: the maximal runs of non-whitespace characters, in order. */
  function Words(s: string): (ws: seq<string>)
    ensures forall i :: 0 <= i < |ws| ==> IsWord(ws[i])
    ensures |s| > 0 && !IsSpace(s[0]) ==> |ws| > 0 && |ws[0]| > 0 && ws[0][0] == s[0]
    decreases |s|
  {
    if |s| == 0 then []
    else if IsSpace(s[0]) then Words(s[1..])
    else
      var n := WordLength(s);
      [s[..n]] + Words(s[n..])
  }

  /** `sep.join(parts)`: the parts in order, with `sep` between each two. */
  function Join(parts: seq<string>, sep: string): (r: string)
    ensures |parts| == 0 ==> r == ""
    ensures |parts| > 0 ==> |parts[0]| <= |r| && r[..|parts[0]|] == parts[0]
    decreases |parts|
  {
    if |parts| == 0 then ""
    else if |parts| == 1 then parts[0]
    else parts[0] + sep + Join(parts[1..], sep)
  }

  /** A word followed by whitespace (or by nothing) splits off as the first word. */
  lemma WordsOfWordThen(w: string, t: string)
    requires IsWord(w)
    requires |t| == 0 || IsSpace(t[0])
    ensures Words(w + t) == [w] + Words(t)
  {
    var s := w + t;
    var n := WordLength(s);
    assert forall i :: 0 <= i < |w| ==> s[i] == w[i];
    if |t| > 0 {
      assert s[|w|] == t[0];
    }
    assert n == |w|;
    assert s[..n] == w;
    assert s[n..] == t;
  }

  /** A string made only of whitespace. */
  predicate Blank(s: string) {
    forall i :: 0 <= i < |s| ==> IsSpace(s[i])
  }

  /** The words `ws` each followed by its whitespace gap: `ws[0] + gaps[0] + ws[1] + gaps[1] + ...`. */
  function Spaced(ws: seq<string>, gaps: seq<string>): string
    requires |gaps| == |ws|
    decreases |ws|
  {
    if |ws| == 0 then "" else ws[0] + gaps[0] + Spaced(ws[1..], gaps[1..])
  }

  /** Splitting skips leading whitespace, however long. */
  lemma {:induction false} WordsSkipsBlank(pad: string, t: string)
    requires Blank(pad)
    ensures Words(pad + t) == Words(t)
    decreases |pad|
  {
    if |pad| == 0 {
      assert pad + t == t;
    } else {
      assert (pad + t)[0] == pad[0];
      assert (pad + t)[1..] == pad[1..] + t;
      WordsSkipsBlank(pad[1..], t);
    }
  }

  /** Splitting ignores trailing whitespace. */
  lemma {:induction false} WordsDropsBlank(a: string, b: string)
    requires Blank(b)
    ensures Words(a + b) == Words(a)
    decreases |a|
  {
    var s := a + b;
    if |a| == 0 {
      assert s == b + "";
      WordsSkipsBlank(b, "");
    } else if IsSpace(a[0]) {
      assert s[0] == a[0];
      assert s[1..] == a[1..] + b;
      WordsDropsBlank(a[1..], b);
    } else {
      var m := WordLength(a);
      var n := WordLength(s);
      assert forall i :: 0 <= i < |a| ==> s[i] == a[i];
      assert m < |s| ==> IsSpace(s[m]) by {
        if m < |a| {
          assert s[m] == a[m];
        } else if m < |s| {
          assert s[m] == b[0];
        }
      }
      assert n == m;
      assert s[..m] == a[..m];
      assert s[m..] == a[m..] + b;
      WordsDropsBlank(a[m..], b);
    }
  }

  /**
   `split()` on any string: words separated by non-empty runs of whitespace,
   with whitespace of any length before the first and after the last, split
   back into exactly those words.
   */
  lemma {:induction false} WordsOfSpaced(pad: string, ws: seq<string>, gaps: seq<string>)
    requires Blank(pad) && |gaps| == |ws|
    requires forall i :: 0 <= i < |ws| ==> IsWord(ws[i]) && Blank(gaps[i])
    requires forall i :: 0 <= i < |ws| - 1 ==> |gaps[i]| > 0
    ensures Words(pad + Spaced(ws, gaps)) == ws
    decreases |ws|
  {
    WordsSkipsBlank(pad, Spaced(ws, gaps));
    if |ws| > 0 {
      var rest := Spaced(ws[1..], gaps[1..]);
      assert Spaced(ws, gaps) == ws[0] + (gaps[0] + rest);
      assert |gaps[0]| > 0 || |ws| == 1;
      assert |gaps[0] + rest| == 0 || IsSpace((gaps[0] + rest)[0]) by {
        if |gaps[0]| > 0 {
          assert (gaps[0] + rest)[0] == gaps[0][0];
        }
      }
      WordsOfWordThen(ws[0], gaps[0] + rest);
      WordsOfSpaced(gaps[0], ws[1..], gaps[1..]);
      assert [ws[0]] + ws[1..] == ws;
    }
  }

  /** A spaced line starts with the first character of its first word. */
  lemma SpacedStart(ws: seq<string>, gaps: seq<string>)
    requires |gaps| == |ws| && |ws| > 0 && |ws[0]| > 0
    ensures |Spaced(ws, gaps)| > 0 && Spaced(ws, gaps)[0] == ws[0][0]
  {
    assert Spaced(ws, gaps) == ws[0] + (gaps[0] + Spaced(ws[1..], gaps[1..]));
  }

  /** `strip()` keeps exactly the middle of `s`, and cuts only whitespace from both ends. */
  lemma StripIsMiddle(s: string)
    ensures var r := Strip(s); var k := |s| - |TrimLeft(s)|;
      && k + |r| <= |s| && r == s[k..k + |r|]
      && (forall i :: 0 <= i < k ==> IsSpace(s[i]))
      && (forall i :: k + |r| <= i < |s| ==> IsSpace(s[i]))
  {
    var t := TrimLeft(s);
    var r := TrimRight(t);
    var k := |s| - |t|;
    assert t == s[k..];
    assert r == t[..|r|];
    forall i | k + |r| <= i < |s|
      ensures IsSpace(s[i])
    {
      assert s[i] == t[i - k];
    }
  }

  /** `strip()` leaves nothing exactly when `s` is all whitespace. */
  lemma StripEmpty(s: string)
    ensures |Strip(s)| == 0 <==> Blank(s)
  {
    StripIsMiddle(s);
    if |Strip(s)| > 0 {
      var k := |s| - |TrimLeft(s)|;
      assert s[k] == Strip(s)[0];
    }
  }

  /** `strip()` of a string behind a whitespace prefix is the `rstrip()` of the string, when it starts with a non-space. */
  lemma StripPadded(pad: string, body: string)
    requires Blank(pad) && |body| > 0 && !IsSpace(body[0])
    ensures Strip(pad + body) == TrimRight(body)
    ensures |TrimRight(body)| > 0 && TrimRight(body)[0] == body[0]
  {
    TrimLeftPadded(pad, body);
    TrimRightKeepsFirst(body);
  }

  /** `rstrip()` never changes how a string splits. */
  lemma WordsOfTrimRight(s: string)
    ensures Words(TrimRight(s)) == Words(s)
  {
    var t := TrimRight(s);
    var tail := s[|t|..];
    assert Blank(tail) by {
      forall i | 0 <= i < |tail|
        ensures IsSpace(tail[i])
      {
        assert tail[i] == s[|t| + i];
      }
    }
    assert s == t + tail;
    WordsDropsBlank(t, tail);
  }

  /** `strip()` then `split()` on a spaced line: the stripped line starts with the first word and splits into the words. */
  lemma StripSpaced(pad: string, ws: seq<string>, gaps: seq<string>)
    requires Blank(pad) && |gaps| == |ws| && |ws| > 0
    requires forall i :: 0 <= i < |ws| ==> IsWord(ws[i]) && Blank(gaps[i])
    requires forall i :: 0 <= i < |ws| - 1 ==> |gaps[i]| > 0
    ensures var t := Strip(pad + Spaced(ws, gaps)); |t| > 0 && |ws[0]| > 0 && t[0] == ws[0][0] && Words(t) == ws
  {
    var body := Spaced(ws, gaps);
    assert IsWord(ws[0]);
    SpacedStart(ws, gaps);
    StripPadded(pad, body);
    WordsOfTrimRight(body);
    WordsOfSpaced("", ws, gaps);
    assert "" + body == body;
  }

  /** Joining words with single spaces and splitting again gives the words back. */
  lemma {:induction false} WordsOfJoin(ws: seq<string>)
    requires forall i :: 0 <= i < |ws| ==> IsWord(ws[i])
    ensures Words(Join(ws, " ")) == ws
    decreases |ws|
  {
    if |ws| == 0 {
    } else if |ws| == 1 {
      WordsOfWordThen(ws[0], "");
      assert ws[0] + "" == ws[0];
    } else {
      var rest := Join(ws[1..], " ");
      assert Join(ws, " ") == ws[0] + (" " + rest);
      WordsOfWordThen(ws[0], " " + rest);
      assert (" " + rest)[1..] == rest;
      WordsOfJoin(ws[1..]);
      assert [ws[0]] + ws[1..] == ws;
    }
  }

  /** In a join of several parts the separator follows the first part, and every join ends with the last part. */
  lemma {:induction false} JoinEnds(parts: seq<string>, sep: string)
    requires |parts| > 0
    ensures var r := Join(parts, sep); var last := parts[|parts| - 1];
      |last| <= |r| && r[|r| - |last|..] == last
    ensures |parts| > 1 ==> var r := Join(parts, sep);
      |parts[0]| + |sep| <= |r| && r[|parts[0]|..|parts[0]| + |sep|] == sep
    decreases |parts|
  {
    if |parts| > 1 {
      var rest := Join(parts[1..], sep);
      var r := parts[0] + sep + rest;
      assert Join(parts, sep) == r;
      JoinEnds(parts[1..], sep);
      assert parts[1..][|parts[1..]| - 1] == parts[|parts| - 1];
      assert r[|parts[0]|..|parts[0]| + |sep|] == sep;
      assert r[|r| - |rest|..] == rest;
    }
  }

  /** A space-joined list of words starts with the first word's first character and ends with a non-space. */
  lemma {:induction false} JoinedWordsEnds(ws: seq<string>)
    requires |ws| > 0
    requires forall i :: 0 <= i < |ws| ==> IsWord(ws[i])
    ensures var s := Join(ws, " "); |s| > 0 && |ws[0]| > 0 && s[0] == ws[0][0] && !IsSpace(s[|s| - 1])
    decreases |ws|
  {
    if |ws| > 1 {
      JoinedWordsEnds(ws[1..]);
    }
  }

  /** `strip()` leaves a string that starts and ends with a non-space unchanged, even with a trailing newline. */
  lemma StripLine(s: string)
    requires |s| > 0 && !IsSpace(s[0]) && !IsSpace(s[|s| - 1])
    ensures Strip(s + "\n") == s
  {
    var t := s + "\n";
    assert TrimLeft(t) == t;
    assert t[..|t| - 1] == s;
  }

  /** `lstrip()` removes exactly a whitespace prefix in front of a non-space character. */
  lemma {:induction false} TrimLeftPadded(pad: string, t: string)
    requires forall i :: 0 <= i < |pad| ==> IsSpace(pad[i])
    requires |t| == 0 || !IsSpace(t[0])
    ensures TrimLeft(pad + t) == t
    decreases |pad|
  {
    if |pad| == 0 {
      assert pad + t == t;
    } else {
      assert (pad + t)[0] == pad[0];
      assert (pad + t)[1..] == pad[1..] + t;
      TrimLeftPadded(pad[1..], t);
    }
  }

  /** `rstrip()` keeps the first character of a string that starts with a non-space. */
  lemma {:induction false} TrimRightKeepsFirst(t: string)
    requires |t| > 0 && !IsSpace(t[0])
    ensures |TrimRight(t)| > 0 && TrimRight(t)[0] == t[0]
    decreases |t|
  {
    if |t| > 1 && IsSpace(t[|t| - 1]) {
      TrimRightKeepsFirst(t[..|t| - 1]);
    }
  }
}
