/**
 * The two string operations the card loop applies: `Color.split('/')` and
 * `Text.replaceAll('\\n', '\n')`, which turns every literal backslash-n pair
 * of a CSV cell into a real line break. Each comes with its partner: `Join`
 * undoes `Split`, and `EncodeNewlines` is undone by `DecodeNewlines`.
 */
module Strings {

  /** `s.split([d])`: the pieces of s between occurrences of d, in order. */
  function Split(s: string, d: char): (r: seq<string>)
    ensures |r| >= 1
    ensures |r[0]| <= |s|
  {
    if |s| == 0 then [""]
    else
      var rest := Split(s[1..], d);
      if s[0] == d then [""] + rest
      else [[s[0]] + rest[0]] + rest[1..]
  }

  /** `parts.join([d])`. */
  function Join(parts: seq<string>, d: char): (r: string)
    requires |parts| >= 1
    ensures |r| >= |parts| - 1
  {
    if |parts| == 1 then parts[0]
    else parts[0] + [d] + Join(parts[1..], d)
  }

  /** Joining the pieces of a split gives the string back. */
  lemma {:induction false} JoinSplit(s: string, d: char)
    ensures Join(Split(s, d), d) == s
  {
    if |s| > 0 {
      JoinSplit(s[1..], d);
      var rest := Split(s[1..], d);
      if s[0] == d {
        assert Split(s, d) == [""] + rest;
        assert ([""] + rest)[1..] == rest;
      } else {
        var r := Split(s, d);
        assert r == [[s[0]] + rest[0]] + rest[1..];
        if |rest| > 1 {
          assert r[1..] == rest[1..];
          assert Join(rest, d) == rest[0] + [d] + Join(rest[1..], d);
        }
      }
    }
  }

  /** A string free of d is its own only piece. */
  lemma {:induction false} SplitFree(p: string, d: char)
    requires d !in p
    ensures Split(p, d) == [p]
  {
    if |p| > 0 {
      SplitFree(p[1..], d);
      assert [p[0]] + p[1..] == p;
    }
  }

  /** Splitting at a first occurrence of d after a d-free prefix p. */
  lemma {:induction false} SplitAfter(p: string, d: char, t: string)
    requires d !in p
    ensures Split(p + [d] + t, d) == [p] + Split(t, d)
  {
    var s := p + [d] + t;
    if |p| == 0 {
      assert s[1..] == t;
    } else {
      assert s[1..] == p[1..] + [d] + t;
      SplitAfter(p[1..], d, t);
      assert [p[0]] + p[1..] == p;
    }
  }

  /** Splitting a join of d-free pieces gives the pieces back. */
  lemma {:induction false} SplitJoin(parts: seq<string>, d: char)
    requires |parts| >= 1
    requires forall i :: 0 <= i < |parts| ==> d !in parts[i]
    ensures Split(Join(parts, d), d) == parts
  {
    if |parts| == 1 {
      SplitFree(parts[0], d);
    } else {
      SplitJoin(parts[1..], d);
      SplitAfter(parts[0], d, Join(parts[1..], d));
      assert [parts[0]] + parts[1..] == parts;
    }
  }

  /** No piece contains the separator. */
  lemma {:induction false} SplitPiecesFree(s: string, d: char)
    ensures forall i :: 0 <= i < |Split(s, d)| ==> d !in Split(s, d)[i]
  {
    if |s| > 0 {
      SplitPiecesFree(s[1..], d);
      var rest := Split(s[1..], d);
      if s[0] != d {
        assert forall i :: 1 <= i < |Split(s, d)| ==> Split(s, d)[i] == rest[i];
      } else {
        assert forall i :: 1 <= i < |Split(s, d)| ==> Split(s, d)[i] == rest[i - 1];
      }
    }
  }

  /** There is a second piece exactly when the separator occurs. */
  lemma {:induction false} SplitHasSecondPiece(s: string, d: char)
    ensures |Split(s, d)| >= 2 <==> d in s
  {
    if |s| > 0 {
      SplitHasSecondPiece(s[1..], d);
      assert s == [s[0]] + s[1..];
    }
  }

  /** `s.replaceAll('\\n', '\n')`: a left-to-right scan replacing each backslash-n pair. */
  function DecodeNewlines(s: string): (r: string)
    ensures |r| <= |s|
  {
    if |s| == 0 then ""
    else if |s| >= 2 && s[0] == '\\' && s[1] == 'n' then ['\n'] + DecodeNewlines(s[2..])
    else [s[0]] + DecodeNewlines(s[1..])
  }

  /** The number of backslash-n pairs the scan of `DecodeNewlines` replaces. */
  function EscapeCount(s: string): nat
  {
    if |s| == 0 then 0
    else if |s| >= 2 && s[0] == '\\' && s[1] == 'n' then 1 + EscapeCount(s[2..])
    else EscapeCount(s[1..])
  }

  /** The number of occurrences of character c in s. */
  function CharCount(s: string, c: char): nat
  {
    if |s| == 0 then 0 else (if s[0] == c then 1 else 0) + CharCount(s[1..], c)
  }

  /** True when no backslash in s is directly followed by the letter n. */
  predicate NoEscapes(s: string)
  {
    forall i :: 0 <= i < |s| - 1 ==> s[i] == '\\' ==> s[i + 1] != 'n'
  }

  /** The inverse direction: writes every line break as a backslash-n pair. */
  function EncodeNewlines(t: string): (r: string)
    ensures |r| == |t| + CharCount(t, '\n')
    ensures '\n' !in r
  {
    if |t| == 0 then ""
    else (if t[0] == '\n' then "\\n" else [t[0]]) + EncodeNewlines(t[1..])
  }

  /** Each replaced pair shortens the text by exactly one character. */
  lemma {:induction false} DecodeLength(s: string)
    ensures |DecodeNewlines(s)| == |s| - EscapeCount(s)
  {
    if |s| >= 2 && s[0] == '\\' && s[1] == 'n' {
      DecodeLength(s[2..]);
    } else if |s| > 0 {
      DecodeLength(s[1..]);
    }
  }

  /** Each replaced pair becomes one line break; the line breaks already there stay. */
  lemma {:induction false} DecodeLineBreaks(s: string)
    ensures CharCount(DecodeNewlines(s), '\n') == CharCount(s, '\n') + EscapeCount(s)
  {
    if |s| >= 2 && s[0] == '\\' && s[1] == 'n' {
      DecodeLineBreaks(s[2..]);
      assert DecodeNewlines(s)[1..] == DecodeNewlines(s[2..]);
      assert s[1..][1..] == s[2..];
    } else if |s| > 0 {
      DecodeLineBreaks(s[1..]);
      assert DecodeNewlines(s)[1..] == DecodeNewlines(s[1..]);
    }
  }

  /** A text without any backslash is typed unchanged. */
  lemma DecodeNoBackslash(s: string)
    requires '\\' !in s
    ensures DecodeNewlines(s) == s
  {
    DecodeNoEscapes(s);
  }

  /** More generally, a text without backslash-n pairs is typed unchanged. */
  lemma {:induction false} DecodeNoEscapes(s: string)
    requires NoEscapes(s)
    ensures DecodeNewlines(s) == s
  {
    if |s| > 0 {
      assert NoEscapes(s[1..]) by {
        forall i | 0 <= i < |s[1..]| - 1 && s[1..][i] == '\\' ensures s[1..][i + 1] != 'n' {
          assert s[1..][i] == s[i + 1] && s[1..][i + 1] == s[i + 2];
        }
      }
      DecodeNoEscapes(s[1..]);
      assert [s[0]] + s[1..] == s;
    }
  }

  /** The first character of a decoded text. */
  lemma DecodeHead(s: string)
    requires |s| > 0
    ensures |DecodeNewlines(s)| > 0
    ensures DecodeNewlines(s)[0] == if |s| >= 2 && s[0] == '\\' && s[1] == 'n' then '\n' else s[0]
  {
  }

  /** The decoded text holds no backslash-n pair. */
  lemma {:induction false} DecodeLeavesNoEscapes(s: string)
    ensures NoEscapes(DecodeNewlines(s))
  {
    if |s| >= 2 && s[0] == '\\' && s[1] == 'n' {
      DecodeLeavesNoEscapes(s[2..]);
      var r := DecodeNewlines(s);
      assert r == ['\n'] + DecodeNewlines(s[2..]);
      forall i | 0 <= i < |r| - 1 && r[i] == '\\' ensures r[i + 1] != 'n' {
        assert i >= 1;
        assert r[i] == DecodeNewlines(s[2..])[i - 1];
      }
    } else if |s| > 0 {
      DecodeLeavesNoEscapes(s[1..]);
      var t := DecodeNewlines(s[1..]);
      var r := DecodeNewlines(s);
      assert r == [s[0]] + t;
      forall i | 0 <= i < |r| - 1 && r[i] == '\\' ensures r[i + 1] != 'n' {
        if i == 0 {
          DecodeHead(s[1..]);
          assert r[1] == t[0];
        } else {
          assert r[i] == t[i - 1] && r[i + 1] == t[i];
        }
      }
    }
  }

  /** Decoding twice is decoding once. */
  lemma DecodeIdempotent(s: string)
    ensures DecodeNewlines(DecodeNewlines(s)) == DecodeNewlines(s)
  {
    DecodeLeavesNoEscapes(s);
    DecodeNoEscapes(DecodeNewlines(s));
  }

  /** Decoding undoes encoding for any text that has no backslash-n pair of its own. */
  lemma {:induction false} DecodeEncode(t: string)
    requires NoEscapes(t)
    ensures DecodeNewlines(EncodeNewlines(t)) == t
  {
    if |t| > 0 {
      assert NoEscapes(t[1..]) by {
        forall i | 0 <= i < |t[1..]| - 1 && t[1..][i] == '\\' ensures t[1..][i + 1] != 'n' {
          assert t[1..][i] == t[i + 1] && t[1..][i + 1] == t[i + 2];
        }
      }
      DecodeEncode(t[1..]);
      var e := EncodeNewlines(t[1..]);
      if t[0] == '\n' {
        assert EncodeNewlines(t) == "\\n" + e;
        assert ("\\n" + e)[2..] == e;
      } else {
        assert EncodeNewlines(t) == [t[0]] + e;
        if t[0] == '\\' && |e| > 0 {
          assert |t| >= 2;
          assert e[0] == (if t[1] == '\n' then '\\' else t[1]);
        }
        assert ([t[0]] + e)[1..] == e;
      }
      assert [t[0]] + t[1..] == t;
    }
  }
}
