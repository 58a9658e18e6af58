/** The two JavaScript string operations the profile builder uses on `skills`:
    `split` on a one-character separator and `trim`. */
module Strings {

  /** The characters JavaScript's `trim` strips: its WhiteSpace (tab, vertical tab, form feed,
      space, no-break space, the byte order mark and the Unicode space separators) and its
      LineTerminator (line feed, carriage return, line and paragraph separators). */
  const WhitespaceChars: set<char> := {
    '\t', '\n', '\U{000B}', '\U{000C}', '\r', ' ', '\U{00A0}', '\U{1680}',
    '\U{2000}', '\U{2001}', '\U{2002}', '\U{2003}', '\U{2004}', '\U{2005}',
    '\U{2006}', '\U{2007}', '\U{2008}', '\U{2009}', '\U{200A}',
    '\U{2028}', '\U{2029}', '\U{202F}', '\U{205F}', '\U{3000}', '\U{FEFF}'}

  predicate IsWhitespace(c: char) {
    c in WhitespaceChars
  }

  /** How many times c occurs in s. */
  function Count(s: string, c: char): nat
  {
    if s == [] then 0 else (if s[0] == c then 1 else 0) + Count(s[1..], c)
  }

  /** `s.split(sep)`: the pieces between the separators, empty pieces included, so that
      the empty string gives one empty piece. */
  function Split(s: string, sep: char): (pieces: seq<string>)
    ensures |pieces| == Count(s, sep) + 1
    ensures forall i :: 0 <= i < |pieces| ==> sep !in pieces[i]
  {
    if s == [] then [""]
    else
      var rest := Split(s[1..], sep);
      if s[0] == sep then [""] + rest
      else [[s[0]] + rest[0]] + rest[1..]
  }

  /** `pieces.join(sep)`: the pieces with one separator between neighbours. */
  function Join(pieces: seq<string>, sep: char): string
  {
    if pieces == [] then ""
    else if |pieces| == 1 then pieces[0]
    else pieces[0] + [sep] + Join(pieces[1..], sep)
  }

  /** Splitting loses nothing: joining the pieces back gives the original string. */
  lemma {:induction false} JoinSplit(s: string, sep: char)
    ensures Join(Split(s, sep), sep) == s
  {
    if s != [] {
      var rest := Split(s[1..], sep);
      JoinSplit(s[1..], sep);
      if s[0] == sep {
        assert Split(s, sep) == [""] + rest;
        assert ([""] + rest)[1..] == rest;
      } else {
        var p := Split(s, sep);
        assert p == [[s[0]] + rest[0]] + rest[1..];
        if |rest| == 1 {
          assert s == [s[0]] + s[1..];
        } else {
          assert p[1..] == rest[1..];
          assert Join(rest, sep) == rest[0] + [sep] + Join(rest[1..], sep);
          assert s == [s[0]] + s[1..];
        }
      }
    }
  }

  /** Splitting is the only way to cut s into separator-free pieces that join back to s:
      each piece is exactly the corresponding segment between separators. */
  lemma {:induction false} SplitUnique(s: string, sep: char, pieces: seq<string>)
    requires pieces != []
    requires forall i :: 0 <= i < |pieces| ==> sep !in pieces[i]
    requires Join(pieces, sep) == s
    ensures Split(s, sep) == pieces
    decreases |s|
  {
    var p := pieces[0];
    if |pieces| == 1 {
      if p != [] {
        assert p[0] in p && p[0] != sep;
        assert sep !in p[1..];
        SplitUnique(s[1..], sep, [p[1..]]);
        assert s[0] == p[0] && s[1..] == p[1..];
        assert [p[0]] + p[1..] == p;
      }
    } else if p == [] {
      var tail := pieces[1..];
      assert s == [sep] + Join(tail, sep);
      assert s[1..] == Join(tail, sep);
      forall i | 0 <= i < |tail| ensures sep !in tail[i] {
        assert tail[i] == pieces[i + 1];
      }
      SplitUnique(s[1..], sep, tail);
      assert pieces == [""] + tail;
    } else {
      var shorter := [p[1..]] + pieces[1..];
      assert shorter[1..] == pieces[1..];
      assert Join(shorter, sep) == p[1..] + [sep] + Join(pieces[1..], sep);
      assert s == [p[0]] + Join(shorter, sep);
      assert s[1..] == Join(shorter, sep);
      assert p[0] in p && p[0] != sep;
      assert sep !in p[1..];
      forall i | 0 <= i < |shorter| ensures sep !in shorter[i] {
        if i > 0 { assert shorter[i] == pieces[i]; }
      }
      SplitUnique(s[1..], sep, shorter);
      assert [p[0]] + p[1..] == p;
      assert pieces == [p] + pieces[1..];
    }
  }

  /** The number of whitespace characters at the front of s. */
  function Lead(s: string): (n: nat)
    ensures n <= |s|
    ensures forall k :: 0 <= k < n ==> IsWhitespace(s[k])
    ensures n < |s| ==> !IsWhitespace(s[n])
  {
    if s == [] || !IsWhitespace(s[0]) then 0 else 1 + Lead(s[1..])
  }

  /** The length of s once the whitespace at its end is dropped. */
  function TrailEnd(s: string): (n: nat)
    ensures n <= |s|
    ensures forall k :: n <= k < |s| ==> IsWhitespace(s[k])
    ensures n > 0 ==> !IsWhitespace(s[n - 1])
  {
    if s == [] || !IsWhitespace(s[|s| - 1]) then |s| else TrailEnd(s[..|s| - 1])
  }

  /** `s.trim()`: the part of s between the leading and the trailing whitespace. */
  function Trim(s: string): string
  {
    var t := s[Lead(s)..];
    t[..TrailEnd(t)]
  }

  /** Trim keeps the slice of s from Lead(s) on, up to where the trailing whitespace starts. */
  lemma TrimSlice(s: string)
    ensures Lead(s) + |Trim(s)| <= |s|
    ensures Trim(s) == s[Lead(s)..Lead(s) + |Trim(s)|]
    ensures |Trim(s)| == TrailEnd(s[Lead(s)..])
  {
  }

  /** Whitespace from position m of s[n..] on is whitespace from position n + m of s on. */
  lemma WhitespaceFrom(s: string, n: nat, m: nat)
    requires n <= |s|
    requires forall k :: m <= k < |s[n..]| ==> IsWhitespace(s[n..][k])
    ensures forall k :: n + m <= k < |s| ==> IsWhitespace(s[k])
  {
    forall k | n + m <= k < |s| ensures IsWhitespace(s[k]) {
      assert s[k] == s[n..][k - n];
    }
  }

  /** Everything after the kept slice is whitespace. */
  lemma TrimTail(s: string)
    ensures forall k :: Lead(s) + |Trim(s)| <= k < |s| ==> IsWhitespace(s[k])
  {
    var n := Lead(s);
    var m := TrailEnd(s[n..]);
    assert |Trim(s)| == m;
    WhitespaceFrom(s, n, m);
  }

  /** The kept slice neither starts nor ends with whitespace. */
  lemma TrimEnds(s: string)
    ensures Trim(s) != [] ==> !IsWhitespace(Trim(s)[0]) && !IsWhitespace(Trim(s)[|Trim(s)| - 1])
  {
    var n := Lead(s);
    var t := s[n..];
    var m := TrailEnd(t);
    TrimSlice(s);
    if m > 0 {
      assert Trim(s)[0] == s[n];
      assert Trim(s)[m - 1] == t[m - 1];
    }
  }

  /** What trim keeps: the slice of s after the whitespace run that Lead counts, followed in s
      by nothing but whitespace; and the slice neither starts nor ends with whitespace. */
  lemma TrimSpec(s: string)
    ensures Lead(s) + |Trim(s)| <= |s| && Trim(s) == s[Lead(s)..Lead(s) + |Trim(s)|]
    ensures forall k :: 0 <= k < Lead(s) ==> IsWhitespace(s[k])
    ensures forall k :: Lead(s) + |Trim(s)| <= k < |s| ==> IsWhitespace(s[k])
    ensures Trim(s) != [] ==> !IsWhitespace(Trim(s)[0]) && !IsWhitespace(Trim(s)[|Trim(s)| - 1])
  {
    TrimSlice(s);
    TrimTail(s);
    TrimEnds(s);
  }

  /** Trimming adds no character: one absent from s is absent from its trim. */
  lemma TrimOmits(s: string, c: char)
    requires c !in s
    ensures c !in Trim(s)
  {
    TrimSlice(s);
    var n := Lead(s);
    forall k | 0 <= k < |Trim(s)| ensures Trim(s)[k] != c {
      assert Trim(s)[k] == s[n + k];
    }
  }

  /** A string that neither starts nor ends with whitespace is its own trim. */
  lemma TrimBare(s: string)
    requires s != [] ==> !IsWhitespace(s[0]) && !IsWhitespace(s[|s| - 1])
    ensures Trim(s) == s
  {
    assert Lead(s) == 0;
    assert s[0..] == s;
    assert TrailEnd(s) == |s|;
  }

  /** A leading whitespace character makes no difference to the trim. */
  lemma TrimDropsLeading(c: char, s: string)
    requires IsWhitespace(c)
    ensures Trim([c] + s) == Trim(s)
  {
    var t := [c] + s;
    assert t[1..] == s;
    assert Lead(t) == 1 + Lead(s);
    assert t[Lead(t)..] == s[Lead(s)..];
  }

  /** Trimming twice is trimming once. */
  lemma TrimIdempotent(s: string)
    ensures Trim(Trim(s)) == Trim(s)
  {
    var r := Trim(s);
    TrimSpec(s);
    assert Lead(r) == 0;
    assert TrailEnd(r[Lead(r)..]) == |r|;
  }
}
