/** The pieces of Go's `strings` package that the core relies on:
    `Split` on a one-character separator, `TrimSpace`, `Fields` and
    `Contains`. White space is Go's `unicode.IsSpace`. */
module Text {

  /** `unicode.IsSpace`: the six ASCII spaces and the Unicode space
      separators Go lists. */
  predicate IsSpace(c: char)
  {
    || c == ' ' || c == '\t' || c == '\n' || c == '\U{000B}' || c == '\U{000C}' || c == '\r'
    || c == '\U{0085}' || c == '\U{00A0}' || c == '\U{1680}'
    || ('\U{2000}' <= c <= '\U{200A}')
    || c == '\U{2028}' || c == '\U{2029}' || c == '\U{202F}' || c == '\U{205F}' || c == '\U{3000}'
  }

  predicate NoSpace(s: string)
  {
    forall k :: 0 <= k < |s| ==> !IsSpace(s[k])
  }

  predicate AllSpace(s: string)
  {
    forall k :: 0 <= k < |s| ==> IsSpace(s[k])
  }

  /** Occurrences of `c` in `s`. */
  function Count(c: char, s: string): nat
  {
    if s == [] then 0 else (if s[0] == c then 1 else 0) + Count(c, s[1..])
  }

  // ----------------------------------------------------------- byte length

  /** The number of bytes UTF-8 spends on `c`. */
  function RuneLen(c: char): (r: nat)
    ensures 1 <= r <= 4
    ensures r == 1 <==> c as int < 0x80
  {
    if c as int < 0x80 then 1
    else if c as int < 0x800 then 2
    else if c as int < 0x1_0000 then 3
    else 4
  }

  /** Go's `len` of a string: its length in UTF-8 bytes. It is never less
      than the number of characters, and equals it exactly when every
      character is ASCII. */
  function ByteLen(s: string): (r: nat)
    ensures |s| <= r <= 4 * |s|
    ensures r == |s| <==> forall k :: 0 <= k < |s| ==> s[k] as int < 0x80
  {
    if s == [] then 0
    else
      var t := s[1..];
      assert forall k :: 1 <= k < |s| ==> s[k] == t[k - 1];
      RuneLen(s[0]) + ByteLen(t)
  }

  // ---------------------------------------------------------------- Split

  /** `strings.Split(s, string(sep))`: the pieces between separators, one
      more than there are separators, none of them holding `sep`. */
  function Split(s: string, sep: char): (r: seq<string>)
    ensures |r| == Count(sep, s) + 1
    ensures forall i :: 0 <= i < |r| ==> sep !in r[i]
  {
    if s == [] then [[]]
    else
      var rest := Split(s[1..], sep);
      if s[0] == sep then [[]] + rest
      else [[s[0]] + rest[0]] + rest[1..]
  }

  /** `strings.Join(pieces, string(sep))`. */
  function Join(pieces: seq<string>, sep: char): string
  {
    if pieces == [] then []
    else if |pieces| == 1 then pieces[0]
    else pieces[0] + [sep] + Join(pieces[1..], sep)
  }

  /** Joining the pieces back gives the original string. */
  lemma {:induction false} JoinSplit(s: string, sep: char)
    ensures Join(Split(s, sep), sep) == s
  {
    if s != [] {
      var rest := Split(s[1..], sep);
      JoinSplit(s[1..], sep);
      if s[0] == sep {
        assert Split(s, sep) == [[]] + rest;
        assert (([[]] + rest)[1..]) == rest;
      } else {
        var r := Split(s, sep);
        assert r == [[s[0]] + rest[0]] + rest[1..];
        if |rest| == 1 {
          assert r == [[s[0]] + rest[0]];
        } else {
          assert r[1..] == rest[1..];
          assert Join(rest, sep) == rest[0] + [sep] + Join(rest[1..], sep);
        }
      }
    }
  }

  /** Splitting a join of separator-free pieces gives the pieces back. */
  lemma {:induction false} SplitJoin(pieces: seq<string>, sep: char)
    requires |pieces| >= 1
    requires forall i :: 0 <= i < |pieces| ==> sep !in pieces[i]
    ensures Split(Join(pieces, sep), sep) == pieces
  {
    if |pieces| == 1 {
      SplitPiece(pieces[0], sep, []);
      assert pieces[0] + [] == pieces[0];
    } else {
      SplitJoin(pieces[1..], sep);
      var tail := Join(pieces[1..], sep);
      SplitPiece(pieces[0], sep, [sep] + tail);
      assert Join(pieces, sep) == pieces[0] + ([sep] + tail);
      assert Split([sep] + tail, sep) == [[]] + Split(tail, sep) by {
        assert ([sep] + tail)[1..] == tail;
      }
      var r := Split(pieces[0] + ([sep] + tail), sep);
      var q := Split([sep] + tail, sep);
      assert q[0] == [] && q[1..] == pieces[1..];
      assert r == [pieces[0] + []] + pieces[1..];
      assert pieces[0] + [] == pieces[0];
      assert r == [pieces[0]] + pieces[1..];
    }
  }

  /** A separator-free prefix extends the first piece of what follows it. */
  lemma {:induction false} SplitPiece(p: string, sep: char, rest: string)
    requires sep !in p
    ensures var r := Split(rest, sep);
            Split(p + rest, sep) == [p + r[0]] + r[1..]
  {
    if p == [] {
      var r := Split(rest, sep);
      assert p + rest == rest;
      assert p + r[0] == r[0];
      assert [r[0]] + r[1..] == r;
    } else {
      SplitPiece(p[1..], sep, rest);
      assert (p + rest)[1..] == p[1..] + rest;
      assert [p[0]] + (p[1..] + Split(rest, sep)[0]) == p + Split(rest, sep)[0];
    }
  }

  // ------------------------------------------------------------ TrimSpace

  /** `s` without its leading white space. */
  function TrimLeft(s: string): (r: string)
    ensures |r| <= |s|
  {
    if s != [] && IsSpace(s[0]) then TrimLeft(s[1..]) else s
  }

  /** `s` without its trailing white space. */
  function TrimRight(s: string): string
  {
    if s != [] && IsSpace(s[|s| - 1]) then TrimRight(s[..|s| - 1]) else s
  }

  /** TrimLeft drops a white-space prefix and stops at the first other
      character. */
  lemma {:induction false} TrimLeftSpec(s: string)
    ensures var r := TrimLeft(s);
            && |r| <= |s| && r == s[|s| - |r|..]
            && AllSpace(s[..|s| - |r|])
            && (r == [] || !IsSpace(r[0]))
  {
    if s != [] && IsSpace(s[0]) {
      TrimLeftSpec(s[1..]);
      var r := TrimLeft(s);
      assert s[..|s| - |r|] == [s[0]] + s[1..][..|s| - 1 - |r|];
    }
  }

  /** TrimRight drops a white-space suffix and stops at the last other
      character. */
  lemma {:induction false} TrimRightSpec(s: string)
    ensures var r := TrimRight(s);
            && |r| <= |s| && r == s[..|r|]
            && AllSpace(s[|r|..])
            && (r == [] || !IsSpace(r[|r| - 1]))
  {
    if s != [] && IsSpace(s[|s| - 1]) {
      var s' := s[..|s| - 1];
      TrimRightSpec(s');
      var r := TrimRight(s);
      assert s[|r|..] == s'[|r|..] + [s[|s| - 1]];
    }
  }

  /** `strings.TrimSpace`: it removes exactly a white-space prefix and a
      white-space suffix, so the result sits inside `s` between two runs of
      white space and neither starts nor ends with white space. */
  function TrimSpace(s: string): (r: string)
    ensures r == [] || (!IsSpace(r[0]) && !IsSpace(r[|r| - 1]))
    ensures exists i :: 0 <= i <= |s| - |r| && s[i..i + |r|] == r
                        && AllSpace(s[..i]) && AllSpace(s[i + |r|..])
  {
    var l := TrimLeft(s);
    TrimLeftSpec(s);
    TrimRightSpec(l);
    var r := TrimRight(l);
    var i := |s| - |l|;
    assert s[i..i + |r|] == l[..|r|];
    assert s[i + |r|..] == l[|r|..];
    assert r != [] ==> r[0] == l[0];
    r
  }

  /** Trimming is idempotent. */
  lemma TrimSpaceIdempotent(s: string)
    ensures TrimSpace(TrimSpace(s)) == TrimSpace(s)
  {
    var r := TrimSpace(s);
    assert TrimLeft(r) == r;
    assert TrimRight(r) == r;
  }

  // --------------------------------------------------------------- Fields

  /** The longest prefix of `s` holding no white space. */
  function Word(s: string): (r: string)
    ensures |r| <= |s| && r == s[..|r|] && NoSpace(r)
    ensures |r| < |s| ==> IsSpace(s[|r|])
  {
    if s == [] || IsSpace(s[0]) then [] else [s[0]] + Word(s[1..])
  }

  /** `strings.Fields`: the maximal runs of non-space characters, in order.
      There are none exactly when `s` is all white space; otherwise the
      first is the word that follows the leading white space (the rest:
      `FieldsRest`). */
  function Fields(s: string): (r: seq<string>)
    ensures forall i :: 0 <= i < |r| ==> r[i] != [] && NoSpace(r[i])
    ensures r == [] <==> AllSpace(s)
    ensures r != [] ==> r[0] == Word(TrimLeft(s))
    decreases |s|
  {
    if s == [] then []
    else if IsSpace(s[0]) then
      assert AllSpace(s) <==> AllSpace(s[1..]) by {
        if AllSpace(s[1..]) {
          assert forall k :: 1 <= k < |s| ==> s[k] == s[1..][k - 1];
        }
      }
      Fields(s[1..])
    else
      var w := Word(s);
      [w] + Fields(s[|w|..])
  }

  /** After the first field, the rest are the fields of what follows it
      once the leading white space is gone. */
  lemma {:induction false} FieldsRest(s: string)
    requires Fields(s) != []
    ensures Fields(s)[1..] == Fields(TrimLeft(s)[|Fields(s)[0]|..])
    decreases |s|
  {
    if IsSpace(s[0]) {
      FieldsRest(s[1..]);
    }
  }

  /** Words separated by single blanks. */
  function Unwords(words: seq<string>): string
  {
    Join(words, ' ')
  }

  /** `Fields` takes apart what `Unwords` puts together. */
  lemma {:induction false} FieldsUnwords(words: seq<string>)
    requires forall i :: 0 <= i < |words| ==> words[i] != [] && NoSpace(words[i])
    ensures Fields(Unwords(words)) == words
  {
    if |words| == 1 {
      WordOf(words[0], []);
      assert words[0] + [] == words[0];
      assert words[0][|words[0]|..] == [];
    } else if |words| > 1 {
      var w := words[0];
      var tail := Unwords(words[1..]);
      var s := w + ([' '] + tail);
      assert Unwords(words) == s;
      WordOf(w, [' '] + tail);
      assert s[|w|..] == [' '] + tail;
      assert Fields([' '] + tail) == Fields(tail) by {
        assert ([' '] + tail)[1..] == tail;
      }
      FieldsUnwords(words[1..]);
    }
  }

  /** The first word of `w` followed by a space (or nothing) is `w`. */
  lemma {:induction false} WordOf(w: string, rest: string)
    requires NoSpace(w)
    requires rest == [] || IsSpace(rest[0])
    ensures Word(w + rest) == w
  {
    if w == [] {
      assert w + rest == rest;
    } else {
      assert (w + rest)[1..] == w[1..] + rest;
      WordOf(w[1..], rest);
    }
  }

  // ------------------------------------------------------------- Contains

  /** `sub` occurs in `s` starting at index `i`. */
  predicate OccursAt(s: string, sub: string, i: int)
  {
    0 <= i && i + |sub| <= |s| && s[i..i + |sub|] == sub
  }

  /** `strings.Contains(s, sub)`: `sub` occurs somewhere in `s`, not
      necessarily at its end. */
  function Contains(s: string, sub: string): (r: bool)
    ensures r <==> exists i :: OccursAt(s, sub, i)
    decreases |s|
  {
    OccursShift(s, sub);
    (|sub| <= |s| && s[..|sub|] == sub) || (s != [] && Contains(s[1..], sub))
  }

  lemma OccursShift(s: string, sub: string)
    ensures s != [] ==> forall i :: 0 <= i ==> (OccursAt(s[1..], sub, i) <==> OccursAt(s, sub, i + 1))
    ensures (exists i :: OccursAt(s, sub, i)) <==>
            OccursAt(s, sub, 0) || (s != [] && exists i :: OccursAt(s[1..], sub, i))
  {
    if s != [] {
      forall i | 0 <= i
        ensures OccursAt(s[1..], sub, i) <==> OccursAt(s, sub, i + 1)
      {
        if 0 <= i && i + |sub| <= |s| - 1 {
          assert s[1..][i..i + |sub|] == s[i + 1..i + 1 + |sub|];
        }
      }
      if exists i :: OccursAt(s, sub, i) {
        var i :| OccursAt(s, sub, i);
        if i > 0 {
          assert OccursAt(s[1..], sub, i - 1);
        }
      }
    }
  }

  /** A string shorter than `sub` cannot contain it. */
  lemma ShortNeverContains(s: string, sub: string)
    requires |s| < |sub|
    ensures !Contains(s, sub)
  {
  }
}
