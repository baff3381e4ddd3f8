/**
 The part of Go's `strings` package that the browse and search handlers use:
 ToLower (restricted to ASCII), Index, HasPrefix, TrimPrefix, Split, Join and
 Trim. Each function is specified by what it means, not by how it walks the
 string, so the handlers' properties can be stated against these contracts.
 */
module GoStrings {

  predicate IsUpperAscii(c: char) {
    'A' <= c <= 'Z'
  }

  /** No ASCII upper-case letter occurs in `s`. */
  predicate IsLower(s: string) {
    forall i :: 0 <= i < |s| ==> !IsUpperAscii(s[i])
  }

  function LowerChar(c: char): (d: char)
    ensures !IsUpperAscii(d)
    ensures !IsUpperAscii(c) ==> d == c
    ensures IsUpperAscii(c) ==> d as int - c as int == 32
  {
    if IsUpperAscii(c) then (c as int + 32) as char else c
  }

  /** strings.ToLower on the ASCII range; every other character is kept. */
  function Lower(s: string): (r: string)
    ensures |r| == |s|
    ensures forall i :: 0 <= i < |s| ==> r[i] == LowerChar(s[i])
    ensures IsLower(r)
  {
    seq(|s|, i requires 0 <= i < |s| => LowerChar(s[i]))
  }

  lemma LowerOfLower(s: string)
    requires IsLower(s)
    ensures Lower(s) == s
  {
  }

  /** Number of occurrences of the character `c` in `s`. */
  function CountChar(s: string, c: char): nat
  {
    if |s| == 0 then 0 else (if s[0] == c then 1 else 0) + CountChar(s[1..], c)
  }

  /** Lowering changes no space: a space is not an upper-case letter. */
  lemma {:induction false} LowerKeepsSpaces(s: string)
    ensures CountChar(Lower(s), ' ') == CountChar(s, ' ')
  {
    if |s| > 0 {
      assert Lower(s)[1..] == Lower(s[1..]);
      LowerKeepsSpaces(s[1..]);
    }
  }

  /** `t` occurs in `s` starting at position `i`. */
  predicate OccursAt(s: string, t: string, i: int) {
    0 <= i && i + |t| <= |s| && s[i..i + |t|] == t
  }

  function IndexFrom(s: string, t: string, i: nat): (r: int)
    ensures r == -1 || (i <= r && OccursAt(s, t, r))
    ensures r == -1 ==> forall j {:trigger OccursAt(s, t, j)} :: i <= j ==> !OccursAt(s, t, j)
    ensures r != -1 ==> forall j {:trigger OccursAt(s, t, j)} :: i <= j < r ==> !OccursAt(s, t, j)
    decreases |s| - i
  {
    if i + |t| > |s| then -1
    else if s[i..i + |t|] == t then i
    else IndexFrom(s, t, i + 1)
  }

  /**
   strings.Index: the position of the first occurrence of `t` in `s`, or -1
   when `t` does not occur in `s`.
   */
  function Index(s: string, t: string): (r: int)
    ensures r == -1 || OccursAt(s, t, r)
    ensures r == -1 <==> forall j {:trigger OccursAt(s, t, j)} :: !OccursAt(s, t, j)
    ensures forall j {:trigger OccursAt(s, t, j)} :: 0 <= j < r ==> !OccursAt(s, t, j)
  {
    IndexFrom(s, t, 0)
  }

  /** The empty string occurs at the start of every string. */
  lemma IndexOfEmpty(s: string)
    ensures Index(s, "") == 0
  {
    assert OccursAt(s, "", 0);
  }

  predicate HasPrefix(s: string, p: string) {
    |p| <= |s| && s[..|p|] == p
  }

  /** strings.TrimPrefix: `s` without the leading `p`, or `s` itself when it does not start with `p`. */
  function TrimPrefix(s: string, p: string): (r: string)
    ensures HasPrefix(s, p) ==> p + r == s
    ensures !HasPrefix(s, p) ==> r == s
  {
    if HasPrefix(s, p) then s[|p|..] else s
  }

  lemma TrimPrefixOfConcat(p: string, x: string)
    ensures TrimPrefix(p + x, p) == x
  {
    assert (p + x)[..|p|] == p;
  }

  /** strings.Join: the pieces with one `sep` between neighbours. */
  function Join(pieces: seq<string>, sep: char): string
  {
    if |pieces| == 0 then ""
    else if |pieces| == 1 then pieces[0]
    else pieces[0] + [sep] + Join(pieces[1..], sep)
  }

  /**
   strings.Split with a one-character separator: the maximal pieces of `s`
   between occurrences of `sep`. An empty string gives one empty piece, and
   neighbouring separators give an empty piece between them.
   */
  function Split(s: string, sep: char): (r: seq<string>)
    ensures |r| == CountChar(s, sep) + 1
    ensures forall i :: 0 <= i < |r| ==> sep !in r[i]
    decreases |s|
  {
    if |s| == 0 then [""]
    else
      var rest := Split(s[1..], sep);
      if s[0] == sep then [""] + rest else [[s[0]] + rest[0]] + rest[1..]
  }

  /** Joining the pieces with the separator gives the split string back. */
  lemma {:induction false} JoinSplit(s: string, sep: char)
    ensures Join(Split(s, sep), sep) == s
    decreases |s|
  {
    if |s| > 0 {
      var rest := Split(s[1..], sep);
      JoinSplit(s[1..], sep);
      if s[0] == sep {
        assert Join([""] + rest, sep) == [sep] + Join(rest, sep) by {
          assert ([""] + rest)[1..] == rest;
        }
      } else {
        var r := [[s[0]] + rest[0]] + rest[1..];
        assert r[1..] == rest[1..];
        assert Join(r, sep) == [s[0]] + Join(rest, sep);
      }
      assert [s[0]] + s[1..] == s;
    }
  }

  /** Every piece of a lower-case string is lower-case. */
  lemma {:induction false} SplitOfLower(s: string, sep: char)
    requires IsLower(s)
    ensures forall i :: 0 <= i < |Split(s, sep)| ==> IsLower(Split(s, sep)[i])
    decreases |s|
  {
    if |s| > 0 {
      assert IsLower(s[1..]) by {
        forall j | 0 <= j < |s| - 1 ensures !IsUpperAscii(s[1..][j]) {
          assert s[1..][j] == s[j + 1];
        }
      }
      SplitOfLower(s[1..], sep);
    }
  }

  /** Splitting pieces that hold no separator gives the pieces back. */
  lemma {:induction false} SplitJoin(pieces: seq<string>, sep: char)
    requires |pieces| >= 1
    requires forall i :: 0 <= i < |pieces| ==> sep !in pieces[i]
    ensures Split(Join(pieces, sep), sep) == pieces
    decreases |pieces|, |pieces[0]|
  {
    var p := pieces[0];
    if |pieces| == 1 {
      SplitNoSep(p, sep);
    } else if |p| == 0 {
      var tail := Join(pieces[1..], sep);
      assert Join(pieces, sep) == [sep] + tail;
      assert ([sep] + tail)[1..] == tail;
      SplitJoin(pieces[1..], sep);
      assert pieces == [""] + pieces[1..];
    } else {
      var shorter := [p[1..]] + pieces[1..];
      assert shorter[1..] == pieces[1..];
      assert Join(pieces, sep) == [p[0]] + Join(shorter, sep);
      assert ([p[0]] + Join(shorter, sep))[1..] == Join(shorter, sep);
      assert p[0] != sep by { assert p[0] in pieces[0]; }
      assert sep !in shorter[0] by {
        forall j | 0 <= j < |p[1..]| ensures p[1..][j] != sep {
          assert p[1..][j] == p[j + 1];
        }
      }
      SplitJoin(shorter, sep);
      assert [p[0]] + p[1..] == p;
      assert pieces == [[p[0]] + shorter[0]] + shorter[1..];
    }
  }

  lemma {:induction false} SplitNoSep(s: string, sep: char)
    requires sep !in s
    ensures Split(s, sep) == [s]
    decreases |s|
  {
    if |s| > 0 {
      assert sep !in s[1..] by {
        forall j | 0 <= j < |s| - 1 ensures s[1..][j] != sep {
          assert s[1..][j] == s[j + 1];
        }
      }
      SplitNoSep(s[1..], sep);
      assert [s[0]] + s[1..] == s;
    }
  }

  function TrimLeft(s: string, cut: set<char>): (r: string)
    ensures |r| <= |s| && r == s[|s| - |r|..]
    ensures r == [] || r[0] !in cut
    ensures forall k :: 0 <= k < |s| - |r| ==> s[k] in cut
    decreases |s|
  {
    if |s| > 0 && s[0] in cut then TrimLeft(s[1..], cut) else s
  }

  function TrimRight(s: string, cut: set<char>): (r: string)
    ensures |r| <= |s| && r == s[..|r|]
    ensures r == [] || r[|r| - 1] !in cut
    ensures forall k :: |r| <= k < |s| ==> s[k] in cut
    decreases |s|
  {
    if |s| > 0 && s[|s| - 1] in cut then TrimRight(s[..|s| - 1], cut) else s
  }

  /** strings.Trim: `s` without its leading and trailing characters from `cut`. */
  function Trim(s: string, cut: set<char>): (r: string)
    ensures r == [] || (r[0] !in cut && r[|r| - 1] !in cut)
  {
    TrimRight(TrimLeft(s, cut), cut)
  }

  /**
   What Trim removes: the result is the piece of `s` that starts at some `i`,
   and everything before `i` and after the piece is a `cut` character.
   */
  lemma TrimRemovesOnlyCut(s: string, cut: set<char>)
    ensures exists i {:trigger OccursAt(s, Trim(s, cut), i)} ::
      OccursAt(s, Trim(s, cut), i)
      && (forall k :: 0 <= k < i ==> s[k] in cut)
      && (forall k :: i + |Trim(s, cut)| <= k < |s| ==> s[k] in cut)
  {
    var l := TrimLeft(s, cut);
    var r := TrimRight(l, cut);
    var i := |s| - |l|;
    assert r == Trim(s, cut);
    assert s[i..i + |r|] == r;
    assert OccursAt(s, r, i);
  }

  /** Trimming a string with no `cut` character at either end changes nothing. */
  lemma TrimTrimmed(s: string, cut: set<char>)
    requires s == [] || (s[0] !in cut && s[|s| - 1] !in cut)
    ensures Trim(s, cut) == s
  {
  }
}
