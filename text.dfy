/**
 * The JavaScript string operations the core relies on, over `string` (= `seq<char>`):
 * the white-space class shared by the regular expression `\s` and `String.prototype.trim`,
 * `trim`, `split` on one character, `join`, `includes`, `startsWith` (written `p <= s`),
 * an ASCII `toLowerCase`, the concatenation of a list of strings, and `length` and
 * `substring(0, k)` counted in UTF-16 code units.
 */
module Text {

  /** The UTF-16 code units of one character: two for one outside the Basic Multilingual Plane. */
  function Units(c: char): nat {
    if c as int >= 0x10000 then 2 else 1
  }

  /** `s.length`: the number of UTF-16 code units, at least one and at most two per character. */
  function JsLength(s: string): (n: nat)
    ensures |s| <= n <= 2 * |s|
  {
    if s == [] then 0 else JsLength(s[..|s| - 1]) + Units(s[|s| - 1])
  }

  lemma {:induction false} JsLengthAppend(a: string, b: string)
    ensures JsLength(a + b) == JsLength(a) + JsLength(b)
    decreases |b|
  {
    if b == [] {
      assert a + b == a;
    } else {
      var n := |b|;
      JsLengthAppend(a, b[..n - 1]);
      assert (a + b)[..|a + b| - 1] == a + b[..n - 1];
    }
  }

  /** Without characters outside the Basic Multilingual Plane, `length` counts characters. */
  lemma {:induction false} JsLengthOfBmp(s: string)
    requires forall i :: 0 <= i < |s| ==> s[i] as int < 0x10000
    ensures JsLength(s) == |s|
  {
    if s != [] {
      JsLengthOfBmp(s[..|s| - 1]);
    }
  }

  lemma JsLengthCons(c: char, s: string)
    ensures JsLength([c] + s) == Units(c) + JsLength(s)
  {
    JsLengthAppend([c], s);
    assert [c][..0] == [];
  }

  /**
   * `s.substring(0, k)`: the longest prefix of `s` within `k` code units (a character
   * outside the Basic Multilingual Plane that would be cut in two is left out).
   */
  function JsPrefix(s: string, k: nat): (r: string)
    ensures r <= s && JsLength(r) <= k
    ensures r == s || JsLength(r) + Units(s[|r|]) > k
    decreases |s|
  {
    if s == [] || Units(s[0]) > k then []
    else
      var rest := JsPrefix(s[1..], k - Units(s[0]));
      JsLengthCons(s[0], rest);
      assert s == [s[0]] + s[1..];
      assert rest != s[1..] ==> s[1 + |rest|] == s[1..][|rest|];
      [s[0]] + rest
  }

  /** Without characters outside the Basic Multilingual Plane, `substring(0, k)` keeps `k` characters. */
  lemma JsPrefixOfBmp(s: string, k: nat)
    requires forall i :: 0 <= i < |s| ==> s[i] as int < 0x10000
    requires k <= |s|
    ensures JsPrefix(s, k) == s[..k]
  {
    var r := JsPrefix(s, k);
    assert forall i :: 0 <= i < |r| ==> r[i] == s[i];
    JsLengthOfBmp(r);
    assert |r| == k by {
      if r != s {
        assert Units(s[|r|]) == 1;
      }
    }
    PrefixOfLength(r, s, k);
  }

  /** The prefix of `s` with `k` elements is `s[..k]`. */
  lemma PrefixOfLength(r: string, s: string, k: nat)
    requires r <= s && |r| == k
    ensures r == s[..k]
  {
  }

  /** JavaScript white space: what `\s` matches and what `trim` strips. */
  predicate IsSpace(c: char) {
    var n := c as int;
    (0x09 <= n <= 0x0D) || n == 0x20 || n == 0xA0 || n == 0x1680 || (0x2000 <= n <= 0x200A)
    || n == 0x2028 || n == 0x2029 || n == 0x202F || n == 0x205F || n == 0x3000 || n == 0xFEFF
  }

  predicate AllSpace(s: string) {
    forall i :: 0 <= i < |s| ==> IsSpace(s[i])
  }

  /** Neither the first nor the last character is white space (what `trim` returns). */
  predicate IsTrimmed(s: string) {
    s == [] || (!IsSpace(s[0]) && !IsSpace(s[|s| - 1]))
  }

  /** Drops the leading white space; only white space is dropped. */
  function TrimStart(s: string): (r: string)
    ensures |r| <= |s| && r == s[|s| - |r|..]
    ensures forall i :: 0 <= i < |s| - |r| ==> IsSpace(s[i])
    ensures r != [] ==> !IsSpace(r[0])
    decreases |s|
  {
    if s != [] && IsSpace(s[0]) then TrimStart(s[1..]) else s
  }

  /** Drops the trailing white space; only white space is dropped. */
  function TrimEnd(s: string): (r: string)
    ensures |r| <= |s| && r == s[..|r|]
    ensures forall i :: |r| <= i < |s| ==> IsSpace(s[i])
    ensures r != [] ==> !IsSpace(r[|r| - 1])
    decreases |s|
  {
    if s != [] && IsSpace(s[|s| - 1]) then TrimEnd(s[..|s| - 1]) else s
  }

  /** `String.prototype.trim`. */
  function Trim(s: string): (r: string)
    ensures IsTrimmed(r)
    ensures |r| <= |s|
    ensures r == [] <==> AllSpace(s)
  {
    TrimEnd(TrimStart(s))
  }

  /** `trim` returns a contiguous slice of its argument, starting at `a`. */
  lemma TrimIsSlice(s: string) returns (a: nat)
    ensures a + |Trim(s)| <= |s| && Trim(s) == s[a..a + |Trim(s)|]
  {
    var t := TrimStart(s);
    a := |s| - |t|;
    assert Trim(s) == t[..|Trim(s)|];
  }

  /** `!s.trim()`: the string is empty or white space only. */
  predicate IsBlank(s: string) {
    Trim(s) == []
  }

  lemma {:induction false} TrimStartOfUnpadded(s: string)
    requires s == [] || !IsSpace(s[0])
    ensures TrimStart(s) == s
  {
  }

  lemma {:induction false} TrimEndOfUnpadded(s: string)
    requires s == [] || !IsSpace(s[|s| - 1])
    ensures TrimEnd(s) == s
  {
  }

  /** Trimming a trimmed string changes nothing. */
  lemma TrimOfTrimmed(s: string)
    requires IsTrimmed(s)
    ensures Trim(s) == s
  {
    TrimStartOfUnpadded(s);
    TrimEndOfUnpadded(s);
  }

  lemma {:induction false} TrimStartSkipsSpace(pre: string, s: string)
    requires AllSpace(pre)
    ensures TrimStart(pre + s) == TrimStart(s)
    decreases |pre|
  {
    if pre != [] {
      assert (pre + s)[1..] == pre[1..] + s;
      TrimStartSkipsSpace(pre[1..], s);
    } else {
      assert pre + s == s;
    }
  }

  lemma {:induction false} TrimEndSkipsSpace(s: string, post: string)
    requires AllSpace(post)
    ensures TrimEnd(s + post) == TrimEnd(s)
    decreases |post|
  {
    if post != [] {
      var n := |post|;
      assert (s + post)[..|s + post| - 1] == s + post[..n - 1];
      TrimEndSkipsSpace(s, post[..n - 1]);
    } else {
      assert s + post == s;
    }
  }

  /** A trimmed string keeps its value when padded with white space on either side. */
  lemma TrimOfPadded(pre: string, s: string, post: string)
    requires AllSpace(pre) && AllSpace(post) && IsTrimmed(s)
    ensures Trim(pre + s + post) == s
  {
    if s == [] {
      assert AllSpace(pre + s + post);
    } else {
      assert pre + s + post == pre + (s + post);
      TrimStartSkipsSpace(pre, s + post);
      TrimStartOfUnpadded(s + post);
      TrimEndSkipsSpace(s, post);
      TrimEndOfUnpadded(s);
    }
  }

  /** No string of the list occurs twice. */
  predicate Distinct(s: seq<string>) {
    forall i, j :: 0 <= i < j < |s| ==> s[i] != s[j]
  }

  /** The concatenation of a list of strings (`parts.join('')`). */
  function Concat(parts: seq<string>): (r: string)
    ensures parts == [] ==> r == []
  {
    if parts == [] then "" else parts[0] + Concat(parts[1..])
  }

  lemma {:induction false} ConcatAppend(a: seq<string>, b: seq<string>)
    ensures Concat(a + b) == Concat(a) + Concat(b)
  {
    if a != [] {
      assert (a + b)[1..] == a[1..] + b;
      ConcatAppend(a[1..], b);
    } else {
      assert a + b == b;
    }
  }

  /** The text of a string with its white space taken out: what no re-spacing may change. */
  function NonSpace(s: string): (r: string)
    ensures |r| <= |s|
    ensures forall i :: 0 <= i < |r| ==> !IsSpace(r[i])
    decreases |s|
  {
    if s == [] then [] else (if IsSpace(s[0]) then [] else [s[0]]) + NonSpace(s[1..])
  }

  lemma {:induction false} NonSpaceAppend(a: string, b: string)
    ensures NonSpace(a + b) == NonSpace(a) + NonSpace(b)
    decreases |a|
  {
    if a != [] {
      var h := if IsSpace(a[0]) then [] else [a[0]];
      assert (a + b)[0] == a[0] && (a + b)[1..] == a[1..] + b;
      assert NonSpace(a + b) == h + NonSpace(a[1..] + b);
      NonSpaceAppend(a[1..], b);
    } else {
      assert a + b == b;
    }
  }

  /** Joining texts that agree up to white space gives texts that agree up to white space. */
  lemma NonSpaceJoin(s: string, a: string, b: string, t: string, c: string, d: string)
    requires s == a + b && t == c + d
    requires NonSpace(a) == NonSpace(c) && NonSpace(b) == NonSpace(d)
    ensures NonSpace(s) == NonSpace(t)
  {
    NonSpaceAppend(a, b);
    NonSpaceAppend(c, d);
  }

  lemma NonSpaceSingle(c: char)
    ensures NonSpace([c]) == if IsSpace(c) then [] else [c]
  {
    assert [c][1..] == [];
  }

  lemma NonSpacePair(c: char, d: char)
    ensures NonSpace([c, d]) == NonSpace([c]) + NonSpace([d])
  {
    assert [c, d] == [c] + [d];
    NonSpaceAppend([c], [d]);
  }

  /** A character that is not white space, then a space, then text with the same non-space text as `t`. */
  lemma NonSpaceRespaced(c: char, t: string, rest: string)
    requires !IsSpace(c) && NonSpace(rest) == NonSpace(t)
    ensures NonSpace([c, ' '] + rest) == NonSpace([c] + t)
  {
    NonSpacePair(c, ' ');
    NonSpaceSingle(c);
    NonSpaceSingle(' ');
    NonSpaceAppend([c, ' '], rest);
    NonSpaceAppend([c], t);
  }

  lemma {:induction false} NonSpaceOfSpaces(s: string)
    requires AllSpace(s)
    ensures NonSpace(s) == []
    decreases |s|
  {
    if s != [] {
      NonSpaceOfSpaces(s[1..]);
    }
  }

  /** Trimming only removes white space. */
  lemma NonSpaceTrim(s: string)
    ensures NonSpace(TrimStart(s)) == NonSpace(s)
    ensures NonSpace(TrimEnd(s)) == NonSpace(s)
    ensures NonSpace(Trim(s)) == NonSpace(s)
  {
    NonSpaceTrimStart(s);
    NonSpaceTrimEnd(s);
    NonSpaceTrimEnd(TrimStart(s));
  }

  lemma NonSpaceTrimStart(s: string)
    ensures NonSpace(TrimStart(s)) == NonSpace(s)
  {
    var t := TrimStart(s);
    var head := s[..|s| - |t|];
    assert s == head + t;
    NonSpaceOfSpaces(head);
    NonSpaceAppend(head, t);
  }

  lemma NonSpaceTrimEnd(s: string)
    ensures NonSpace(TrimEnd(s)) == NonSpace(s)
  {
    var t := TrimEnd(s);
    var tail := s[|t|..];
    assert s == t + tail;
    assert AllSpace(tail) by {
      forall i | 0 <= i < |tail| ensures IsSpace(tail[i]) {
        assert tail[i] == s[|t| + i];
      }
    }
    NonSpaceOfSpaces(tail);
    NonSpaceAppend(t, tail);
  }

  /** `parts.join(sep)`. */
  function Join(parts: seq<string>, sep: string): string {
    if |parts| == 0 then ""
    else if |parts| == 1 then parts[0]
    else parts[0] + sep + Join(parts[1..], sep)
  }

  /** `s.split(sep)` for a one-character separator: the pieces between separators, in order. */
  function Split(s: string, sep: char): (parts: seq<string>)
    ensures |parts| >= 1
    decreases |s|
  {
    if s == [] then [""]
    else
      var rest := Split(s[1..], sep);
      if s[0] == sep then [""] + rest
      else [[s[0]] + rest[0]] + rest[1..]
  }

  /** No piece of a split contains the separator. */
  lemma {:induction false} SplitPiecesAvoidSep(s: string, sep: char)
    ensures forall i :: 0 <= i < |Split(s, sep)| ==> sep !in Split(s, sep)[i]
    decreases |s|
  {
    if s != [] {
      SplitPiecesAvoidSep(s[1..], sep);
      var rest := Split(s[1..], sep);
      if s[0] != sep {
        assert sep !in [s[0]] + rest[0];
      }
    }
  }

  lemma JoinConsHead(x: string, y: string, tail: seq<string>, sep: string)
    ensures Join([x + y] + tail, sep) == x + Join([y] + tail, sep)
  {
    if tail != [] {
      assert ([x + y] + tail)[1..] == tail;
      assert ([y] + tail)[1..] == tail;
    }
  }

  /** Joining the pieces of a split with the separator gives the original string back. */
  lemma {:induction false} JoinSplit(s: string, sep: char)
    ensures Join(Split(s, sep), [sep]) == s
    decreases |s|
  {
    if s != [] {
      var rest := Split(s[1..], sep);
      JoinSplit(s[1..], sep);
      if s[0] == sep {
        assert ([""] + rest)[1..] == rest;
      } else {
        JoinConsHead([s[0]], rest[0], rest[1..], [sep]);
        assert [rest[0]] + rest[1..] == rest;
      }
    }
  }

  lemma {:induction false} SplitWithoutSep(a: string, sep: char)
    requires sep !in a
    ensures Split(a, sep) == [a]
    decreases |a|
  {
    if a != [] {
      assert a[0] in a;
      assert sep !in a[1..] by {
        forall i | 0 <= i < |a| - 1 ensures a[1..][i] != sep {
          assert a[1..][i] == a[i + 1];
        }
      }
      SplitWithoutSep(a[1..], sep);
      assert [a[0]] + a[1..] == a;
    }
  }

  lemma {:induction false} SplitAtFirstSep(a: string, b: string, sep: char)
    requires sep !in a
    ensures Split(a + [sep] + b, sep) == [a] + Split(b, sep)
    decreases |a|
  {
    if a == [] {
      assert (a + [sep] + b)[1..] == b;
    } else {
      assert (a + [sep] + b)[1..] == a[1..] + [sep] + b;
      assert sep !in a[1..] by {
        forall i | 0 <= i < |a| - 1 ensures a[1..][i] != sep {
          assert a[1..][i] == a[i + 1];
        }
      }
      SplitAtFirstSep(a[1..], b, sep);
      assert [a[0]] + a[1..] == a;
    }
  }

  /** Splitting a join of separator-free pieces gives the pieces back. */
  lemma {:induction false} SplitJoin(parts: seq<string>, sep: char)
    requires |parts| >= 1
    requires forall i :: 0 <= i < |parts| ==> sep !in parts[i]
    ensures Split(Join(parts, [sep]), sep) == parts
  {
    if |parts| == 1 {
      SplitWithoutSep(parts[0], sep);
    } else {
      SplitJoin(parts[1..], sep);
      SplitAtFirstSep(parts[0], Join(parts[1..], [sep]), sep);
      assert [parts[0]] + parts[1..] == parts;
    }
  }

  /** Joining two non-empty lists of pieces puts one separator between them. */
  lemma {:induction false} JoinAppend(a: seq<string>, b: seq<string>, sep: string)
    requires a != [] && b != []
    ensures Join(a + b, sep) == Join(a, sep) + sep + Join(b, sep)
  {
    if |a| == 1 {
      assert (a + b)[1..] == b;
    } else {
      assert (a + b)[1..] == a[1..] + b;
      JoinAppend(a[1..], b, sep);
    }
  }

  /** The last piece of a split: the text after the last separator. */
  function LastPiece(s: string, sep: char): string {
    var ps := Split(s, sep);
    ps[|ps| - 1]
  }

  /**
   * Appending text to a string only extends its last piece: the pieces before it stay as they
   * are, and the last piece followed by the new text is split again.
   */
  lemma {:induction false} SplitAppend(x: string, y: string, sep: char)
    ensures var ps := Split(x, sep);
      Split(x + y, sep) == ps[..|ps| - 1] + Split(LastPiece(x, sep) + y, sep)
    decreases |x|
  {
    if x == [] {
      assert x + y == LastPiece(x, sep) + y;
    } else {
      SplitAppend(x[1..], y, sep);
      SplitAppendStep(x, y, sep);
    }
  }

  /** The inductive step of `SplitAppend`, from the string without its first character. */
  lemma {:induction false} SplitAppendStep(x: string, y: string, sep: char)
    requires x != []
    requires var r := Split(x[1..], sep);
      Split(x[1..] + y, sep) == r[..|r| - 1] + Split(LastPiece(x[1..], sep) + y, sep)
    ensures var ps := Split(x, sep);
      Split(x + y, sep) == ps[..|ps| - 1] + Split(LastPiece(x, sep) + y, sep)
  {
    var c := x[0];
    var r, ps := Split(x[1..], sep), Split(x, sep);
    var rxy, xy := Split(x[1..] + y, sep), Split(x + y, sep);
    var tail := Split(LastPiece(x[1..], sep) + y, sep);
    DropFirstOfAppend(x, y);
    SplitCons(x, c, x[1..], sep);
    SplitCons(x + y, c, x[1..] + y, sep);
    if c == sep {
      PiecesAtSep(ps, xy, r, rxy, tail);
    } else if |r| == 1 {
      var z := LastPiece(x, sep) + y;
      assert LastPiece(x, sep) == [c] + r[0];
      ConsAppendTail(c, r[0], y);
      SplitCons(z, c, r[0] + y, sep);
      PiecesInLast(r, rxy, tail);
      assert LastPiece(x[1..], sep) == r[0];
      assert xy == Split(z, sep);
      assert ps[..|ps| - 1] == [];
    } else {
      PiecesInFirst(c, ps, xy, r, rxy, tail);
    }
  }

  /** `Split` of a non-empty string, by its first character. */
  lemma {:induction false} SplitCons(s: string, c: char, t: string, sep: char)
    requires s != [] && s[0] == c && s[1..] == t
    ensures c == sep ==> Split(s, sep) == [""] + Split(t, sep)
    ensures c != sep ==> Split(s, sep) == [[c] + Split(t, sep)[0]] + Split(t, sep)[1..]
  {
  }

  lemma DropFirstOfAppend(x: string, y: string)
    requires x != []
    ensures x + y != [] && (x + y)[0] == x[0] && (x + y)[1..] == x[1..] + y
  {
  }

  lemma ConsAppendTail(c: char, a: string, b: string)
    ensures [c] + a + b != [] && ([c] + a + b)[0] == c && ([c] + a + b)[1..] == a + b
  {
  }

  lemma PiecesAtSep(ps: seq<string>, xy: seq<string>, r: seq<string>, rxy: seq<string>, tail: seq<string>)
    requires |r| >= 1 && ps == [""] + r && xy == [""] + rxy && rxy == r[..|r| - 1] + tail
    ensures xy == ps[..|ps| - 1] + tail && ps[|ps| - 1] == r[|r| - 1]
  {
    assert ps[..|ps| - 1] == [""] + r[..|r| - 1];
  }

  lemma PiecesInLast(r: seq<string>, rxy: seq<string>, tail: seq<string>)
    requires |r| == 1 && rxy == r[..|r| - 1] + tail
    ensures rxy == tail
  {
    assert r[..|r| - 1] == [];
  }

  lemma PiecesInFirst(c: char, ps: seq<string>, xy: seq<string>, r: seq<string>, rxy: seq<string>, tail: seq<string>)
    requires |r| > 1 && ps == [[c] + r[0]] + r[1..] && rxy == r[..|r| - 1] + tail
    requires xy == [[c] + rxy[0]] + rxy[1..]
    ensures xy == ps[..|ps| - 1] + tail && ps[|ps| - 1] == r[|r| - 1]
  {
    assert rxy[0] == r[0];
    assert rxy[1..] == r[1..|r| - 1] + tail;
    assert ps[..|ps| - 1] == [[c] + r[0]] + r[1..|r| - 1];
  }

  /** `needle` occurs in `hay` at index `i`. */
  predicate OccursAt(hay: string, needle: string, i: int) {
    0 <= i && i + |needle| <= |hay| && hay[i..i + |needle|] == needle
  }

  /** `hay.includes(needle)`. */
  function Includes(hay: string, needle: string): (r: bool)
    ensures r <==> exists i :: OccursAt(hay, needle, i)
    decreases |hay|
  {
    if needle <= hay then
      assert OccursAt(hay, needle, 0);
      true
    else if hay == [] then false
    else
      var r := Includes(hay[1..], needle);
      assert forall i :: OccursAt(hay[1..], needle, i) <==> OccursAt(hay, needle, i + 1) by {
        forall i ensures OccursAt(hay[1..], needle, i) <==> OccursAt(hay, needle, i + 1) {
          if 0 <= i && i + |needle| <= |hay| - 1 {
            assert hay[1..][i..i + |needle|] == hay[i + 1..i + 1 + |needle|];
          }
        }
      }
      assert !OccursAt(hay, needle, 0);
      assert forall i :: OccursAt(hay, needle, i) ==> i == 0 || OccursAt(hay[1..], needle, i - 1);
      r
  }

  /** `toLowerCase` on one character, for the ASCII letters. */
  function LowerChar(c: char): char {
    if 'A' <= c <= 'Z' then (c as int + 32) as char else c
  }

  /** `toLowerCase`, for the ASCII letters. */
  function ToLower(s: string): (r: string)
    ensures |r| == |s|
  {
    seq(|s|, i requires 0 <= i < |s| => LowerChar(s[i]))
  }

  /** The string contains at least one character of `chars` (a regular-expression class test). */
  predicate HasAnyOf(s: string, chars: set<char>) {
    exists i :: 0 <= i < |s| && s[i] in chars
  }
}
