/** The JavaScript string built-ins the handlers, schemas and pages rely on:
    `trim`, `toLowerCase`, `split(',')`, and the case-insensitive substring
    test that a Mongo `$regex` with option `i` performs on a plain word. */
module Text {

  /** ECMAScript WhiteSpace and LineTerminator code points: what `trim` removes. */
  predicate IsSpace(c: char) {
    var n := c as int;
    n == 0x09 || n == 0x0A || n == 0x0B || n == 0x0C || n == 0x0D || n == 0x20
    || n == 0xA0 || n == 0x1680 || (0x2000 <= n <= 0x200A) || n == 0x2028
    || n == 0x2029 || n == 0x202F || n == 0x205F || n == 0x3000 || n == 0xFEFF
  }

  predicate IsBlank(s: string) {
    forall i :: 0 <= i < |s| ==> IsSpace(s[i])
  }

  /** Neither starts nor ends with white space. */
  predicate IsTrimmed(s: string) {
    s == [] || (!IsSpace(s[0]) && !IsSpace(s[|s| - 1]))
  }

  /** `s` without its leading white space. */
  function TrimStart(s: string): (r: string)
    ensures |r| <= |s|
    ensures r == [] || !IsSpace(r[0])
  {
    if s != [] && IsSpace(s[0]) then TrimStart(s[1..]) else s
  }

  /** What `TrimStart` cuts off is a blank prefix. */
  lemma {:induction false} TrimStartShape(s: string)
    ensures var k := |s| - |TrimStart(s)|;
      TrimStart(s) == s[k..] && IsBlank(s[..k])
  {
    if s != [] && IsSpace(s[0]) {
      TrimStartShape(s[1..]);
      var k := |s| - |TrimStart(s)|;
      assert s[1..][k - 1..] == s[k..];
      forall i | 0 <= i < k ensures IsSpace(s[..k][i]) {
        if i > 0 {
          assert s[..k][i] == s[1..][..k - 1][i - 1];
        }
      }
    }
  }

  /** `s` without its trailing white space. */
  function TrimEnd(s: string): (r: string)
    ensures |r| <= |s|
    ensures r == [] || !IsSpace(r[|r| - 1])
  {
    if s != [] && IsSpace(s[|s| - 1]) then TrimEnd(s[..|s| - 1]) else s
  }

  /** What `TrimEnd` cuts off is a blank suffix. */
  lemma {:induction false} TrimEndShape(s: string)
    ensures var n := |TrimEnd(s)|;
      TrimEnd(s) == s[..n] && IsBlank(s[n..])
  {
    if s != [] && IsSpace(s[|s| - 1]) {
      var init := s[..|s| - 1];
      TrimEndShape(init);
      var n := |TrimEnd(s)|;
      assert init[..n] == s[..n];
      forall i | n <= i < |s| ensures IsSpace(s[i]) {
        if i < |s| - 1 {
          assert s[i] == init[n..][i - n];
        }
      }
    }
  }

  /** `String.prototype.trim`. */
  function Trim(s: string): (r: string)
    ensures |r| <= |s| && IsTrimmed(r)
    ensures r == [] <==> IsBlank(s)
  {
    var t := TrimStart(s);
    var r := TrimEnd(t);
    TrimEndShape(t);
    BlankIffTrimmedEmpty(s, t, r);
    r
  }

  lemma BlankIffTrimmedEmpty(s: string, t: string, r: string)
    requires t == TrimStart(s) && r == TrimEnd(t)
    ensures r == [] <==> IsBlank(s)
  {
    TrimStartShape(s);
    TrimEndShape(t);
    var k := |s| - |t|;
    assert s == s[..k] + t;
    if r == [] {
      assert t == t[|r|..];
      assert t == [];
    }
  }

  /** The characters of a trimmed string all survive `trim`. */
  lemma {:induction false} TrimTrimmed(s: string)
    requires IsTrimmed(s)
    ensures Trim(s) == s
  {
  }

  /** Trimming twice is trimming once. */
  lemma TrimIdempotent(s: string)
    ensures Trim(Trim(s)) == Trim(s)
  {
    TrimTrimmed(Trim(s));
  }

  /** White space around a string is what `trim` removes, whatever it is. */
  lemma {:induction false} TrimPadded(pre: string, s: string, post: string)
    requires IsBlank(pre) && IsBlank(post)
    ensures Trim(pre + s + post) == Trim(s)
  {
    if IsBlank(s) {
      assert IsBlank(pre + s + post);
    } else {
      TrimStartBlankPrefix(pre, s + post);
      assert pre + s + post == pre + (s + post);
      TrimStartBlankSuffix(s, post);
      TrimEndBlankSuffix(TrimStart(s), post);
    }
  }

  lemma {:induction false} TrimStartBlankPrefix(pre: string, s: string)
    requires IsBlank(pre)
    ensures TrimStart(pre + s) == TrimStart(s)
  {
    if pre == [] {
      assert pre + s == s;
    } else {
      assert (pre + s)[0] == pre[0];
      assert (pre + s)[1..] == pre[1..] + s;
      TrimStartBlankPrefix(pre[1..], s);
    }
  }

  lemma {:induction false} TrimStartBlankSuffix(s: string, post: string)
    requires !IsBlank(s)
    ensures TrimStart(s + post) == TrimStart(s) + post
  {
    if IsSpace(s[0]) {
      assert (s + post)[1..] == s[1..] + post;
      TrimStartBlankSuffix(s[1..], post);
    }
  }

  lemma {:induction false} TrimEndBlankSuffix(s: string, post: string)
    requires IsBlank(post)
    ensures TrimEnd(s + post) == TrimEnd(s)
  {
    if post == [] {
      assert s + post == s;
    } else {
      var n := |post|;
      assert (s + post)[|s| + n - 1] == post[n - 1];
      assert (s + post)[..|s| + n - 1] == s + post[..n - 1];
      TrimEndBlankSuffix(s, post[..n - 1]);
    }
  }

  /** ASCII case folding (what `toLowerCase` does on ASCII letters). */
  function Lower(c: char): (r: char)
    ensures 'A' <= c <= 'Z' ==> r as int == c as int + 32
    ensures !('A' <= c <= 'Z') ==> r == c
  {
    if 'A' <= c <= 'Z' then (c as int + 32) as char else c
  }

  function ToLower(s: string): (r: string)
    ensures |r| == |s|
    ensures forall i :: 0 <= i < |s| ==> r[i] == Lower(s[i])
  {
    seq(|s|, i requires 0 <= i < |s| => Lower(s[i]))
  }

  /** No ASCII capital letter: what `toLowerCase` leaves behind. */
  predicate NoUpper(s: string) {
    forall i :: 0 <= i < |s| ==> !('A' <= s[i] <= 'Z')
  }

  /** `trim` keeps a contiguous piece of its argument, so it brings in no
      capital letter. */
  lemma TrimKeepsNoUpper(s: string)
    requires NoUpper(s)
    ensures NoUpper(Trim(s))
  {
    var a := TrimSlice(s);
    var r := Trim(s);
    forall i | 0 <= i < |r| ensures !('A' <= r[i] <= 'Z') {
      assert r[i] == s[a + i];
    }
  }

  /** `trim` keeps the slice of its argument that starts at the returned
      offset. */
  lemma TrimSlice(s: string) returns (a: nat)
    ensures a + |Trim(s)| <= |s| && Trim(s) == s[a..a + |Trim(s)|]
  {
    var t := TrimStart(s);
    TrimStartShape(s);
    TrimEndShape(t);
    a := |s| - |t|;
    assert Trim(s) == TrimEnd(t) == t[..|Trim(s)|];
  }

  /** `trim` brings in no character its argument lacks. */
  lemma TrimWithout(s: string, c: char)
    requires c !in s
    ensures c !in Trim(s)
  {
    var a := TrimSlice(s);
    var r := Trim(s);
    forall i | 0 <= i < |r| ensures r[i] != c {
      assert r[i] == s[a + i];
    }
  }

  /** Lower-casing a lower-cased string changes nothing. */
  lemma ToLowerIdempotent(s: string)
    ensures ToLower(ToLower(s)) == ToLower(s)
  {
  }

  /** Lower-casing neither creates nor removes white space, so it commutes
      with `trim`. */
  lemma {:induction false} TrimToLowerCommute(s: string)
    ensures Trim(ToLower(s)) == ToLower(Trim(s))
  {
    TrimStartToLower(s);
    TrimEndToLower(TrimStart(s));
  }

  lemma {:induction false} TrimStartToLower(s: string)
    ensures TrimStart(ToLower(s)) == ToLower(TrimStart(s))
  {
    if s != [] {
      assert ToLower(s)[1..] == ToLower(s[1..]);
      assert IsSpace(Lower(s[0])) == IsSpace(s[0]);
      TrimStartToLower(s[1..]);
    }
  }

  lemma {:induction false} TrimEndToLower(s: string)
    ensures TrimEnd(ToLower(s)) == ToLower(TrimEnd(s))
  {
    if s != [] {
      assert ToLower(s)[..|s| - 1] == ToLower(s[..|s| - 1]);
      assert IsSpace(Lower(s[|s| - 1])) == IsSpace(s[|s| - 1]);
      TrimEndToLower(s[..|s| - 1]);
    }
  }

  /** `needle` occurs in `hay` starting at position `i`. */
  predicate OccursAt(hay: string, needle: string, i: int) {
    0 <= i <= |hay| - |needle| && hay[i..i + |needle|] == needle
  }

  /** `needle` occurs in `hay` as a contiguous piece. */
  predicate Contains(hay: string, needle: string) {
    exists i | 0 <= i <= |hay| - |needle| :: OccursAt(hay, needle, i)
  }

  /** A `$regex` match with option `i` on a pattern without metacharacters.
      The empty pattern matches everything, and a longer one matches
      nothing. */
  predicate ContainsIgnoreCase(hay: string, needle: string)
    ensures needle == "" ==> ContainsIgnoreCase(hay, needle)
    ensures ContainsIgnoreCase(hay, needle) ==> |needle| <= |hay|
  {
    assert needle == "" ==> OccursAt(ToLower(hay), ToLower(needle), 0);
    Contains(ToLower(hay), ToLower(needle))
  }

  /** `s.split(sep)`: the pieces between separators, empty pieces included;
      the empty string splits into one empty piece. */
  function Split(s: string, sep: char): (r: seq<string>)
    ensures |r| >= 1
    ensures forall k :: 0 <= k < |r| ==> sep !in r[k]
  {
    if s == [] then [""]
    else
      var rest := Split(s[1..], sep);
      if s[0] == sep then [""] + rest
      else [[s[0]] + rest[0]] + rest[1..]
  }

  /** `parts.join(sep)`. */
  function Join(parts: seq<string>, sep: char): string
    requires |parts| >= 1
  {
    if |parts| == 1 then parts[0] else parts[0] + [sep] + Join(parts[1..], sep)
  }

  /** Splitting loses nothing: joining the pieces gives the input back. */
  lemma {:induction false} JoinSplit(s: string, sep: char)
    ensures Join(Split(s, sep), sep) == s
  {
    if s != [] {
      var rest := Split(s[1..], sep);
      JoinSplit(s[1..], sep);
      if s[0] == sep {
        assert Split(s, sep) == [""] + rest;
        assert (["" ] + rest)[1..] == rest;
      } else {
        var r := Split(s, sep);
        assert r == [[s[0]] + rest[0]] + rest[1..];
        if |rest| > 1 {
          assert r[1..] == rest[1..];
          assert Join(rest, sep) == rest[0] + [sep] + Join(rest[1..], sep);
        }
      }
    }
  }

  /** Splitting a piece without separators, followed by a separator, yields
      that piece and then the pieces of the remainder. */
  lemma {:induction false} SplitAfterPiece(p: string, sep: char, tail: string)
    requires sep !in p
    ensures Split(p + [sep] + tail, sep) == [p] + Split(tail, sep)
  {
    if p != [] {
      assert (p + [sep] + tail)[1..] == p[1..] + [sep] + tail;
      SplitAfterPiece(p[1..], sep, tail);
      assert [p[0]] + p[1..] == p;
    } else {
      assert ([sep] + tail)[1..] == tail;
    }
  }

  /** Joining pieces that contain no separator can be undone by splitting. */
  lemma {:induction false} SplitJoin(parts: seq<string>, sep: char)
    requires |parts| >= 1
    requires forall k :: 0 <= k < |parts| ==> sep !in parts[k]
    ensures Split(Join(parts, sep), sep) == parts
  {
    if |parts| == 1 {
      SplitNoSeparator(parts[0], sep);
    } else {
      SplitJoin(parts[1..], sep);
      SplitAfterPiece(parts[0], sep, Join(parts[1..], sep));
      assert [parts[0]] + parts[1..] == parts;
    }
  }

  lemma {:induction false} SplitNoSeparator(s: string, sep: char)
    requires sep !in s
    ensures Split(s, sep) == [s]
  {
    if s != [] {
      SplitNoSeparator(s[1..], sep);
      assert [s[0]] + s[1..] == s;
    }
  }

  /** `s.split(',').map(x => x.trim())`, as the server parses a `skills`
      query parameter: every piece trimmed, empty pieces kept. */
  function CommaList(s: string): (r: seq<string>)
    ensures |r| == |Split(s, ',')| && AllTrimmed(r)
  {
    TrimEach(Split(s, ','))
  }

  /** Every string of the list has been through `trim`. */
  predicate AllTrimmed(xs: seq<string>) {
    forall k :: 0 <= k < |xs| ==> IsTrimmed(xs[k])
  }

  /** The schema's `trim` on list entries leaves a trimmed list alone. */
  lemma TrimEachTrimmed(xs: seq<string>)
    requires AllTrimmed(xs)
    ensures TrimEach(xs) == xs
  {
    forall k | 0 <= k < |xs| ensures Trim(xs[k]) == xs[k] {
      TrimTrimmed(xs[k]);
    }
  }

  /** `xs.map(x => x.trim())`, also what a schema's `trim` does to a list. */
  function TrimEach(xs: seq<string>): (r: seq<string>)
    ensures |r| == |xs| && AllTrimmed(r)
    ensures forall k :: 0 <= k < |xs| ==> r[k] == Trim(xs[k])
  {
    seq(|xs|, k requires 0 <= k < |xs| => Trim(xs[k]))
  }

  // ---------------------------------------------------------------------
  // Lengths as JavaScript counts them

  /** The UTF-16 code units that encode one character: a character outside
      the Basic Multilingual Plane takes a surrogate pair. */
  function Utf16Units(c: char): (r: nat)
    ensures 1 <= r <= 2
  {
    if c as int > 0xFFFF then 2 else 1
  }

  /** `s.length` in JavaScript, which is also what Mongoose's `minlength`
      and `maxlength` validators measure: UTF-16 code units, not
      characters. */
  function Utf16Length(s: string): (r: nat)
    ensures |s| <= r <= 2 * |s|
  {
    if s == [] then 0 else Utf16Units(s[0]) + Utf16Length(s[1..])
  }

  /** Within the Basic Multilingual Plane code units and characters agree. */
  lemma {:induction false} Utf16LengthBmp(s: string)
    requires forall k :: 0 <= k < |s| ==> s[k] as int <= 0xFFFF
    ensures Utf16Length(s) == |s|
  {
    if s != [] {
      Utf16LengthBmp(s[1..]);
    }
  }

  /** Code units add up over a concatenation. */
  lemma {:induction false} Utf16LengthAppend(a: string, b: string)
    ensures Utf16Length(a + b) == Utf16Length(a) + Utf16Length(b)
  {
    if a == [] {
      assert a + b == b;
    } else {
      assert (a + b)[1..] == a[1..] + b;
      Utf16LengthAppend(a[1..], b);
    }
  }

  /** An emoji is one character but two code units. */
  lemma AstralCharacterCountsTwice()
    ensures |"\U{1F600}"| == 1 && Utf16Length("\U{1F600}") == 2
  {
  }

  /** The longest prefix of `s` that fits in `n` code units: what
      `s.substring(0, n)` keeps, up to a surrogate pair that the limit
      would cut in two. */
  function Utf16Prefix(s: string, n: nat): (r: string)
    ensures |r| <= |s| && r == s[..|r|]
    ensures Utf16Length(r) <= n
    ensures |r| < |s| ==> Utf16Length(r) + Utf16Units(s[|r|]) > n
    ensures Utf16Length(s) > n ==> |r| < |s|
  {
    if s == [] || Utf16Units(s[0]) > n then []
    else
      var rest := Utf16Prefix(s[1..], n - Utf16Units(s[0]));
      assert ([s[0]] + rest)[1..] == rest;
      [s[0]] + rest
  }
}
