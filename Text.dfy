/** The JavaScript string operations the components use: `toLowerCase`,
    `toUpperCase` of one character, `includes`, `trim`, `replace` with a
    one-character pattern, and the capitalised stage label built from them.
    Case mapping covers ASCII letters only. */
module Text {

  predicate IsUpper(c: char) { 'A' <= c <= 'Z' }

  predicate IsLower(c: char) { 'a' <= c <= 'z' }

  function LowerChar(c: char): char {
    if IsUpper(c) then (c as int + 32) as char else c
  }

  function UpperChar(c: char): char {
    if IsLower(c) then (c as int - 32) as char else c
  }

  /** `s.toLowerCase()`. */
  function ToLower(s: string): (r: string)
    ensures |r| == |s|
    ensures forall i :: 0 <= i < |r| ==> !IsUpper(r[i])
    ensures forall i :: 0 <= i < |s| && IsUpper(s[i]) ==> r[i] as int == s[i] as int + 32
    ensures forall i :: 0 <= i < |r| && !IsUpper(s[i]) ==> r[i] == s[i]
  {
    seq(|s|, i requires 0 <= i < |s| => LowerChar(s[i]))
  }

  /** `a` and `b` differ at most in the case of ASCII letters: at each
      position the characters are equal, or one is an upper-case letter and
      the other its lower-case letter. */
  predicate CaseVariants(a: string, b: string) {
    |a| == |b| &&
    forall i :: 0 <= i < |a| ==>
      a[i] == b[i]
      || (IsUpper(a[i]) && b[i] as int == a[i] as int + 32)
      || (IsUpper(b[i]) && a[i] as int == b[i] as int + 32)
  }

  /** Strings that differ only in ASCII case lower-case to the same string. */
  lemma CaseVariantsLowerAlike(a: string, b: string)
    requires CaseVariants(a, b)
    ensures ToLower(a) == ToLower(b)
  {
    forall i | 0 <= i < |a| ensures ToLower(a)[i] == ToLower(b)[i] {
    }
  }

  lemma ToLowerIdempotent(s: string)
    ensures ToLower(ToLower(s)) == ToLower(s)
  {
  }

  /** `p` is a prefix of `s`. */
  predicate StartsWith(s: string, p: string) {
    |p| <= |s| && s[..|p|] == p
  }

  /** `needle` occurs in `hay` starting at position `i`. */
  ghost predicate OccursAt(hay: string, needle: string, i: int) {
    0 <= i && i + |needle| <= |hay| && hay[i..i + |needle|] == needle
  }

  /** `hay.includes(needle)`, computed by trying each starting position. */
  predicate Includes(hay: string, needle: string)
    decreases |hay|
  {
    StartsWith(hay, needle) || (hay != [] && Includes(hay[1..], needle))
  }

  /** `includes` holds exactly when the needle occurs at some position. */
  lemma {:induction false} IncludesIff(hay: string, needle: string)
    ensures Includes(hay, needle) <==> exists i :: OccursAt(hay, needle, i)
  {
    if StartsWith(hay, needle) {
      assert OccursAt(hay, needle, 0);
    } else if hay == [] {
      assert forall i :: !OccursAt(hay, needle, i);
    } else {
      IncludesIff(hay[1..], needle);
      if Includes(hay[1..], needle) {
        var i :| OccursAt(hay[1..], needle, i);
        assert hay[1..][i..i + |needle|] == hay[i + 1..i + 1 + |needle|];
        assert OccursAt(hay, needle, i + 1);
      } else {
        forall i | OccursAt(hay, needle, i) && i > 0 ensures OccursAt(hay[1..], needle, i - 1) {
          assert hay[1..][i - 1..i - 1 + |needle|] == hay[i..i + |needle|];
        }
        assert !OccursAt(hay, needle, 0);
      }
    }
  }

  /** Every string includes the empty string. */
  lemma IncludesEmpty(hay: string)
    ensures Includes(hay, "")
  {
  }

  /** A needle at the start of a suffix is included in the whole string. */
  lemma {:induction false} IncludesInSuffix(prefix: string, rest: string, needle: string)
    requires StartsWith(rest, needle)
    ensures Includes(prefix + rest, needle)
    decreases |prefix|
  {
    if prefix == [] {
      assert prefix + rest == rest;
    } else {
      assert (prefix + rest)[1..] == prefix[1..] + rest;
      IncludesInSuffix(prefix[1..], rest, needle);
    }
  }

  /** A non-empty needle whose first character does not occur in the string
      is not included in it. */
  lemma {:induction false} AbsentFirstNotIncluded(hay: string, needle: string)
    requires needle != [] && needle[0] !in hay
    ensures !Includes(hay, needle)
    decreases |hay|
  {
    if hay != [] {
      assert forall c :: c in hay[1..] ==> c in hay;
      AbsentFirstNotIncluded(hay[1..], needle);
    }
  }

  /** The whitespace `String.prototype.trim` removes, restricted to ASCII. */
  predicate IsSpace(c: char) {
    c == ' ' || c == '\t' || c == '\n' || c == '\r' || c == '\U{0B}' || c == '\U{0C}'
  }

  ghost predicate IsBlank(s: string) {
    forall i :: 0 <= i < |s| ==> IsSpace(s[i])
  }

  function TrimStart(s: string): (r: string)
    ensures |r| <= |s| && r == s[|s| - |r|..]
    ensures r == [] || !IsSpace(r[0])
  {
    if s != [] && IsSpace(s[0]) then TrimStart(s[1..]) else s
  }

  function TrimEnd(s: string): (r: string)
    ensures |r| <= |s| && r == s[..|r|]
    ensures r == [] || !IsSpace(r[|r| - 1])
  {
    if s != [] && IsSpace(s[|s| - 1]) then TrimEnd(s[..|s| - 1]) else s
  }

  /** `s.trim()`: the longest slice of `s` that neither starts nor ends with
      whitespace, once the whitespace around it is dropped. */
  function Trim(s: string): (r: string)
  {
    TrimEnd(TrimStart(s))
  }

  /** What `trim` keeps is a slice of its input with only whitespace around
      it. */
  lemma TrimSlice(s: string)
    ensures exists a, b ::
      (0 <= a <= b <= |s| && Trim(s) == s[a..b] && IsBlank(s[..a]) && IsBlank(s[b..]))
  {
    TrimParts(s);
    var a := |s| - |TrimStart(s)|;
    assert IsBlank(s[..a]) && IsBlank(s[a + |Trim(s)|..]);
  }

  /** `trim` returns the empty string exactly when the input is blank. */
  lemma TrimEmptyIffBlank(s: string)
    ensures Trim(s) == [] <==> IsBlank(s)
  {
    var a := |s| - |TrimStart(s)|;
    var b := a + |Trim(s)|;
    TrimParts(s);
    BlankSplit(s, a, b);
    if Trim(s) != [] {
      TrimEnds(s);
      NotBlank(s[a..b]);
    }
  }

  lemma TrimParts(s: string)
    ensures var a := |s| - |TrimStart(s)|;
      0 <= a <= a + |Trim(s)| <= |s| && Trim(s) == s[a..a + |Trim(s)|]
      && IsBlank(s[..a]) && IsBlank(s[a + |Trim(s)|..])
  {
    TrimMiddle(s);
    TrimStartBlank(s);
    TrimTailBlank(s);
  }

  lemma TrimMiddle(s: string)
    ensures var a := |s| - |TrimStart(s)|;
      a + |Trim(s)| <= |s| && Trim(s) == s[a..a + |Trim(s)|]
  {
    var t := TrimStart(s);
    var r := TrimEnd(t);
    assert Trim(s) == r;
    SliceOfSuffix(s, |s| - |t|, |r|);
  }

  lemma TrimTailBlank(s: string)
    ensures |s| - |TrimStart(s)| + |Trim(s)| <= |s|
    ensures IsBlank(s[|s| - |TrimStart(s)| + |Trim(s)|..])
  {
    var t := TrimStart(s);
    var a := |s| - |t|;
    var r := TrimEnd(t);
    assert Trim(s) == r;
    assert t == s[a..];
    TrimEndBlank(t);
    BlankSuffixShift(s, a, |r|);
  }

  lemma BlankSuffixShift(s: string, a: nat, n: nat)
    requires a + n <= |s| && IsBlank(s[a..][n..])
    ensures IsBlank(s[a + n..])
  {
    assert s[a..][n..] == s[a + n..];
  }

  /** What `trim` keeps neither starts nor ends with whitespace. */
  lemma TrimEnds(s: string)
    ensures Trim(s) == [] || (!IsSpace(Trim(s)[0]) && !IsSpace(Trim(s)[|Trim(s)| - 1]))
  {
    var t := TrimStart(s);
    var r := TrimEnd(t);
    if r != [] {
      assert r[0] == t[0];
    }
  }

  lemma NotBlank(s: string)
    requires s != [] && !IsSpace(s[0])
    ensures !IsBlank(s)
  {
  }

  /** `TrimStart` drops only whitespace. */
  lemma {:induction false} TrimStartBlank(s: string)
    ensures IsBlank(s[..|s| - |TrimStart(s)|])
  {
    if s != [] && IsSpace(s[0]) {
      TrimStartBlank(s[1..]);
      var a := |s| - |TrimStart(s)|;
      forall i | 0 <= i < a ensures IsSpace(s[..a][i]) {
        if i > 0 {
          assert s[..a][i] == s[1..][..a - 1][i - 1];
        }
      }
    }
  }

  /** `TrimEnd` drops only whitespace. */
  lemma {:induction false} TrimEndBlank(s: string)
    ensures IsBlank(s[|TrimEnd(s)|..])
  {
    if s != [] && IsSpace(s[|s| - 1]) {
      var init := s[..|s| - 1];
      TrimEndBlank(init);
      var b := |TrimEnd(s)|;
      forall i | 0 <= i < |s| - b ensures IsSpace(s[b..][i]) {
        if b + i < |s| - 1 {
          assert s[b..][i] == init[b..][i];
        }
      }
    }
  }

  lemma SliceOfSuffix<T>(s: seq<T>, a: nat, n: nat)
    requires a + n <= |s|
    ensures s[a..][..n] == s[a..a + n]
  {
  }

  lemma SuffixOfSuffix<T>(s: seq<T>, a: nat, n: nat)
    requires a + n <= |s|
    ensures s[a..][n..] == s[a + n..]
  {
  }

  /** A string whose two ends around `s[a..b]` are blank is blank exactly
      when that middle part is. */
  lemma BlankSplit(s: string, a: nat, b: nat)
    requires a <= b <= |s| && IsBlank(s[..a]) && IsBlank(s[b..])
    ensures IsBlank(s) <==> (a == b || IsBlank(s[a..b]))
  {
    if IsBlank(s) {
      forall i | 0 <= i < b - a ensures IsSpace(s[a..b][i]) {
        assert s[a..b][i] == s[a + i];
      }
    }
    if a == b || IsBlank(s[a..b]) {
      forall i | 0 <= i < |s| ensures IsSpace(s[i]) {
        if i < a {
          assert s[..a][i] == s[i];
        } else if i < b {
          assert s[a..b][i - a] == s[i];
        } else {
          assert s[b..][i - b] == s[i];
        }
      }
    }
  }

  /** `s.replace(from, to)` with one-character strings: only the first
      occurrence is replaced. */
  function ReplaceFirst(s: string, from: char, to: char): (r: string)
    ensures |r| == |s|
    ensures forall i :: 0 <= i < |s| ==>
      r[i] == if s[i] == from && from !in s[..i] then to else s[i]
  {
    if s == [] then []
    else if s[0] == from then [to] + s[1..]
    else
      var rest := ReplaceFirst(s[1..], from, to);
      assert forall i :: 1 <= i < |s| ==> s[1..][..i - 1] == s[1..i];
      [s[0]] + rest
  }

  /** `s.charAt(0).toUpperCase() + s.slice(1).replace('-', ' ')`. */
  function Label(s: string): (r: string)
    ensures |r| == |s|
    ensures s != [] ==> r[0] == UpperChar(s[0])
    ensures forall i :: 1 <= i < |s| ==>
      r[i] == if s[i] == '-' && '-' !in s[1..i] then ' ' else s[i]
  {
    if s == [] then []
    else
      assert forall i :: 1 <= i < |s| ==> s[1..][..i - 1] == s[1..i];
      [UpperChar(s[0])] + ReplaceFirst(s[1..], '-', ' ')
  }
}
