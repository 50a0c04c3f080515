/**
 * The few JavaScript string operations the application relies on:
 * `trim`, `toLowerCase` (ASCII letters only), `startsWith` and `includes`.
 */
module Text {

  /**
   * The code points `String.prototype.trim` removes: the ECMAScript
   * WhiteSpace set (tab, vertical tab, form feed, the byte-order mark and
   * every space separator) and the LineTerminator set.
   */
  predicate IsSpace(c: char) {
    || c == '\t' || c == '\n' || c == '\U{000B}' || c == '\U{000C}' || c == '\r'
    || c == ' ' || c == '\U{00A0}' || c == '\U{1680}'
    || ('\U{2000}' <= c <= '\U{200A}')
    || c == '\U{2028}' || c == '\U{2029}' || c == '\U{202F}' || c == '\U{205F}'
    || c == '\U{3000}' || c == '\U{FEFF}'
  }

  predicate AllSpace(s: string) {
    forall i :: 0 <= i < |s| ==> IsSpace(s[i])
  }

  /** No white space at either end: what a trimmed string looks like. */
  predicate IsTrimmed(s: string) {
    |s| == 0 || (!IsSpace(s[0]) && !IsSpace(s[|s| - 1]))
  }

  /** `String.prototype.trimStart`. */
  function TrimStart(s: string): (r: string)
    ensures |r| <= |s|
    ensures |r| == 0 || !IsSpace(r[0])
  {
    if |s| > 0 && IsSpace(s[0]) then TrimStart(s[1..]) else s
  }

  /** `String.prototype.trimEnd`. */
  function TrimEnd(s: string): (r: string)
    ensures |r| <= |s|
    ensures |r| == 0 || !IsSpace(r[|r| - 1])
  {
    if |s| > 0 && IsSpace(s[|s| - 1]) then TrimEnd(s[..|s| - 1]) else s
  }

  /** `trimStart` drops a run of white space from the front and nothing else. */
  lemma {:induction false} TrimStartDropsSpace(s: string)
    ensures TrimStart(s) == s[|s| - |TrimStart(s)|..]
    ensures AllSpace(s[..|s| - |TrimStart(s)|])
  {
    if |s| > 0 && IsSpace(s[0]) {
      TrimStartDropsSpace(s[1..]);
      var k := |s| - |TrimStart(s)|;
      assert s[..k] == [s[0]] + s[1..][..k - 1];
    }
  }

  /** `trimEnd` drops a run of white space from the back and nothing else. */
  lemma {:induction false} TrimEndDropsSpace(s: string)
    ensures TrimEnd(s) == s[..|TrimEnd(s)|]
    ensures AllSpace(s[|TrimEnd(s)|..])
  {
    if |s| > 0 && IsSpace(s[|s| - 1]) {
      TrimEndDropsSpace(s[..|s| - 1]);
      var k := |TrimEnd(s)|;
      assert s[k..] == s[..|s| - 1][k..] + [s[|s| - 1]];
    }
  }

  /** `String.prototype.trim`: drops leading and trailing white space. */
  function Trim(s: string): (r: string)
    ensures IsTrimmed(r)
  {
    TrimEndDropsSpace(TrimStart(s));
    TrimEnd(TrimStart(s))
  }

  /** Trimming keeps a middle slice of the input and drops only white space around it. */
  lemma TrimIsInfix(s: string)
    ensures exists i, j :: 0 <= i <= j <= |s| && Trim(s) == s[i..j] && AllSpace(s[..i]) && AllSpace(s[j..])
  {
    var t := TrimStart(s);
    var r := TrimEnd(t);
    TrimStartDropsSpace(s);
    TrimEndDropsSpace(t);
    assert r == s[|s| - |t|..|s| - |t| + |r|];
    assert s[|s| - |t| + |r|..] == t[|r|..];
  }

  /** A trimmed string is empty exactly when the input was all white space. */
  lemma {:induction false} TrimEmptyIff(s: string)
    ensures Trim(s) == [] <==> AllSpace(s)
  {
    var t := TrimStart(s);
    if AllSpace(s) {
      AllSpaceTrimStart(s);
    } else {
      TrimStartDropsSpace(s);
      var k :| 0 <= k < |s| && !IsSpace(s[k]);
      assert |s| - |t| <= k by {
        assert AllSpace(s[..|s| - |t|]);
      }
      assert t[k - (|s| - |t|)] == s[k];
      TrimEndKeepsNonSpace(t, k - (|s| - |t|));
    }
  }

  lemma {:induction false} AllSpaceTrimStart(s: string)
    requires AllSpace(s)
    ensures TrimStart(s) == [] && TrimEnd(TrimStart(s)) == []
  {
    if |s| > 0 {
      assert AllSpace(s[1..]) by {
        forall i | 0 <= i < |s| - 1 ensures IsSpace(s[1..][i]) { assert s[1..][i] == s[i + 1]; }
      }
      AllSpaceTrimStart(s[1..]);
    }
  }

  lemma {:induction false} TrimEndKeepsNonSpace(t: string, k: nat)
    requires k < |t| && !IsSpace(t[k])
    ensures k < |TrimEnd(t)|
  {
    if |t| > 0 && IsSpace(t[|t| - 1]) {
      TrimEndKeepsNonSpace(t[..|t| - 1], k);
    }
  }

  /** Trimming twice is trimming once. */
  lemma TrimIdempotent(s: string)
    ensures Trim(Trim(s)) == Trim(s)
  {
    TrimOfTrimmed(Trim(s));
  }

  /** A string with no white space at either end is left as it is. */
  lemma TrimOfTrimmed(s: string)
    requires IsTrimmed(s)
    ensures Trim(s) == s
  {
    assert TrimStart(s) == s;
    assert TrimEnd(s) == s;
  }

  /** Lowercases ASCII `A`-`Z` and leaves every other character alone. */
  function LowerChar(c: char): (d: char)
    ensures 'A' <= c <= 'Z' ==> d as int == c as int + 32
    ensures !('A' <= c <= 'Z') ==> d == c
  {
    if 'A' <= c <= 'Z' then (c as int + 32) as char else c
  }

  /** `String.prototype.toLowerCase`, restricted to ASCII letters. */
  function Lower(s: string): (r: string)
    ensures |r| == |s|
    ensures forall i :: 0 <= i < |s| ==> r[i] == LowerChar(s[i])
  {
    seq(|s|, i requires 0 <= i < |s| => LowerChar(s[i]))
  }

  predicate IsLower(s: string) {
    forall i :: 0 <= i < |s| ==> !('A' <= s[i] <= 'Z')
  }

  lemma LowerIsLower(s: string)
    ensures IsLower(Lower(s))
    ensures IsLower(s) ==> Lower(s) == s
  {
  }

  /** Lowercasing keeps white space white space, so it commutes with trimming. */
  lemma {:induction false} TrimStartLower(s: string)
    ensures TrimStart(Lower(s)) == Lower(TrimStart(s))
  {
    if |s| > 0 {
      assert Lower(s)[1..] == Lower(s[1..]);
      assert IsSpace(Lower(s)[0]) == IsSpace(s[0]);
      TrimStartLower(s[1..]);
    }
  }

  lemma {:induction false} TrimEndLower(s: string)
    ensures TrimEnd(Lower(s)) == Lower(TrimEnd(s))
  {
    if |s| > 0 {
      assert Lower(s)[..|s| - 1] == Lower(s[..|s| - 1]);
      assert IsSpace(Lower(s)[|s| - 1]) == IsSpace(s[|s| - 1]);
      TrimEndLower(s[..|s| - 1]);
    }
  }

  /** Applying Mongoose's `trim` and `lowercase` setters in either order gives the same string. */
  lemma TrimLowerCommute(s: string)
    ensures Trim(Lower(s)) == Lower(Trim(s))
  {
    TrimStartLower(s);
    TrimEndLower(TrimStart(s));
  }

  /** `String.prototype.startsWith`. */
  predicate StartsWith(s: string, prefix: string) {
    |prefix| <= |s| && s[..|prefix|] == prefix
  }

  /** `needle` occurs in `s` starting at position `i`. */
  predicate OccursAt(s: string, needle: string, i: int) {
    0 <= i <= |s| - |needle| && s[i..i + |needle|] == needle
  }

  /** `String.prototype.includes`, scanning each start position in turn. */
  function Includes(s: string, needle: string): (r: bool)
    ensures r <==> exists i :: OccursAt(s, needle, i)
  {
    if StartsWith(s, needle) then
      assert OccursAt(s, needle, 0);
      true
    else if |s| == 0 then
      false
    else
      var r := Includes(s[1..], needle);
      assert r ==> exists i :: OccursAt(s, needle, i) by {
        if r {
          var j :| OccursAt(s[1..], needle, j);
          assert s[j + 1..j + 1 + |needle|] == s[1..][j..j + |needle|];
          assert OccursAt(s, needle, j + 1);
        }
      }
      assert (exists i :: OccursAt(s, needle, i)) ==> r by {
        if exists i :: OccursAt(s, needle, i) {
          var i :| OccursAt(s, needle, i);
          assert i != 0;
          assert s[1..][i - 1..i - 1 + |needle|] == s[i..i + |needle|];
          assert OccursAt(s[1..], needle, i - 1);
        }
      }
      r
  }
}
